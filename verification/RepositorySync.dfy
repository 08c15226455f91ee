/**
 `repository sync-to`: a plan made from the two listings, then N workers that
 take work from a copy channel and a delete channel, each fed by a goroutine
 that stops early when the errgroup's context is done.
 */
module RepositorySync {
  import opened Wrappers
  import opened Runs

  datatype Blob = Blob(data: string, timestamp: int)

  datatype Metadata = Metadata(id: string, timestamp: int)

  type Storage = map<string, Blob>

  // ---------------------------------------------------------------- planning

  ghost predicate Distinct(mds: seq<Metadata>) {
    forall i, j :: 0 <= i < j < |mds| ==> mds[i].id != mds[j].id
  }

  /** A listing names every blob of the storage once, with its timestamp. */
  ghost predicate Lists(listing: seq<Metadata>, st: Storage) {
    && Distinct(listing)
    && (forall md :: md in listing ==> md.id in st && st[md.id].timestamp == md.timestamp)
    && (forall id :: id in st ==> Metadata(id, st[id].timestamp) in listing)
  }

  /** The blob must be copied: missing at the destination, or newer and updates are on. */
  predicate Stale(md: Metadata, dst: Storage, update: bool) {
    md.id !in dst || (update && md.timestamp > dst[md.id].timestamp)
  }

  method ListDestinationBlobs(listing: seq<Metadata>, ghost dst: Storage) returns (dstMetadata: map<string, Metadata>)
    requires Lists(listing, dst)
    ensures dstMetadata.Keys == dst.Keys
    ensures forall id :: id in dst ==> dstMetadata[id] == Metadata(id, dst[id].timestamp)
  {
    dstMetadata := map[];
    for i := 0 to |listing|
      invariant forall id :: id in dstMetadata <==> exists k :: 0 <= k < i && listing[k].id == id
      invariant forall id :: id in dstMetadata ==> id in dst && dstMetadata[id] == Metadata(id, dst[id].timestamp)
    {
      assert listing[i] in listing;
      dstMetadata := dstMetadata[listing[i].id := listing[i]];
    }
    forall id | id in dst ensures id in dstMetadata {
      assert Metadata(id, dst[id].timestamp) in listing;
    }
  }

  /** The copy list is the stale source blobs; the delete list is the destination blobs the source does not have. */
  ghost predicate IsPlan(toCopy: seq<Metadata>, toDelete: seq<Metadata>, src: Storage, dst: Storage, update: bool,
                         delete: bool) {
    && Distinct(toCopy) && Distinct(toDelete)
    && (forall md :: md in toCopy <==>
          && md.id in src && md.timestamp == src[md.id].timestamp
          && (md.id !in dst || (update && md.timestamp > dst[md.id].timestamp)))
    && (forall md :: md in toDelete <==>
          delete && md.id in dst && md.timestamp == dst[md.id].timestamp && md.id !in src)
  }

  lemma EarlierNamesDiffer(listing: seq<Metadata>, i: nat)
    requires Distinct(listing) && i < |listing|
    ensures forall md :: md in listing[..i] ==> md.id != listing[i].id
  {
    forall md | md in listing[..i]
      ensures md.id != listing[i].id
    {
      var k :| 0 <= k < i && listing[k] == md;
    }
  }

  /** The callback of the source listing, over the whole listing. */
  method ScanSource(srcListing: seq<Metadata>, allMetadata: map<string, Metadata>, update: bool, ghost dst: Storage)
    returns (toCopy: seq<Metadata>, dstMetadata: map<string, Metadata>)
    requires Distinct(srcListing)
    requires allMetadata.Keys == dst.Keys
    requires forall id :: id in dst ==> allMetadata[id] == Metadata(id, dst[id].timestamp)
    ensures Distinct(toCopy)
    ensures forall md :: md in toCopy <==>
                           md in srcListing && (md.id !in dst || (update && md.timestamp > dst[md.id].timestamp))
    ensures forall id :: id in dstMetadata <==> id in dst && forall md :: md in srcListing ==> md.id != id
    ensures forall id :: id in dstMetadata ==> dstMetadata[id] == allMetadata[id]
  {
    toCopy, dstMetadata := [], allMetadata;
    for i := 0 to |srcListing|
      invariant Distinct(toCopy)
      invariant forall md :: md in toCopy <==> md in srcListing[..i] && Stale(md, dst, update)
      invariant forall id :: id in dstMetadata <==> id in dst && forall md :: md in srcListing[..i] ==> md.id != id
      invariant forall id :: id in dstMetadata ==> dstMetadata[id] == allMetadata[id]
    {
      var srcmd := srcListing[i];
      assert srcListing[..i + 1] == srcListing[..i] + [srcmd];
      EarlierNamesDiffer(srcListing, i);
      assert srcmd.id in dst ==> srcmd.id in dstMetadata;
      assert forall k :: 0 <= k < |toCopy| ==> toCopy[k] in toCopy;
      if srcmd.id !in dstMetadata || (srcmd.timestamp > dstMetadata[srcmd.id].timestamp && update) {
        toCopy := toCopy + [srcmd];
      }
      dstMetadata := dstMetadata - {srcmd.id};
    }
    assert srcListing[..|srcListing|] == srcListing;
  }

  /** Go's map iteration: the entries in some order. */
  method Entries(m: map<string, Metadata>) returns (mds: seq<Metadata>)
    requires forall id :: id in m ==> m[id].id == id
    ensures Distinct(mds)
    ensures forall md :: md in mds <==> md.id in m && md == m[md.id]
  {
    mds := [];
    var rest := m;
    while rest != map[]
      invariant rest.Keys <= m.Keys && forall id :: id in rest ==> rest[id] == m[id]
      invariant Distinct(mds)
      invariant forall md :: md in mds <==> md.id in m && md.id !in rest && md == m[md.id]
      decreases |rest|
    {
      var id :| id in rest;
      mds := mds + [rest[id]];
      rest := rest - {id};
    }
  }

  method MakePlan(srcListing: seq<Metadata>, dstListing: seq<Metadata>, update: bool, delete: bool,
                  ghost src: Storage, ghost dst: Storage)
    returns (toCopy: seq<Metadata>, toDelete: seq<Metadata>)
    requires Lists(srcListing, src) && Lists(dstListing, dst)
    ensures IsPlan(toCopy, toDelete, src, dst, update, delete)
  {
    var allMetadata := ListDestinationBlobs(dstListing, dst);
    var dstMetadata;
    toCopy, dstMetadata := ScanSource(srcListing, allMetadata, update, dst);
    toDelete := [];
    if delete {
      toDelete := Entries(dstMetadata);
    }
    forall id | id in dst ensures id in dstMetadata <==> id !in src {
      if id in src {
        assert Metadata(id, src[id].timestamp) in srcListing;
      }
    }
  }

  // ---------------------------------------------------------------- the workers

  /** What one run of runSyncBlobs works on. None of it changes during the run. */
  datatype Job = Job(
    src: Storage,
    before: Storage,
    toCopy: seq<Metadata>,
    toDelete: seq<Metadata>)

  datatype Worker =
    | WaitCopy
    | Reading(i: nat)
    | Writing(i: nat, data: string)
    | WaitDelete
    | Deleting(i: nat)
    | Ended(ok: bool)

  /** The feeders have handed out toCopy[..copyNext] and toDelete[..deleteNext]. */
  datatype State = State(
    job: Job,
    copyNext: nat,
    copyClosed: bool,
    deleteNext: nat,
    deleteClosed: bool,
    workers: seq<Worker>,
    dst: map<string, string>,
    failed: bool,
    parentDone: bool)

  datatype Step =
    | OfferCopy(w: nat)
    | CloseCopy
    | CopyChannelEnds(w: nat)
    | ReadBlob(w: nat)
    | ReadNotFound(w: nat)
    | ReadErr(w: nat)
    | PutBlob(w: nat)
    | PutErr(w: nat, wrote: bool)
    | OfferDelete(w: nat)
    | CloseDelete
    | DeleteChannelEnds(w: nat)
    | DeleteBlob(w: nat)
    | DeleteErr(w: nat, removed: bool)
    | ParentDone

  function Contents(st: Storage): map<string, string> { map id | id in st :: st[id].data }

  ghost predicate ValidJob(job: Job) {
    exists update: bool, delete: bool :: IsPlan(job.toCopy, job.toDelete, job.src, job.before, update, delete)
  }

  ghost predicate Init(s: State) {
    && ValidJob(s.job)
    && s.copyNext == s.deleteNext == 0 && !s.copyClosed && !s.deleteClosed && !s.failed && !s.parentDone
    && s.dst == Contents(s.job.before)
    && forall w :: 0 <= w < |s.workers| ==> s.workers[w].WaitCopy?
  }

  /** The errgroup's context is done: a worker has failed or the caller's context is done. */
  predicate CtxDone(s: State) { s.failed || s.parentDone }

  predicate Enabled(s: State, a: Step) {
    match a
    case OfferCopy(w) => w < |s.workers| && s.workers[w].WaitCopy? && !s.copyClosed && s.copyNext < |s.job.toCopy|
    case CloseCopy => !s.copyClosed && (s.copyNext == |s.job.toCopy| || CtxDone(s))
    case CopyChannelEnds(w) => w < |s.workers| && s.workers[w].WaitCopy? && s.copyClosed
    case ReadBlob(w) =>
      && w < |s.workers| && s.workers[w].Reading? && s.workers[w].i < |s.job.toCopy|
      && s.job.toCopy[s.workers[w].i].id in s.job.src
    case ReadNotFound(w) =>
      && w < |s.workers| && s.workers[w].Reading? && s.workers[w].i < |s.job.toCopy|
      && s.job.toCopy[s.workers[w].i].id !in s.job.src
    case ReadErr(w) => w < |s.workers| && s.workers[w].Reading?
    case PutBlob(w) => w < |s.workers| && s.workers[w].Writing? && s.workers[w].i < |s.job.toCopy|
    case PutErr(w, _) => w < |s.workers| && s.workers[w].Writing? && s.workers[w].i < |s.job.toCopy|
    case OfferDelete(w) =>
      w < |s.workers| && s.workers[w].WaitDelete? && !s.deleteClosed && s.deleteNext < |s.job.toDelete|
    case CloseDelete => !s.deleteClosed && (s.deleteNext == |s.job.toDelete| || CtxDone(s))
    case DeleteChannelEnds(w) => w < |s.workers| && s.workers[w].WaitDelete? && s.deleteClosed
    case DeleteBlob(w) => w < |s.workers| && s.workers[w].Deleting? && s.workers[w].i < |s.job.toDelete|
    case DeleteErr(w, _) => w < |s.workers| && s.workers[w].Deleting? && s.workers[w].i < |s.job.toDelete|
    case ParentDone => true
  }

  function Apply(s: State, a: Step): State
    requires Enabled(s, a)
  {
    match a
    case OfferCopy(w) => s.(workers := s.workers[w := Reading(s.copyNext)], copyNext := s.copyNext + 1)
    case CloseCopy => s.(copyClosed := true)
    case CopyChannelEnds(w) => s.(workers := s.workers[w := WaitDelete])
    case ReadBlob(w) =>
      var i := s.workers[w].i;
      s.(workers := s.workers[w := Writing(i, s.job.src[s.job.toCopy[i].id].data)])
    case ReadNotFound(w) => s.(workers := s.workers[w := WaitCopy])
    case ReadErr(w) => s.(workers := s.workers[w := Ended(false)], failed := true)
    case PutBlob(w) =>
      s.(dst := s.dst[s.job.toCopy[s.workers[w].i].id := s.workers[w].data], workers := s.workers[w := WaitCopy])
    case PutErr(w, wrote) =>
      s.(dst := if wrote then s.dst[s.job.toCopy[s.workers[w].i].id := s.workers[w].data] else s.dst,
         workers := s.workers[w := Ended(false)], failed := true)
    case OfferDelete(w) => s.(workers := s.workers[w := Deleting(s.deleteNext)], deleteNext := s.deleteNext + 1)
    case CloseDelete => s.(deleteClosed := true)
    case DeleteChannelEnds(w) => s.(workers := s.workers[w := Ended(true)])
    case DeleteBlob(w) => s.(dst := s.dst - {s.job.toDelete[s.workers[w].i].id}, workers := s.workers[w := WaitDelete])
    case DeleteErr(w, removed) =>
      s.(dst := if removed then s.dst - {s.job.toDelete[s.workers[w].i].id} else s.dst,
         workers := s.workers[w := Ended(false)], failed := true)
    case ParentDone => s.(parentDone := true)
  }

  ghost predicate Next(s: State, t: State) { exists a: Step :: Enabled(s, a) && t == Apply(s, a) }

  /** eg.Wait returned nil: every worker has returned without an error. */
  predicate Succeeded(s: State) { forall w :: 0 <= w < |s.workers| ==> s.workers[w] == Ended(true) }

  // ---------------------------------------------------------------- invariant

  ghost predicate CopyHeld(s: State, i: int) {
    exists w :: 0 <= w < |s.workers| && (s.workers[w].Reading? || s.workers[w].Writing?) && s.workers[w].i == i
  }

  ghost predicate DeleteHeld(s: State, i: int) {
    exists w :: 0 <= w < |s.workers| && s.workers[w].Deleting? && s.workers[w].i == i
  }

  predicate Copied(s: State, i: int)
    requires 0 <= i < |s.job.toCopy|
  {
    var id := s.job.toCopy[i].id;
    id in s.job.src && id in s.dst && s.dst[id] == s.job.src[id].data
  }

  predicate WorkerOk(s: State, w: Worker) {
    match w
    case WaitCopy => true
    case Reading(i) => i < s.copyNext
    case Writing(i, data) =>
      && i < s.copyNext <= |s.job.toCopy| && s.job.toCopy[i].id in s.job.src
      && data == s.job.src[s.job.toCopy[i].id].data
    case WaitDelete => s.copyClosed
    case Deleting(i) => i < s.deleteNext && s.copyClosed
    case Ended(ok) => if ok then s.copyClosed && s.deleteClosed else s.failed
  }

  ghost predicate InCopies(job: Job, id: string) { exists i :: 0 <= i < |job.toCopy| && job.toCopy[i].id == id }

  ghost predicate InDeletes(job: Job, id: string) { exists i :: 0 <= i < |job.toDelete| && job.toDelete[i].id == id }

  /** Copies come from the source, deletes are not in the source, and what was there before stays unless deleted. */
  ghost predicate JobOk(job: Job) {
    && Distinct(job.toCopy) && Distinct(job.toDelete)
    && (forall i :: 0 <= i < |job.toCopy| ==> job.toCopy[i].id in job.src)
    && (forall i :: 0 <= i < |job.toDelete| ==> job.toDelete[i].id !in job.src)
  }

  ghost predicate Untouched(s: State, id: string) {
    (id in s.dst <==> id in s.job.before) && (id in s.dst ==> s.dst[id] == s.job.before[id].data)
  }

  ghost predicate Bounds(s: State) {
    && JobOk(s.job)
    && s.copyNext <= |s.job.toCopy| && s.deleteNext <= |s.job.toDelete|
    && (forall w :: 0 <= w < |s.workers| ==> WorkerOk(s, s.workers[w]))
    && (s.copyClosed && !CtxDone(s) ==> s.copyNext == |s.job.toCopy|)
    && (s.deleteClosed && !CtxDone(s) ==> s.deleteNext == |s.job.toDelete|)
  }

  /** A failed worker stays where it is. */
  ghost predicate FailureShows(s: State) {
    s.failed ==> exists w :: 0 <= w < |s.workers| && s.workers[w] == Ended(false)
  }

  /** Unless a worker failed, everything handed out is in some worker's hands or done. */
  ghost predicate Progress(s: State)
    requires s.copyNext <= |s.job.toCopy| && s.deleteNext <= |s.job.toDelete|
  {
    && (!s.failed ==> forall i :: 0 <= i < s.copyNext ==> CopyHeld(s, i) || Copied(s, i))
    && (!s.failed ==> forall i :: 0 <= i < s.deleteNext ==> DeleteHeld(s, i) || s.job.toDelete[i].id !in s.dst)
  }

  /** Blobs outside the plan are as before, and no blob of the source is lost. */
  ghost predicate Frame(s: State) {
    && (forall id :: !InCopies(s.job, id) && !InDeletes(s.job, id) ==> Untouched(s, id))
    && (forall id :: id in s.job.src && id in s.job.before ==> id in s.dst)
  }

  ghost predicate Inv(s: State) { Bounds(s) && FailureShows(s) && Progress(s) && Frame(s) }

  lemma StepKeepsBounds(s: State, a: Step)
    requires Bounds(s) && Enabled(s, a)
    ensures Bounds(Apply(s, a)) && Apply(s, a).job == s.job
  {
    hide Distinct;
    var t := Apply(s, a);
    assert t.job == s.job;
    forall w | 0 <= w < |t.workers|
      ensures WorkerOk(t, t.workers[w])
    {
      assert WorkerOk(s, s.workers[w]);
    }
  }

  lemma StepKeepsFailure(s: State, a: Step)
    requires FailureShows(s) && Enabled(s, a)
    ensures FailureShows(Apply(s, a))
  {
    if s.failed {
      var w :| 0 <= w < |s.workers| && s.workers[w] == Ended(false);
      assert Apply(s, a).workers[w] == Ended(false);
    } else if Apply(s, a).failed {
      assert Apply(s, a).workers[a.w] == Ended(false);
    }
  }

  lemma StepKeepsFrame(s: State, a: Step)
    requires Bounds(s) && Frame(s) && Enabled(s, a)
    ensures Frame(Apply(s, a))
  {
  }

  lemma StepKeepsCopies(s: State, a: Step, i: int)
    requires Bounds(s) && Progress(s) && Enabled(s, a) && !Apply(s, a).failed
    requires 0 <= i < Apply(s, a).copyNext <= |s.job.toCopy|
    ensures Apply(s, a).job == s.job && (CopyHeld(Apply(s, a), i) || Copied(Apply(s, a), i))
  {
    var t := Apply(s, a);
    if i == s.copyNext {
      assert t.workers[a.w] == Reading(i);
    } else if CopyHeld(s, i) {
      var w :| 0 <= w < |s.workers| && (s.workers[w].Reading? || s.workers[w].Writing?) && s.workers[w].i == i;
      if t.workers[w].Reading? || t.workers[w].Writing? {
        assert t.workers[w].i == i;
      }
    }
  }

  lemma StepKeepsDeletes(s: State, a: Step, i: int)
    requires Bounds(s) && Progress(s) && Enabled(s, a) && !Apply(s, a).failed
    requires 0 <= i < Apply(s, a).deleteNext <= |s.job.toDelete|
    ensures Apply(s, a).job == s.job && (DeleteHeld(Apply(s, a), i) || s.job.toDelete[i].id !in Apply(s, a).dst)
  {
    var t := Apply(s, a);
    if i == s.deleteNext {
      assert t.workers[a.w] == Deleting(i);
    } else if DeleteHeld(s, i) {
      var w :| 0 <= w < |s.workers| && s.workers[w].Deleting? && s.workers[w].i == i;
      if t.workers[w].Deleting? {
        assert t.workers[w].i == i;
      }
    }
  }

  lemma StepKeepsInv(s: State, a: Step)
    requires Inv(s) && Enabled(s, a)
    ensures Inv(Apply(s, a))
  {
    StepKeepsBounds(s, a);
    StepKeepsFailure(s, a);
    StepKeepsFrame(s, a);
    var t := Apply(s, a);
    if !t.failed {
      forall i | 0 <= i < t.copyNext ensures CopyHeld(t, i) || Copied(t, i) {
        StepKeepsCopies(s, a, i);
      }
      forall i | 0 <= i < t.deleteNext ensures DeleteHeld(t, i) || t.job.toDelete[i].id !in t.dst {
        StepKeepsDeletes(s, a, i);
      }
    }
  }

  lemma StartKeepsInv(s: State)
    requires Init(s)
    ensures Inv(s)
  {
    assert forall i :: 0 <= i < |s.job.toCopy| ==> s.job.toCopy[i] in s.job.toCopy;
    assert forall i :: 0 <= i < |s.job.toDelete| ==> s.job.toDelete[i] in s.job.toDelete;
  }

  lemma EveryRunKeepsInv(run: seq<State>)
    requires IsRun(Init, Next, run)
    ensures forall s :: s in run ==> Inv(s)
  {
    forall s | Init(s) ensures Inv(s) {
      StartKeepsInv(s);
    }
    forall s, t | Inv(s) && Next(s, t) ensures Inv(t) {
      var a :| Enabled(s, a) && t == Apply(s, a);
      StepKeepsInv(s, a);
    }
    InvariantHolds(Init, Next, Inv, run);
  }

  lemma StepKeepsJob(s: State, a: Step)
    requires Enabled(s, a)
    ensures Apply(s, a).job == s.job && |Apply(s, a).workers| == |s.workers|
  {
  }

  lemma NextKeepsJob(s: State, t: State)
    requires Next(s, t)
    ensures t.job == s.job && |t.workers| == |s.workers|
  {
    hide Enabled, Apply;
    var a :| Enabled(s, a) && t == Apply(s, a);
    StepKeepsJob(s, a);
  }

  lemma {:induction false} JobIsFixed(run: seq<State>, i: nat)
    requires IsRun(Init, Next, run) && i < |run|
    ensures run[i].job == run[0].job && |run[i].workers| == |run[0].workers|
  {
    hide Next, Init;
    if i > 0 {
      JobIsFixed(run, i - 1);
      NextKeepsJob(run[i - 1], run[i]);
    }
  }

  // ---------------------------------------------------------------- theorems

  /** The destination a sync must end with, in terms of the two storages and the flags alone. */
  function Wanted(src: Storage, before: Storage, update: bool, delete: bool): map<string, string> {
    map id | id in src.Keys + before.Keys && (id in src || !delete) ::
      if id in src && Stale(Metadata(id, src[id].timestamp), before, update) then src[id].data else before[id].data
  }

  ghost predicate HoldsWanted(s: State, id: string, update: bool, delete: bool) {
    var wanted := Wanted(s.job.src, s.job.before, update, delete);
    (id in s.dst <==> id in wanted) && (id in s.dst ==> s.dst[id] == wanted[id])
  }

  lemma DoneBlobIsWanted(s: State, id: string, update: bool, delete: bool)
    requires IsPlan(s.job.toCopy, s.job.toDelete, s.job.src, s.job.before, update, delete)
    requires Frame(s)
    requires forall i :: 0 <= i < |s.job.toCopy| ==> Copied(s, i)
    requires forall i :: 0 <= i < |s.job.toDelete| ==> s.job.toDelete[i].id !in s.dst
    ensures HoldsWanted(s, id, update, delete)
  {
    var job := s.job;
    assert InCopies(job, id) <==> id in job.src && Stale(Metadata(id, job.src[id].timestamp), job.before, update) by {
      assert forall i :: 0 <= i < |job.toCopy| ==> job.toCopy[i] in job.toCopy;
      if id in job.src && Stale(Metadata(id, job.src[id].timestamp), job.before, update) {
        assert Metadata(id, job.src[id].timestamp) in job.toCopy;
      }
    }
    assert InDeletes(job, id) <==> delete && id in job.before && id !in job.src by {
      assert forall i :: 0 <= i < |job.toDelete| ==> job.toDelete[i] in job.toDelete;
      if delete && id in job.before && id !in job.src {
        assert Metadata(id, job.before[id].timestamp) in job.toDelete;
      }
    }
    if InCopies(job, id) {
      var i :| 0 <= i < |job.toCopy| && job.toCopy[i].id == id;
      assert Copied(s, i);
    } else if InDeletes(job, id) {
      var i :| 0 <= i < |job.toDelete| && job.toDelete[i].id == id;
    } else {
      assert Untouched(s, id);
    }
  }

  /**
   With at least one worker, a sync that succeeds without its caller's context being done ends in the one
   wanted destination, whatever the interleaving.
   */
  lemma SuccessfulSyncIsDetermined(run: seq<State>, s: State, update: bool, delete: bool)
    requires IsRun(Init, Next, run) && s in run && |run[0].workers| >= 1
    requires var job := run[0].job; IsPlan(job.toCopy, job.toDelete, job.src, job.before, update, delete)
    requires Succeeded(s) && !s.parentDone
    ensures s.dst == Wanted(run[0].job.src, run[0].job.before, update, delete)
  {
    var k :| 0 <= k < |run| && run[k] == s;
    JobIsFixed(run, k);
    EveryRunKeepsInv(run);
    assert WorkerOk(s, s.workers[0]);
    assert forall i :: 0 <= i < |s.job.toCopy| ==> Copied(s, i);
    assert forall i :: 0 <= i < |s.job.toDelete| ==> s.job.toDelete[i].id !in s.dst;
    var wanted := Wanted(s.job.src, s.job.before, update, delete);
    forall id ensures (id in s.dst <==> id in wanted) && (id in s.dst ==> s.dst[id] == wanted[id]) {
      DoneBlobIsWanted(s, id, update, delete);
    }
  }

  /**
   What that destination is, blob by blob: a blob of the source is there, with the source's data if it was missing
   or updates are on and the source's is the newer one, and otherwise with the data it had. Any other blob is
   gone if deleting is on, and as it was if not.
   */
  lemma SyncedBlob(run: seq<State>, s: State, update: bool, delete: bool, id: string)
    requires IsRun(Init, Next, run) && s in run && |run[0].workers| >= 1
    requires var job := run[0].job; IsPlan(job.toCopy, job.toDelete, job.src, job.before, update, delete)
    requires Succeeded(s) && !s.parentDone
    ensures var src, before := run[0].job.src, run[0].job.before;
      && (id in src && id !in before ==> id in s.dst && s.dst[id] == src[id].data)
      && (id in src && id in before && update && src[id].timestamp > before[id].timestamp ==>
            id in s.dst && s.dst[id] == src[id].data)
      && (id in src && id in before && !(update && src[id].timestamp > before[id].timestamp) ==>
            id in s.dst && s.dst[id] == before[id].data)
      && (id !in src && id in before && !delete ==> id in s.dst && s.dst[id] == before[id].data)
      && (id !in src && (delete || id !in before) ==> id !in s.dst)
  {
    hide IsRun, Succeeded, IsPlan;
    SuccessfulSyncIsDetermined(run, s, update, delete);
  }

  lemma StepKeepsSourceBlob(s: State, a: Step, id: string)
    requires Bounds(s) && Enabled(s, a) && id in s.job.src && id in s.dst
    ensures Apply(s, a).job == s.job && id in Apply(s, a).dst
  {
  }

  /** No run, successful or not, takes a blob the source lists away from the destination. */
  lemma {:induction false} SourceBlobsAreNeverDeleted(run: seq<State>, i: nat, j: nat, id: string)
    requires IsRun(Init, Next, run) && i <= j < |run|
    requires id in run[i].job.src && id in run[i].dst
    ensures id in run[j].dst
    decreases j - i
  {
    if i < j {
      EveryRunKeepsInv(run);
      assert run[i] in run && Next(run[i], run[i + 1]);
      var a :| Enabled(run[i], a) && run[i + 1] == Apply(run[i], a);
      hide Apply, Enabled, Progress, Frame, Init;
      StepKeepsSourceBlob(run[i], a, id);
      SourceBlobsAreNeverDeleted(run, i + 1, j, id);
    }
  }

  /** With parallelism 0 no worker starts: eg.Wait returns nil at once and nothing is ever copied or deleted. */
  lemma {:induction false} NoWorkersNoWork(run: seq<State>, i: nat)
    requires IsRun(Init, Next, run) && i < |run| && |run[0].workers| == 0
    ensures |run[i].workers| == 0 && Succeeded(run[i]) && run[i].dst == Contents(run[0].job.before)
  {
    if i > 0 {
      NoWorkersNoWork(run, i - 1);
      var a :| Enabled(run[i - 1], a) && run[i] == Apply(run[i - 1], a);
    }
  }

  /** What no worker has been given is as it was before. */
  ghost predicate RestUntouched(s: State) {
    && (forall i :: s.copyNext <= i < |s.job.toCopy| ==> Untouched(s, s.job.toCopy[i].id))
    && (forall i :: s.deleteNext <= i < |s.job.toDelete| ==> Untouched(s, s.job.toDelete[i].id))
  }

  lemma StepKeepsRest(s: State, a: Step)
    requires Bounds(s) && Enabled(s, a) && RestUntouched(s)
    ensures RestUntouched(Apply(s, a))
  {
    var t := Apply(s, a);
    forall i | t.copyNext <= i < |t.job.toCopy|
      ensures Untouched(t, t.job.toCopy[i].id)
    {
      assert Untouched(s, s.job.toCopy[i].id);
    }
    forall i | t.deleteNext <= i < |t.job.toDelete|
      ensures Untouched(t, t.job.toDelete[i].id)
    {
      assert Untouched(s, s.job.toDelete[i].id);
    }
  }

  ghost predicate InvAndRest(s: State) { Inv(s) && RestUntouched(s) }

  lemma NextKeepsRest(s: State, t: State)
    requires InvAndRest(s) && Next(s, t)
    ensures InvAndRest(t)
  {
    hide Apply, Enabled, Bounds, Progress, FailureShows, Frame, RestUntouched;
    var a :| Enabled(s, a) && t == Apply(s, a);
    StepKeepsRest(s, a);
    StepKeepsInv(s, a);
  }

  lemma StartIsUntouched(s: State)
    requires Init(s)
    ensures InvAndRest(s)
  {
    StartKeepsInv(s);
    hide ValidJob, Inv;
  }

  lemma RestIsUntouched(run: seq<State>, s: State)
    requires IsRun(Init, Next, run) && s in run
    ensures Inv(s) && RestUntouched(s)
  {
    forall s | Init(s)
      ensures InvAndRest(s)
    {
      StartIsUntouched(s);
    }
    forall s, t | InvAndRest(s) && Next(s, t)
      ensures InvAndRest(t)
    {
      NextKeepsRest(s, t);
    }
    hide Init, Next;
    InvariantHolds(Init, Next, InvAndRest, run);
    assert InvAndRest(s);
  }

  predicate SameBefore(job: Job, id: string) {
    id in job.src && id in job.before && job.before[id].data == job.src[id].data
  }

  /** What the feeders had not handed out when they stopped needed no work. */
  ghost predicate RestNeedsNothing(s: State) {
    && s.deleteNext >= |s.job.toDelete|
    && (forall i :: s.copyNext <= i < |s.job.toCopy| ==> SameBefore(s.job, s.job.toCopy[i].id))
  }

  ghost predicate HandedOutDone(s: State) {
    && (forall i :: 0 <= i < s.copyNext && i < |s.job.toCopy| ==> Copied(s, i))
    && (forall i :: 0 <= i < s.deleteNext && i < |s.job.toDelete| ==> s.job.toDelete[i].id !in s.dst)
  }

  lemma HandedOutIsDone(s: State)
    requires Inv(s) && Succeeded(s) && |s.workers| >= 1
    ensures HandedOutDone(s)
  {
  }

  lemma RestIsWanted(s: State, update: bool, delete: bool)
    requires IsPlan(s.job.toCopy, s.job.toDelete, s.job.src, s.job.before, update, delete)
    requires Frame(s) && HandedOutDone(s) && RestUntouched(s) && RestNeedsNothing(s)
    ensures s.dst == Wanted(s.job.src, s.job.before, update, delete)
  {
    forall i | 0 <= i < |s.job.toCopy|
      ensures Copied(s, i)
    {
      if i >= s.copyNext {
        assert Untouched(s, s.job.toCopy[i].id) && SameBefore(s.job, s.job.toCopy[i].id);
      }
    }
    var wanted := Wanted(s.job.src, s.job.before, update, delete);
    forall id
      ensures (id in s.dst <==> id in wanted) && (id in s.dst ==> s.dst[id] == wanted[id])
    {
      DoneBlobIsWanted(s, id, update, delete);
    }
  }

  lemma RestIsMissed(s: State, update: bool, delete: bool)
    requires IsPlan(s.job.toCopy, s.job.toDelete, s.job.src, s.job.before, update, delete)
    requires RestUntouched(s) && !RestNeedsNothing(s)
    ensures s.dst != Wanted(s.job.src, s.job.before, update, delete)
  {
    if s.deleteNext < |s.job.toDelete| {
      var md := s.job.toDelete[s.deleteNext];
      assert Untouched(s, md.id) && md in s.job.toDelete;
    } else {
      var i :| s.copyNext <= i < |s.job.toCopy| && !SameBefore(s.job, s.job.toCopy[i].id);
      assert s.job.toCopy[i] in s.job.toCopy && Untouched(s, s.job.toCopy[i].id);
    }
  }

  /**
   Exactly when a sync that reports success reached the wanted destination, also if its caller's context was done:
   every extra blob was handed out for deletion, and every copy not handed out had the source's contents already.
   */
  lemma SuccessIsCompleteExactly(run: seq<State>, s: State, update: bool, delete: bool)
    requires IsRun(Init, Next, run) && s in run && |run[0].workers| >= 1 && Succeeded(s)
    requires var job := run[0].job; IsPlan(job.toCopy, job.toDelete, job.src, job.before, update, delete)
    ensures s.dst == Wanted(run[0].job.src, run[0].job.before, update, delete) <==> RestNeedsNothing(s)
  {
    var k :| 0 <= k < |run| && run[k] == s;
    JobIsFixed(run, k);
    RestIsUntouched(run, s);
    hide Next, Init;
    HandedOutIsDone(s);
    if RestNeedsNothing(s) {
      RestIsWanted(s, update, delete);
    } else {
      RestIsMissed(s, update, delete);
    }
  }

  lemma Then(s: State, a: Step) returns (t: State)
    requires Enabled(s, a)
    ensures t == Apply(s, a) && Next(s, t)
  {
    t := Apply(s, a);
  }

  /**
   The caller's context matters: when it is done while every worker waits for work, the feeders close their
   channels, the workers return nil, and the sync reports success with the whole plan undone.
   */
  lemma CancelledSyncReportsSuccess(job: Job) returns (run: seq<State>)
    requires ValidJob(job)
    ensures IsRun(Init, Next, run) && run[0].job == job && |run[0].workers| == 1
    ensures var s := run[|run| - 1]; Succeeded(s) && s.parentDone && s.dst == Contents(job.before)
  {
    var s0 := State(job, 0, false, 0, false, [WaitCopy], Contents(job.before), false, false);
    var s1 := Then(s0, ParentDone);
    var s2 := Then(s1, CloseCopy);
    var s3 := Then(s2, CopyChannelEnds(0));
    var s4 := Then(s3, CloseDelete);
    var s5 := Then(s4, DeleteChannelEnds(0));
    run := [s0, s1, s2, s3, s4, s5];
  }

  // ---------------------------------------------------------------- progress

  /** The steps a worker has left if it is given no more work. */
  function Left(w: Worker): nat {
    match w
    case WaitCopy => 2
    case Reading(_) => 4
    case Writing(_, _) => 3
    case WaitDelete => 1
    case Deleting(_) => 2
    case Ended(_) => 0
  }

  function AllLeft(workers: seq<Worker>): nat {
    if workers == [] then 0 else AllLeft(workers[..|workers| - 1]) + Left(workers[|workers| - 1])
  }

  lemma {:induction false} AllLeftAfter(workers: seq<Worker>, w: nat, v: Worker)
    requires w < |workers|
    ensures AllLeft(workers[w := v]) == AllLeft(workers) - Left(workers[w]) + Left(v)
  {
    var n := |workers| - 1;
    if w == n {
      assert workers[w := v][..n] == workers[..n];
    } else {
      AllLeftAfter(workers[..n], w, v);
      assert workers[w := v][..n] == workers[..n][w := v];
    }
  }

  function Remaining(s: State): int {
    4 * (|s.job.toCopy| - s.copyNext) + 4 * (|s.job.toDelete| - s.deleteNext)
    + (if s.copyClosed then 0 else 1) + (if s.deleteClosed then 0 else 1) + AllLeft(s.workers)
  }

  /** The next step of a worker that has not ended, or of the feeder it waits for, if nothing fails. */
  function NextFor(s: State, w: nat): Step
    requires w < |s.workers|
  {
    match s.workers[w]
    case WaitCopy =>
      if s.copyClosed then CopyChannelEnds(w) else if s.copyNext < |s.job.toCopy| then OfferCopy(w) else CloseCopy
    case Reading(_) => ReadBlob(w)
    case Writing(_, _) => PutBlob(w)
    case WaitDelete =>
      if s.deleteClosed then DeleteChannelEnds(w)
      else if s.deleteNext < |s.job.toDelete| then OfferDelete(w)
      else CloseDelete
    case Deleting(_) => DeleteBlob(w)
    case Ended(_) => ParentDone
  }

  lemma NextForProgresses(s: State, w: nat)
    requires Bounds(s) && !CtxDone(s) && w < |s.workers| && !s.workers[w].Ended?
    ensures Enabled(s, NextFor(s, w))
    ensures var t := Apply(s, NextFor(s, w)); !CtxDone(t) && Remaining(t) < Remaining(s)
  {
    var t := Apply(s, NextFor(s, w));
    AllLeftAfter(s.workers, w, t.workers[w]);
  }

  lemma RemainingIsNat(s: State)
    requires Bounds(s)
    ensures Remaining(s) >= 0
  {
  }

  lemma RunKeepsBounds(run: seq<State>)
    requires IsRun(Init, Next, run)
    ensures Bounds(run[|run| - 1])
  {
    EveryRunKeepsInv(run);
    assert run[|run| - 1] in run;
  }

  /** Success is possible: from every reachable state in which nothing has failed the sync can still succeed. */
  lemma {:induction false} SyncCanSucceed(run: seq<State>) returns (longer: seq<State>)
    requires IsRun(Init, Next, run) && !CtxDone(Last(run))
    ensures IsRun(Init, Next, longer) && run <= longer && Succeeded(Last(longer)) && !CtxDone(Last(longer))
    decreases Remaining(Last(run))
  {
    RunKeepsBounds(run);
    var s := Last(run);
    longer := run;
    if !Succeeded(s) {
      var w :| 0 <= w < |s.workers| && s.workers[w] != Ended(true);
      assert WorkerOk(s, s.workers[w]);
      NextForProgresses(s, w);
      hide Init, Enabled, Apply, Remaining, Bounds, NextFor;
      var t := Then(s, NextFor(s, w));
      hide Next;
      Extend(Init, Next, run, t);
      RunKeepsBounds(run + [t]);
      RemainingIsNat(s);
      longer := SyncCanSucceed(run + [t]);
    }
  }
}

/**
 The write path of the gRPC repository client: contents are written
 asynchronously in an errgroup, Flush waits for the group, looks at its error,
 runs the before-flush callbacks and only then puts its request on the stream.

 Reads are served from a content cache that other sessions and processes share.
 A write puts its content there as soon as it is launched. Writers, readers, the
 server's answers, flushes and the other sessions interleave freely.
 */
module ContentWrites {
  import opened Wrappers
  import opened Runs
  import opened RecentlyRead

  /** Where a call of WriteContent stands. */
  datatype WriterPc = Hashed | Uploading | Launched | Returned | Failed

  datatype Writer = Writer(id: ContentId, large: bool, pc: WriterPc)

  /** Where a call of Flush stands. `covered` is what had been returned when the group was empty. */
  datatype Flush =
    | Waiting
    | Waited(covered: set<ContentId>, since: set<ContentId>)
    | Callbacks(covered: set<ContentId>, since: set<ContentId>)
    | Sent(covered: set<ContentId>, since: set<ContentId>)
    | FlushFailed

  datatype State = State(
    adds: seq<ContentId>,             // reads that went into the recent ring
    fetched: set<ContentId>,          // contents this client read from the server
    hits: set<ContentId>,             // contents this client read from the cache
    cache: set<ContentId>,            // contents that are or were in the cache
    foreign: set<ContentId>,          // those that another session put there
    present: set<ContentId>,          // contents ContentInfo reported as present
    acked: set<ContentId>,            // contents the server acknowledged under the ID the client expected
    launched: set<ContentId>,         // contents whose write was put on the stream
    returned: set<ContentId>,         // IDs returned by WriteContent
    writers: map<nat, Writer>,
    running: set<nat>,                // writers whose group function is still running
    groupErr: bool,                   // the errgroup has recorded an error
    flushes: map<nat, Flush>)

  datatype Step =
    | ReadFromServer(id: ContentId, prefixed: bool)
    | ReadFromCache(id: ContentId, prefixed: bool)
    | OtherSessionCaches(id: ContentId)
    | StartWrite(w: nat, id: ContentId, large: bool)
    | SkipRecent(w: nat)
    | ContentInfoFound(w: nat)
    | ContentInfoFailed(w: nat)
    | SmallContent(w: nat)
    | NoSession(w: nat)
    | Launch(w: nat)
    | ReturnId(w: nat, prefixed: bool)
    | Ack(w: nat, got: ContentId)
    | WriteErr(w: nat)
    | StartFlush(f: nat)
    | GroupEmpty(f: nat)
    | CheckGroupErr(f: nat)
    | BeforeFlushErr(f: nat)
    | PutFlush(f: nat)

  ghost predicate Init(s: State) {
    && s == State([], {}, {}, s.cache, s.foreign, {}, {}, {}, {}, map[], {}, false, map[])
    && s.cache == s.foreign
  }

  predicate At(s: State, w: nat, pc: WriterPc) { w in s.writers && s.writers[w].pc == pc }

  predicate Enabled(s: State, a: Step) {
    match a
    case ReadFromServer(_, _) => true
    case ReadFromCache(id, _) => id in s.cache
    case OtherSessionCaches(_) => true
    case StartWrite(w, _, _) => w !in s.writers
    case SkipRecent(w) => At(s, w, Hashed) && s.writers[w].id in Recent(s.adds)
    case ContentInfoFound(w) => At(s, w, Hashed) && s.writers[w].id !in Recent(s.adds) && s.writers[w].large
    case ContentInfoFailed(w) => At(s, w, Hashed) && s.writers[w].id !in Recent(s.adds) && s.writers[w].large
    case SmallContent(w) => At(s, w, Hashed) && s.writers[w].id !in Recent(s.adds) && !s.writers[w].large
    case NoSession(w) => At(s, w, Uploading)
    case Launch(w) => At(s, w, Uploading)
    case ReturnId(w, _) => At(s, w, Launched)
    case Ack(w, _) => w in s.running && w in s.writers
    case WriteErr(w) => w in s.running && w in s.writers
    case StartFlush(f) => f !in s.flushes
    case GroupEmpty(f) => f in s.flushes && s.flushes[f].Waiting? && s.running == {}
    case CheckGroupErr(f) => f in s.flushes && s.flushes[f].Waited?
    case BeforeFlushErr(f) => f in s.flushes && s.flushes[f].Callbacks?
    case PutFlush(f) => f in s.flushes && s.flushes[f].Callbacks?
  }

  function SetPc(s: State, w: nat, pc: WriterPc): State
    requires w in s.writers
  {
    s.(writers := s.writers[w := s.writers[w].(pc := pc)])
  }

  /** WriteContent returns its content ID. */
  function ReturnNow(s: State, w: nat): State
    requires w in s.writers
  {
    SetPc(s, w, Returned).(returned := s.returned + {s.writers[w].id})
  }

  /** A write was launched: flushes past the barrier did not wait for it. */
  function Later(f: Flush, id: ContentId): Flush {
    match f
    case Waited(covered, since) => Waited(covered, since + {id})
    case Callbacks(covered, since) => Callbacks(covered, since + {id})
    case _ => f
  }

  function Remember(s: State, id: ContentId, prefixed: bool): State {
    if prefixed then s.(adds := s.adds + [id]) else s
  }

  function Apply(s: State, a: Step): State
    requires Enabled(s, a)
  {
    match a
    case ReadFromServer(id, prefixed) =>
      Remember(s, id, prefixed).(fetched := s.fetched + {id}, cache := s.cache + {id})
    case ReadFromCache(id, prefixed) => Remember(s, id, prefixed).(hits := s.hits + {id})
    case OtherSessionCaches(id) => s.(cache := s.cache + {id}, foreign := s.foreign + {id})
    case StartWrite(w, id, large) => s.(writers := s.writers[w := Writer(id, large, Hashed)])
    case SkipRecent(w) => ReturnNow(s, w)
    case ContentInfoFound(w) => ReturnNow(s, w).(present := s.present + {s.writers[w].id})
    case ContentInfoFailed(w) => SetPc(s, w, Uploading)
    case SmallContent(w) => SetPc(s, w, Uploading)
    case NoSession(w) => SetPc(s, w, Failed)
    case Launch(w) =>
      SetPc(s, w, Launched).(
        running := s.running + {w}, launched := s.launched + {s.writers[w].id},
        flushes := map f | f in s.flushes :: Later(s.flushes[f], s.writers[w].id))
    case ReturnId(w, prefixed) =>
      ReturnNow(s, w).(cache := if prefixed then s.cache + {s.writers[w].id} else s.cache)
    case Ack(w, got) =>
      if got == s.writers[w].id then s.(running := s.running - {w}, acked := s.acked + {got})
      else s.(running := s.running - {w}, groupErr := true)
    case WriteErr(w) => s.(running := s.running - {w}, groupErr := true)
    case StartFlush(f) => s.(flushes := s.flushes[f := Waiting])
    case GroupEmpty(f) => s.(flushes := s.flushes[f := Waited(s.returned, {})])
    case CheckGroupErr(f) =>
      s.(flushes := s.flushes[f :=
        if s.groupErr then FlushFailed else Callbacks(s.flushes[f].covered, s.flushes[f].since)])
    case BeforeFlushErr(f) => s.(flushes := s.flushes[f := FlushFailed])
    case PutFlush(f) => s.(flushes := s.flushes[f := Sent(s.flushes[f].covered, s.flushes[f].since)])
  }

  ghost predicate Next(s: State, t: State) { exists a: Step :: Enabled(s, a) && t == Apply(s, a) }

  // ---------------------------------------------------------------- invariant

  /** The server itself has shown this client that it has the content. */
  predicate Evidence(s: State, id: ContentId) { id in s.fetched || id in s.present || id in s.acked }

  /** Evidenced, or read from what another session put into the cache. */
  predicate Settled(s: State, id: ContentId) { Evidence(s, id) || (id in s.hits && id in s.foreign) }

  /** Everything WriteContent may have to answer for. */
  function Tracked(s: State): set<ContentId> { s.returned + s.hits + s.launched }

  /** The write of the content is still running. */
  ghost predicate BeingWritten(s: State, id: ContentId) {
    exists w :: w in s.running && w in s.writers && s.writers[w].id == id
  }

  ghost predicate Backed(s: State, id: ContentId) { Settled(s, id) || s.groupErr || BeingWritten(s, id) }

  ghost predicate AllBacked(s: State) { forall id :: id in Tracked(s) ==> Backed(s, id) }

  /** Where the recent ring, the cache and the launched writers come from. */
  ghost predicate SourcesOk(s: State) {
    && (forall id :: id in s.adds ==> id in s.fetched || id in s.hits)
    && s.cache <= s.fetched + s.foreign + s.launched
    && (forall w :: At(s, w, Launched) ==> s.writers[w].id in s.launched)
    && s.running <= s.writers.Keys
  }

  ghost predicate AllSettled(s: State, ids: set<ContentId>) { forall id :: id in ids ==> Settled(s, id) }

  /** Everything tracked is settled or was launched after the barrier, unless the excuse holds. */
  ghost predicate Accounted(s: State, since: set<ContentId>, excuse: bool) {
    forall id :: id in Tracked(s) ==> Settled(s, id) || id in since || excuse
  }

  ghost predicate FlushOk(s: State, flush: Flush) {
    match flush
    case Waited(covered, since) => (s.groupErr || AllSettled(s, covered)) && Accounted(s, since, s.groupErr)
    case Callbacks(covered, since) => AllSettled(s, covered) && Accounted(s, since, false)
    case Sent(covered, since) => AllSettled(s, covered)
    case _ => true
  }

  ghost predicate FlushesOk(s: State) { forall f :: f in s.flushes ==> FlushOk(s, s.flushes[f]) }

  ghost predicate Inv(s: State) { SourcesOk(s) && AllBacked(s) && FlushesOk(s) }

  lemma RecentIsAdded(adds: seq<ContentId>, id: ContentId)
    requires id in Recent(adds)
    ensures id in adds
  {
    HitsAreRecent(adds, id);
  }

  /** What a step can add to what is tracked. */
  lemma NewlyTracked(s: State, a: Step, id: ContentId)
    requires SourcesOk(s) && Enabled(s, a) && id in Tracked(Apply(s, a)) && id !in Tracked(s)
    ensures Settled(Apply(s, a), id) || (a.Launch? && id == s.writers[a.w].id)
  {
    if a.SkipRecent? {
      RecentIsAdded(s.adds, id);
    }
    hide Recent;
  }

  lemma SettledStays(s: State, a: Step, id: ContentId)
    requires Enabled(s, a) && Settled(s, id)
    ensures Settled(Apply(s, a), id)
  {
    hide Recent;
  }

  lemma ErrorStays(s: State, a: Step)
    requires Enabled(s, a) && s.groupErr
    ensures Apply(s, a).groupErr
  {
    hide Recent;
  }

  lemma StepKeepsSources(s: State, a: Step)
    requires SourcesOk(s) && Enabled(s, a)
    ensures SourcesOk(Apply(s, a))
  {
    hide Recent;
  }

  /** A running write that ends leaves its content acknowledged or an error in the group. */
  lemma WriteEndsInEvidence(s: State, a: Step, id: ContentId)
    requires Enabled(s, a) && BeingWritten(s, id)
    ensures Backed(Apply(s, a), id)
  {
    hide Recent;
    var w :| w in s.running && w in s.writers && s.writers[w].id == id;
    var t := Apply(s, a);
    assert w in t.writers && t.writers[w].id == id;
  }

  lemma StillBacked(s: State, a: Step, id: ContentId)
    requires Enabled(s, a) && Backed(s, id)
    ensures Backed(Apply(s, a), id)
  {
    hide Apply, Enabled, Settled;
    if Settled(s, id) {
      SettledStays(s, a, id);
    } else if s.groupErr {
      ErrorStays(s, a);
    } else {
      WriteEndsInEvidence(s, a, id);
    }
  }

  lemma LaunchedIsWritten(s: State, a: Step)
    requires Enabled(s, a) && a.Launch?
    ensures BeingWritten(Apply(s, a), s.writers[a.w].id)
  {
    assert a.w in Apply(s, a).running;
  }

  lemma StepKeepsBacked(s: State, a: Step)
    requires SourcesOk(s) && AllBacked(s) && Enabled(s, a)
    ensures AllBacked(Apply(s, a))
  {
    var t := Apply(s, a);
    forall id | id in Tracked(t)
      ensures Backed(t, id)
    {
      if id in Tracked(s) {
        StillBacked(s, a, id);
      } else {
        NewlyTracked(s, a, id);
        if a.Launch? {
          LaunchedIsWritten(s, a);
        }
      }
    }
  }

  /** What has been launched since the barrier grows with every launch. */
  ghost predicate Grows(since: set<ContentId>, a: Step, s: State, since': set<ContentId>) {
    since <= since' && (a.Launch? && a.w in s.writers ==> s.writers[a.w].id in since')
  }

  lemma StaysAccounted(s: State, a: Step, since: set<ContentId>, since': set<ContentId>, excuse: bool)
    requires SourcesOk(s) && Enabled(s, a) && Accounted(s, since, excuse) && Grows(since, a, s, since')
    ensures Accounted(Apply(s, a), since', excuse)
  {
    var t := Apply(s, a);
    forall id | id in Tracked(t)
      ensures Settled(t, id) || id in since' || excuse
    {
      if id !in Tracked(s) {
        NewlyTracked(s, a, id);
      } else if Settled(s, id) {
        SettledStays(s, a, id);
      }
    }
  }

  lemma StaysSettled(s: State, a: Step, ids: set<ContentId>)
    requires Enabled(s, a) && AllSettled(s, ids)
    ensures AllSettled(Apply(s, a), ids)
  {
    hide Apply, Enabled, Settled;
    forall id | id in ids
      ensures Settled(Apply(s, a), id)
    {
      SettledStays(s, a, id);
    }
  }

  lemma ExcuseMayCome(s: State, since: set<ContentId>, excuse: bool, excuse': bool)
    requires Accounted(s, since, excuse) && (excuse ==> excuse')
    ensures Accounted(s, since, excuse')
  {
  }

  /** A flush the step does not move stays in order. */
  lemma BystanderStaysOk(s: State, a: Step, flush: Flush)
    requires SourcesOk(s) && Enabled(s, a) && FlushOk(s, flush)
    ensures FlushOk(Apply(s, a), if a.Launch? then Later(flush, s.writers[a.w].id) else flush)
  {
    hide Apply, Settled, SourcesOk, AllSettled, Accounted, Recent;
    var t := Apply(s, a);
    if flush.Waited? || flush.Callbacks? || flush.Sent? {
      var since' := if a.Launch? then flush.since + {s.writers[a.w].id} else flush.since;
      if s.groupErr {
        ErrorStays(s, a);
      }
      if AllSettled(s, flush.covered) {
        StaysSettled(s, a, flush.covered);
      }
      if !flush.Sent? {
        StaysAccounted(s, a, flush.since, since', flush.Waited? && s.groupErr);
        ExcuseMayCome(t, since', flush.Waited? && s.groupErr, flush.Waited? && t.groupErr);
      }
    }
  }

  /** The barrier: with no write running, everything tracked is settled or the group has failed. */
  lemma BarrierIsOk(s: State)
    requires AllBacked(s) && s.running == {}
    ensures FlushOk(s, Waited(s.returned, {}))
  {
    forall id | id in Tracked(s)
      ensures Settled(s, id) || s.groupErr
    {
      assert Backed(s, id);
    }
  }

  predicate FlushStep(a: Step) {
    a.StartFlush? || a.GroupEmpty? || a.CheckGroupErr? || a.BeforeFlushErr? || a.PutFlush?
  }

  /** Moving a flush changes nothing that the others depend on. */
  lemma SameFlush(s: State, t: State, flush: Flush)
    requires t == s.(flushes := t.flushes)
    ensures FlushOk(s, flush) <==> FlushOk(t, flush)
  {
  }

  lemma FlushStepKeepsFlushes(s: State, a: Step)
    requires AllBacked(s) && FlushesOk(s) && Enabled(s, a) && FlushStep(a)
    ensures FlushesOk(Apply(s, a))
  {
    var t := Apply(s, a);
    if a.GroupEmpty? {
      BarrierIsOk(s);
    }
    forall f | f in t.flushes
      ensures FlushOk(t, t.flushes[f])
    {
      assert f in s.flushes ==> FlushOk(s, s.flushes[f]);
      SameFlush(s, t, t.flushes[f]);
      if f in s.flushes {
        SameFlush(s, t, s.flushes[f]);
      }
    }
  }

  lemma OtherStepKeepsFlushes(s: State, a: Step)
    requires SourcesOk(s) && FlushesOk(s) && Enabled(s, a) && !FlushStep(a)
    ensures FlushesOk(Apply(s, a))
  {
    var t := Apply(s, a);
    forall f | f in t.flushes
      ensures FlushOk(t, t.flushes[f])
    {
      assert FlushOk(s, s.flushes[f]);
      BystanderStaysOk(s, a, s.flushes[f]);
    }
  }

  lemma StepKeepsInv(s: State, a: Step)
    requires Inv(s) && Enabled(s, a)
    ensures Inv(Apply(s, a))
  {
    hide Apply, Enabled, SourcesOk, AllBacked, FlushesOk, FlushStep;
    StepKeepsSources(s, a);
    StepKeepsBacked(s, a);
    if FlushStep(a) {
      FlushStepKeepsFlushes(s, a);
    } else {
      OtherStepKeepsFlushes(s, a);
    }
  }

  lemma NextKeepsInv(s: State, t: State)
    requires Inv(s) && Next(s, t)
    ensures Inv(t)
  {
    hide Enabled, Apply, Inv;
    var a :| Enabled(s, a) && t == Apply(s, a);
    StepKeepsInv(s, a);
  }

  lemma EveryRunKeepsInv(run: seq<State>)
    requires IsRun(Init, Next, run)
    ensures forall s :: s in run ==> Inv(s)
  {
    hide Next;
    forall s, t | Inv(s) && Next(s, t)
      ensures Inv(t)
    {
      NextKeepsInv(s, t);
    }
    InvariantHolds(Init, Next, Inv, run);
  }

  // ---------------------------------------------------------------- theorems

  /** The flush has not yet found the group empty. */
  predicate BeforeBarrier(s: State, f: nat) { f !in s.flushes || s.flushes[f].Waiting? }

  predicate PastBarrier(s: State, f: nat) {
    f in s.flushes && (s.flushes[f].Waited? || s.flushes[f].Callbacks? || s.flushes[f].Sent?)
  }

  /** The flush can still, or did, cover the ID. */
  predicate Covers(s: State, f: nat, id: ContentId) {
    if BeforeBarrier(s, f) then id in s.returned
    else PastBarrier(s, f) ==> id in s.flushes[f].covered
  }

  lemma FlushStepKeepsCover(s: State, a: Step, f: nat, id: ContentId)
    requires Enabled(s, a) && Covers(s, f, id) && FlushStep(a)
    ensures Covers(Apply(s, a), f, id)
  {
    hide Recent;
  }

  lemma OtherStepKeepsCover(s: State, a: Step, f: nat, id: ContentId)
    requires Enabled(s, a) && Covers(s, f, id) && !FlushStep(a)
    ensures Covers(Apply(s, a), f, id)
  {
    hide Recent;
    assert a.Launch? || Apply(s, a).flushes == s.flushes;
  }

  lemma NextKeepsCover(s: State, t: State, f: nat, id: ContentId)
    requires Next(s, t) && Covers(s, f, id)
    ensures Covers(t, f, id)
  {
    hide Apply, Enabled, Covers, FlushStep;
    var a :| Enabled(s, a) && t == Apply(s, a);
    if FlushStep(a) {
      FlushStepKeepsCover(s, a, f, id);
    } else {
      OtherStepKeepsCover(s, a, f, id);
    }
  }

  lemma {:induction false} CoverLasts(run: seq<State>, i: nat, j: nat, f: nat, id: ContentId)
    requires IsRun(Init, Next, run) && i <= j < |run| && Covers(run[i], f, id)
    ensures Covers(run[j], f, id)
    decreases j - i
  {
    hide Next, Init, Covers;
    if i < j {
      assert Next(run[i + 1 - 1], run[i + 1]);
      NextKeepsCover(run[i], run[i + 1], f, id);
      CoverLasts(run, i + 1, j, f, id);
    }
  }

  /** Read through this client from what another session cached. */
  predicate FromOthersCache(s: State, id: ContentId) { id in s.hits && id in s.foreign }

  /**
   When a Flush request is put on the stream, the server has shown that it has every content whose ID WriteContent
   returned before the flush found the write group empty, unless this client read it from what another session
   cached. Any other returned ID is no worse, or was launched after that.
   */
  lemma FlushIsABarrier(run: seq<State>, i: nat, j: nat, f: nat, id: ContentId)
    requires IsRun(Init, Next, run) && i <= j < |run| && Enabled(run[j], PutFlush(f))
    ensures BeforeBarrier(run[i], f) && id in run[i].returned ==>
              Evidence(run[j], id) || FromOthersCache(run[j], id)
    ensures id in run[j].returned ==>
              Evidence(run[j], id) || FromOthersCache(run[j], id) || id in run[j].flushes[f].since
  {
    EveryRunKeepsInv(run);
    assert run[j] in run && FlushOk(run[j], run[j].flushes[f]);
    if BeforeBarrier(run[i], f) && id in run[i].returned {
      CoverLasts(run, i, j, f, id);
    }
  }

  /** So every such ID was read through this client, reported present or acknowledged. */
  lemma FlushedIsKnown(run: seq<State>, i: nat, j: nat, f: nat, id: ContentId)
    requires IsRun(Init, Next, run) && i <= j < |run| && Enabled(run[j], PutFlush(f))
    requires BeforeBarrier(run[i], f) && id in run[i].returned
    ensures id in run[j].fetched + run[j].hits + run[j].present + run[j].acked
  {
    FlushIsABarrier(run, i, j, f, id);
  }

  predicate Doomed(s: State, f: nat) {
    s.groupErr && (f in s.flushes ==> !s.flushes[f].Callbacks? && !s.flushes[f].Sent?)
  }

  lemma NextKeepsDoom(s: State, t: State, f: nat)
    requires Next(s, t) && Doomed(s, f)
    ensures Doomed(t, f)
  {
    hide Recent;
  }

  /** After one failed or mismatched write, no flush that has not yet looked at the group's error is ever sent. */
  lemma {:induction false} FailedWriteStopsFlushes(run: seq<State>, i: nat, j: nat, f: nat)
    requires IsRun(Init, Next, run) && i <= j < |run| && Doomed(run[i], f)
    ensures Doomed(run[j], f) && !Enabled(run[j], PutFlush(f))
    decreases j - i
  {
    if i < j {
      hide Next, Init;
      assert Next(run[i + 1 - 1], run[i + 1]);
      NextKeepsDoom(run[i], run[i + 1], f);
      FailedWriteStopsFlushes(run, i + 1, j, f);
    }
  }

  // ---------------------------------------------------------------- progress

  lemma Then(run: seq<State>, a: Step) returns (longer: seq<State>)
    requires IsRun(Init, Next, run) && Enabled(Last(run), a)
    ensures IsRun(Init, Next, longer) && longer == run + [Apply(Last(run), a)]
  {
    var t := Apply(Last(run), a);
    assert Next(Last(run), t);
    Extend(Init, Next, run, t);
    longer := run + [t];
  }

  lemma WriterIsKnown(run: seq<State>, w: nat)
    requires IsRun(Init, Next, run) && w in Last(run).running
    ensures w in Last(run).writers
  {
    EveryRunKeepsInv(run);
    assert Last(run) in run && SourcesOk(Last(run));
  }

  /** Every running write can end in an acknowledgement. */
  lemma {:induction false} WritesCanBeAcked(run: seq<State>) returns (longer: seq<State>)
    requires IsRun(Init, Next, run) && !Last(run).groupErr
    ensures IsRun(Init, Next, longer) && run <= longer && Last(longer).running == {}
    ensures Last(longer) == Last(run).(running := {}, acked := Last(longer).acked)
    decreases Last(run).running
  {
    longer := run;
    if w :| w in Last(run).running {
      WriterIsKnown(run, w);
      hide Next, Init;
      longer := Then(run, Ack(w, Last(run).writers[w].id));
      longer := WritesCanBeAcked(longer);
    }
  }

  /**
   A write can always return the ID of its content. One that was read recently is not sent, and any other can be
   launched first.
   */
  lemma WriteCanReturn(run: seq<State>, w: nat, id: ContentId, large: bool) returns (longer: seq<State>)
    requires IsRun(Init, Next, run) && w !in Last(run).writers
    ensures IsRun(Init, Next, longer) && run <= longer && id in Last(longer).returned
    ensures id in Recent(Last(run).adds) ==> Last(longer).launched == Last(run).launched
    ensures id !in Recent(Last(run).adds) ==> id in Last(longer).launched && w in Last(longer).running
  {
    hide Next, Init, Recent;
    longer := Then(run, StartWrite(w, id, large));
    if id in Recent(Last(run).adds) {
      longer := Then(longer, SkipRecent(w));
    } else {
      longer := Then(longer, if large then ContentInfoFailed(w) else SmallContent(w));
      longer := Then(longer, Launch(w));
      longer := Then(longer, ReturnId(w, true));
    }
  }

  /** What ContentInfo reports as present is not sent either. */
  lemma PresentIsNotSent(run: seq<State>, w: nat, id: ContentId) returns (longer: seq<State>)
    requires IsRun(Init, Next, run) && w !in Last(run).writers && id !in Recent(Last(run).adds)
    ensures IsRun(Init, Next, longer) && run <= longer
    ensures id in Last(longer).returned && id in Last(longer).present && Last(longer).launched == Last(run).launched
  {
    hide Next, Init, Recent;
    longer := Then(run, StartWrite(w, id, true));
    longer := Then(longer, ContentInfoFound(w));
  }

  lemma QuietFlushIsSent(run: seq<State>, f: nat) returns (longer: seq<State>)
    requires IsRun(Init, Next, run) && f !in Last(run).flushes && Last(run).running == {} && !Last(run).groupErr
    ensures IsRun(Init, Next, longer) && run <= longer && Enabled(Last(longer), PutFlush(f))
    ensures Last(longer) == Last(run).(flushes := Last(longer).flushes)
    ensures Last(longer).flushes[f].covered == Last(run).returned
  {
    hide Next, Init;
    longer := Then(run, StartFlush(f));
    longer := Then(longer, GroupEmpty(f));
    longer := Then(longer, CheckGroupErr(f));
  }

  /** Flushing is possible: from every reachable state without a failed write, all that was returned can be flushed. */
  lemma FlushCanBeSent(run: seq<State>, f: nat) returns (longer: seq<State>)
    requires IsRun(Init, Next, run) && f !in Last(run).flushes && !Last(run).groupErr
    ensures IsRun(Init, Next, longer) && run <= longer && f in Last(longer).flushes
    ensures Last(longer).flushes[f].Sent? && Last(longer).flushes[f].covered == Last(run).returned
  {
    hide Next, Init;
    longer := WritesCanBeAcked(run);
    longer := QuietFlushIsSent(longer, f);
    longer := Then(longer, PutFlush(f));
  }

  // -------------------------------------------------- what the barrier does not cover

  /**
   The first limit of the barrier. From every state in which a flush runs its callbacks and a write is about to
   be launched of a content the server has not shown to have, that ID can be returned before the flush is sent.
   */
  lemma LateWriteEscapesTheFlush(run: seq<State>, f: nat, w: nat) returns (longer: seq<State>)
    requires IsRun(Init, Next, run) && Enabled(Last(run), PutFlush(f))
    requires At(Last(run), w, Uploading) && !Evidence(Last(run), Last(run).writers[w].id)
    ensures IsRun(Init, Next, longer) && run <= longer && Enabled(Last(longer), PutFlush(f))
    ensures Last(run).writers[w].id in Last(longer).returned && !Evidence(Last(longer), Last(run).writers[w].id)
  {
    hide Next, Init;
    longer := Then(run, Launch(w));
    longer := Then(longer, ReturnId(w, false));
  }

  /** A read from the cache puts the ID into the ring, so the next write of it is skipped. */
  lemma CachedIdIsSkipped(run: seq<State>, w: nat, id: ContentId) returns (longer: seq<State>)
    requires IsRun(Init, Next, run) && id in Last(run).cache && w !in Last(run).writers
    ensures IsRun(Init, Next, longer) && run <= longer
    ensures var s := Last(run);
      Last(longer) == s.(adds := s.adds + [id], hits := s.hits + {id}, returned := s.returned + {id},
                         writers := s.writers[w := Writer(id, false, Returned)])
  {
    hide Next, Init;
    var s := Last(run);
    longer := Then(run, ReadFromCache(id, true));
    longer := Then(longer, StartWrite(w, id, false));
    RecentAfter(s.adds, id);
    longer := Then(longer, SkipRecent(w));
    assert s.writers[w := Writer(id, false, Hashed)][w := Writer(id, false, Returned)]
        == s.writers[w := Writer(id, false, Returned)];
  }

  /**
   The second limit. From every state with no write running or failed, a content that another session put into
   the cache and the server has not shown to have can be read, its write skipped, and a flush sent after that.
   */
  lemma OthersCacheEscapesTheFlush(run: seq<State>, f: nat, w: nat, id: ContentId)
    returns (longer: seq<State>, i: nat)
    requires IsRun(Init, Next, run) && Last(run).running == {} && !Last(run).groupErr
    requires f !in Last(run).flushes && w !in Last(run).writers
    requires id in Last(run).foreign && id in Last(run).cache && !Evidence(Last(run), id)
    ensures IsRun(Init, Next, longer) && run <= longer && Enabled(Last(longer), PutFlush(f))
    ensures i < |longer| && BeforeBarrier(longer[i], f) && id in longer[i].returned
    ensures !Evidence(Last(longer), id) && FromOthersCache(Last(longer), id)
  {
    hide Next, Init;
    var skipped := CachedIdIsSkipped(run, w, id);
    i := |skipped| - 1;
    longer := QuietFlushIsSent(skipped, f);
    assert longer[i] == Last(skipped);
  }
}

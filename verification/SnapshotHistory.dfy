/**
 `snapshot move-history` and `copy-history` over a manifest store.

 Every operation on the store may fail, and the command then returns at once. Only
 the load of a manifest that a listing found is different: if it fails, the
 manifest is left out and the listing succeeds. The outcomes of those loads are
 parameters. The store keeps a ghost trail of all the contents it ever had, so a
 property of the trail is one of every step and every early return.
 */
module SnapshotHistory {
  import opened Wrappers
  import opened Sources

  datatype Manifest = Manifest(source: SourceInfo, startTime: int, rootId: string, tags: map<string, string>)

  /** A stored manifest: its labels, its payload, and whether the payload can be read back. */
  datatype Entry = Entry(labels: map<string, string>, man: Manifest, readable: bool)

  type Contents = map<nat, Entry>

  // ---------------------------------------------------------------- labels

  function LabelsFor(si: SourceInfo): map<string, string> {
    map["type" := "snapshot", "hostname" := si.host]
    + (if si.userName != "" then map["username" := si.userName] else map[])
    + (if si.path != "" then map["path" := si.path] else map[])
  }

  predicate HasLabels(e: Entry, query: map<string, string>) {
    forall k :: k in query ==> k in e.labels && e.labels[k] == query[k]
  }

  predicate IsSnapshot(e: Entry) { "type" in e.labels && e.labels["type"] == "snapshot" }

  predicate Full(si: SourceInfo) { si.host != "" && si.userName != "" && si.path != "" }

  /** What SaveSnapshot stores: a full source, its labels, and tags under other keys. */
  predicate WellLabelled(e: Entry) {
    && Full(e.man.source)
    && (forall k :: k in e.man.tags ==> k !in LabelsFor(e.man.source))
    && e.labels == LabelsFor(e.man.source) + e.man.tags
  }

  predicate Matches(si: SourceInfo, source: SourceInfo) {
    && source.host == si.host
    && (si.userName != "" ==> source.userName == si.userName)
    && (si.path != "" ==> source.path == si.path)
  }

  predicate Listed(e: Entry, si: SourceInfo) { IsSnapshot(e) && e.readable && Matches(si, e.man.source) }

  /** What the loads of one listing give: true for the manifests that could be loaded this time. */
  type Loads = nat -> bool

  ghost predicate AllLoad(loads: Loads) { forall id :: loads(id) }

  predicate Loaded(c: Contents, id: nat, si: SourceInfo, loads: Loads) { id in c && Listed(c[id], si) && loads(id) }

  /** Finding by labels is finding by source. */
  lemma LabelsSelectSources(e: Entry, si: SourceInfo)
    requires IsSnapshot(e) ==> WellLabelled(e)
    ensures HasLabels(e, LabelsFor(si)) <==> IsSnapshot(e) && Matches(si, e.man.source)
  {
    var query := LabelsFor(si);
    assert query["type"] == "snapshot" && query["hostname"] == si.host;
    if IsSnapshot(e) {
      var own := LabelsFor(e.man.source);
      assert own["hostname"] == e.man.source.host && own["username"] == e.man.source.userName
          && own["path"] == e.man.source.path;
      assert e.labels["hostname"] == e.man.source.host && e.labels["username"] == e.man.source.userName
          && e.labels["path"] == e.man.source.path;
      assert "username" in query <==> si.userName != "";
      assert "path" in query <==> si.path != "";
    }
  }

  // ---------------------------------------------------------------- source and destination

  function CopyDestination(source: SourceInfo, overrides: SourceInfo): SourceInfo {
    SourceInfo(
      if overrides.host != "" then overrides.host else source.host,
      if overrides.userName != "" then overrides.userName else source.userName,
      if overrides.path != "" then overrides.path else source.path)
  }

  /** The two checks of getCopySourceAndDestination. */
  predicate Allowed(si: SourceInfo, di: SourceInfo) {
    (di.path != "" ==> si.path != "") && (di.userName != "" ==> si.userName != "")
  }

  function CopySourceAndDestination(sourceArg: string, destinationArg: string, hostname: string, username: string,
                                    abs: string -> Result<string>)
    : (r: Result<(SourceInfo, SourceInfo)>)
    ensures r.Ok? ==> Allowed(r.value.0, r.value.1)
  {
    match Parse(sourceArg, hostname, username, abs)
    case Err => Err
    case Ok(si) =>
      var destination :=
        if destinationArg == "" then Ok(SourceInfo(hostname, username, ""))
        else Parse(destinationArg, hostname, username, abs);
      match destination
      case Err => Err
      case Ok(di) =>
        if di.path != "" && si.path == "" then Err
        else if di.userName != "" && si.userName == "" then Err
        else Ok((si, di))
  }

  /**
   What the two arguments mean. Without a destination it is the client's own host and user; and the command is
   refused exactly if an argument cannot be parsed, or names a path or user at the destination only.
   */
  lemma ArgumentsDecide(sourceArg: string, destinationArg: string, hostname: string, username: string,
                        abs: string -> Result<string>)
    ensures var source := Parse(sourceArg, hostname, username, abs);
      var destination := Parse(destinationArg, hostname, username, abs);
      var r := CopySourceAndDestination(sourceArg, destinationArg, hostname, username, abs);
      && (r.Ok? ==> source == Ok(r.value.0))
      && (r.Ok? && destinationArg != "" ==> destination == Ok(r.value.1))
      && (r.Ok? && destinationArg == "" ==>
            r.value.1.host == hostname && r.value.1.userName == username && r.value.1.path == "")
      && (r.Err? <==>
            || source.Err?
            || (destinationArg == "" && username != "" && source.value.userName == "")
            || (destinationArg != ""
                && (destination.Err?
                    || (destination.value.path != "" && source.value.path == "")
                    || (destination.value.userName != "" && source.value.userName == ""))))
  {
    hide Parse;
  }

  /** The checks are exactly what keeps two matching sources from collapsing into one. */
  lemma ChecksPreventCollapse(si: SourceInfo, di: SourceInfo)
    ensures Allowed(si, di) <==>
      forall a, b :: Matches(si, a) && Matches(si, b) && CopyDestination(a, di) == CopyDestination(b, di) ==> a == b
  {
    if !Allowed(si, di) {
      var u := if si.userName == "" then "u" else si.userName;
      var p := if si.path == "" then "p" else si.path;
      var a := SourceInfo(si.host, u, p);
      var b := if di.path != "" && si.path == "" then SourceInfo(si.host, u, "q") else SourceInfo(si.host, "v", p);
      assert Matches(si, a) && Matches(si, b) && CopyDestination(a, di) == CopyDestination(b, di) && a != b;
    }
  }

  /** A destination that still matches the source filter is the source itself. */
  lemma DestinationInSourceIsFixed(si: SourceInfo, di: SourceInfo, a: SourceInfo)
    requires Allowed(si, di) && Matches(si, a) && Matches(si, CopyDestination(a, di))
    ensures CopyDestination(a, di) == a
  {
  }

  /** With a host in the destination, every mapped source is found under the destination filter. */
  lemma DestinationIsListed(di: SourceInfo, a: SourceInfo)
    requires di.host != ""
    ensures Matches(di, CopyDestination(a, di))
  {
  }

  // ---------------------------------------------------------------- the store

  ghost predicate ValidContents(c: Contents) { forall id :: id in c && IsSnapshot(c[id]) ==> WellLabelled(c[id]) }

  class ManifestStore {
    var entries: Contents
    var nextId: nat
    ghost var trail: seq<Contents>

    ghost predicate Valid()
      reads this
    {
      ValidContents(entries) && (forall id :: id in entries ==> id < nextId) && |trail| > 0
          && trail[|trail| - 1] == entries
    }

    constructor ()
      ensures Valid() && entries == map[] && trail == [entries]
    {
      entries, nextId, trail := map[], 0, [map[]];
    }

    method Put(labels: map<string, string>, man: Manifest) returns (id: Result<nat>)
      requires Valid() && ("type" in labels && labels["type"] == "snapshot" ==> WellLabelled(Entry(labels, man, true)))
      modifies this
      ensures Valid()
      ensures id.Ok? ==> id.value == old(nextId) && nextId == old(nextId) + 1 && trail == old(trail) + [entries]
      ensures id.Ok? ==> entries == old(entries)[id.value := Entry(labels, man, true)]
      ensures id.Err? ==> entries == old(entries) && nextId == old(nextId) && trail == old(trail)
    {
      var ok := *;
      if ok {
        id := Ok(nextId);
        entries := entries[nextId := Entry(labels, man, true)];
        nextId := nextId + 1;
        trail := trail + [entries];
      } else {
        id := Err;
      }
    }

    method Delete(id: nat) returns (ok: bool)
      requires Valid()
      modifies this
      ensures Valid() && nextId == old(nextId)
      ensures ok ==> entries == old(entries) - {id} && trail == old(trail) + [entries]
      ensures !ok ==> entries == old(entries) && trail == old(trail)
    {
      ok := *;
      if ok {
        entries := entries - {id};
        trail := trail + [entries];
      }
    }

    /** ListSnapshots: the snapshots found by the labels of si that could be loaded, in some order. */
    method ListSnapshots(si: SourceInfo, loads: Loads) returns (r: Result<seq<nat>>)
      requires Valid()
      ensures r.Ok? ==> forall id :: id in r.value <==> Loaded(entries, id, si, loads)
      ensures r.Ok? ==> forall i, j :: 0 <= i < j < |r.value| ==> r.value[i] != r.value[j]
    {
      hide HasLabels, LabelsFor;
      var found := *;
      if !found {
        return Err;
      }
      var ids := [];
      var rest := entries.Keys;
      while rest != {}
        invariant rest <= entries.Keys
        invariant forall id :: id in ids <==> id !in rest && Loaded(entries, id, si, loads)
        invariant forall i, j :: 0 <= i < j < |ids| ==> ids[i] != ids[j]
        decreases |rest|
      {
        var id :| id in rest;
        rest := rest - {id};
        LabelsSelectSources(entries[id], si);
        if HasLabels(entries[id], LabelsFor(si)) && entries[id].readable && loads(id) {
          ids := ids + [id];
        }
      }
      return Ok(ids);
    }

    /** SaveSnapshot: validates the source and the tags, then puts the manifest under its labels. */
    method SaveSnapshot(man: Manifest) returns (id: Result<nat>)
      requires Valid()
      modifies this
      ensures Valid()
      ensures id.Ok? ==> Full(man.source) && id.value == old(nextId) && nextId == old(nextId) + 1
      ensures id.Ok? ==> trail == old(trail) + [entries]
      ensures id.Ok? ==> entries == old(entries)[id.value := Entry(LabelsFor(man.source) + man.tags, man, true)]
      ensures id.Ok? ==> IsSnapshot(entries[id.value])
      ensures id.Err? ==> entries == old(entries) && nextId == old(nextId) && trail == old(trail)
    {
      if man.source.host == "" || man.source.userName == "" || man.source.path == "" {
        return Err;
      }
      var labels := LabelsFor(man.source);
      if exists key :: key in man.tags && key in labels {
        return Err;
      }
      id := Put(labels + man.tags, man);
    }
  }

  // ---------------------------------------------------------------- what a run keeps

  /** Some readable snapshot with this start time and root is stored under the source. */
  ghost predicate Holds(c: Contents, source: SourceInfo, man: Manifest) {
    exists id :: id in c && IsSnapshot(c[id]) && c[id].readable && c[id].man.source == source
        && c[id].man.startTime == man.startTime && c[id].man.rootId == man.rootId
  }

  predicate Moves(c: Contents, id: nat, si: SourceInfo, di: SourceInfo) {
    id in c && Listed(c[id], si) && CopyDestination(c[id].man.source, di) != c[id].man.source
  }

  /** The entry is a listed source snapshot with nothing but its source changed. */
  ghost predicate IsCopy(before: Contents, e: Entry, si: SourceInfo, di: SourceInfo) {
    && IsSnapshot(e)
    && exists id :: Moves(before, id, si, di)
        && e.man == before[id].man.(source := CopyDestination(before[id].man.source, di))
  }

  /**
   Relative to the contents at the start, nothing is lost: what is missing was to be moved, and is held at its
   destination.
   */
  ghost predicate Conserves(before: Contents, c: Contents, si: SourceInfo, di: SourceInfo) {
    && (forall id :: id in before && id in c ==> c[id] == before[id])
    && (forall id :: id in before && id !in c ==>
          Moves(before, id, si, di) && Holds(c, CopyDestination(before[id].man.source, di), before[id].man))
    && (forall id :: id in c && id !in before ==> IsCopy(before, c[id], si, di))
  }

  /** The destination listing has a snapshot of the destination with the same start time and root. */
  ghost predicate Found(c: Contents, id: nat, di: SourceInfo, loads: Loads)
    requires id in c
  {
    exists w :: Loaded(c, w, di, loads) && c[w].man.source == CopyDestination(c[id].man.source, di)
        && c[w].man.startTime == c[id].man.startTime && c[w].man.rootId == c[id].man.rootId
  }

  /**
   Every source snapshot that was loaded is at its destination, and after a move exactly those that were not
   loaded are left at their old source.
   */
  ghost predicate Complete(before: Contents, c: Contents, si: SourceInfo, di: SourceInfo, isMove: bool, loads: Loads) {
    && (forall id :: Moves(before, id, si, di) && loads(id) ==>
          Holds(c, CopyDestination(before[id].man.source, di), before[id].man))
    && (isMove ==> forall id :: Moves(c, id, si, di) <==> Moves(before, id, si, di) && !loads(id))
  }

  /**
   What conservation and completion mean for one snapshot, field by field: if it is gone, or was loaded by a
   successful run, a readable snapshot with its start time and root is stored under its source with every field
   replaced that the destination names.
   */
  lemma SnapshotIsAtDestination(before: Contents, c: Contents, si: SourceInfo, di: SourceInfo, isMove: bool,
                                loads: Loads, id: nat)
    returns (w: nat)
    requires id in before
    requires (Conserves(before, c, si, di) && id !in c)
          || (Complete(before, c, si, di, isMove, loads) && Moves(before, id, si, di) && loads(id))
    ensures w in c && IsSnapshot(c[w]) && c[w].readable
    ensures c[w].man.startTime == before[id].man.startTime && c[w].man.rootId == before[id].man.rootId
    ensures c[w].man.source.host == if di.host != "" then di.host else before[id].man.source.host
    ensures c[w].man.source.userName == if di.userName != "" then di.userName else before[id].man.source.userName
    ensures c[w].man.source.path == if di.path != "" then di.path else before[id].man.source.path
  {
    w :| w in c && IsSnapshot(c[w]) && c[w].readable
        && c[w].man.source == CopyDestination(before[id].man.source, di)
        && c[w].man.startTime == before[id].man.startTime && c[w].man.rootId == before[id].man.rootId;
  }

  /** A run with these arguments and these loads has nothing to do. */
  ghost predicate Settled(c: Contents, si: SourceInfo, di: SourceInfo, isMove: bool, srcLoads: Loads, dstLoads: Loads) {
    forall id :: Moves(c, id, si, di) && srcLoads(id) ==> !isMove && Found(c, id, di, dstLoads)
  }

  lemma PutKeepsHolds(c: Contents, id: nat, e: Entry, source: SourceInfo, man: Manifest)
    requires id !in c && Holds(c, source, man)
    ensures Holds(c[id := e], source, man)
  {
    var w :| w in c && IsSnapshot(c[w]) && c[w].readable && c[w].man.source == source
        && c[w].man.startTime == man.startTime && c[w].man.rootId == man.rootId;
    assert c[id := e][w] == c[w];
  }

  /** What proves a snapshot safe at its destination is never itself up for moving. */
  lemma DeleteKeepsHolds(before: Contents, c: Contents, id: nat, k: nat, si: SourceInfo, di: SourceInfo)
    requires Allowed(si, di) && Moves(before, k, si, di) && Moves(c, id, si, di)
    requires Holds(c, CopyDestination(before[k].man.source, di), before[k].man)
    ensures Holds(c - {id}, CopyDestination(before[k].man.source, di), before[k].man)
  {
    var source, man := CopyDestination(before[k].man.source, di), before[k].man;
    var w :| w in c && IsSnapshot(c[w]) && c[w].readable && c[w].man.source == source
        && c[w].man.startTime == man.startTime && c[w].man.rootId == man.rootId;
    if w == id {
      DestinationInSourceIsFixed(si, di, man.source);
    }
    assert (c - {id})[w] == c[w];
  }

  lemma PutConserves(before: Contents, c: Contents, id: nat, e: Entry, si: SourceInfo, di: SourceInfo)
    requires Conserves(before, c, si, di) && id !in before && id !in c && IsCopy(before, e, si, di)
    ensures Conserves(before, c[id := e], si, di)
  {
    forall k | k in before && k !in c[id := e]
      ensures Holds(c[id := e], CopyDestination(before[k].man.source, di), before[k].man)
    {
      PutKeepsHolds(c, id, e, CopyDestination(before[k].man.source, di), before[k].man);
    }
  }

  lemma DeleteConserves(before: Contents, c: Contents, id: nat, si: SourceInfo, di: SourceInfo)
    requires Allowed(si, di) && Conserves(before, c, si, di) && id in c && Moves(before, id, si, di)
    requires Holds(c, CopyDestination(before[id].man.source, di), before[id].man)
    ensures Conserves(before, c - {id}, si, di)
  {
    forall k | k in before && k !in c - {id}
      ensures Holds(c - {id}, CopyDestination(before[k].man.source, di), before[k].man)
    {
      DeleteKeepsHolds(before, c, id, k, si, di);
    }
  }

  ghost predicate FoundIn(c: Contents, snaps: seq<nat>, source: SourceInfo, man: Manifest)
    requires forall id :: id in snaps ==> id in c
  {
    exists id :: id in snaps && c[id].man.source == source
        && c[id].man.startTime == man.startTime && c[id].man.rootId == man.rootId
  }

  predicate SameSnapshot(a: Manifest, b: Manifest) { a.startTime == b.startTime && a.rootId == b.rootId }

  method SnapshotExists(c: Contents, snaps: seq<nat>, source: SourceInfo, man: Manifest) returns (found: bool)
    requires forall id :: id in snaps ==> id in c
    ensures found <==> FoundIn(c, snaps, source, man)
  {
    for i := 0 to |snaps|
      invariant forall k :: 0 <= k < i ==> !(c[snaps[k]].man.source == source && SameSnapshot(man, c[snaps[k]].man))
    {
      if c[snaps[i]].man.source == source && SameSnapshot(man, c[snaps[i]].man) {
        return true;
      }
    }
    return false;
  }

  /** A match in the destination list is still stored: it is under the destination, so the run does not move it. */
  lemma ExistingIsHeld(before: Contents, c: Contents, srcId: nat, dst: seq<nat>, si: SourceInfo, di: SourceInfo)
    requires Allowed(si, di) && Conserves(before, c, si, di) && Moves(before, srcId, si, di)
    requires forall id :: id in dst ==> id in before && Listed(before[id], di)
    requires FoundIn(before, dst, CopyDestination(before[srcId].man.source, di), before[srcId].man)
    ensures Holds(c, CopyDestination(before[srcId].man.source, di), before[srcId].man)
  {
    var w :| w in dst && before[w].man.source == CopyDestination(before[srcId].man.source, di)
        && before[w].man.startTime == before[srcId].man.startTime && before[w].man.rootId == before[srcId].man.rootId;
    if w !in c {
      DestinationInSourceIsFixed(si, di, before[srcId].man.source);
    }
  }

  /**
   The contents a step may leave: only srcId is gone, the rest is as it was, and every intermediate contents
   conserves.
   */
  ghost predicate StepKeeps(before: Contents, was: Contents, wasTrail: seq<Contents>, c: Contents, trail: seq<Contents>,
                            srcId: nat, si: SourceInfo, di: SourceInfo) {
    && Conserves(before, c, si, di)
    && (forall id :: id in was && id != srcId ==> id in c)
    && (forall id :: id in was && id in c ==> c[id] == was[id])
    && (forall id :: id in c && id in before ==> id in was)
    && wasTrail <= trail
    && (forall i :: |wasTrail| <= i < |trail| ==> Conserves(before, trail[i], si, di))
  }

  /** The snapshot has arrived, and after a move has left. */
  ghost predicate Arrived(before: Contents, c: Contents, id: nat, di: SourceInfo, isMove: bool)
    requires id in before
  {
    Holds(c, CopyDestination(before[id].man.source, di), before[id].man) && (isMove ==> id !in c)
  }

  lemma PutStep(before: Contents, was: Contents, trail: seq<Contents>, id: nat, e: Entry, srcId: nat, si: SourceInfo,
                di: SourceInfo)
    requires Conserves(before, was, si, di) && id !in before && id !in was && Moves(before, srcId, si, di)
    requires IsSnapshot(e) && e.readable
    requires e.man == before[srcId].man.(source := CopyDestination(before[srcId].man.source, di))
    ensures StepKeeps(before, was, trail, was[id := e], trail + [was[id := e]], srcId, si, di)
    ensures Holds(was[id := e], CopyDestination(before[srcId].man.source, di), before[srcId].man)
  {
    assert IsCopy(before, e, si, di);
    PutConserves(before, was, id, e, si, di);
    assert was[id := e][id] == e;
  }

  lemma DeleteStep(before: Contents, was: Contents, trail: seq<Contents>, srcId: nat, si: SourceInfo, di: SourceInfo)
    requires Allowed(si, di) && Conserves(before, was, si, di) && Moves(before, srcId, si, di) && srcId in was
    requires Holds(was, CopyDestination(before[srcId].man.source, di), before[srcId].man)
    ensures StepKeeps(before, was, trail, was - {srcId}, trail + [was - {srcId}], srcId, si, di)
    ensures Arrived(before, was - {srcId}, srcId, di, true)
  {
    DeleteConserves(before, was, srcId, si, di);
    DeleteKeepsHolds(before, was, srcId, srcId, si, di);
  }

  lemma StepsCompose(before: Contents, a: Contents, ta: seq<Contents>, b: Contents, tb: seq<Contents>, c: Contents,
                     tc: seq<Contents>,
                     srcId: nat, si: SourceInfo, di: SourceInfo)
    requires srcId in before
    requires StepKeeps(before, a, ta, b, tb, srcId, si, di) && StepKeeps(before, b, tb, c, tc, srcId, si, di)
    ensures StepKeeps(before, a, ta, c, tc, srcId, si, di)
  {
    hide Conserves;
    forall i | |ta| <= i < |tc| ensures Conserves(before, tc[i], si, di) {
      if i < |tb| {
        assert tc[i] == tb[i];
      }
    }
  }

  method DropSource(store: ManifestStore, ghost before: Contents, srcId: nat, ghost si: SourceInfo,
                    ghost di: SourceInfo)
    returns (ok: bool)
    requires store.Valid() && Allowed(si, di) && Conserves(before, store.entries, si, di)
    requires Moves(before, srcId, si, di) && srcId in store.entries
    requires Holds(store.entries, CopyDestination(before[srcId].man.source, di), before[srcId].man)
    modifies store
    ensures store.Valid() && store.nextId == old(store.nextId)
    ensures StepKeeps(before, old(store.entries), old(store.trail), store.entries, store.trail, srcId, si, di)
    ensures ok ==> Arrived(before, store.entries, srcId, di, true)
    ensures forall id :: id in old(store.entries) && id != srcId ==> id in store.entries
  {
    DeleteStep(before, store.entries, store.trail, srcId, si, di);
    hide Conserves, Holds, Moves, Arrived;
    ok := store.Delete(srcId);
  }

  lemma StepConserves(before: Contents, was: Contents, wasTrail: seq<Contents>, c: Contents, trail: seq<Contents>,
                      srcId: nat, si: SourceInfo, di: SourceInfo)
    requires StepKeeps(before, was, wasTrail, c, trail, srcId, si, di)
    ensures Conserves(before, c, si, di)
  {
  }

  method CopyToDestination(store: ManifestStore, ghost before: Contents, man: Manifest, srcId: nat,
                           dstSource: SourceInfo,
                           ghost si: SourceInfo, ghost di: SourceInfo, isMove: bool) returns (ok: bool)
    requires store.Valid() && Allowed(si, di) && Conserves(before, store.entries, si, di)
    requires forall id :: id in before ==> id < store.nextId
    requires Moves(before, srcId, si, di) && srcId in store.entries
    requires man == before[srcId].man && dstSource == CopyDestination(man.source, di)
    modifies store
    ensures store.Valid() && old(store.nextId) <= store.nextId
    ensures StepKeeps(before, old(store.entries), old(store.trail), store.entries, store.trail, srcId, si, di)
    ensures !isMove ==> srcId in store.entries
    ensures ok ==> Arrived(before, store.entries, srcId, di, isMove) && old(store.nextId) in store.entries
  {
    ghost var was, wasTrail := store.entries, store.trail;
    hide Conserves, Holds, Moves, LabelsFor, IsSnapshot, ValidContents, Full;
    var id := store.SaveSnapshot(man.(source := dstSource));
    if id.Err? {
      return false;
    }
    PutStep(before, was, wasTrail, id.value, store.entries[id.value], srcId, si, di);
    hide StepKeeps;
    ok := true;
    if isMove {
      ghost var mid, midTrail := store.entries, store.trail;
      assert Conserves(before, mid, si, di) by { StepConserves(before, was, wasTrail, mid, midTrail, srcId, si, di); }
      ok := DropSource(store, before, srcId, si, di);
      StepsCompose(before, was, wasTrail, mid, midTrail, store.entries, store.trail, srcId, si, di);
    }
  }

  lemma FoundInList(c: Contents, id: nat, dst: seq<nat>, di: SourceInfo, loads: Loads)
    requires id in c && (forall w :: w in dst ==> w in c)
    requires forall w :: w in dst <==> Loaded(c, w, di, loads)
    ensures FoundIn(c, dst, CopyDestination(c[id].man.source, di), c[id].man) <==> Found(c, id, di, loads)
  {
  }

  lemma NoStep(before: Contents, c: Contents, trail: seq<Contents>, srcId: nat, si: SourceInfo, di: SourceInfo)
    requires Conserves(before, c, si, di)
    ensures StepKeeps(before, c, trail, c, trail, srcId, si, di)
  {
  }

  lemma HeldHasArrived(before: Contents, c: Contents, id: nat, di: SourceInfo)
    requires id in before && Holds(c, CopyDestination(before[id].man.source, di), before[id].man)
    ensures Arrived(before, c, id, di, false)
  {
  }

  ghost predicate HasNew(before: Contents, c: Contents) { exists id :: id in c && id !in before }

  /** What handling one source snapshot achieves, by whether it is to be moved and whether it was found. */
  ghost predicate Handled(before: Contents, was: Contents, c: Contents, srcId: nat, si: SourceInfo, di: SourceInfo,
                          isMove: bool, dryRun: bool, loads: Loads, ok: bool)
    requires srcId in before
  {
    var moves, found := Moves(before, srcId, si, di), Found(before, srcId, di, loads);
    && (!moves || dryRun ==> ok && c == was)
    && (!isMove ==> srcId in c)
    && (ok && moves && !dryRun ==> Arrived(before, c, srcId, di, isMove))
    && (moves && !isMove && found ==> ok && c == was)
    && (ok && moves && !dryRun && !found ==> HasNew(before, c))
  }

  /** One source snapshot: skip it, drop it as already copied, or copy it and then drop it. */
  method MoveOne(store: ManifestStore, manifests: Contents, srcId: nat, dstSnapshots: seq<nat>,
                 ghost si: SourceInfo, di: SourceInfo, isMove: bool, dryRun: bool, ghost dstLoads: Loads)
    returns (ok: bool)
    requires store.Valid() && Allowed(si, di) && Conserves(manifests, store.entries, si, di)
    requires forall id :: id in manifests ==> id < store.nextId
    requires srcId in manifests && srcId in store.entries && Listed(manifests[srcId], si)
    requires forall id :: id in dstSnapshots <==> Loaded(manifests, id, di, dstLoads)
    modifies store
    ensures store.Valid() && old(store.nextId) <= store.nextId
    ensures StepKeeps(manifests, old(store.entries), old(store.trail), store.entries, store.trail, srcId, si, di)
    ensures dryRun ==> ok && store.entries == old(store.entries) && store.trail == old(store.trail)
    ensures Handled(manifests, old(store.entries), store.entries, srcId, si, di, isMove, dryRun, dstLoads, ok)
  {
    hide Conserves, Holds, Listed, Arrived, StepKeeps, ValidContents, FoundIn, Found;
    ok := true;
    NoStep(manifests, store.entries, store.trail, srcId, si, di);
    var man := manifests[srcId].man;
    var dstSource := CopyDestination(man.source, di);
    if dstSource == man.source {
      return;
    }
    assert Moves(manifests, srcId, si, di);
    hide Moves;
    var found := SnapshotExists(manifests, dstSnapshots, dstSource, man);
    FoundInList(manifests, srcId, dstSnapshots, di, dstLoads);
    if found {
      ExistingIsHeld(manifests, store.entries, srcId, dstSnapshots, si, di);
      HeldHasArrived(manifests, store.entries, srcId, di);
      if isMove && !dryRun {
        ok := DropSource(store, manifests, srcId, si, di);
      }
    } else if !dryRun {
      ok := CopyToDestination(store, manifests, man, srcId, dstSource, si, di, isMove);
      assert ok ==> HasNew(manifests, store.entries);
    }
  }

  // ---------------------------------------------------------------- the command

  /** Every contents the store had during the run conserves the snapshots. */
  ghost predicate TrailConserves(before: Contents, start: nat, trail: seq<Contents>, si: SourceInfo, di: SourceInfo) {
    forall i :: start <= i < |trail| ==> Conserves(before, trail[i], si, di)
  }

  /** How far a run has come: the sources from n on are untouched, those before n are where they belong. */
  ghost predicate Progress(before: Contents, c: Contents, src: seq<nat>, n: nat, si: SourceInfo, di: SourceInfo,
                           isMove: bool, dryRun: bool)
    requires n <= |src| && forall id :: id in src ==> id in before
  {
    && Conserves(before, c, si, di)
    && (forall k :: n <= k < |src| ==> src[k] in c)
    && (!isMove ==> before.Keys <= c.Keys)
    && (forall id :: id in before && id !in src ==> id in c)
    && (!dryRun ==> forall k :: 0 <= k < n && Moves(before, src[k], si, di) ==> Arrived(before, c, src[k], di, isMove))
  }

  /** A snapshot that has arrived stays, whichever other source the run drops. */
  lemma ArrivedStays(before: Contents, was: Contents, wasTrail: seq<Contents>, c: Contents, trail: seq<Contents>,
                     srcId: nat, k: nat,
                     si: SourceInfo, di: SourceInfo, isMove: bool)
    requires Allowed(si, di) && Moves(before, k, si, di) && k != srcId
    requires srcId in before && Listed(before[srcId], si) && srcId in was && was[srcId] == before[srcId]
    requires !Moves(before, srcId, si, di) ==> c == was
    requires StepKeeps(before, was, wasTrail, c, trail, srcId, si, di) && Arrived(before, was, k, di, isMove)
    ensures Arrived(before, c, k, di, isMove)
  {
    var source, man := CopyDestination(before[k].man.source, di), before[k].man;
    var w :| w in was && IsSnapshot(was[w]) && was[w].readable && was[w].man.source == source
        && was[w].man.startTime == man.startTime && was[w].man.rootId == man.rootId;
    if w == srcId && c != was {
      DestinationInSourceIsFixed(si, di, man.source);
    }
    assert c[w] == was[w];
  }

  lemma Advance(before: Contents, was: Contents, wasTrail: seq<Contents>, c: Contents, trail: seq<Contents>,
                src: seq<nat>, n: nat,
                si: SourceInfo, di: SourceInfo, isMove: bool, dryRun: bool)
    requires Allowed(si, di) && n < |src|
    requires (forall id :: id in src ==> id in before && Listed(before[id], si))
    requires forall i, j :: 0 <= i < j < |src| ==> src[i] != src[j]
    requires Progress(before, was, src, n, si, di, isMove, dryRun)
    requires StepKeeps(before, was, wasTrail, c, trail, src[n], si, di)
    requires !Moves(before, src[n], si, di) || dryRun ==> c == was
    requires !isMove ==> src[n] in c
    requires Moves(before, src[n], si, di) && !dryRun ==> Arrived(before, c, src[n], di, isMove)
    ensures Progress(before, c, src, n + 1, si, di, isMove, dryRun)
  {
    forall k | 0 <= k < n && !dryRun && Moves(before, src[k], si, di) ensures Arrived(before, c, src[k], di, isMove) {
      ArrivedStays(before, was, wasTrail, c, trail, src[n], src[k], si, di, isMove);
    }
    forall k | n + 1 <= k < |src| ensures src[k] in c {
      assert src[k] in was && src[k] != src[n];
    }
  }

  /** A copy that matches the source filter again is a fixed point of the destination. */
  lemma CopiesAreFixed(before: Contents, e: Entry, si: SourceInfo, di: SourceInfo)
    requires Allowed(si, di) && IsCopy(before, e, si, di)
    ensures Matches(si, e.man.source) ==> CopyDestination(e.man.source, di) == e.man.source
  {
  }

  /** Nothing that the filter matches has been made anew. */
  lemma NoNewMoves(before: Contents, c: Contents, id: nat, si: SourceInfo, di: SourceInfo)
    requires Allowed(si, di) && Conserves(before, c, si, di) && Moves(c, id, si, di)
    ensures Moves(before, id, si, di)
  {
    if id !in before {
      CopiesAreFixed(before, c[id], si, di);
    }
  }

  lemma AllArrivedIsComplete(before: Contents, c: Contents, src: seq<nat>, si: SourceInfo, di: SourceInfo, isMove: bool,
                             loads: Loads)
    requires Allowed(si, di) && (forall id :: id in src ==> id in before)
    requires forall id :: id in src <==> Loaded(before, id, si, loads)
    requires Progress(before, c, src, |src|, si, di, isMove, false)
    ensures Complete(before, c, si, di, isMove, loads)
  {
    forall id | Moves(before, id, si, di) && loads(id)
      ensures Arrived(before, c, id, di, isMove)
    {
      assert id in src;
      var k :| 0 <= k < |src| && src[k] == id;
    }
    if isMove {
      forall id
        ensures Moves(c, id, si, di) <==> Moves(before, id, si, di) && !loads(id)
      {
        if Moves(c, id, si, di) {
          NoNewMoves(before, c, id, si, di);
        }
        if Moves(before, id, si, di) && !loads(id) {
          assert id !in src && c[id] == before[id];
        }
      }
    }
  }

  /** Every snapshot handled so far that has to be copied shows as a new one. */
  ghost predicate CopiesShow(before: Contents, c: Contents, src: seq<nat>, n: nat, si: SourceInfo, di: SourceInfo,
                             loads: Loads)
    requires n <= |src| && forall id :: id in src ==> id in before
  {
    forall k :: 0 <= k < n && Moves(before, src[k], si, di) && !Found(before, src[k], di, loads) ==> HasNew(before, c)
  }

  lemma CopiesMore(before: Contents, was: Contents, wasTrail: seq<Contents>, c: Contents, trail: seq<Contents>,
                   src: seq<nat>, n: nat, si: SourceInfo, di: SourceInfo, loads: Loads)
    requires n < |src| && (forall id :: id in src ==> id in before)
    requires StepKeeps(before, was, wasTrail, c, trail, src[n], si, di)
    requires CopiesShow(before, was, src, n, si, di, loads)
    requires Moves(before, src[n], si, di) && !Found(before, src[n], di, loads) ==> HasNew(before, c)
    ensures CopiesShow(before, c, src, n + 1, si, di, loads)
  {
    hide Found, Moves;
    if HasNew(before, was) {
      var id :| id in was && id !in before;
      assert id in c;
    }
  }

  /** A run with something to do shows it: a snapshot has left, or a new one is stored. */
  lemma UnsettledShows(before: Contents, c: Contents, src: seq<nat>, si: SourceInfo, di: SourceInfo, isMove: bool,
                       srcLoads: Loads, dstLoads: Loads)
    requires forall id :: id in src ==> id in before
    requires forall id :: id in src <==> Loaded(before, id, si, srcLoads)
    requires Complete(before, c, si, di, isMove, srcLoads) && CopiesShow(before, c, src, |src|, si, di, dstLoads)
    requires !Settled(before, si, di, isMove, srcLoads, dstLoads)
    ensures c != before
  {
    var id :| Moves(before, id, si, di) && srcLoads(id) && (isMove || !Found(before, id, di, dstLoads));
    hide Found;
    assert id in src;
    var k :| 0 <= k < |src| && src[k] == id;
    if isMove {
      assert !Moves(c, id, si, di);
    }
  }

  /** The host is always part of the query, and no snapshot is stored without one. */
  lemma NoHostFindsNothing(c: Contents, id: nat, di: SourceInfo, loads: Loads)
    requires ValidContents(c) && di.host == "" && id in c
    ensures !Found(c, id, di, loads)
  {
  }

  lemma NothingChanged(c: Contents, start: nat, trail: seq<Contents>, si: SourceInfo, di: SourceInfo)
    requires start == |trail|
    ensures Conserves(c, c, si, di) && TrailConserves(c, start, trail, si, di)
  {
  }

  /** A settled snapshot is skipped: it is not to be moved, or it is to be copied and is found. */
  lemma SettledSkips(c: Contents, src: seq<nat>, n: nat, si: SourceInfo, di: SourceInfo, isMove: bool, srcLoads: Loads,
                     dstLoads: Loads)
    requires n < |src| && forall id :: id in src <==> Loaded(c, id, si, srcLoads)
    ensures src[n] in c && Listed(c[src[n]], si)
    ensures Settled(c, si, di, isMove, srcLoads, dstLoads) && Moves(c, src[n], si, di) ==>
              !isMove && Found(c, src[n], di, dstLoads)
  {
    assert src[n] in src;
  }

  lemma NothingMoved(c: Contents, src: seq<nat>, si: SourceInfo, di: SourceInfo, isMove: bool, dryRun: bool)
    requires forall id :: id in src ==> id in c
    ensures Progress(c, c, src, 0, si, di, isMove, dryRun)
  {
  }

  lemma ProgressConserves(before: Contents, c: Contents, src: seq<nat>, n: nat, si: SourceInfo, di: SourceInfo,
                          isMove: bool, dryRun: bool)
    requires n <= |src| && forall id :: id in src ==> id in before
    requires Progress(before, c, src, n, si, di, isMove, dryRun)
    ensures Conserves(before, c, si, di) && (n < |src| ==> src[n] in c) && (!isMove ==> before.Keys <= c.Keys)
  {
  }

  lemma TrailGrows(before: Contents, start: nat, was: Contents, wasTrail: seq<Contents>, c: Contents,
                   trail: seq<Contents>,
                   srcId: nat, si: SourceInfo, di: SourceInfo)
    requires StepKeeps(before, was, wasTrail, c, trail, srcId, si, di)
    requires TrailConserves(before, start, wasTrail, si, di)
    ensures wasTrail <= trail && TrailConserves(before, start, trail, si, di)
    ensures Conserves(before, c, si, di)
  {
    hide Conserves;
  }

  /** The loop has come to source n. */
  ghost predicate Underway(before: Contents, c: Contents, src: seq<nat>, n: nat, si: SourceInfo, di: SourceInfo,
                           isMove: bool, dryRun: bool, srcLoads: Loads, dstLoads: Loads) {
    && n <= |src| && (forall id :: id in src ==> id in before)
    && Progress(before, c, src, n, si, di, isMove, dryRun)
    && (Settled(before, si, di, isMove, srcLoads, dstLoads) ==> c == before)
    && (!dryRun ==> CopiesShow(before, c, src, n, si, di, dstLoads))
  }

  lemma BeforeAll(c: Contents, src: seq<nat>, si: SourceInfo, di: SourceInfo, isMove: bool, dryRun: bool,
                  srcLoads: Loads, dstLoads: Loads)
    requires forall id :: id in src <==> Loaded(c, id, si, srcLoads)
    ensures Underway(c, c, src, 0, si, di, isMove, dryRun, srcLoads, dstLoads)
  {
    NothingMoved(c, src, si, di, isMove, dryRun);
    hide Progress, Settled;
  }

  lemma BeforeOne(before: Contents, c: Contents, src: seq<nat>, n: nat, si: SourceInfo, di: SourceInfo, isMove: bool,
                  dryRun: bool, srcLoads: Loads, dstLoads: Loads)
    requires n < |src| && forall id :: id in src <==> Loaded(before, id, si, srcLoads)
    requires Underway(before, c, src, n, si, di, isMove, dryRun, srcLoads, dstLoads)
    ensures Conserves(before, c, si, di) && src[n] in before && src[n] in c && Listed(before[src[n]], si)
  {
    ProgressConserves(before, c, src, n, si, di, isMove, dryRun);
    SettledSkips(before, src, n, si, di, isMove, srcLoads, dstLoads);
  }

  lemma AfterOne(before: Contents, was: Contents, wasTrail: seq<Contents>, c: Contents, trail: seq<Contents>,
                 src: seq<nat>, n: nat, si: SourceInfo, di: SourceInfo, isMove: bool, dryRun: bool, srcLoads: Loads,
                 dstLoads: Loads, ok: bool)
    requires Allowed(si, di) && n < |src| && forall id :: id in src <==> Loaded(before, id, si, srcLoads)
    requires forall i, j :: 0 <= i < j < |src| ==> src[i] != src[j]
    requires Underway(before, was, src, n, si, di, isMove, dryRun, srcLoads, dstLoads)
    requires StepKeeps(before, was, wasTrail, c, trail, src[n], si, di) && src[n] in before
    requires Handled(before, was, c, src[n], si, di, isMove, dryRun, dstLoads, ok)
    ensures !isMove ==> before.Keys <= c.Keys
    ensures Settled(before, si, di, isMove, srcLoads, dstLoads) ==> ok && c == before
    ensures ok ==> Underway(before, c, src, n + 1, si, di, isMove, dryRun, srcLoads, dstLoads)
  {
    ProgressConserves(before, was, src, n, si, di, isMove, dryRun);
    SettledSkips(before, src, n, si, di, isMove, srcLoads, dstLoads);
    assert forall id :: id in src ==> id in before && Listed(before[id], si);
    assert !isMove ==> before.Keys <= c.Keys;
    hide Conserves, Settled, Moves, Listed, Arrived, Found, Loaded, HasNew;
    if ok {
      Advance(before, was, wasTrail, c, trail, src, n, si, di, isMove, dryRun);
      if !dryRun {
        CopiesMore(before, was, wasTrail, c, trail, src, n, si, di, dstLoads);
      }
    }
  }

  lemma AfterAll(before: Contents, c: Contents, src: seq<nat>, si: SourceInfo, di: SourceInfo, isMove: bool,
                 dryRun: bool, srcLoads: Loads, dstLoads: Loads)
    requires Allowed(si, di) && forall id :: id in src <==> Loaded(before, id, si, srcLoads)
    requires Underway(before, c, src, |src|, si, di, isMove, dryRun, srcLoads, dstLoads)
    ensures Conserves(before, c, si, di) && (!isMove ==> before.Keys <= c.Keys)
    ensures Settled(before, si, di, isMove, srcLoads, dstLoads) ==> c == before
    ensures !dryRun ==> Complete(before, c, si, di, isMove, srcLoads)
    ensures !dryRun && c == before ==> Settled(before, si, di, isMove, srcLoads, dstLoads)
  {
    hide Conserves, Settled, Moves, Listed, Arrived, Found, Loaded, HasNew, Progress, CopiesShow, Complete;
    ProgressConserves(before, c, src, |src|, si, di, isMove, dryRun);
    if !dryRun {
      AllArrivedIsComplete(before, c, src, si, di, isMove, srcLoads);
      if !Settled(before, si, di, isMove, srcLoads, dstLoads) {
        UnsettledShows(before, c, src, si, di, isMove, srcLoads, dstLoads);
      }
    }
  }

  /** The loop over the source snapshots that were listed. */
  method MoveAll(store: ManifestStore, srcSnapshots: seq<nat>, dstSnapshots: seq<nat>, si: SourceInfo, di: SourceInfo,
                 isMove: bool, dryRun: bool, ghost srcLoads: Loads, ghost dstLoads: Loads)
    returns (ok: bool)
    requires store.Valid() && Allowed(si, di)
    requires forall id :: id in srcSnapshots <==> Loaded(store.entries, id, si, srcLoads)
    requires forall id :: id in dstSnapshots <==> Loaded(store.entries, id, di, dstLoads)
    requires forall i, j :: 0 <= i < j < |srcSnapshots| ==> srcSnapshots[i] != srcSnapshots[j]
    modifies store
    ensures store.Valid() && old(store.trail) <= store.trail
    ensures TrailConserves(old(store.entries), |old(store.trail)|, store.trail, si, di)
    ensures Conserves(old(store.entries), store.entries, si, di)
    ensures dryRun ==> ok && store.entries == old(store.entries) && store.trail == old(store.trail)
    ensures !isMove ==> old(store.entries).Keys <= store.entries.Keys
    ensures Settled(old(store.entries), si, di, isMove, srcLoads, dstLoads) ==>
              ok && store.entries == old(store.entries)
    ensures ok && !dryRun ==> Complete(old(store.entries), store.entries, si, di, isMove, srcLoads)
    ensures ok && !dryRun && store.entries == old(store.entries) ==>
              Settled(old(store.entries), si, di, isMove, srcLoads, dstLoads)
  {
    var manifests := store.entries;
    ghost var start := |store.trail|;
    NothingChanged(manifests, start, store.trail, si, di);
    BeforeAll(manifests, srcSnapshots, si, di, isMove, dryRun, srcLoads, dstLoads);
    hide *;
    ok := true;
    for n := 0 to |srcSnapshots|
      invariant ok && store.Valid() && old(store.nextId) <= store.nextId
      invariant old(store.trail) <= store.trail && TrailConserves(manifests, start, store.trail, si, di)
      invariant dryRun ==> store.entries == manifests && store.trail == old(store.trail)
      invariant Underway(manifests, store.entries, srcSnapshots, n, si, di, isMove, dryRun, srcLoads, dstLoads)
    {
      ghost var was, wasTrail := store.entries, store.trail;
      BeforeOne(manifests, was, srcSnapshots, n, si, di, isMove, dryRun, srcLoads, dstLoads);
      ok := MoveOne(store, manifests, srcSnapshots[n], dstSnapshots, si, di, isMove, dryRun, dstLoads);
      TrailGrows(manifests, start, was, wasTrail, store.entries, store.trail, srcSnapshots[n], si, di);
      AfterOne(manifests, was, wasTrail, store.entries, store.trail, srcSnapshots, n, si, di, isMove, dryRun, srcLoads,
               dstLoads, ok);
      if !ok {
        return;
      }
    }
    AfterAll(manifests, store.entries, srcSnapshots, si, di, isMove, dryRun, srcLoads, dstLoads);
  }

  /** The run over the two listings; `listed` says that both could be made. */
  method Run(store: ManifestStore, si: SourceInfo, di: SourceInfo, isMove: bool, dryRun: bool, srcLoads: Loads,
             dstLoads: Loads)
    returns (ok: bool, ghost listed: bool)
    requires store.Valid() && Allowed(si, di)
    modifies store
    ensures store.Valid() && old(store.trail) <= store.trail
    ensures TrailConserves(old(store.entries), |old(store.trail)|, store.trail, si, di)
    ensures Conserves(old(store.entries), store.entries, si, di)
    ensures dryRun || !listed ==> store.entries == old(store.entries) && store.trail == old(store.trail)
    ensures dryRun ==> (ok <==> listed)
    ensures !isMove ==> old(store.entries).Keys <= store.entries.Keys
    ensures ok && !dryRun ==> Complete(old(store.entries), store.entries, si, di, isMove, srcLoads)
    ensures Settled(old(store.entries), si, di, isMove, srcLoads, dstLoads) ==>
              (listed ==> ok) && store.entries == old(store.entries)
    ensures ok && !dryRun && store.entries == old(store.entries) ==>
              Settled(old(store.entries), si, di, isMove, srcLoads, dstLoads)
  {
    ok, listed := false, false;
    NothingChanged(store.entries, |store.trail|, store.trail, si, di);
    hide *;
    var src := store.ListSnapshots(si, srcLoads);
    if src.Err? {
      return;
    }
    var dst := store.ListSnapshots(di, dstLoads);
    if dst.Err? {
      return;
    }
    listed := true;
    ok := MoveAll(store, src.value, dst.value, si, di, isMove, dryRun, srcLoads, dstLoads);
  }

  // ---------------------------------------------------------------- running it again

  lemma DestinationFound(c: Contents, id: nat, di: SourceInfo, loads: Loads)
    requires id in c
    ensures di.host != "" && AllLoad(loads) && Holds(c, CopyDestination(c[id].man.source, di), c[id].man) ==>
              Found(c, id, di, loads)
  {
    var d := CopyDestination(c[id].man.source, di);
    if di.host != "" && AllLoad(loads) && Holds(c, d, c[id].man) {
      DestinationIsListed(di, c[id].man.source);
      var w :| w in c && IsSnapshot(c[w]) && c[w].readable && c[w].man.source == d
          && c[w].man.startTime == c[id].man.startTime && c[w].man.rootId == c[id].man.rootId;
      assert Loaded(c, w, di, loads);
    }
  }

  /** A completed run whose loads all succeeded leaves nothing for the next one, given a host or a move. */
  lemma CompleteIsSettled(before: Contents, c: Contents, si: SourceInfo, di: SourceInfo, isMove: bool, loads: Loads,
                          srcLoads: Loads, dstLoads: Loads)
    requires Allowed(si, di) && Conserves(before, c, si, di) && Complete(before, c, si, di, isMove, loads)
    requires AllLoad(loads) && (isMove || (di.host != "" && AllLoad(dstLoads)))
    ensures Settled(c, si, di, isMove, srcLoads, dstLoads)
  {
    forall id | Moves(c, id, si, di)
      ensures !isMove && Found(c, id, di, dstLoads)
    {
      NoNewMoves(before, c, id, si, di);
      DestinationFound(c, id, di, dstLoads);
    }
  }

  ghost predicate AnyMoves(c: Contents, si: SourceInfo, di: SourceInfo) { exists id :: Moves(c, id, si, di) }

  /** Without a destination host nothing is found there, so a copy is settled only when there is nothing to copy. */
  lemma NoHostIsNeverSettled(c: Contents, si: SourceInfo, di: SourceInfo, srcLoads: Loads, dstLoads: Loads)
    requires ValidContents(c) && di.host == "" && AllLoad(srcLoads)
    ensures Settled(c, si, di, false, srcLoads, dstLoads) <==> !AnyMoves(c, si, di)
  {
    hide Found;
    forall id | Moves(c, id, si, di)
      ensures !Found(c, id, di, dstLoads)
    {
      NoHostFindsNothing(c, id, di, dstLoads);
    }
  }

  lemma CopiesStayMoves(before: Contents, c: Contents, si: SourceInfo, di: SourceInfo)
    requires Allowed(si, di) && Conserves(before, c, si, di) && before.Keys <= c.Keys
    ensures AnyMoves(before, si, di) <==> AnyMoves(c, si, di)
  {
    if id :| Moves(before, id, si, di) {
      assert c[id] == before[id] && Moves(c, id, si, di);
    }
    if id :| Moves(c, id, si, di) {
      NoNewMoves(before, c, id, si, di);
    }
  }

  /**
   A second identical run changes the store exactly when it is not settled under the loads of its own two
   listings. If every load succeeds that is never, except for a copy without a destination host: that one copies
   again exactly when there was anything to copy.
   */
  method RunAgain(store: ManifestStore, si: SourceInfo, di: SourceInfo, isMove: bool, loads: Loads, srcLoads: Loads,
                  dstLoads: Loads)
    returns (first: bool, second: bool, between: Contents)
    requires store.Valid() && Allowed(si, di)
    modifies store
    ensures store.Valid()
    ensures first ==> Complete(old(store.entries), between, si, di, isMove, loads)
    ensures first && second ==> (store.entries == between <==> Settled(between, si, di, isMove, srcLoads, dstLoads))
    ensures first && AllLoad(loads) && (isMove || (di.host != "" && AllLoad(dstLoads))) ==> store.entries == between
    ensures first && second && !isMove && di.host == "" && AllLoad(srcLoads) ==>
              (store.entries == between <==> !AnyMoves(old(store.entries), si, di))
  {
    hide Settled, Complete, Conserves, TrailConserves, ValidContents, Allowed, Moves, AllLoad;
    ghost var listed;
    first, listed := Run(store, si, di, isMove, false, loads, (id: nat) => true);
    second, between := false, store.entries;
    if first {
      if AllLoad(loads) && (isMove || (di.host != "" && AllLoad(dstLoads))) {
        CompleteIsSettled(old(store.entries), between, si, di, isMove, loads, srcLoads, dstLoads);
      }
      if !isMove && di.host == "" && AllLoad(srcLoads) {
        CopiesStayMoves(old(store.entries), between, si, di);
        NoHostIsNeverSettled(between, si, di, srcLoads, dstLoads);
      }
      second, listed := Run(store, si, di, isMove, false, srcLoads, dstLoads);
    }
  }

  /** The command: both arguments are parsed and checked, then the history is copied or moved. */
  method CopyMoveHistory(store: ManifestStore, sourceArg: string, destinationArg: string, hostname: string,
                         username: string, abs: string -> Result<string>, isMove: bool, dryRun: bool, srcLoads: Loads,
                         dstLoads: Loads)
    returns (ok: bool)
    requires store.Valid()
    modifies store
    ensures store.Valid()
    ensures var args := CopySourceAndDestination(sourceArg, destinationArg, hostname, username, abs);
      if args.Err? then !ok && store.entries == old(store.entries) && store.trail == old(store.trail)
      else
        && TrailConserves(old(store.entries), |old(store.trail)|, store.trail, args.value.0, args.value.1)
        && Conserves(old(store.entries), store.entries, args.value.0, args.value.1)
        && (ok && !dryRun ==>
              Complete(old(store.entries), store.entries, args.value.0, args.value.1, isMove, srcLoads))
        && (dryRun ==> store.entries == old(store.entries) && store.trail == old(store.trail))
  {
    hide Settled, Complete, Conserves, TrailConserves, ValidContents, Allowed, Moves, Parse;
    var args := CopySourceAndDestination(sourceArg, destinationArg, hostname, username, abs);
    if args.Err? {
      return false;
    }
    ghost var listed;
    ok, listed := Run(store, args.value.0, args.value.1, isMove, dryRun, srcLoads, dstLoads);
  }

  /**
   The failing run: when no load of the snapshots to be moved succeeds, the move does nothing and, as soon as it
   could list, reports success.
   */
  method UnloadedIsNotMoved(store: ManifestStore, si: SourceInfo, di: SourceInfo, srcLoads: Loads, dstLoads: Loads)
    returns (ok: bool, ghost listed: bool)
    requires store.Valid() && Allowed(si, di) && AnyMoves(store.entries, si, di)
    requires forall id :: Moves(store.entries, id, si, di) ==> !srcLoads(id)
    modifies store
    ensures listed ==> ok
    ensures store.entries == old(store.entries) && AnyMoves(store.entries, si, di)
  {
    assert Settled(store.entries, si, di, true, srcLoads, dstLoads);
    hide *;
    ok, listed := Run(store, si, di, true, false, srcLoads, dstLoads);
  }

  /** A snapshot whose only copy, w, could not be loaded this time is to be copied again. */
  lemma UnloadedIsCopiedAgain(c: Contents, si: SourceInfo, di: SourceInfo, srcLoads: Loads, dstLoads: Loads, id: nat,
                              w: nat)
    requires Moves(c, id, si, di) && srcLoads(id) && !dstLoads(w)
    requires forall x :: x in c && c[x].man.source == CopyDestination(c[id].man.source, di) ==> x == w
    ensures !Settled(c, si, di, false, srcLoads, dstLoads)
  {
    assert !Found(c, id, di, dstLoads);
  }

  lemma EmptyHostParses(hostname: string, username: string, abs: string -> Result<string>)
    ensures CopySourceAndDestination("u@h:/p", "v@:/q", hostname, username, abs)
         == Ok((SourceInfo("h", "u", "/p"), SourceInfo("", "v", "/q")))
  {
    var si, di := SourceInfo("h", "u", "/p"), SourceInfo("", "v", "/q");
    assert Print(si) == "u@h:/p" && Print(di) == "v@:/q";
    ParseUndoesPrint(si, hostname, username, abs);
    ParseUndoesPrint(di, hostname, username, abs);
  }

  /**
   A command line with an empty destination host: the snapshot of u@h:/p is to be copied to v@h:/q, and stays
   to be copied however many copies are already there.
   */
  lemma EmptyHostExample(c: Contents, hostname: string, username: string, abs: string -> Result<string>, id: nat)
    requires ValidContents(c)
    requires id in c && IsSnapshot(c[id]) && c[id].readable && c[id].man.source == SourceInfo("h", "u", "/p")
    ensures var si, di := SourceInfo("h", "u", "/p"), SourceInfo("", "v", "/q");
      && CopySourceAndDestination("u@h:/p", "v@:/q", hostname, username, abs) == Ok((si, di))
      && CopyDestination(si, di) == SourceInfo("h", "v", "/q")
      && AnyMoves(c, si, di)
      && forall srcLoads: Loads, dstLoads: Loads :: AllLoad(srcLoads) ==> !Settled(c, si, di, false, srcLoads, dstLoads)
  {
    var si, di := SourceInfo("h", "u", "/p"), SourceInfo("", "v", "/q");
    EmptyHostParses(hostname, username, abs);
    hide CopySourceAndDestination, ValidContents, Settled;
    assert Moves(c, id, si, di);
    forall srcLoads: Loads, dstLoads: Loads | AllLoad(srcLoads)
      ensures !Settled(c, si, di, false, srcLoads, dstLoads)
    {
      NoHostIsNeverSettled(c, si, di, srcLoads, dstLoads);
    }
  }
}

/**
 `blob shards modify`: complete blobs are renamed to the places new sharding
 parameters give them, while the directory tree they live in is being walked,
 and directories left without files are removed afterwards.

 Paths are relative to the root, one string per element. Any file operation may
 fail, and the command then returns with an error.
 */
module Resharding {
  import opened Wrappers

  type Path = seq<string>

  // ---------------------------------------------------------------- where a blob belongs

  /** The elements of a path, strung together. */
  function Concat(p: Path): string {
    if p == [] then "" else Concat(p[..|p| - 1]) + p[|p| - 1]
  }

  lemma ConcatSnoc(dir: Path, name: string)
    ensures Concat(dir + [name]) == Concat(dir) + name
  {
    assert (dir + [name])[..|dir|] == dir;
  }

  const SUFFIX := ".f"

  predicate Complete(name: string) { |name| >= 2 && name[|name| - 2..] == SUFFIX }

  /** The blob a complete file holds: the directories it is in and its name, without the suffix. */
  function BlobAt(dir: Path, name: string): string
    requires Complete(name)
  {
    Concat(dir) + name[..|name| - 2]
  }

  datatype Parameters = Parameters(defaultShards: seq<nat>, unshardedLength: int, overrides: seq<(string, seq<nat>)>)

  function ShardsFor(overrides: seq<(string, seq<nat>)>, defaultShards: seq<nat>, id: string): seq<nat> {
    if overrides == [] then defaultShards
    else if overrides[0].0 <= id then overrides[0].1
    else ShardsFor(overrides[1..], defaultShards, id)
  }

  /** The slices that become directories, and what is left for the file name. */
  function Slices(sizes: seq<nat>, id: string): (seq<string>, string) {
    if sizes == [] || |id| <= sizes[0] then ([], id)
    else
      var (dirs, rest) := Slices(sizes[1..], id[sizes[0]..]);
      ([id[..sizes[0]]] + dirs, rest)
  }

  function SlicesOf(params: Parameters, id: string): (seq<string>, string) {
    if |id| <= params.unshardedLength then ([], id)
    else Slices(ShardsFor(params.overrides, params.defaultShards, id), id)
  }

  /** path.Join below the root: empty and "." elements vanish, ".." takes the last one back, or leaves the root. */
  function Join(dir: Path, slices: seq<string>): Option<Path>
    decreases |slices|
  {
    if slices == [] then Some(dir)
    else if slices[0] == "" || slices[0] == "." then Join(dir, slices[1..])
    else if slices[0] == ".." then (if dir == [] then None else Join(dir[..|dir| - 1], slices[1..]))
    else Join(dir + [slices[0]], slices[1..])
  }

  /** GetShardDirectoryAndBlob, with the directory relative to the root. None is a place outside the root. */
  function CanonicalDir(params: Parameters, id: string): Option<Path> { Join([], SlicesOf(params, id).0) }

  function CanonicalName(params: Parameters, id: string): string { SlicesOf(params, id).1 + SUFFIX }

  /** No slice of the ID is a "." or ".." element. */
  predicate Dotless(slices: seq<string>) {
    slices == [] || (slices[0] != "." && slices[0] != ".." && Dotless(slices[1..]))
  }

  lemma {:induction false} ConcatCons(name: string, p: Path)
    ensures Concat([name] + p) == name + Concat(p)
  {
    if p == [] {
      assert [name] + p == [] + [name];
      ConcatSnoc([], name);
    } else {
      var init, last := p[..|p| - 1], p[|p| - 1];
      ConcatCons(name, init);
      assert [name] + p == ([name] + init) + [last];
      ConcatSnoc([name] + init, last);
    }
  }

  lemma SlicesSpell(sizes: seq<nat>, id: string)
    ensures var (dirs, rest) := Slices(sizes, id); Concat(dirs) + rest == id
  {
    if sizes != [] && |id| > sizes[0] {
      SlicesSpell(sizes[1..], id[sizes[0]..]);
      ConcatCons(id[..sizes[0]], Slices(sizes[1..], id[sizes[0]..]).0);
    }
  }

  /** Joining keeps every character unless an element is "." or "..", and then it loses some. */
  lemma {:induction false} JoinSpells(dir: Path, slices: seq<string>)
    ensures Dotless(slices) ==>
              Join(dir, slices).Some? && Concat(Join(dir, slices).value) == Concat(dir) + Concat(slices)
    ensures !Dotless(slices) && Join(dir, slices).Some? ==>
              |Concat(Join(dir, slices).value)| < |Concat(dir)| + |Concat(slices)|
    decreases |slices|
  {
    if slices != [] {
      var s, rest := slices[0], slices[1..];
      assert slices == [s] + rest;
      ConcatCons(s, rest);
      if s == "" || s == "." {
        JoinSpells(dir, rest);
      } else if s == ".." {
        if dir != [] {
          JoinSpells(dir[..|dir| - 1], rest);
        }
      } else {
        JoinSpells(dir + [s], rest);
        ConcatSnoc(dir, s);
      }
    }
  }

  /** The canonical place spells the blob ID back exactly when no slice of the ID is "." or "..". */
  lemma CanonicalPlaceSpellsId(params: Parameters, id: string)
    ensures Complete(CanonicalName(params, id))
    ensures
      Dotless(SlicesOf(params, id).0) <==>
      CanonicalDir(params, id).Some? && BlobAt(CanonicalDir(params, id).value, CanonicalName(params, id)) == id
  {
    var (slices, rest) := SlicesOf(params, id);
    assert CanonicalName(params, id)[..|rest|] == rest;
    if |id| > params.unshardedLength {
      SlicesSpell(ShardsFor(params.overrides, params.defaultShards, id), id);
    }
    assert Concat(slices) + rest == id;
    JoinSpells([], slices);
  }

  // ----------------------------------------------------- the place, character by character

  ghost predicate Begins(prefix: string, id: string) { |prefix| <= |id| && id[..|prefix|] == prefix }

  /** Override i is the first whose prefix begins the ID; i is their number if there is none. */
  ghost predicate FirstOverride(overrides: seq<(string, seq<nat>)>, id: string, i: nat) {
    && i <= |overrides|
    && (forall k :: 0 <= k < i ==> !Begins(overrides[k].0, id))
    && (i < |overrides| ==> Begins(overrides[i].0, id))
  }

  ghost function SizesAt(overrides: seq<(string, seq<nat>)>, defaultShards: seq<nat>, i: nat): seq<nat> {
    if i < |overrides| then overrides[i].1 else defaultShards
  }

  lemma {:induction false} FirstOverrideDecides(overrides: seq<(string, seq<nat>)>, defaultShards: seq<nat>, id: string,
                                                i: nat)
    requires FirstOverride(overrides, id, i)
    ensures ShardsFor(overrides, defaultShards, id) == SizesAt(overrides, defaultShards, i)
  {
    if overrides != [] {
      assert overrides[0].0 <= id <==> Begins(overrides[0].0, id);
      if i > 0 {
        FirstOverrideDecides(overrides[1..], defaultShards, id, i - 1);
      }
    }
  }

  /** How many characters the first k sizes take. */
  ghost function Total(sizes: seq<nat>, k: nat): nat
    requires k <= |sizes|
  {
    if k == 0 then 0 else Total(sizes, k - 1) + sizes[k - 1]
  }

  /** The characters that size k takes from the ID. */
  ghost function Cut(sizes: seq<nat>, id: string, k: nat): string
    requires k < |sizes| && Total(sizes, k + 1) <= |id|
  {
    id[Total(sizes, k)..Total(sizes, k + 1)]
  }

  /** The sizes up to n leave something of the ID. */
  ghost predicate Cuttable(sizes: seq<nat>, id: string, n: nat) {
    n <= |sizes| && forall k :: 0 <= k <= n ==> Total(sizes, k) <= |id| && (k > 0 ==> Total(sizes, k) < |id|)
  }

  /** Cutting stops after n slices: the sizes have run out, or the rest is no longer than the next size. */
  ghost predicate CutsAfter(sizes: seq<nat>, id: string, n: nat) {
    Cuttable(sizes, id, n) && (n < |sizes| ==> |id| - Total(sizes, n) <= sizes[n])
  }

  /** Whether and how slice j is cut, in terms of the whole ID. */
  lemma SliceStep(sizes: seq<nat>, id: string, j: nat)
    requires Cuttable(sizes, id, j)
    ensures j == |sizes| || Total(sizes, j + 1) >= |id| ==>
              Slices(sizes[j..], id[Total(sizes, j)..]) == ([], id[Total(sizes, j)..]) && CutsAfter(sizes, id, j)
    ensures j < |sizes| && Total(sizes, j + 1) < |id| ==>
              Cuttable(sizes, id, j + 1)
                  && var (dirs, rest) := Slices(sizes[j + 1..], id[Total(sizes, j + 1)..]);
                     Slices(sizes[j..], id[Total(sizes, j)..]) == ([Cut(sizes, id, j)] + dirs, rest)
  {
    var behind := id[Total(sizes, j)..];
    if j < |sizes| && Total(sizes, j + 1) < |id| {
      assert sizes[j..][1..] == sizes[j + 1..];
      assert behind[sizes[j]..] == id[Total(sizes, j + 1)..];
      assert behind[..sizes[j]] == Cut(sizes, id, j);
    }
  }

  /** What the slices from j on are, and where they end. */
  lemma {:induction false} SlicesFrom(sizes: seq<nat>, id: string, j: nat)
    requires Cuttable(sizes, id, j)
    ensures var (slices, rest) := Slices(sizes[j..], id[Total(sizes, j)..]);
      && CutsAfter(sizes, id, j + |slices|) && rest == id[Total(sizes, j + |slices|)..]
      && forall k :: 0 <= k < |slices| ==> slices[k] == Cut(sizes, id, j + k)
    decreases |sizes| - j
  {
    SliceStep(sizes, id, j);
    if j < |sizes| && Total(sizes, j + 1) < |id| {
      hide Slices, Cut, Total;
      SlicesFrom(sizes, id, j + 1);
    }
  }

  lemma CutsAfterOnce(sizes: seq<nat>, id: string, n: nat, m: nat)
    requires CutsAfter(sizes, id, n) && CutsAfter(sizes, id, m)
    ensures n <= m
  {
    var next := if m < |sizes| then m + 1 else m;
    assert Total(sizes, next) == Total(sizes, m) + if m < |sizes| then sizes[m] else 0;
  }

  /** The indices of the slices that are not empty, in order. */
  ghost predicate Picks(slices: seq<string>, picks: seq<nat>) {
    && (forall a, b :: 0 <= a < b < |picks| ==> picks[a] < picks[b])
    && (forall a :: 0 <= a < |picks| ==> picks[a] < |slices| && slices[picks[a]] != "")
    && (forall k :: 0 <= k < |slices| && slices[k] != "" ==> k in picks)
  }

  ghost predicate Picked(slices: seq<string>, picks: seq<nat>, p: Path) {
    |p| <= |picks| && forall a :: 0 <= a < |p| ==> picks[a] < |slices| && p[a] == slices[picks[a]]
  }

  /** The first c picks are those before j. */
  ghost predicate PickedUpTo(picks: seq<nat>, c: nat, j: nat) {
    && c <= |picks|
    && (forall a :: 0 <= a < c ==> picks[a] < j)
    && (forall a :: c <= a < |picks| ==> j <= picks[a])
  }

  lemma NextPick(slices: seq<string>, picks: seq<nat>, c: nat, j: nat)
    requires Picks(slices, picks) && j < |slices| && PickedUpTo(picks, c, j)
    ensures slices[j] != "" ==> c < |picks| && picks[c] == j && PickedUpTo(picks, c + 1, j + 1)
    ensures slices[j] == "" ==> PickedUpTo(picks, c, j + 1)
  {
    if slices[j] != "" {
      var a :| 0 <= a < |picks| && picks[a] == j;
      assert c <= a;
    }
  }

  lemma PickInRange(slices: seq<string>, picks: seq<nat>, a: nat)
    requires Picks(slices, picks)
    ensures a < |picks| ==> picks[a] < |slices|
  {
  }

  lemma JoinStep(dir: Path, slices: seq<string>, j: nat)
    requires j < |slices| && Dotless(slices[j..])
    ensures Dotless(slices[j + 1..])
    ensures Join(dir, slices[j..]) == Join(if slices[j] == "" then dir else dir + [slices[j]], slices[j + 1..])
  {
    assert slices[j..][1..] == slices[j + 1..];
  }

  /** Without "." and ".." joining keeps exactly the slices that are not empty. */
  lemma {:induction false} JoinPicks(dir: Path, slices: seq<string>, picks: seq<nat>, j: nat)
    requires Picks(slices, picks) && j <= |slices| && Dotless(slices[j..])
    requires Picked(slices, picks, dir) && PickedUpTo(picks, |dir|, j)
    ensures Join(dir, slices[j..]).Some?
    ensures var p := Join(dir, slices[j..]).value; |p| == |picks| && Picked(slices, picks, p)
    decreases |slices| - j
  {
    if j == |slices| {
      PickInRange(slices, picks, |dir|);
    } else {
      hide Picks, PickedUpTo, Dotless, Join;
      JoinStep(dir, slices, j);
      NextPick(slices, picks, |dir|, j);
      JoinPicks(if slices[j] == "" then dir else dir + [slices[j]], slices, picks, j + 1);
    }
  }

  // ---------------------------------------------------------------- files

  type Files = map<Path, string>

  function Init(p: Path): Path
    requires p != []
  {
    p[..|p| - 1]
  }

  function Name(p: Path): string
    requires p != []
  {
    p[|p| - 1]
  }

  predicate IsBlob(p: Path) { p != [] && Complete(Name(p)) }

  function BlobOf(p: Path): string
    requires IsBlob(p)
  {
    BlobAt(Init(p), Name(p))
  }

  function BlobIds(files: Files): set<string> { set p | p in files && IsBlob(p) :: BlobOf(p) }

  predicate Canonical(params: Parameters, p: Path)
    requires IsBlob(p)
  {
    CanonicalDir(params, BlobOf(p)) == Some(Init(p)) && CanonicalName(params, BlobOf(p)) == Name(p)
  }

  /** Whether a path element is one a file or directory can have. */
  ghost predicate Proper(p: Path) { forall k :: 0 <= k < |p| ==> p[k] != "." && p[k] != ".." }

  /** The slices cut from the ID, up to n. */
  ghost function Cuts(sizes: seq<nat>, id: string, n: nat): seq<string>
    requires Cuttable(sizes, id, n)
  {
    seq(n, k requires 0 <= k < n => Cut(sizes, id, k))
  }

  lemma SlicesAreCuts(params: Parameters, id: string, i: nat, n: nat)
    requires FirstOverride(params.overrides, id, i) && |id| > params.unshardedLength
    requires CutsAfter(SizesAt(params.overrides, params.defaultShards, i), id, n)
    ensures var sizes := SizesAt(params.overrides, params.defaultShards, i);
      SlicesOf(params, id) == (Cuts(sizes, id, n), id[Total(sizes, n)..])
  {
    var sizes := SizesAt(params.overrides, params.defaultShards, i);
    FirstOverrideDecides(params.overrides, params.defaultShards, id, i);
    assert sizes[0..] == sizes && id[0..] == id;
    SlicesFrom(sizes, id, 0);
    var m := |Slices(sizes, id).0|;
    CutsAfterOnce(sizes, id, n, m);
    CutsAfterOnce(sizes, id, m, n);
    assert Slices(sizes, id).0 == Cuts(sizes, id, n);
  }

  lemma {:induction false} DotlessAll(slices: seq<string>)
    ensures Dotless(slices) <==> forall k :: 0 <= k < |slices| ==> slices[k] != "." && slices[k] != ".."
  {
    if slices != [] {
      DotlessAll(slices[1..]);
      assert forall k :: 1 <= k < |slices| ==> slices[k] == slices[1..][k - 1];
    }
  }

  /** The file is in the directories named by the picked cuts, under what is left of the ID. */
  ghost predicate InCuts(sizes: seq<nat>, id: string, n: nat, picks: seq<nat>, p: Path)
    requires CutsAfter(sizes, id, n)
  {
    && |p| == |picks| + 1
    && (forall a :: 0 <= a < |picks| ==> picks[a] < n && p[a] == Cut(sizes, id, picks[a]))
    && p[|picks|] == id[Total(sizes, n)..] + ".f"
  }

  lemma InCutsIsDotless(sizes: seq<nat>, id: string, n: nat, picks: seq<nat>, p: Path)
    requires CutsAfter(sizes, id, n) && Picks(Cuts(sizes, id, n), picks) && Proper(p) && InCuts(sizes, id, n, picks, p)
    ensures Dotless(Cuts(sizes, id, n))
  {
    var cuts := Cuts(sizes, id, n);
    DotlessAll(cuts);
    forall k | 0 <= k < n
      ensures cuts[k] != "." && cuts[k] != ".."
    {
      if cuts[k] != "" {
        var a :| 0 <= a < |picks| && picks[a] == k;
        assert p[a] == cuts[k];
      }
    }
  }

  /** The two halves of a path that is in the cuts. */
  lemma InCutsHalves(sizes: seq<nat>, id: string, n: nat, picks: seq<nat>, p: Path)
    requires CutsAfter(sizes, id, n) && p != []
    ensures InCuts(sizes, id, n, picks, p) <==>
            |Init(p)| == |picks| && Picked(Cuts(sizes, id, n), picks, Init(p))
                && Name(p) == id[Total(sizes, n)..] + SUFFIX
  {
    var cuts := Cuts(sizes, id, n);
    hide CutsAfter, Cut, Total;
    if |p| == |picks| + 1 {
      assert forall a :: 0 <= a < |picks| ==> Init(p)[a] == p[a];
    }
  }

  lemma PickedOnce(slices: seq<string>, picks: seq<nat>, p: Path, q: Path)
    requires |p| == |q| == |picks| && Picked(slices, picks, p) && Picked(slices, picks, q)
    ensures p == q
  {
  }

  lemma DotlessPlace(sizes: seq<nat>, id: string, n: nat, picks: seq<nat>, p: Path)
    requires CutsAfter(sizes, id, n) && Picks(Cuts(sizes, id, n), picks) && Dotless(Cuts(sizes, id, n)) && p != []
    ensures Join([], Cuts(sizes, id, n)) == Some(Init(p)) && id[Total(sizes, n)..] + SUFFIX == Name(p) <==>
            InCuts(sizes, id, n, picks, p)
  {
    var cuts := Cuts(sizes, id, n);
    assert cuts[0..] == cuts;
    JoinPicks([], cuts, picks, 0);
    InCutsHalves(sizes, id, n, picks, p);
    hide Join, Dotless, Picks, CutsAfter, Cut, Cuts, InCuts, Picked, Total;
    if InCuts(sizes, id, n, picks, p) {
      PickedOnce(cuts, picks, Init(p), Join([], cuts).value);
    }
  }

  /**
   The canonical place from the sizes alone. They are those of the first override whose prefix begins the ID, or
   the default ones. An ID within the unsharded length belongs at the root; any other in the directories named by
   its cuts, of which the empty ones vanish, with the rest as its name.
   */
  lemma CanonicalFromSizes(params: Parameters, p: Path, i: nat, n: nat, picks: seq<nat>)
    requires IsBlob(p) && Proper(p) && FirstOverride(params.overrides, BlobOf(p), i)
    requires var sizes := if i < |params.overrides| then params.overrides[i].1 else params.defaultShards;
      CutsAfter(sizes, BlobOf(p), n) && Picks(Cuts(sizes, BlobOf(p), n), picks)
    ensures var sizes := if i < |params.overrides| then params.overrides[i].1 else params.defaultShards;
      Canonical(params, p) <==>
        if |BlobOf(p)| <= params.unshardedLength then p == [BlobOf(p) + ".f"]
        else InCuts(sizes, BlobOf(p), n, picks, p)
  {
    var id := BlobOf(p);
    var sizes := SizesAt(params.overrides, params.defaultShards, i);
    if |id| > params.unshardedLength {
      SlicesAreCuts(params, id, i, n);
      CanonicalPlaceSpellsId(params, id);
      hide Join, Dotless, Picks, CutsAfter, InCuts, Cuts, FirstOverride, SlicesOf, Proper;
      if InCuts(sizes, id, n, picks, p) {
        InCutsIsDotless(sizes, id, n, picks, p);
      }
      if Dotless(Cuts(sizes, id, n)) {
        DotlessPlace(sizes, id, n, picks, p);
      }
    }
  }

  /** Every ID has a first override, or none, and cuts that end somewhere. */
  lemma {:induction false} SomeOverride(overrides: seq<(string, seq<nat>)>, id: string) returns (i: nat)
    ensures FirstOverride(overrides, id, i)
  {
    if overrides == [] || Begins(overrides[0].0, id) {
      i := 0;
    } else {
      i := SomeOverride(overrides[1..], id);
      i := i + 1;
    }
  }

  lemma SomeCuts(sizes: seq<nat>, id: string) returns (n: nat)
    ensures CutsAfter(sizes, id, n)
  {
    SlicesFrom(sizes, id, 0);
    n := |Slices(sizes[0..], id[0..]).0|;
  }

  /** A blob that is not where the parameters want it. */
  predicate Stray(params: Parameters, files: Files, p: Path) { p in files && IsBlob(p) && !Canonical(params, p) }

  /** No slice the parameters cut from the ID is a "." or ".." element. */
  predicate CanSpell(params: Parameters, id: string) { Dotless(SlicesOf(params, id).0) }

  /** The parameters can spell every blob ID. */
  ghost predicate Spellable(params: Parameters, ids: set<string>) { forall id :: id in ids ==> CanSpell(params, id) }

  /** Files that are not complete blobs are never touched. */
  ghost predicate KeepsOthers(a: Files, b: Files) {
    forall p :: !IsBlob(p) ==> (p in a <==> p in b) && (p in a ==> a[p] == b[p])
  }

  /** The data of a blob after the renames is that of a file of the same blob before. */
  ghost predicate Comes(a: Files, b: Files, p: Path)
    requires p in b && IsBlob(p)
  {
    exists q :: q in a && IsBlob(q) && BlobOf(q) == BlobOf(p) && a[q] == b[p]
  }

  /** The blob IDs stay, every blob's data comes from one of its files, and no new stray appears. */
  ghost predicate KeepsBlobs(params: Parameters, a: Files, b: Files) {
    && BlobIds(a) == BlobIds(b)
    && (forall p :: Stray(params, b, p) ==> Stray(params, a, p))
    && (forall p :: p in b && IsBlob(p) ==> Comes(a, b, p))
  }

  /** What any number of renames keeps: the other files and, if the parameters can spell them, the blobs. */
  ghost predicate Keeps(params: Parameters, a: Files, b: Files) {
    KeepsOthers(a, b) && (Spellable(params, BlobIds(a)) ==> KeepsBlobs(params, a, b))
  }

  lemma KeepsNothingChanged(params: Parameters, a: Files)
    ensures Keeps(params, a, a)
  {
  }

  lemma StaysSpellable(params: Parameters, a: Files, b: Files)
    requires Keeps(params, a, b) && Spellable(params, BlobIds(a))
    ensures Spellable(params, BlobIds(b))
  {
  }

  lemma KeepsCompose(params: Parameters, a: Files, b: Files, c: Files)
    requires Keeps(params, a, b) && Keeps(params, b, c)
    ensures Keeps(params, a, c)
  {
    if Spellable(params, BlobIds(a)) {
      StaysSpellable(params, a, b);
      hide Spellable;
      forall p | p in c && IsBlob(p)
        ensures Comes(a, c, p)
      {
        assert Comes(b, c, p);
        var q :| q in b && IsBlob(q) && BlobOf(q) == BlobOf(p) && b[q] == c[p];
        assert Comes(a, b, q);
      }
    }
  }

  function Moved(files: Files, src: Path, dest: Path): Files
    requires src in files
  {
    (files - {src})[dest := files[src]]
  }

  function CanonicalPath(params: Parameters, id: string): Path
    requires CanonicalDir(params, id).Some?
  {
    CanonicalDir(params, id).value + [CanonicalName(params, id)]
  }

  /** The files after the blob at src has been renamed to its canonical place, which may be outside the root. */
  function AfterRename(params: Parameters, files: Files, src: Path): Files
    requires src in files && IsBlob(src)
  {
    if CanonicalDir(params, BlobOf(src)).None? then files - {src}
    else Moved(files, src, CanonicalPath(params, BlobOf(src)))
  }

  /** Another complete file of the same blob. */
  ghost predicate HasTwin(files: Files, src: Path)
    requires IsBlob(src)
  {
    exists p :: p in files && IsBlob(p) && p != src && BlobOf(p) == BlobOf(src)
  }

  lemma LeavingKeeps(params: Parameters, files: Files, src: Path)
    requires src in files && IsBlob(src) && !CanSpell(params, BlobOf(src))
    ensures Keeps(params, files, files - {src})
    ensures BlobOf(src) in BlobIds(files - {src}) <==> HasTwin(files, src)
  {
    assert BlobOf(src) in BlobIds(files);
  }

  lemma MoveKeepsBlobs(params: Parameters, files: Files, src: Path, dest: Path)
    requires src in files && IsBlob(src) && IsBlob(dest) && src != dest
    requires BlobOf(src) == BlobOf(dest) && Canonical(params, dest)
    ensures KeepsBlobs(params, files, Moved(files, src, dest))
  {
    hide BlobOf, Canonical, IsBlob;
    var moved := Moved(files, src, dest);
    forall p | p in moved && IsBlob(p)
      ensures Comes(files, moved, p)
    {
      assert p != dest ==> p in files;
    }
    forall id | id in BlobIds(files)
      ensures id in BlobIds(moved)
    {
      var p :| p in files && IsBlob(p) && BlobOf(p) == id;
      assert (if p == src then dest else p) in moved;
    }
  }

  lemma MoveKeeps(params: Parameters, files: Files, src: Path, dest: Path)
    requires src in files && IsBlob(src) && IsBlob(dest) && src != dest
    requires CanSpell(params, BlobOf(src)) <==> BlobOf(src) == BlobOf(dest)
    requires BlobOf(src) == BlobOf(dest) ==> Canonical(params, dest)
    ensures Keeps(params, files, Moved(files, src, dest))
    ensures BlobOf(src) == BlobOf(dest) ==> KeepsBlobs(params, files, Moved(files, src, dest))
    ensures BlobOf(src) in BlobIds(Moved(files, src, dest)) <==> BlobOf(src) == BlobOf(dest) || HasTwin(files, src)
  {
    hide BlobOf, Canonical, IsBlob, CanSpell;
    var moved := Moved(files, src, dest);
    assert BlobOf(src) in BlobIds(files) && dest in moved;
    if BlobOf(src) == BlobOf(dest) {
      MoveKeepsBlobs(params, files, src, dest);
    }
    forall p | p in files && IsBlob(p) && p != src && BlobOf(p) == BlobOf(src)
      ensures BlobOf(src) in BlobIds(moved)
    {
      assert p in moved;
    }
  }

  /**
   One rename. Where the parameters can spell the blob's ID the blob takes it
   along, and an older file of the same blob there gives way. Where they cannot,
   the ID is gone unless another file has it.
   */
  lemma RenameKeeps(params: Parameters, files: Files, src: Path)
    requires Stray(params, files, src)
    ensures Keeps(params, files, AfterRename(params, files, src))
    ensures CanSpell(params, BlobOf(src)) ==> KeepsBlobs(params, files, AfterRename(params, files, src))
    ensures BlobOf(src) in BlobIds(AfterRename(params, files, src)) <==>
              CanSpell(params, BlobOf(src)) || HasTwin(files, src)
  {
    var id := BlobOf(src);
    CanonicalPlaceSpellsId(params, id);
    assert id in BlobIds(files);
    if CanonicalDir(params, id).None? {
      LeavingKeeps(params, files, src);
    } else {
      var dest := CanonicalPath(params, id);
      assert Init(dest) == CanonicalDir(params, id).value && Name(dest) == CanonicalName(params, id);
      hide CanonicalDir, CanonicalName, CanonicalPath, SlicesOf, BlobOf;
      MoveKeeps(params, files, src, dest);
    }
  }

  /** Shards of 5 and 1 characters, whatever the length of the ID. */
  const FIVE_ONE := Parameters([5, 1], 0, [])

  lemma FirstSlice(sizes: seq<nat>, id: string)
    requires sizes != [] && |id| > sizes[0]
    ensures Slices(sizes, id).0 == [id[..sizes[0]]] + Slices(sizes[1..], id[sizes[0]..]).0
    ensures Slices(sizes, id).1 == Slices(sizes[1..], id[sizes[0]..]).1
  {
  }

  lemma SlicesOfFormatBlob()
    ensures SlicesOf(FIVE_ONE, "kopia.repository") == (["kopia", "."], "repository")
  {
    assert ".repository"[1..] == "repository" && ".repository"[..1] == ".";
    assert "kopia.repository"[5..] == ".repository" && "kopia.repository"[..5] == "kopia";
    var one: seq<nat>, both: seq<nat> := [1], [5, 1];
    assert one[1..] == [] && both[1..] == one;
    FirstSlice(one, ".repository");
    FirstSlice(both, "kopia.repository");
    var none: seq<nat> := [];
    assert Slices(none, "repository") == ([], "repository");
    assert Slices(one, ".repository").0 == ["."];
    assert Slices(both, "kopia.repository").0 == ["kopia", "."];
    assert Slices(both, "kopia.repository").1 == "repository";
    assert FIVE_ONE.overrides == [] && FIVE_ONE.defaultShards == both;
    assert SlicesOf(FIVE_ONE, "kopia.repository") == Slices(both, "kopia.repository");
  }

  lemma PlaceOfFormatBlob()
    ensures CanonicalDir(FIVE_ONE, "kopia.repository") == Some(["kopia"])
    ensures CanonicalName(FIVE_ONE, "kopia.repository") == "repository.f"
  {
    SlicesOfFormatBlob();
    hide SlicesOf;
    assert ["kopia", "."][1..] == ["."] && ["."][1..] == [];
    assert [] + ["kopia"] == ["kopia"];
    assert Join(["kopia"], ["."]) == Some(["kopia"]);
  }

  lemma NameWithSuffix(dir: Path, stem: string)
    ensures IsBlob(dir + [stem + ".f"]) && BlobOf(dir + [stem + ".f"]) == Concat(dir) + stem
  {
    var name := stem + ".f";
    assert name[|name| - 2..] == ".f" && name[..|name| - 2] == stem;
    assert Init(dir + [name]) == dir && Name(dir + [name]) == name;
  }

  lemma NamesOfFormatBlob()
    ensures IsBlob(["kopia.repository.f"]) && BlobOf(["kopia.repository.f"]) == "kopia.repository"
    ensures IsBlob(["kopia", "repository.f"]) && BlobOf(["kopia", "repository.f"]) == "kopiarepository"
  {
    NameWithSuffix([], "kopia.repository");
    NameWithSuffix(["kopia"], "repository");
    ConcatSnoc([], "kopia");
    hide IsBlob, BlobOf;
    assert "kopia.repository" + ".f" == "kopia.repository.f" && "repository" + ".f" == "repository.f";
    assert [] + ["kopia.repository.f"] == ["kopia.repository.f"];
    assert ["kopia"] + ["repository.f"] == ["kopia", "repository.f"];
    assert [] + ["kopia"] == ["kopia"];
  }

  /** The repository's own format blob: with these shards its file becomes one of a blob "kopiarepository". */
  lemma FormatBlobIsLost(data: string)
    ensures IsBlob(["kopia.repository.f"])
    ensures var before, after: Files := map[["kopia.repository.f"] := data], map[["kopia", "repository.f"] := data];
      && BlobIds(before) == {"kopia.repository"} && BlobIds(after) == {"kopiarepository"}
      && AfterRename(FIVE_ONE, before, ["kopia.repository.f"]) == after
  {
    NamesOfFormatBlob();
    PlaceOfFormatBlob();
    hide CanonicalDir, CanonicalName, BlobOf, IsBlob;
    var src, dest := ["kopia.repository.f"], ["kopia", "repository.f"];
    var before: Files := map[src := data];
    assert before - {src} == map[];
    assert ["kopia"] + ["repository.f"] == dest;
  }

  // ---------------------------------------------------------------- the directory tree

  datatype DirEntry = DirEntry(name: string, isDir: bool)

  /** Why a rename did not happen. */
  datatype RenameResult = Renamed | NotExist | RenameFailed

  /** Directories contain their parents, and files are in directories. */
  ghost predicate IsTree(dirs: set<Path>, files: Files) {
    && [] in dirs
    && (forall d :: d in dirs && d != [] ==> Init(d) in dirs)
    && (forall p :: p in files ==> p != [] && Init(p) in dirs && p !in dirs)
  }

  ghost predicate Lists(entries: seq<DirEntry>, dir: Path, dirs: set<Path>, files: Files) {
    && (forall name :: DirEntry(name, true) in entries <==> dir + [name] in dirs)
    && (forall name :: DirEntry(name, false) in entries <==> dir + [name] in files)
    && (forall i, j :: 0 <= i < j < |entries| ==> entries[i].name != entries[j].name)
  }

  ghost predicate DepthAtMost(dirs: set<Path>, bound: nat) { forall d :: d in dirs ==> |d| <= bound }

  class Tree {
    var dirs: set<Path>
    var files: Files
    ghost var trail: seq<Files>

    ghost predicate Valid()
      reads this
    {
      IsTree(dirs, files) && |trail| > 0 && trail[|trail| - 1] == files
    }

    constructor ()
      ensures Valid() && dirs == {[]} && files == map[]
    {
      dirs, files, trail := {[]}, map[], [map[]];
    }

    /** os.ReadDir: the entries of the directory at this moment, in some order. */
    method ReadDir(dir: Path) returns (r: Result<seq<DirEntry>>)
      requires Valid()
      ensures r.Ok? ==> Lists(r.value, dir, dirs, files)
    {
      var ok := *;
      if !ok || dir !in dirs {
        return Err;
      }
      var entries := [];
      var rest := NamesIn(dir);
      while rest != {}
        invariant forall name :: name in rest ==> dir + [name] in dirs || dir + [name] in files
        invariant forall name :: DirEntry(name, true) in entries <==> dir + [name] in dirs && name !in rest
        invariant forall name :: DirEntry(name, false) in entries <==> dir + [name] in files && name !in rest
        invariant forall i, j :: 0 <= i < j < |entries| ==> entries[i].name != entries[j].name
        decreases |rest|
      {
        var name :| name in rest;
        rest := rest - {name};
        assert forall k :: 0 <= k < |entries| ==> entries[k] in entries && entries[k].name != name;
        entries := entries + [DirEntry(name, dir + [name] in dirs)];
      }
      return Ok(entries);
    }

    function NamesIn(dir: Path): (names: set<string>)
      requires forall p :: p in files ==> p != []
      reads this
      ensures forall name :: name in names <==> dir + [name] in dirs || dir + [name] in files
      ensures forall p :: (p in dirs || p in files) && p != [] && Init(p) == dir ==> Name(p) in names
    {
      var all := dirs + files.Keys;
      var names := set p | p in all && p != [] && Init(p) == dir :: Name(p);
      assert forall name :: dir + [name] in all ==> Init(dir + [name]) == dir && Name(dir + [name]) == name;
      assert forall p :: p in all && p != [] && Init(p) == dir ==> p == dir + [Name(p)];
      names
    }

    /** os.Rename of a file: a file at the destination is replaced, a missing directory is reported as such. */
    method Rename(src: Path, dest: Path) returns (r: RenameResult)
      requires Valid() && dest != []
      modifies this
      ensures Valid() && dirs == old(dirs)
      ensures r.Renamed? ==>
                src in old(files) && Init(dest) in dirs && files == Moved(old(files), src, dest)
                    && trail == old(trail) + [files]
      ensures !r.Renamed? ==> files == old(files) && trail == old(trail)
    {
      if src !in files || Init(dest) !in dirs {
        return NotExist;
      }
      var ok := *;
      if !ok || dest in dirs {
        return RenameFailed;
      }
      files := Moved(files, src, dest);
      trail := trail + [files];
      return Renamed;
    }

    /** os.Rename of a file to a place outside the root. */
    method RenameAway(src: Path) returns (ok: bool)
      requires Valid() && src in files
      modifies this
      ensures Valid() && dirs == old(dirs)
      ensures if ok then files == old(files) - {src} else files == old(files)
      ensures trail == if ok then old(trail) + [files] else old(trail)
    {
      ok := *;
      if ok {
        files := files - {src};
        trail := trail + [files];
      }
    }

    /** os.Remove of a directory: only an empty one goes. */
    method Remove(dir: Path) returns (ok: bool)
      requires Valid() && dir != []
      modifies this
      ensures Valid() && files == old(files) && trail == old(trail)
      ensures dirs == if ok then old(dirs) - {dir} else old(dirs)
      ensures ok ==> dir in old(dirs)
    {
      ok := *;
      if dir !in dirs || NamesIn(dir) != {} {
        ok := false;
      }
      if ok {
        dirs := dirs - {dir};
      }
    }

    /** os.MkdirAll: creates the directory and its parents, and fails on a file in the way. */
    method MkdirAll(dir: Path) returns (ok: bool)
      requires Valid()
      modifies this
      ensures Valid() && files == old(files) && trail == old(trail)
      ensures old(dirs) <= dirs && (forall d :: d in dirs && d !in old(dirs) ==> d <= dir)
      decreases |dir|
    {
      if dir in dirs {
        return true;
      }
      ok := MkdirAll(Init(dir));
      var made := *;
      if !ok || !made || dir in files || Init(dir) !in dirs {
        return false;
      }
      dirs := dirs + {dir};
    }
  }

  // ---------------------------------------------------------------- renaming

  function Max(a: nat, b: nat): nat { if a < b then b else a }

  /** No parameters put a blob deeper than this. */
  function ShardDepth(overrides: seq<(string, seq<nat>)>, defaultShards: seq<nat>): nat {
    if overrides == [] then |defaultShards| else Max(|overrides[0].1|, ShardDepth(overrides[1..], defaultShards))
  }

  lemma ShardsForDepth(overrides: seq<(string, seq<nat>)>, defaultShards: seq<nat>, id: string)
    ensures |ShardsFor(overrides, defaultShards, id)| <= ShardDepth(overrides, defaultShards)
  {
  }

  lemma SlicesDepth(sizes: seq<nat>, id: string)
    ensures |Slices(sizes, id).0| <= |sizes|
  {
  }

  lemma {:induction false} JoinDepth(dir: Path, slices: seq<string>)
    ensures Join(dir, slices).Some? ==> |Join(dir, slices).value| <= |dir| + |slices|
    decreases |slices|
  {
    if slices != [] {
      if slices[0] == "" || slices[0] == "." {
        JoinDepth(dir, slices[1..]);
      } else if slices[0] == ".." {
        if dir != [] {
          JoinDepth(dir[..|dir| - 1], slices[1..]);
        }
      } else {
        JoinDepth(dir + [slices[0]], slices[1..]);
      }
    }
  }

  lemma CanonicalDepth(params: Parameters, id: string)
    ensures CanonicalDir(params, id).Some? ==>
              |CanonicalDir(params, id).value| <= ShardDepth(params.overrides, params.defaultShards)
  {
    ShardsForDepth(params.overrides, params.defaultShards, id);
    SlicesDepth(ShardsFor(params.overrides, params.defaultShards, id), id);
    JoinDepth([], SlicesOf(params, id).0);
  }

  /** Every contents the tree had since `start` keeps what renames keep. */
  ghost predicate TrailKeeps(params: Parameters, files: Files, start: nat, trail: seq<Files>) {
    forall i :: start <= i < |trail| ==> Keeps(params, files, trail[i])
  }

  predicate Inside(dir: Path, p: Path) { dir < p }

  /** The path is the entry of this name in dir, or lies inside it. */
  predicate At(dir: Path, name: string, p: Path) { dir + [name] <= p }

  ghost predicate NoStrayInside(params: Parameters, files: Files, dir: Path) {
    forall p :: Stray(params, files, p) ==> !Inside(dir, p)
  }

  ghost predicate NoStrayAt(params: Parameters, files: Files, dir: Path, name: string) {
    forall p :: Stray(params, files, p) ==> !At(dir, name, p)
  }

  /** Files elsewhere than at this entry are still there. */
  ghost predicate Spares(before: Files, files: Files, dir: Path, name: string) {
    forall p :: p in before && !At(dir, name, p) ==> p in files
  }

  /** Files elsewhere than inside the directory are still there. */
  ghost predicate SparesOutside(before: Files, files: Files, dir: Path) {
    forall p :: p in before && !Inside(dir, p) ==> p in files
  }

  ghost predicate Intact(before: Files, files: Files, dir: Path, name: string) {
    forall p :: p in before && At(dir, name, p) ==> p in files
  }

  /** Whatever lies on the way to a file is a directory. */
  lemma {:induction false} PrefixIsDir(dirs: set<Path>, files: Files, p: Path, q: Path)
    requires IsTree(dirs, files) && (p in files || p in dirs) && q < p
    ensures q in dirs
    decreases |p|
  {
    assert q <= Init(p);
    if q != Init(p) {
      PrefixIsDir(dirs, files, Init(p), q);
    }
  }

  lemma StraysStayAway(params: Parameters, files: Files, after: Files, dir: Path, name: string)
    requires Keeps(params, files, after) && Spellable(params, BlobIds(files)) && NoStrayAt(params, files, dir, name)
    ensures NoStrayAt(params, after, dir, name)
  {
  }

  lemma IntactStays(before: Files, files: Files, after: Files, dir: Path, a: string, b: string)
    requires a != b && Intact(before, files, dir, b) && Spares(files, after, dir, a)
    ensures Intact(before, after, dir, b)
  {
    forall p | p in before && At(dir, b, p) ensures !At(dir, a, p) {
      assert p[|dir|] == b;
    }
  }

  lemma OutsideStays(before: Files, files: Files, after: Files, dir: Path, name: string)
    requires SparesOutside(before, files, dir) && Spares(files, after, dir, name)
    ensures SparesOutside(before, after, dir)
  {
    assert forall p :: At(dir, name, p) ==> p[..|dir|] == (dir + [name])[..|dir|];
    assert (dir + [name])[..|dir|] == dir;
  }

  lemma SubdirDone(params: Parameters, dirs: set<Path>, files: Files, dir: Path, name: string)
    requires IsTree(dirs, files) && dir + [name] in dirs && NoStrayInside(params, files, dir + [name])
    ensures NoStrayAt(params, files, dir, name)
  {
    forall p | Stray(params, files, p) ensures !At(dir, name, p) {
      assert p != dir + [name];
    }
  }

  lemma FileDone(params: Parameters, dirs: set<Path>, files: Files, after: Files, dir: Path, name: string)
    requires IsTree(dirs, files) && dir + [name] in files && !Stray(params, after, dir + [name])
    requires Keeps(params, files, after) && Spellable(params, BlobIds(files))
    ensures NoStrayAt(params, after, dir, name)
  {
    forall p | Stray(params, after, p)
      ensures !At(dir, name, p)
    {
      assert Stray(params, files, p);
      if At(dir, name, p) && p != dir + [name] {
        PrefixIsDir(dirs, files, p, dir + [name]);
      }
    }
  }

  /** What is inside the directory is at one of its entries. */
  lemma EverythingIsAtAnEntry(dirs: set<Path>, files: Files, entries: seq<DirEntry>, dir: Path, p: Path)
    requires IsTree(dirs, files) && Lists(entries, dir, dirs, files) && (p in files || p in dirs) && Inside(dir, p)
    ensures exists k :: 0 <= k < |entries| && At(dir, entries[k].name, p)
  {
    var q := dir + [p[|dir|]];
    assert q <= p;
    if q != p {
      PrefixIsDir(dirs, files, p, q);
    }
    var e := DirEntry(p[|dir|], q in dirs);
    assert e in entries;
    var k :| 0 <= k < |entries| && entries[k] == e;
    assert At(dir, entries[k].name, p);
  }

  lemma AllEntriesDone(params: Parameters, dirs: set<Path>, before: Files, files: Files, entries: seq<DirEntry>,
                       dir: Path)
    requires IsTree(dirs, before) && Lists(entries, dir, dirs, before)
    requires Keeps(params, before, files) && Spellable(params, BlobIds(before))
    requires forall k :: 0 <= k < |entries| ==> NoStrayAt(params, files, dir, entries[k].name)
    ensures NoStrayInside(params, files, dir)
  {
    forall p | Stray(params, files, p)
      ensures !Inside(dir, p)
    {
      if Inside(dir, p) {
        assert Stray(params, before, p);
        EverythingIsAtAnEntry(dirs, before, entries, dir, p);
      }
    }
  }

  /** The two attempts: rename, and if the directory is missing, make it and rename again. */
  method RenameInto(tree: Tree, src: Path, destDir: Path, dest: Path, ghost bound: nat) returns (ok: bool)
    requires tree.Valid() && DepthAtMost(tree.dirs, bound) && |destDir| <= bound
    requires src in tree.files && dest != [] && dest != src
    modifies tree
    ensures tree.Valid() && old(tree.dirs) <= tree.dirs && DepthAtMost(tree.dirs, bound)
    ensures if ok then tree.files == Moved(old(tree.files), src, dest) else tree.files == old(tree.files)
    ensures tree.trail == if ok then old(tree.trail) + [tree.files] else old(tree.trail)
  {
    var r := tree.Rename(src, dest);
    if r.NotExist? {
      ok := tree.MkdirAll(destDir);
      if !ok {
        return;
      }
      r := tree.Rename(src, dest);
    }
    ok := r.Renamed?;
  }

  lemma OneRename(params: Parameters, files: Files, trail: seq<Files>, src: Path)
    requires src in files && IsBlob(src) && Keeps(params, files, AfterRename(params, files, src))
    ensures TrailKeeps(params, files, |trail|, trail + [AfterRename(params, files, src)])
    ensures forall p :: p in files && p != src ==> p in AfterRename(params, files, src)
  {
    hide Keeps;
  }

  lemma LeavesItsPlace(params: Parameters, files: Files, src: Path)
    requires Stray(params, files, src)
    ensures src !in AfterRename(params, files, src)
  {
    if CanonicalDir(params, BlobOf(src)).Some? {
      var dest := CanonicalPath(params, BlobOf(src));
      assert Init(dest) == CanonicalDir(params, BlobOf(src)).value && Name(dest) == CanonicalName(params, BlobOf(src));
    }
  }

  lemma FileIsStrayOrHome(params: Parameters, files: Files, dir: Path, name: string)
    requires Complete(name) && dir + [name] in files
    ensures IsBlob(dir + [name]) && BlobOf(dir + [name]) == BlobAt(dir, name)
    ensures Keeps(params, files, AfterRename(params, files, dir + [name]))
    ensures CanonicalDir(params, BlobAt(dir, name)) == Some(dir) && CanonicalName(params, BlobAt(dir, name)) == name
            <==> !Stray(params, files, dir + [name])
    ensures Stray(params, files, dir + [name]) ==> dir + [name] !in AfterRename(params, files, dir + [name])
  {
    var src := dir + [name];
    assert Init(src) == dir && Name(src) == name;
    if Stray(params, files, src) {
      RenameKeeps(params, files, src);
      LeavesItsPlace(params, files, src);
    } else {
      assert src == CanonicalPath(params, BlobOf(src)) && Moved(files, src, src) == files;
      KeepsNothingChanged(params, files);
    }
  }

  lemma NoTrail(params: Parameters, files: Files, trail: seq<Files>)
    ensures TrailKeeps(params, files, |trail|, trail)
  {
  }

  /** One file of a directory listing. */
  method MoveBlob(tree: Tree, dir: Path, name: string, params: Parameters, dryRun: bool, ghost bound: nat)
    returns (ok: bool)
    requires tree.Valid() && DepthAtMost(tree.dirs, bound)
    requires ShardDepth(params.overrides, params.defaultShards) <= bound
    requires Complete(name) && dir + [name] in tree.files
    modifies tree
    ensures tree.Valid() && old(tree.dirs) <= tree.dirs && DepthAtMost(tree.dirs, bound)
    ensures old(tree.trail) <= tree.trail && TrailKeeps(params, old(tree.files), |old(tree.trail)|, tree.trail)
    ensures Keeps(params, old(tree.files), tree.files)
    ensures forall p :: p in old(tree.files) && p != dir + [name] ==> p in tree.files
    ensures ok && !dryRun ==> !Stray(params, tree.files, dir + [name])
    ensures dryRun ==>
              ok && tree.files == old(tree.files) && tree.dirs == old(tree.dirs) && tree.trail == old(tree.trail)
  {
    var src, id := dir + [name], BlobAt(dir, name);
    FileIsStrayOrHome(params, tree.files, dir, name);
    KeepsNothingChanged(params, tree.files);
    CanonicalDepth(params, id);
    NoTrail(params, tree.files, tree.trail);
    OneRename(params, tree.files, tree.trail, src);
    hide Keeps, BlobAt, SlicesOf, Stray, IsTree, Complete, TrailKeeps;
    ok := true;
    if CanonicalDir(params, id).None? {
      if !dryRun {
        ok := tree.RenameAway(src);
      }
    } else {
      var destDir := CanonicalDir(params, id).value;
      var dest := destDir + [CanonicalName(params, id)];
      hide CanonicalDir, CanonicalName, Moved;
      if src != dest && !dryRun {
        ok := RenameInto(tree, src, destDir, dest, bound);
      }
    }
  }

  lemma NothingLeft(files: Files, dir: Path)
    ensures SparesOutside(files, files, dir)
    ensures forall name :: Intact(files, files, dir, name) && Spares(files, files, dir, name)
  {
  }

  lemma TrailGrows(params: Parameters, before: Files, files: Files, start: nat, trail: seq<Files>, longer: seq<Files>)
    requires Keeps(params, before, files) && start <= |trail| && trail <= longer
    requires TrailKeeps(params, before, start, trail) && TrailKeeps(params, files, |trail|, longer)
    ensures TrailKeeps(params, before, start, longer)
  {
    hide Keeps;
    forall i | start <= i < |longer| ensures Keeps(params, before, longer[i]) {
      if i < |trail| {
        assert longer[i] == trail[i];
      } else {
        KeepsCompose(params, before, files, longer[i]);
      }
    }
  }

  /** The walk of a directory has come to entry i of its listing. */
  ghost predicate Midway(params: Parameters, before: Files, files: Files, dir: Path, entries: seq<DirEntry>, i: nat,
                         dryRun: bool) {
    && Keeps(params, before, files) && SparesOutside(before, files, dir)
    && (forall k :: i <= k < |entries| ==> Intact(before, files, dir, entries[k].name))
    && (!dryRun && Spellable(params, BlobIds(before)) ==>
          forall k :: 0 <= k < i <= |entries| ==> NoStrayAt(params, files, dir, entries[k].name))
  }

  lemma WalkStarts(params: Parameters, files: Files, dir: Path, entries: seq<DirEntry>, dryRun: bool)
    ensures Midway(params, files, files, dir, entries, 0, dryRun)
  {
    KeepsNothingChanged(params, files);
  }

  /** Handling entry i leaves the entries before it as done and those after it as intact as they were. */
  lemma WalkAdvances(params: Parameters, before: Files, files: Files, after: Files, dir: Path, entries: seq<DirEntry>,
                     i: nat, dryRun: bool)
    requires i < |entries| && forall a, b :: 0 <= a < b < |entries| ==> entries[a].name != entries[b].name
    requires Midway(params, before, files, dir, entries, i, dryRun)
    requires Keeps(params, files, after) && Spares(files, after, dir, entries[i].name)
    ensures Keeps(params, before, after) && SparesOutside(before, after, dir)
    ensures (!dryRun && Spellable(params, BlobIds(before)) ==> NoStrayAt(params, after, dir, entries[i].name))
            ==> Midway(params, before, after, dir, entries, i + 1, dryRun)
  {
    hide Keeps, SparesOutside, NoStrayAt, Intact, Spares, Spellable;
    KeepsCompose(params, before, files, after);
    OutsideStays(before, files, after, dir, entries[i].name);
    forall k | i < k < |entries|
      ensures Intact(before, after, dir, entries[k].name)
    {
      IntactStays(before, files, after, dir, entries[i].name, entries[k].name);
    }
    if !dryRun && Spellable(params, BlobIds(before)) {
      StaysSpellable(params, before, files);
      forall k | 0 <= k < i
        ensures NoStrayAt(params, after, dir, entries[k].name)
      {
        StraysStayAway(params, files, after, dir, entries[k].name);
      }
    }
  }

  lemma EntryExists(params: Parameters, dirs: set<Path>, before: Files, files: Files, entries: seq<DirEntry>, dir: Path,
                    i: nat, dryRun: bool)
    requires i < |entries| && Lists(entries, dir, dirs, before)
    requires Midway(params, before, files, dir, entries, i, dryRun)
    ensures if entries[i].isDir then dir + [entries[i].name] in dirs else dir + [entries[i].name] in files
    ensures Keeps(params, before, files)
    ensures Spellable(params, BlobIds(before)) ==> Spellable(params, BlobIds(files))
  {
    if Spellable(params, BlobIds(before)) {
      StaysSpellable(params, before, files);
    }
    assert Intact(before, files, dir, entries[i].name);
    assert entries[i] in entries && entries[i] == DirEntry(entries[i].name, entries[i].isDir);
    assert At(dir, entries[i].name, dir + [entries[i].name]);
  }

  lemma WalkEnds(params: Parameters, dirs: set<Path>, before: Files, files: Files, entries: seq<DirEntry>, dir: Path)
    requires IsTree(dirs, before) && Lists(entries, dir, dirs, before) && Spellable(params, BlobIds(before))
    requires Midway(params, before, files, dir, entries, |entries|, false)
    ensures NoStrayInside(params, files, dir)
  {
    hide Keeps, SparesOutside, NoStrayAt, NoStrayInside, IsTree, Lists, Spellable;
    AllEntriesDone(params, dirs, before, files, entries, dir);
  }

  lemma SparesAround(before: Files, files: Files, dir: Path, name: string)
    requires SparesOutside(before, files, dir + [name])
    ensures Spares(before, files, dir, name)
  {
  }

  lemma SparesOthers(before: Files, files: Files, dir: Path, name: string)
    requires forall p :: p in before && p != dir + [name] ==> p in files
    ensures Spares(before, files, dir, name)
  {
  }

  lemma NotABlob(params: Parameters, files: Files, p: Path)
    requires p != [] && !Complete(Name(p))
    ensures !Stray(params, files, p)
  {
  }

  lemma DistinctNames(entries: seq<DirEntry>, dir: Path, dirs: set<Path>, files: Files)
    requires Lists(entries, dir, dirs, files)
    ensures forall a, b :: 0 <= a < b < |entries| ==> entries[a].name != entries[b].name
  {
  }

  /** What handling any number of entries keeps, from the first contents to these. */
  ghost predicate Walked(params: Parameters, bound: nat, dryRun: bool, files: Files, dirs: set<Path>, trail: seq<Files>,
                         files': Files, dirs': set<Path>, trail': seq<Files>) {
    && dirs <= dirs' && DepthAtMost(dirs', bound)
    && trail <= trail' && TrailKeeps(params, files, |trail|, trail')
    && Keeps(params, files, files')
    && (dryRun ==> files' == files && dirs' == dirs && trail' == trail)
  }

  lemma NothingWalked(params: Parameters, bound: nat, dryRun: bool, files: Files, dirs: set<Path>, trail: seq<Files>)
    requires DepthAtMost(dirs, bound)
    ensures Walked(params, bound, dryRun, files, dirs, trail, files, dirs, trail)
  {
    KeepsNothingChanged(params, files);
    NoTrail(params, files, trail);
  }

  lemma WalkedDirs(params: Parameters, bound: nat, dryRun: bool, files: Files, dirs: set<Path>, trail: seq<Files>,
                   files': Files, dirs': set<Path>, trail': seq<Files>)
    requires Walked(params, bound, dryRun, files, dirs, trail, files', dirs', trail')
    ensures dirs <= dirs' && DepthAtMost(dirs', bound)
  {
  }

  lemma WalkedFurther(params: Parameters, bound: nat, dryRun: bool, files: Files, dirs: set<Path>, trail: seq<Files>,
                      files1: Files, dirs1: set<Path>, trail1: seq<Files>,
                      files2: Files, dirs2: set<Path>, trail2: seq<Files>)
    requires Walked(params, bound, dryRun, files, dirs, trail, files1, dirs1, trail1)
    requires Walked(params, bound, dryRun, files1, dirs1, trail1, files2, dirs2, trail2)
    ensures Walked(params, bound, dryRun, files, dirs, trail, files2, dirs2, trail2)
  {
    hide Keeps, TrailKeeps, DepthAtMost;
    KeepsCompose(params, files, files1, files2);
    TrailGrows(params, files, files1, |trail|, trail1, trail2);
  }

  method RenameEntry(tree: Tree, dir: Path, ent: DirEntry, params: Parameters, dryRun: bool, ghost bound: nat)
    returns (ok: bool)
    requires tree.Valid() && DepthAtMost(tree.dirs, bound)
    requires ShardDepth(params.overrides, params.defaultShards) <= bound
    requires if ent.isDir then dir + [ent.name] in tree.dirs else dir + [ent.name] in tree.files
    modifies tree
    ensures tree.Valid()
    ensures Walked(params, bound, dryRun, old(tree.files), old(tree.dirs), old(tree.trail),
                   tree.files, tree.dirs, tree.trail)
    ensures Keeps(params, old(tree.files), tree.files) && Spares(old(tree.files), tree.files, dir, ent.name)
    ensures ok && !dryRun && Spellable(params, BlobIds(old(tree.files))) ==>
              NoStrayAt(params, tree.files, dir, ent.name)
    decreases bound - |dir|, 0
  {
    ghost var dirs, files := tree.dirs, tree.files;
    ghost var spellable := Spellable(params, BlobIds(files));
    var path := dir + [ent.name];
    KeepsNothingChanged(params, files);
    NothingLeft(files, dir);
    NoTrail(params, files, tree.trail);
    hide Keeps, NoStrayInside, NoStrayAt, Stray, Spares, SparesOutside, TrailKeeps, Spellable, IsTree;
    if ent.isDir {
      ok := RenameBlobs(tree, path, params, dryRun, bound);
      SparesAround(files, tree.files, dir, ent.name);
      if ok && !dryRun && spellable {
        SubdirDone(params, tree.dirs, tree.files, dir, ent.name);
      }
    } else if Complete(ent.name) {
      ok := MoveBlob(tree, dir, ent.name, params, dryRun, bound);
      SparesOthers(files, tree.files, dir, ent.name);
      if ok && !dryRun && spellable {
        FileDone(params, dirs, files, tree.files, dir, ent.name);
      }
    } else {
      ok := true;
      NotABlob(params, files, path);
      if spellable {
        FileDone(params, dirs, files, files, dir, ent.name);
      }
    }
  }

  method RenameBlobs(tree: Tree, dir: Path, params: Parameters, dryRun: bool, ghost bound: nat) returns (ok: bool)
    requires tree.Valid() && DepthAtMost(tree.dirs, bound) && dir in tree.dirs
    requires ShardDepth(params.overrides, params.defaultShards) <= bound
    modifies tree
    ensures tree.Valid()
    ensures Walked(params, bound, dryRun, old(tree.files), old(tree.dirs), old(tree.trail),
                   tree.files, tree.dirs, tree.trail)
    ensures SparesOutside(old(tree.files), tree.files, dir)
    ensures ok && !dryRun && Spellable(params, BlobIds(old(tree.files))) ==> NoStrayInside(params, tree.files, dir)
    decreases bound - |dir|, 1
  {
    ghost var before, dirs, trail := tree.files, tree.dirs, tree.trail;
    NothingWalked(params, bound, dryRun, before, dirs, trail);
    NothingLeft(before, dir);
    hide Keeps, SparesOutside, NoStrayInside, NoStrayAt, Spares, TrailKeeps, Spellable, IsTree, Midway, Lists;
    hide BlobIds, ShardDepth, Walked;
    var r := tree.ReadDir(dir);
    if r.Err? {
      return false;
    }
    var entries := r.value;
    DistinctNames(entries, dir, dirs, before);
    WalkStarts(params, before, dir, entries, dryRun);
    for i := 0 to |entries|
      invariant tree.Valid() && SparesOutside(before, tree.files, dir)
      invariant Walked(params, bound, dryRun, before, dirs, trail, tree.files, tree.dirs, tree.trail)
      invariant Midway(params, before, tree.files, dir, entries, i, dryRun)
    {
      ghost var files, dirs1, trail1 := tree.files, tree.dirs, tree.trail;
      EntryExists(params, dirs, before, files, entries, dir, i, dryRun);
      WalkedDirs(params, bound, dryRun, before, dirs, trail, files, dirs1, trail1);
      ok := RenameEntry(tree, dir, entries[i], params, dryRun, bound);
      WalkAdvances(params, before, files, tree.files, dir, entries, i, dryRun);
      WalkedFurther(params, bound, dryRun, before, dirs, trail, files, dirs1, trail1,
          tree.files, tree.dirs, tree.trail);
      if !ok {
        return;
      }
    }
    if !dryRun && Spellable(params, BlobIds(before)) {
      WalkEnds(params, dirs, before, tree.files, entries, dir);
    }
    ok := true;
  }

  // ---------------------------------------------------------------- removing empty directories

  /** No file anywhere inside the directory. */
  ghost predicate FileFree(files: Files, dir: Path) { forall p :: p in files ==> !Inside(dir, p) }

  /** What removing may take away: file-free directories inside dir. */
  ghost predicate OnlyFileFreeGone(files: Files, before: set<Path>, dirs: set<Path>, dir: Path) {
    dirs <= before && forall d :: d in before && d !in dirs ==> Inside(dir, d) && FileFree(files, d)
  }

  ghost predicate Cleared(files: Files, dirs: set<Path>, dir: Path) {
    forall d :: d in dirs && Inside(dir, d) ==> !FileFree(files, d)
  }

  ghost predicate ClearedAt(files: Files, dirs: set<Path>, dir: Path, name: string) {
    forall d :: d in dirs && At(dir, name, d) ==> !FileFree(files, d)
  }

  ghost predicate EmptyInside(files: Files, dirs: set<Path>, dir: Path) {
    forall p :: p in files || p in dirs ==> !Inside(dir, p)
  }

  ghost predicate EmptyAt(files: Files, dirs: set<Path>, dir: Path, name: string) {
    forall p :: p in files || p in dirs ==> !At(dir, name, p)
  }

  /** What sweeping one entry does to the directories. */
  ghost predicate SweptEntry(files: Files, before: set<Path>, dirs: set<Path>, dir: Path, name: string) {
    dirs <= before && forall d :: d in before && d !in dirs ==> At(dir, name, d) && FileFree(files, d)
  }

  /** The sweep of a directory has come to entry i of its listing. */
  ghost predicate Sweeping(files: Files, before: set<Path>, dirs: set<Path>, dir: Path, entries: seq<DirEntry>, i: nat,
                           isEmpty: bool, clean: bool) {
    && OnlyFileFreeGone(files, before, dirs, dir)
    && (forall k :: i <= k < |entries| && dir + [entries[k].name] in before ==> dir + [entries[k].name] in dirs)
    && (clean ==> forall k :: 0 <= k < i <= |entries| ==> ClearedAt(files, dirs, dir, entries[k].name))
    && (isEmpty ==> forall k :: 0 <= k < i <= |entries| ==> EmptyAt(files, dirs, dir, entries[k].name))
    && (clean && !isEmpty ==> !FileFree(files, dir))
  }

  lemma SweepAdvances(files: Files, before: set<Path>, dirs: set<Path>, after: set<Path>, dir: Path,
                      entries: seq<DirEntry>, i: nat,
                      wasEmpty: bool, isEmpty: bool, wasClean: bool, clean: bool)
    requires i < |entries| && forall a, b :: 0 <= a < b < |entries| ==> entries[a].name != entries[b].name
    requires Sweeping(files, before, dirs, dir, entries, i, wasEmpty, wasClean)
    requires SweptEntry(files, dirs, after, dir, entries[i].name)
    requires (isEmpty ==> wasEmpty) && (clean ==> wasClean)
    requires clean ==> ClearedAt(files, after, dir, entries[i].name)
    requires isEmpty ==> EmptyAt(files, after, dir, entries[i].name)
    requires clean && wasEmpty && !isEmpty ==> !FileFree(files, dir)
    ensures Sweeping(files, before, after, dir, entries, i + 1, isEmpty, clean)
  {
    forall d | At(dir, entries[i].name, d) ensures Inside(dir, d) {
      assert d[..|dir|] == (dir + [entries[i].name])[..|dir|] == dir;
    }
    forall k | i < k < |entries| ensures !At(dir, entries[i].name, dir + [entries[k].name]) {
      assert (dir + [entries[k].name])[|dir|] == entries[k].name && (dir + [entries[i].name])[|dir|] == entries[i].name;
    }
  }

  lemma SweepStarts(files: Files, dirs: set<Path>, dir: Path, entries: seq<DirEntry>)
    ensures Sweeping(files, dirs, dirs, dir, entries, 0, true, true)
  {
  }

  /** At the end of the listing every directory and file inside dir has been at some entry. */
  lemma SweepEnds(files: Files, before: set<Path>, dirs: set<Path>, dir: Path, entries: seq<DirEntry>, isEmpty: bool,
                  clean: bool)
    requires IsTree(before, files) && Lists(entries, dir, before, files)
    requires Sweeping(files, before, dirs, dir, entries, |entries|, isEmpty, clean)
    ensures OnlyFileFreeGone(files, before, dirs, dir)
    ensures clean ==> Cleared(files, dirs, dir)
    ensures isEmpty ==> EmptyInside(files, dirs, dir)
    ensures clean && !isEmpty ==> !FileFree(files, dir)
  {
    forall p | (p in files || p in before) && Inside(dir, p)
      ensures exists k :: 0 <= k < |entries| && At(dir, entries[k].name, p)
    {
      EverythingIsAtAnEntry(before, files, entries, dir, p);
    }
  }

  /** What sweeping a subdirectory, and then perhaps removing it, does at its entry. */
  lemma SubdirSwept(files: Files, before: set<Path>, dirs: set<Path>, after: set<Path>, dir: Path, name: string,
                    subEmpty: bool, clean: bool)
    requires IsTree(before, files) && dir + [name] in before
    requires OnlyFileFreeGone(files, before, dirs, dir + [name])
    requires clean ==> Cleared(files, dirs, dir + [name])
    requires subEmpty ==> EmptyInside(files, dirs, dir + [name])
    requires clean && !subEmpty ==> !FileFree(files, dir + [name])
    requires after == dirs || (subEmpty && after == dirs - {dir + [name]})
    ensures SweptEntry(files, before, after, dir, name)
    ensures clean && (!subEmpty || after != dirs || dir + [name] !in dirs) ==> ClearedAt(files, after, dir, name)
    ensures subEmpty && dir + [name] !in after ==> EmptyAt(files, after, dir, name)
    ensures clean && !subEmpty ==> !FileFree(files, dir)
  {
    var child := dir + [name];
    assert forall p :: At(dir, name, p) <==> p == child || Inside(child, p);
    forall p | Inside(child, p) ensures Inside(dir, p) {
      assert p[..|dir|] == child[..|dir|] == dir;
    }
  }

  /** A file at an entry: nothing to sweep, and dir is not empty. */
  lemma FileSwept(files: Files, dirs: set<Path>, dir: Path, name: string)
    requires IsTree(dirs, files) && dir + [name] in files
    ensures SweptEntry(files, dirs, dirs, dir, name) && ClearedAt(files, dirs, dir, name) && !FileFree(files, dir)
  {
    forall d | d in dirs ensures !At(dir, name, d) {
      if At(dir, name, d) && d != dir + [name] {
        PrefixIsDir(dirs, files, d, dir + [name]);
      }
    }
    assert Inside(dir, dir + [name]);
  }

  lemma EntryStands(files: Files, before: set<Path>, dirs: set<Path>, dir: Path, entries: seq<DirEntry>, i: nat,
                    isEmpty: bool, clean: bool)
    requires i < |entries| && Lists(entries, dir, before, files)
    requires Sweeping(files, before, dirs, dir, entries, i, isEmpty, clean)
    ensures if entries[i].isDir then dir + [entries[i].name] in dirs else dir + [entries[i].name] in files
  {
    assert entries[i] in entries && entries[i] == DirEntry(entries[i].name, entries[i].isDir);
  }

  /** Sweeps one entry. `clean` says that no removal failed. */
  method SweepEntry(tree: Tree, dir: Path, ent: DirEntry, ghost bound: nat)
    returns (ok: bool, isEmpty: bool, ghost clean: bool)
    requires tree.Valid() && DepthAtMost(tree.dirs, bound)
    requires if ent.isDir then dir + [ent.name] in tree.dirs else dir + [ent.name] in tree.files
    modifies tree
    ensures tree.Valid() && DepthAtMost(tree.dirs, bound) && tree.files == old(tree.files)
    ensures tree.trail == old(tree.trail)
    ensures SweptEntry(tree.files, old(tree.dirs), tree.dirs, dir, ent.name)
    ensures ok && clean ==> ClearedAt(tree.files, tree.dirs, dir, ent.name)
    ensures ok && isEmpty ==> EmptyAt(tree.files, tree.dirs, dir, ent.name)
    ensures ok && clean && !isEmpty ==> !FileFree(tree.files, dir)
    decreases bound - |dir|, 0
  {
    ghost var before := tree.dirs;
    if !ent.isDir {
      FileSwept(tree.files, before, dir, ent.name);
      return true, false, true;
    }
    var child := dir + [ent.name];
    hide FileFree, OnlyFileFreeGone, Cleared, ClearedAt, EmptyInside, EmptyAt, SweptEntry;
    var subEmpty;
    ok, subEmpty, clean := RemoveEmptyDirs(tree, child, bound);
    ghost var dirs := tree.dirs;
    isEmpty := subEmpty;
    if ok && subEmpty {
      var removed := tree.Remove(child);
      if !removed {
        isEmpty, clean := false, false;
      }
    }
    SubdirSwept(tree.files, before, dirs, tree.dirs, dir, ent.name, ok && subEmpty, ok && clean);
  }

  /**
   Removes the directories inside dir that hold no file at any depth. Exactly those are gone when no removal
   failed, and never any other.
   */
  method RemoveEmptyDirs(tree: Tree, dir: Path, ghost bound: nat) returns (ok: bool, isEmpty: bool, ghost clean: bool)
    requires tree.Valid() && DepthAtMost(tree.dirs, bound) && dir in tree.dirs
    modifies tree
    ensures tree.Valid() && DepthAtMost(tree.dirs, bound) && tree.files == old(tree.files)
    ensures tree.trail == old(tree.trail)
    ensures OnlyFileFreeGone(tree.files, old(tree.dirs), tree.dirs, dir)
    ensures ok && clean ==> Cleared(tree.files, tree.dirs, dir)
    ensures ok && isEmpty ==> EmptyInside(tree.files, tree.dirs, dir)
    ensures ok && clean && !isEmpty ==> !FileFree(tree.files, dir)
    decreases bound - |dir|, 1
  {
    ghost var before := tree.dirs;
    var r := tree.ReadDir(dir);
    if r.Err? {
      return false, false, false;
    }
    var entries := r.value;
    DistinctNames(entries, dir, before, tree.files);
    SweepStarts(tree.files, before, dir, entries);
    isEmpty, clean := true, true;
    for i := 0 to |entries|
      invariant tree.Valid() && DepthAtMost(tree.dirs, bound) && tree.files == old(tree.files)
      invariant tree.trail == old(tree.trail)
      invariant Sweeping(tree.files, before, tree.dirs, dir, entries, i, isEmpty, clean)
    {
      ghost var dirs, wasEmpty, wasClean := tree.dirs, isEmpty, clean;
      EntryStands(tree.files, before, dirs, dir, entries, i, isEmpty, clean);
      var entryEmpty;
      ghost var entryClean;
      ok, entryEmpty, entryClean := SweepEntry(tree, dir, entries[i], bound);
      isEmpty, clean := isEmpty && entryEmpty, clean && entryClean;
      if !ok {
        return;
      }
      SweepAdvances(tree.files, before, dirs, tree.dirs, dir, entries, i, wasEmpty, isEmpty, wasClean, clean);
    }
    SweepEnds(tree.files, before, tree.dirs, dir, entries, isEmpty, clean);
    ok := true;
  }

  // ---------------------------------------------------------------- the command

  lemma {:induction false} SomeDepth(dirs: set<Path>) returns (bound: nat)
    ensures DepthAtMost(dirs, bound)
  {
    if dirs == {} {
      bound := 0;
    } else {
      var d :| d in dirs;
      bound := SomeDepth(dirs - {d});
      bound := Max(bound, |d|);
    }
  }

  ghost predicate AtHome(params: Parameters, files: Files) {
    forall p :: p in files && IsBlob(p) ==> Canonical(params, p)
  }

  lemma AllHome(params: Parameters, files: Files)
    requires NoStrayInside(params, files, [])
    ensures AtHome(params, files)
  {
    hide Canonical;
    forall p | p in files && IsBlob(p) ensures Canonical(params, p) {
      assert Inside([], p);
    }
  }

  /**
   The whole command. Every contents along the way has the files that are no blobs and, where the parameters can
   spell them, the same blob IDs, each with the data of one of its files. Success then leaves every blob at its
   canonical place, and, if no removal failed, no directory without files below the root.
   */
  method Modify(tree: Tree, params: Parameters, dryRun: bool) returns (ok: bool, ghost clean: bool)
    requires tree.Valid()
    modifies tree
    ensures tree.Valid()
    ensures old(tree.trail) <= tree.trail && TrailKeeps(params, old(tree.files), |old(tree.trail)|, tree.trail)
    ensures Keeps(params, old(tree.files), tree.files)
    ensures dryRun ==> tree.files == old(tree.files) && tree.dirs == old(tree.dirs)
    ensures ok && !dryRun && Spellable(params, BlobIds(old(tree.files))) ==> AtHome(params, tree.files)
    ensures ok && !dryRun && clean ==> Cleared(tree.files, tree.dirs, [])
  {
    ghost var bound := SomeDepth(tree.dirs);
    ghost var depth := ShardDepth(params.overrides, params.defaultShards);
    ok := RenameBlobs(tree, [], params, dryRun, Max(bound, depth));
    clean := true;
    if !ok || dryRun {
      return;
    }
    if Spellable(params, BlobIds(old(tree.files))) {
      AllHome(params, tree.files);
    }
    hide Keeps, Canonical, Cleared, AtHome, TrailKeeps;
    var isEmpty;
    ok, isEmpty, clean := RemoveEmptyDirs(tree, [], Max(bound, depth));
  }
}

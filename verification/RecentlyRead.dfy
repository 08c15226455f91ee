/**
 The ring of recently read content IDs, which lets the client skip a write.
 */
module RecentlyRead {
  type ContentId = string

  const EMPTY_ID: ContentId := ""

  const NUM_RECENT_READS := 1024

  /** What the k-th add takes out of the ring: the ID added a full turn earlier, if any. */
  function Evicted(adds: seq<ContentId>, k: nat): ContentId
    requires k <= |adds|
  {
    if k < NUM_RECENT_READS then EMPTY_ID else adds[k - NUM_RECENT_READS]
  }

  /** The set of recent IDs after these adds. */
  function Recent(adds: seq<ContentId>): set<ContentId> {
    if adds == [] then {}
    else
      var k := |adds| - 1;
      Recent(adds[..k]) - {Evicted(adds, k)} + {adds[k]}
  }

  /** What slot i of the ring holds after these adds. */
  function Slot(adds: seq<ContentId>, i: nat): ContentId {
    if adds == [] then EMPTY_ID
    else if (|adds| - 1) % NUM_RECENT_READS == i then adds[|adds| - 1]
    else Slot(adds[..|adds| - 1], i)
  }

  lemma {:induction false} UnusedSlot(adds: seq<ContentId>, i: nat)
    requires |adds| <= i < NUM_RECENT_READS
    ensures Slot(adds, i) == EMPTY_ID
  {
    if adds != [] {
      UnusedSlot(adds[..|adds| - 1], i);
    }
  }

  lemma {:induction false} UsedSlot(adds: seq<ContentId>, k: nat)
    requires k < |adds| <= k + NUM_RECENT_READS
    ensures Slot(adds, k % NUM_RECENT_READS) == adds[k]
  {
    if k < |adds| - 1 {
      UsedSlot(adds[..|adds| - 1], k);
      assert (|adds| - 1) % NUM_RECENT_READS != k % NUM_RECENT_READS;
    }
  }

  /** The slot an add is about to overwrite holds what that add evicts. */
  lemma {:induction false} NextSlotIsEvicted(adds: seq<ContentId>)
    ensures Slot(adds, |adds| % NUM_RECENT_READS) == Evicted(adds, |adds|)
  {
    if |adds| < NUM_RECENT_READS {
      UnusedSlot(adds, |adds|);
    } else {
      UsedSlot(adds, |adds| - NUM_RECENT_READS);
      assert (|adds| - NUM_RECENT_READS) % NUM_RECENT_READS == |adds| % NUM_RECENT_READS;
    }
  }

  /** The slots of the ring after these adds. */
  ghost predicate Holds(slots: seq<ContentId>, adds: seq<ContentId>) {
    |slots| == NUM_RECENT_READS && forall i :: 0 <= i < NUM_RECENT_READS ==> slots[i] == Slot(adds, i)
  }

  lemma NextIndex(n: nat)
    ensures (n % NUM_RECENT_READS + 1) % NUM_RECENT_READS == (n + 1) % NUM_RECENT_READS
  {
  }

  lemma SlotAfter(adds: seq<ContentId>, id: ContentId, i: nat)
    ensures Slot(adds + [id], i) == if |adds| % NUM_RECENT_READS == i then id else Slot(adds, i)
  {
    assert (adds + [id])[..|adds|] == adds;
  }

  lemma RecentAfter(adds: seq<ContentId>, id: ContentId)
    ensures Recent(adds + [id]) == Recent(adds) - {Evicted(adds, |adds|)} + {id}
  {
    assert (adds + [id])[..|adds|] == adds;
    assert Evicted(adds + [id], |adds|) == Evicted(adds, |adds|);
  }

  lemma EmptyRing(slots: seq<ContentId>)
    requires |slots| == NUM_RECENT_READS && forall i :: 0 <= i < |slots| ==> slots[i] == EMPTY_ID
    ensures Holds(slots, []) && Recent([]) == {}
  {
  }

  lemma RingHasSlots(slots: seq<ContentId>, adds: seq<ContentId>)
    requires Holds(slots, adds)
    ensures |slots| == NUM_RECENT_READS
  {
  }

  /** One add, in terms of the slots and of the set. */
  lemma RingAdds(slots: seq<ContentId>, adds: seq<ContentId>, id: ContentId)
    requires Holds(slots, adds)
    ensures Holds(slots[|adds| % NUM_RECENT_READS := id], adds + [id])
    ensures Recent(adds + [id]) == Recent(adds) - {slots[|adds| % NUM_RECENT_READS]} + {id}
  {
    hide Slot, Recent, Evicted;
    NextSlotIsEvicted(adds);
    RecentAfter(adds, id);
    forall i | 0 <= i < NUM_RECENT_READS
      ensures slots[|adds| % NUM_RECENT_READS := id][i] == Slot(adds + [id], i)
    {
      SlotAfter(adds, id, i);
    }
  }

  class Ring {
    var contentList: array?<ContentId>
    var next: nat
    var contentSet: set<ContentId>
    ghost var adds: seq<ContentId>

    ghost predicate Valid()
      reads this, contentList
    {
      && contentSet == Recent(adds)
      && next == |adds| % NUM_RECENT_READS
      && if contentList == null then adds == []
         else Holds(contentList[..], adds)
    }

    constructor ()
      ensures Valid() && adds == [] && contentList == null
    {
      contentList, next, contentSet, adds := null, 0, {}, [];
    }

    method Add(id: ContentId)
      requires Valid()
      modifies this, contentList
      ensures Valid() && adds == old(adds) + [id]
      ensures contentList != null && (old(contentList) == null ==> fresh(contentList))
      ensures (old(contentList) != null ==> contentList == old(contentList))
    {
      hide Recent, Holds;
      if contentList == null {
        contentList := new ContentId[NUM_RECENT_READS](_ => EMPTY_ID);
        contentSet := {};
        EmptyRing(contentList[..]);
      }
      ghost var slots := contentList[..];
      RingHasSlots(slots, adds);
      RingAdds(slots, adds, id);
      NextIndex(|adds|);
      contentSet := contentSet - {contentList[next]};
      contentList[next] := id;
      assert contentList[..] == slots[next := id];
      contentSet := contentSet + {id};
      next := (next + 1) % contentList.Length;
      adds := adds + [id];
    }

    method Exists(id: ContentId) returns (found: bool)
      requires Valid()
      ensures found <==> id in Recent(adds)
    {
      found := id in contentSet;
    }
  }

  /** The latest add of the ID. */
  ghost predicate LatestAdd(adds: seq<ContentId>, id: ContentId, j: int) {
    0 <= j < |adds| && adds[j] == id && forall k :: j < k < |adds| ==> adds[k] != id
  }

  /** No copy of the ID has left the ring since its latest add. */
  ghost predicate Survives(adds: seq<ContentId>, id: ContentId) {
    exists j :: LatestAdd(adds, id, j) && forall k :: j < k < |adds| ==> Evicted(adds, k) != id
  }

  lemma {:induction false} RecentExactly(adds: seq<ContentId>, id: ContentId)
    ensures id in Recent(adds) <==> Survives(adds, id)
  {
    if adds != [] {
      var n := |adds| - 1;
      var init := adds[..n];
      RecentExactly(init, id);
      assert forall k :: 0 <= k < n ==> Evicted(adds, k) == Evicted(init, k);
      if adds[n] == id {
        assert LatestAdd(adds, id, n);
      } else {
        forall j ensures LatestAdd(adds, id, j) <==> LatestAdd(init, id, j) {
        }
      }
    }
  }

  /** By positions alone: an ID is kept until a full turn after any of its adds, unless it was added again by then. */
  lemma RecentByPosition(adds: seq<ContentId>, id: ContentId, j: int)
    requires LatestAdd(adds, id, j) && id != EMPTY_ID
    ensures id in Recent(adds) <==>
            forall m :: 0 <= m < |adds| - NUM_RECENT_READS && adds[m] == id ==> m + NUM_RECENT_READS <= j
  {
    RecentExactly(adds, id);
    forall m | 0 <= m < |adds| - NUM_RECENT_READS
      ensures Evicted(adds, m + NUM_RECENT_READS) == adds[m]
    {
    }
  }

  lemma EvictedATurnLater(adds: seq<ContentId>, id: ContentId, j: int)
    requires LatestAdd(adds, id, j)
    ensures j + NUM_RECENT_READS < |adds| ==> exists k :: j < k < |adds| && Evicted(adds, k) == id
  {
    if j + NUM_RECENT_READS < |adds| {
      assert Evicted(adds, j + NUM_RECENT_READS) == id;
    }
  }

  /** Every hit is among the last NUM_RECENT_READS adds. */
  lemma HitsAreRecent(adds: seq<ContentId>, id: ContentId)
    requires id in Recent(adds)
    ensures exists j :: 0 <= j < |adds| && |adds| - NUM_RECENT_READS <= j && adds[j] == id
  {
    RecentExactly(adds, id);
    var j :| LatestAdd(adds, id, j) && forall k :: j < k < |adds| ==> Evicted(adds, k) != id;
    EvictedATurnLater(adds, id, j);
  }

  lemma {:induction false} ElementsAtMostLength(s: seq<ContentId>)
    ensures |set x | x in s| <= |s|
  {
    if s != [] {
      var init := s[..|s| - 1];
      ElementsAtMostLength(init);
      assert (set x | x in s) == (set x | x in init) + {s[|s| - 1]};
    }
  }

  lemma {:induction false} SubsetIsSmaller(a: set<ContentId>, b: set<ContentId>)
    requires a <= b
    ensures |a| <= |b|
  {
    if a != {} {
      var x :| x in a;
      SubsetIsSmaller(a - {x}, b - {x});
    }
  }

  lemma SetStaysSmall(adds: seq<ContentId>)
    ensures |Recent(adds)| <= 1024
  {
    var last := if |adds| <= NUM_RECENT_READS then adds else adds[|adds| - NUM_RECENT_READS..];
    forall id | id in Recent(adds) ensures id in last {
      HitsAreRecent(adds, id);
      var j :| 0 <= j < |adds| && |adds| - NUM_RECENT_READS <= j && adds[j] == id;
      assert last[j - (|adds| - |last|)] == id;
    }
    var elements := set x | x in last;
    ElementsAtMostLength(last);
    SubsetIsSmaller(Recent(adds), elements);
  }
}

/**
 Reference-counted close of a repository. Every atomic load, store and add is
 one step, so opens, registrations and closes of different handles interleave.

 What callers must do: a session is opened and a closer registered only through
 an open handle, and a handle is closed once (`Possible`); the close that takes
 the count to zero finds no session being opened (`Enabled`).
 */
module RefCount {
  import opened Wrappers
  import opened Runs

  type Closer = nat

  /** Opening is before addRef looked at `closed`, Checked before it adds; the rest is Close. */
  datatype Handle =
    | Opening
    | Checked
    | Open
    | ReachedZero
    | FoundOpen
    | Running(done: nat)
    | Released

  datatype State = State(
    refCount: int,
    closed: bool,
    closers: seq<Closer>,
    ran: seq<Closer>,
    handles: map<nat, Handle>,
    panicked: bool)

  datatype Step =
    | BeginOpen(h: nat, parent: nat)
    | LoadClosed(h: nat)
    | Increment(h: nat)
    | Register(h: nat, closer: Closer)
    | Close(h: nat)
    | LoadClosedInClose(h: nat)
    | StoreClosed(h: nat)
    | RunCloser(h: nat)
    | CloseReturns(h: nat)

  /** newRefCountedCloser: one reference, held by handle 0. */
  ghost predicate Init(s: State) {
    s.refCount == 1 && !s.closed && s.ran == [] && s.handles == map[0 := Open] && !s.panicked
  }

  predicate Is(s: State, h: nat, v: Handle) { h in s.handles && s.handles[h] == v }

  predicate Possible(s: State, a: Step) {
    !s.panicked &&
    match a
    case BeginOpen(h, parent) => h !in s.handles && Is(s, parent, Open)
    case LoadClosed(h) => h in s.handles && s.handles[h].Opening?
    case Increment(h) => h in s.handles && s.handles[h].Checked?
    case Register(h, _) => Is(s, h, Open)
    case Close(h) => Is(s, h, Open)
    case LoadClosedInClose(h) => Is(s, h, ReachedZero)
    case StoreClosed(h) => Is(s, h, FoundOpen)
    case RunCloser(h) => h in s.handles && s.handles[h].Running? && s.handles[h].done < |s.closers|
    case CloseReturns(h) => h in s.handles && s.handles[h].Running? && s.handles[h].done >= |s.closers|
  }

  predicate BeingOpened(v: Handle) { v.Opening? || v.Checked? }

  predicate NobodyOpens(s: State) { forall k :: k in s.handles ==> !BeingOpened(s.handles[k]) }

  predicate Enabled(s: State, a: Step) { Possible(s, a) && (a.Close? && s.refCount == 1 ==> NobodyOpens(s)) }

  function Set(s: State, h: nat, v: Handle): State { s.(handles := s.handles[h := v]) }

  function Apply(s: State, a: Step): State
    requires Possible(s, a)
  {
    match a
    case BeginOpen(h, _) => Set(s, h, Opening)
    case LoadClosed(h) => if s.closed then s.(panicked := true) else Set(s, h, Checked)
    case Increment(h) => Set(s, h, Open).(refCount := s.refCount + 1)
    case Register(_, closer) => s.(closers := s.closers + [closer])
    case Close(h) => Set(s, h, if s.refCount - 1 != 0 then Released else ReachedZero).(refCount := s.refCount - 1)
    case LoadClosedInClose(h) => if s.closed then s.(panicked := true) else Set(s, h, FoundOpen)
    case StoreClosed(h) => Set(s, h, Running(0)).(closed := true)
    case RunCloser(h) =>
      var k := s.handles[h].done;
      Set(s, h, Running(k + 1)).(ran := s.ran + [s.closers[k]])
    case CloseReturns(h) => Set(s, h, Released)
  }

  ghost predicate Next(s: State, t: State) { exists a: Step :: Enabled(s, a) && t == Apply(s, a) }

  ghost predicate CarelessNext(s: State, t: State) { exists a: Step :: Possible(s, a) && t == Apply(s, a) }

  // ---------------------------------------------------------------- invariant

  function OpenHandles(handles: map<nat, Handle>): set<nat> { set h | h in handles && handles[h].Open? }

  predicate Closing(v: Handle) { v.ReachedZero? || v.FoundOpen? || v.Running? }

  /** While a handle is open nothing has been closed. */
  ghost predicate Alive(s: State) {
    && !s.closed && s.ran == []
    && forall h :: h in s.handles ==> !Closing(s.handles[h])
  }

  /** The last handle is being closed by h. */
  ghost predicate ClosingBy(s: State, h: nat) {
    && h in s.handles && Closing(s.handles[h])
    && (forall k :: k in s.handles && k != h ==> s.handles[k].Released?)
    && (s.closed <==> s.handles[h].Running?)
    && (!s.handles[h].Running? ==> s.ran == [])
    && (s.handles[h].Running? ==> s.handles[h].done <= |s.closers| && s.ran == s.closers[..s.handles[h].done])
  }

  ghost predicate AllReleased(s: State) {
    && s.closed && s.ran == s.closers
    && forall k :: k in s.handles ==> s.handles[k].Released?
  }

  ghost predicate Inv(s: State) {
    && !s.panicked
    && s.refCount == |OpenHandles(s.handles)|
    && (!NobodyOpens(s) ==> s.refCount > 0)
    && (if s.refCount > 0 then Alive(s) else AllReleased(s) || exists h :: ClosingBy(s, h))
  }

  lemma OpenAdded(handles: map<nat, Handle>, h: nat)
    requires h !in OpenHandles(handles)
    ensures OpenHandles(handles[h := Open]) == OpenHandles(handles) + {h}
    ensures |OpenHandles(handles[h := Open])| == |OpenHandles(handles)| + 1
  {
    assert OpenHandles(handles[h := Open]) == OpenHandles(handles) + {h};
  }

  lemma OpenRemoved(handles: map<nat, Handle>, h: nat, v: Handle)
    requires h in OpenHandles(handles) && !v.Open?
    ensures OpenHandles(handles[h := v]) == OpenHandles(handles) - {h}
    ensures |OpenHandles(handles[h := v])| == |OpenHandles(handles)| - 1
  {
    assert OpenHandles(handles[h := v]) == OpenHandles(handles) - {h};
  }

  lemma OpenKept(handles: map<nat, Handle>, h: nat, v: Handle)
    requires h !in OpenHandles(handles) && !v.Open?
    ensures OpenHandles(handles[h := v]) == OpenHandles(handles)
  {
  }

  lemma OpenIsCounted(s: State, h: nat)
    requires Inv(s) && Is(s, h, Open)
    ensures s.refCount > 0
  {
    assert h in OpenHandles(s.handles);
  }

  lemma OpenStepKeepsInv(s: State, a: Step)
    requires Inv(s) && Enabled(s, a) && (a.BeginOpen? || a.LoadClosed? || a.Increment? || a.Register?)
    ensures Inv(Apply(s, a))
  {
    match a
    case BeginOpen(h, parent) =>
      OpenIsCounted(s, parent);
      OpenKept(s.handles, h, Opening);
    case LoadClosed(h) =>
      OpenKept(s.handles, h, Checked);
    case Increment(h) =>
      OpenAdded(s.handles, h);
    case Register(h, closer) =>
      OpenIsCounted(s, h);
  }

  lemma CloseKeepsInv(s: State, a: Step)
    requires Inv(s) && Enabled(s, a) && a.Close?
    ensures Inv(Apply(s, a))
  {
    var h := a.h;
    OpenIsCounted(s, h);
    var v := if s.refCount - 1 != 0 then Released else ReachedZero;
    OpenRemoved(s.handles, h, v);
    var t := Apply(s, a);
    if t.refCount == 0 {
      assert OpenHandles(t.handles) == {};
      forall k | k in t.handles && k != h
        ensures t.handles[k].Released?
      {
        assert k !in OpenHandles(t.handles) && !BeingOpened(s.handles[k]);
      }
      assert ClosingBy(t, h);
    }
  }

  lemma FinishStepKeepsInv(s: State, a: Step)
    requires Inv(s) && Enabled(s, a) && (a.LoadClosedInClose? || a.StoreClosed? || a.RunCloser? || a.CloseReturns?)
    ensures Inv(Apply(s, a))
  {
    assert s.refCount == 0 && ClosingBy(s, a.h);
    OpenKept(s.handles, a.h, Apply(s, a).handles[a.h]);
    assert a.CloseReturns? || ClosingBy(Apply(s, a), a.h);
  }

  lemma StepKeepsInv(s: State, a: Step)
    requires Inv(s) && Enabled(s, a)
    ensures Inv(Apply(s, a))
  {
    hide Inv, Enabled, Apply;
    if a.Close? {
      CloseKeepsInv(s, a);
    } else if a.BeginOpen? || a.LoadClosed? || a.Increment? || a.Register? {
      OpenStepKeepsInv(s, a);
    } else {
      FinishStepKeepsInv(s, a);
    }
  }

  lemma EveryRunKeepsInv(run: seq<State>)
    requires IsRun(Init, Next, run)
    ensures forall s :: s in run ==> Inv(s)
  {
    forall s | Init(s)
      ensures Inv(s)
    {
      assert OpenHandles(s.handles) == {0};
    }
    forall s, t | Inv(s) && Next(s, t)
      ensures Inv(t)
    {
      var a :| Enabled(s, a) && t == Apply(s, a);
      StepKeepsInv(s, a);
    }
    InvariantHolds(Init, Next, Inv, run);
  }

  // ----------------------------------------------------------------- theorems

  /**
   On no interleaving does "already closed" panic. Closers run once each, in
   registration order: what ran is always a prefix of what was registered. None
   runs while any handle is open or being opened.
   */
  lemma ClosersRunOnceInOrder(run: seq<State>, s: State)
    requires IsRun(Init, Next, run) && s in run
    ensures !s.panicked
    ensures s.ran <= s.closers
    ensures s.ran != [] ==> forall h :: h in s.handles ==> s.handles[h].Released? || s.handles[h].Running?
  {
    EveryRunKeepsInv(run);
    assert Inv(s);
  }

  /** Once every close has returned, every registered closer has run, exactly once, in order. */
  lemma EverythingIsClosedAtTheEnd(run: seq<State>, s: State)
    requires IsRun(Init, Next, run) && s in run
    requires forall h :: h in s.handles ==> s.handles[h].Released?
    ensures s.closed && s.ran == s.closers && s.refCount == 0
  {
    EveryRunKeepsInv(run);
    assert Inv(s);
    assert OpenHandles(s.handles) == {};
  }

  /** The count is the number of handles that may still be used; it reaches zero once. */
  lemma CountIsOpenHandles(run: seq<State>, s: State)
    requires IsRun(Init, Next, run) && s in run
    ensures s.refCount == |OpenHandles(s.handles)|
    ensures s.refCount > 0 ==> !s.closed && s.ran == []
  {
    EveryRunKeepsInv(run);
    assert Inv(s);
  }

  // ---------------------------------------------------------------- progress

  lemma ThenCareful(run: seq<State>, a: Step) returns (longer: seq<State>)
    requires IsRun(Init, Next, run) && Enabled(Last(run), a)
    ensures IsRun(Init, Next, longer) && longer == run + [Apply(Last(run), a)] && Inv(Last(longer))
  {
    assert Next(Last(run), Apply(Last(run), a));
    Extend(Init, Next, run, Apply(Last(run), a));
    longer := run + [Apply(Last(run), a)];
    EveryRunKeepsInv(longer);
    assert Last(longer) in longer;
  }

  /** Whoever is closing the last handle can go on until every closer has run. */
  lemma {:induction false} LastCloseCanFinish(run: seq<State>, h: nat) returns (longer: seq<State>)
    requires IsRun(Init, Next, run) && Inv(Last(run)) && ClosingBy(Last(run), h)
    ensures IsRun(Init, Next, longer) && run <= longer && AllReleased(Last(longer))
    decreases match Last(run).handles[h]
      case Running(done) => |Last(run).closers| - done
      case FoundOpen => |Last(run).closers| + 1
      case _ => |Last(run).closers| + 2
  {
    var v := Last(run).handles[h];
    hide Init, Next, Inv;
    if v.ReachedZero? {
      longer := ThenCareful(run, LoadClosedInClose(h));
      longer := LastCloseCanFinish(longer, h);
    } else if v.FoundOpen? {
      longer := ThenCareful(run, StoreClosed(h));
      longer := LastCloseCanFinish(longer, h);
    } else if v.done < |Last(run).closers| {
      longer := ThenCareful(run, RunCloser(h));
      longer := LastCloseCanFinish(longer, h);
    } else {
      longer := ThenCareful(run, CloseReturns(h));
    }
  }

  lemma NotPanicked(s: State)
    requires Inv(s)
    ensures !s.panicked
  {
  }

  lemma SomeHandleIsOpen(s: State) returns (h: nat)
    requires Inv(s) && s.refCount > 0
    ensures Is(s, h, Open)
  {
    assert OpenHandles(s.handles) != {};
    h :| h in OpenHandles(s.handles);
  }

  lemma LastHandleCanClose(run: seq<State>, h: nat) returns (longer: seq<State>)
    requires IsRun(Init, Next, run) && Inv(Last(run)) && NobodyOpens(Last(run))
    requires Last(run).refCount == 1 && Is(Last(run), h, Open)
    ensures IsRun(Init, Next, longer) && run <= longer && AllReleased(Last(longer))
  {
    longer := ThenCareful(run, Close(h));
    var t := Last(longer);
    assert Is(t, h, ReachedZero) && !AllReleased(t);
    var k :| ClosingBy(t, k);
    assert k == h;
    hide Init, Next, Inv;
    longer := LastCloseCanFinish(longer, h);
  }

  /** Once nobody is opening, all handles can be closed one after the other. */
  lemma {:induction false} HandlesCanClose(run: seq<State>) returns (longer: seq<State>)
    requires IsRun(Init, Next, run) && Inv(Last(run)) && NobodyOpens(Last(run)) && Last(run).refCount > 0
    ensures IsRun(Init, Next, longer) && run <= longer && AllReleased(Last(longer))
    decreases Last(run).refCount
  {
    var h := SomeHandleIsOpen(Last(run));
    hide Init, Next, Inv;
    if Last(run).refCount == 1 {
      longer := LastHandleCanClose(run, h);
    } else {
      assert !Last(run).panicked by { NotPanicked(Last(run)); }
      longer := ThenCareful(run, Close(h));
      longer := HandlesCanClose(longer);
    }
  }

  function Openers(handles: map<nat, Handle>): set<nat> { set h | h in handles && BeingOpened(handles[h]) }

  lemma OpenerCanFinish(run: seq<State>, k: nat) returns (longer: seq<State>)
    requires IsRun(Init, Next, run) && Inv(Last(run)) && k in Openers(Last(run).handles)
    ensures IsRun(Init, Next, longer) && run <= longer && Inv(Last(longer)) && Last(longer).refCount > 0
    ensures Openers(Last(longer).handles) == Openers(Last(run).handles) - {k}
  {
    assert !NobodyOpens(Last(run));
    longer := run;
    hide Init, Next;
    if Last(run).handles[k].Opening? {
      longer := ThenCareful(run, LoadClosed(k));
    }
    assert !NobodyOpens(Last(longer)) by { assert Is(Last(longer), k, Checked); }
    longer := ThenCareful(longer, Increment(k));
  }

  lemma {:induction false} OpenersCanFinish(run: seq<State>) returns (longer: seq<State>)
    requires IsRun(Init, Next, run) && Inv(Last(run)) && Last(run).refCount > 0
    ensures IsRun(Init, Next, longer) && run <= longer && Inv(Last(longer)) && Last(longer).refCount > 0
    ensures NobodyOpens(Last(longer))
    decreases Openers(Last(run).handles)
  {
    longer := run;
    hide Init, Next, Inv;
    if k :| k in Openers(Last(run).handles) {
      longer := OpenerCanFinish(run, k);
      longer := OpenersCanFinish(longer);
    } else {
      assert forall h :: h in Last(run).handles && BeingOpened(Last(run).handles[h]) ==>
                           h in Openers(Last(run).handles);
    }
  }

  /** Nobody is ever stuck: from every reachable state everything can still be opened, closed and run to its end. */
  lemma EverythingCanBeClosed(run: seq<State>) returns (longer: seq<State>)
    requires IsRun(Init, Next, run)
    ensures IsRun(Init, Next, longer) && run <= longer
    ensures forall h :: h in Last(longer).handles ==> Last(longer).handles[h].Released?
    ensures Last(longer).closed && Last(longer).ran == Last(longer).closers
  {
    EveryRunKeepsInv(run);
    var s := Last(run);
    assert s in run && Inv(s);
    longer := run;
    if s.refCount > 0 {
      hide Init, Next, Inv;
      longer := OpenersCanFinish(run);
      longer := HandlesCanClose(longer);
    } else if !AllReleased(s) {
      var h :| ClosingBy(s, h);
      hide Init, Next, Inv;
      longer := LastCloseCanFinish(run, h);
    }
  }

  // ---------------------------------------------------- closing while opening

  lemma Then(run: seq<State>, a: Step) returns (longer: seq<State>)
    requires IsRun(Init, CarelessNext, run) && Possible(Last(run), a)
    ensures IsRun(Init, CarelessNext, longer) && longer == run + [Apply(Last(run), a)]
  {
    assert CarelessNext(Last(run), Apply(Last(run), a));
    longer := run + [Apply(Last(run), a)];
    Extend(Init, CarelessNext, run, Apply(Last(run), a));
  }

  lemma CarefulRunIsRun(run: seq<State>)
    requires IsRun(Init, Next, run)
    ensures IsRun(Init, CarelessNext, run)
  {
    forall i | 0 < i < |run|
      ensures CarelessNext(run[i - 1], run[i])
    {
      assert Next(run[i - 1], run[i]);
      var a :| Enabled(run[i - 1], a) && run[i] == Apply(run[i - 1], a);
      assert Possible(run[i - 1], a);
    }
  }

  /** The close that reaches zero goes on to set `closed`, whoever is opening. */
  lemma LastCloseSetsClosed(run: seq<State>, h: nat) returns (longer: seq<State>)
    requires IsRun(Init, CarelessNext, run) && Is(Last(run), h, Open) && Last(run).refCount == 1
    requires !Last(run).closed && !Last(run).panicked
    ensures IsRun(Init, CarelessNext, longer) && run + [Apply(Last(run), Close(h))] <= longer
    ensures Last(longer) == Last(run).(refCount := 0, closed := true, handles := Last(run).handles[h := Running(0)])
  {
    hide Init, CarelessNext;
    var handles: map<nat, Handle> := Last(run).handles;
    longer := Then(run, Close(h));
    longer := Then(longer, LoadClosedInClose(h));
    longer := Then(longer, StoreClosed(h));
    assert handles[h := ReachedZero][h := FoundOpen][h := Running(0)] == handles[h := Running(0)];
  }

  /** Whoever was opening then panics in addRef, or gets a closed repository and panics in its own close. */
  lemma OpeningPanics(run: seq<State>, k: nat) returns (longer: seq<State>)
    requires IsRun(Init, CarelessNext, run) && k in Last(run).handles && BeingOpened(Last(run).handles[k])
    requires Last(run).closed && Last(run).refCount == 0 && !Last(run).panicked
    ensures IsRun(Init, CarelessNext, longer) && run <= longer && Last(longer).panicked
  {
    hide Init, CarelessNext;
    if Last(run).handles[k].Opening? {
      longer := Then(run, LoadClosed(k));
    } else {
      longer := Then(run, Increment(k));
      longer := Then(longer, Close(k));
      longer := Then(longer, LoadClosedInClose(k));
    }
  }

  /**
   The rule about closing is needed whenever it applies: from every state that a
   careful run reaches, a close that takes the count to zero while a session is
   being opened can be followed by a panic.
   */
  lemma LastCloseDuringOpenPanics(run: seq<State>, h: nat) returns (longer: seq<State>)
    requires IsRun(Init, Next, run) && Possible(Last(run), Close(h)) && !Enabled(Last(run), Close(h))
    ensures IsRun(Init, CarelessNext, longer) && run + [Apply(Last(run), Close(h))] <= longer
    ensures Last(longer).panicked
  {
    var s := Last(run);
    EveryRunKeepsInv(run);
    assert Inv(s);
    CarefulRunIsRun(run);
    var k :| k in s.handles && BeingOpened(s.handles[k]);
    hide Init, CarelessNext, Next;
    longer := LastCloseSetsClosed(run, h);
    longer := OpeningPanics(longer, k);
  }

  // -------------------------------------------------- the object, step by step

  type Error = nat

  ghost function FailedBefore(closers: seq<Closer>, outcome: Closer -> Option<Error>, n: nat): set<nat>
    requires n <= |closers|
  {
    set i: nat | i < n && outcome(closers[i]).Some?
  }

  /** As many errors as closers failed, each at the place given by how many failed before. */
  ghost predicate ReportsEveryFailure(errors: seq<Error>, closers: seq<Closer>, outcome: Closer -> Option<Error>,
                                      n: nat)
    requires n <= |closers|
  {
    && |errors| == |FailedBefore(closers, outcome, n)|
    && forall i: nat :: i < n && outcome(closers[i]).Some? ==>
         var place := |FailedBefore(closers, outcome, i)|;
         place < |errors| && errors[place] == outcome(closers[i]).value
  }

  lemma FailedGrows(closers: seq<Closer>, outcome: Closer -> Option<Error>, n: nat)
    requires n < |closers|
    ensures |FailedBefore(closers, outcome, n + 1)|
         == |FailedBefore(closers, outcome, n)| + if outcome(closers[n]).Some? then 1 else 0
  {
    assert FailedBefore(closers, outcome, n + 1)
        == FailedBefore(closers, outcome, n) + if outcome(closers[n]).Some? then {n} else {};
  }

  lemma OneMoreRan(errors: seq<Error>, closers: seq<Closer>, outcome: Closer -> Option<Error>, n: nat)
    requires n < |closers| && ReportsEveryFailure(errors, closers, outcome, n)
    ensures outcome(closers[n]).Some? ==>
              ReportsEveryFailure(errors + [outcome(closers[n]).value], closers, outcome, n + 1)
    ensures outcome(closers[n]).None? ==> ReportsEveryFailure(errors, closers, outcome, n + 1)
  {
    FailedGrows(closers, outcome, n);
    hide FailedBefore;
  }

  lemma CloseEffect(s: State, h: nat)
    requires Inv(s) && Enabled(s, Close(h))
    ensures s.refCount > 0 && !s.closed && !s.panicked && s.ran == []
    ensures s.refCount != 1 ==> Inv(s.(refCount := s.refCount - 1, handles := s.handles[h := Released]))
    ensures s.refCount == 1 ==> Inv(s.(refCount := 0, closed := true, handles := s.handles[h := Running(0)]))
  {
    OpenIsCounted(s, h);
    CloseKeepsInv(s, Close(h));
    var zero := Apply(s, Close(h));
    if s.refCount == 1 {
      StepKeepsInv(zero, LoadClosedInClose(h));
      var found := Apply(zero, LoadClosedInClose(h));
      StepKeepsInv(found, StoreClosed(h));
      assert s.handles[h := ReachedZero][h := FoundOpen][h := Running(0)] == s.handles[h := Running(0)];
    }
  }

  lemma ReturnEffect(s: State, h: nat)
    requires Inv(s) && Enabled(s, CloseReturns(h))
    ensures Inv(s.(handles := s.handles[h := Released])) && s.ran == s.closers
  {
    StepKeepsInv(s, CloseReturns(h));
    assert ClosingBy(s, h) && s.refCount == 0;
  }

  /** Every handle is in use or done with, and numbered below next. */
  ghost predicate AtRest(handles: map<nat, Handle>, next: nat) {
    forall h :: h in handles ==> h < next && (handles[h].Open? || handles[h].Released?)
  }

  lemma ReleaseKeepsRest(handles: map<nat, Handle>, next: nat, h: nat)
    requires AtRest(handles, next) && h in handles
    ensures AtRest(handles[h := Released], next)
  {
  }

  class RefCountedCloser {
    var refCount: int
    var closed: bool
    var closers: seq<Closer>
    var panicked: bool
    ghost var ran: seq<Closer>
    ghost var handles: map<nat, Handle>
    ghost var nextHandle: nat

    ghost function Now(): State
      reads this
    {
      State(refCount, closed, closers, ran, handles, panicked)
    }

    /** No call is in progress. */
    ghost predicate Valid()
      reads this
    {
      && Inv(Now())
      && AtRest(handles, nextHandle)
    }

    constructor (f: seq<Closer>)
      ensures Valid() && Init(Now()) && closers == f
    {
      refCount, closed, closers, panicked := 0, false, f, false;
      ran, handles, nextHandle := [], map[0 := Open], 1;
      new;
      refCount := refCount + 1;
      assert OpenHandles(handles) == {0};
    }

    /** addRef by a session opened through an open handle. */
    method AddRef(ghost parent: nat) returns (ghost h: nat)
      requires Valid() && Is(Now(), parent, Open)
      modifies this
      ensures Valid() && !panicked && h !in old(handles)
      ensures refCount == old(refCount) + 1 && handles == old(handles)[h := Open]
      ensures closed == old(closed) && closers == old(closers) && ran == old(ran)
    {
      ghost var before := Now();
      h := nextHandle;
      StepKeepsInv(before, BeginOpen(h, parent));
      ghost var opening := Apply(before, BeginOpen(h, parent));
      StepKeepsInv(opening, LoadClosed(h));
      ghost var checked := Apply(opening, LoadClosed(h));
      StepKeepsInv(checked, Increment(h));
      panicked := closed;
      if !panicked {
        refCount := refCount + 1;
        handles, nextHandle := handles[h := Open], nextHandle + 1;
      }
      assert Now() == Apply(checked, Increment(h));
    }

    method RegisterEarlyCloseFunc(ghost h: nat, f: Closer)
      requires Valid() && Is(Now(), h, Open)
      modifies this`closers
      ensures Valid() && closers == old(closers) + [f]
    {
      StepKeepsInv(Now(), Register(h, f));
      closers := closers + [f];
      assert Now() == Apply(old(Now()), Register(h, f));
    }

    method RunClosers(ghost h: nat, outcome: Closer -> Option<Error>) returns (errors: seq<Error>)
      requires Inv(Now()) && Is(Now(), h, Running(0)) && !panicked
      modifies this`ran, this`handles
      ensures Inv(Now()) && handles == old(handles)[h := Running(|closers|)]
      ensures ReportsEveryFailure(errors, closers, outcome, |closers|)
    {
      hide Inv;
      errors := [];
      assert FailedBefore(closers, outcome, 0) == {};
      assert ReportsEveryFailure(errors, closers, outcome, 0);
      hide ReportsEveryFailure;
      var i := 0;
      while i < |closers|
        invariant i <= |closers| && Inv(Now()) && handles == old(handles)[h := Running(i)]
        invariant ReportsEveryFailure(errors, closers, outcome, i)
      {
        ghost var s := Now();
        StepKeepsInv(s, RunCloser(h));
        OneMoreRan(errors, closers, outcome, i);
        if outcome(closers[i]).Some? {
          errors := errors + [outcome(closers[i]).value];
        }
        ran := ran + [closers[i]];
        i := i + 1;
        handles := handles[h := Running(i)];
        assert Now() == Apply(s, RunCloser(h));
      }
    }

    /** The last close runs every closer, also after one fails, and returns all failures. */
    method Close(ghost h: nat, outcome: Closer -> Option<Error>) returns (errors: seq<Error>)
      requires Valid() && Is(Now(), h, Open)
      modifies this
      ensures Valid() && !panicked
      ensures refCount == old(refCount) - 1 && handles == old(handles)[h := Released] && closers == old(closers)
      ensures old(refCount) > 1 ==> errors == [] && ran == old(ran) && !closed
      ensures old(refCount) == 1 ==> closed && ran == closers
      ensures old(refCount) == 1 ==> ReportsEveryFailure(errors, closers, outcome, |closers|)
    {
      CloseEffect(Now(), h);
      ReleaseKeepsRest(handles, nextHandle, h);
      hide Inv, ReportsEveryFailure, Apply, Enabled, AtRest;
      errors := [];
      refCount := refCount - 1;
      if refCount != 0 {
        handles := handles[h := Released];
        return;
      }
      panicked := closed;
      assert !panicked;
      closed, handles := true, handles[h := Running(0)];
      errors := RunClosers(h, outcome);
      ReturnEffect(Now(), h);
      handles := handles[h := Released];
      assert handles == old(handles)[h := Released];
    }
  }

  // ------------------------------------------------------------ write sessions

  /** What each part of a session returns; its callback runs the nested sessions through the new writer. */
  datatype Session = Session(
    create: Option<Error>,
    nested: seq<Session>,
    result: Option<Error>,
    flush: Option<Error>,
    flushOnFailure: bool)

  datatype SessionError = CannotCreate(e: Error) | FlushFailed(e: Error) | CallbackFailed(e: Error)

  lemma OpenHandleKeepsItOpen(s: State, h: nat)
    requires Inv(s) && Is(s, h, Open)
    ensures !s.closed && s.ran == [] && !s.panicked
  {
    OpenIsCounted(s, h);
  }

  lemma TwoHandlesAreCounted(s: State, g: nat, h: nat)
    requires Inv(s) && Is(s, g, Open) && Is(s, h, Open) && g != h
    ensures s.refCount > 1
  {
    assert {g, h} <= OpenHandles(s.handles);
    assert |OpenHandles(s.handles)| == |OpenHandles(s.handles) - {g, h}| + |{g, h}|;
  }

  /** Between the two states whole sessions came and went. */
  ghost predicate Balanced(s: State, t: State) {
    && t == s.(handles := t.handles)
    && (forall h :: h in s.handles ==> Is(t, h, s.handles[h]))
    && (forall h :: h in t.handles && h !in s.handles ==> t.handles[h].Released?)
  }

  lemma SessionBalances(s: State, h: nat, t: State)
    requires h !in s.handles
    requires Balanced(s.(refCount := s.refCount + 1, handles := s.handles[h := Open]), t)
    ensures Balanced(s, t.(refCount := s.refCount, handles := t.handles[h := Released]))
  {
    var mid := s.handles[h := Open];
    forall k | k in s.handles
      ensures k != h && Is(t, k, s.handles[k])
    {
      assert k in mid;
    }
    forall k | k in t.handles && k !in s.handles && k != h
      ensures t.handles[k].Released?
    {
      assert k !in mid;
    }
  }

  /**
   A session flushes unless its callback failed and it was not asked to flush
   then. Whatever fails, it closes its writer and leaves the count, the closers
   and every other handle as it found them.
   */
  method WriteSession(c: RefCountedCloser, ghost parent: nat, session: Session, outcome: Closer -> Option<Error>)
    returns (err: Option<SessionError>, flushed: bool)
    requires c.Valid() && Is(c.Now(), parent, Open)
    modifies c
    ensures c.Valid() && Balanced(old(c.Now()), c.Now())
    ensures session.create.Some? ==> err == Some(CannotCreate(session.create.value)) && !flushed
    ensures session.create.None? ==> (flushed <==> session.result.None? || session.flushOnFailure)
    ensures flushed && session.flush.Some? ==> err == Some(FlushFailed(session.flush.value))
    ensures session.create.None? && !(flushed && session.flush.Some?) && session.result.Some? ==>
              err == Some(CallbackFailed(session.result.value))
    ensures err.None? <==> session.create.None? && session.result.None? && session.flush.None?
    decreases session
  {
    hide Inv;
    if session.create.Some? {
      return Some(CannotCreate(session.create.value)), false;
    }
    ghost var h := c.AddRef(parent);
    ghost var entered := c.Now();
    assert Is(entered, h, Open) && Is(entered, parent, Open);
    for i := 0 to |session.nested|
      invariant c.Valid() && Balanced(entered, c.Now())
    {
      var _, _ := WriteSession(c, h, session.nested[i], outcome);
    }
    flushed := session.result.None? || session.flushOnFailure;
    err := if session.result.Some? then Some(CallbackFailed(session.result.value)) else None;
    if flushed && session.flush.Some? {
      err := Some(FlushFailed(session.flush.value));
    }
    OpenHandleKeepsItOpen(old(c.Now()), parent);
    TwoHandlesAreCounted(c.Now(), parent, h);
    SessionBalances(old(c.Now()), h, c.Now());
    var _ := c.Close(h, outcome);
  }
}

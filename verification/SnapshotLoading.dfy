/**
 Loading many snapshot manifests at once. A buffered channel serves as a counting
 semaphore; filling it up once more waits for all loads. Its tokens are alike: a
 finished load may take the token of another one, or one put in while waiting.
 */
module SnapshotLoading {
  import opened Wrappers
  import opened Runs

  type Manifest = string

  const CONCURRENCY: nat := 50

  /** One goroutine: it loads, stores what it got, then takes a token. */
  datatype Load = Loading | Stored | Finished

  /** Where the caller stands: about to put a token, to start a load, to wait, or past close(sem). */
  datatype Phase = Putting | Starting | Waiting | Closed

  /** `outcome` is what loading each ID gives, None for an error. */
  datatype State = State(
    outcome: seq<Option<Manifest>>,
    phase: Phase,
    loads: seq<Load>,
    tokens: nat,
    waited: nat,
    result: seq<Option<Manifest>>)

  datatype Step =
    | Put
    | Start
    | Wait
    | Close
    | Store(i: nat)
    | Take(i: nat)

  ghost predicate Init(s: State) {
    && s.loads == [] && s.tokens == 0 && s.waited == 0 && s.phase == Putting
    && s.result == seq(|s.outcome|, _ => None)
  }

  predicate Enabled(s: State, a: Step) {
    match a
    case Put => s.phase.Putting? && |s.loads| < |s.outcome| && s.tokens < CONCURRENCY
    case Start => s.phase.Starting?
    case Wait =>
      (s.phase.Waiting? || (s.phase.Putting? && |s.loads| >= |s.outcome|)) && s.waited < CONCURRENCY
          && s.tokens < CONCURRENCY
    case Close => s.phase.Waiting? && s.waited == CONCURRENCY
    case Store(i) => i < |s.loads| && s.loads[i].Loading? && i < |s.outcome| && i < |s.result|
    case Take(i) => i < |s.loads| && s.loads[i].Stored? && s.tokens > 0
  }

  function Apply(s: State, a: Step): State
    requires Enabled(s, a)
  {
    match a
    case Put => s.(phase := Starting, tokens := s.tokens + 1)
    case Start => s.(phase := Putting, loads := s.loads + [Loading])
    case Wait => s.(phase := Waiting, tokens := s.tokens + 1, waited := s.waited + 1)
    case Close => s.(phase := Closed)
    case Store(i) =>
      s.(loads := s.loads[i := Stored], result := if s.outcome[i].Some? then s.result[i := s.outcome[i]] else s.result)
    case Take(i) => s.(loads := s.loads[i := Finished], tokens := s.tokens - 1)
  }

  ghost predicate Next(s: State, t: State) { exists a: Step :: Enabled(s, a) && t == Apply(s, a) }

  // ---------------------------------------------------------------- invariant

  function Running(loads: seq<Load>): nat {
    if loads == [] then 0
    else Running(loads[..|loads| - 1]) + if loads[|loads| - 1].Finished? then 0 else 1
  }

  /** What a slot of the result holds, by the state of its load. */
  predicate SlotOk(s: State, i: nat)
    requires i < |s.result| == |s.outcome|
  {
    s.result[i] == if i < |s.loads| && !s.loads[i].Loading? then s.outcome[i] else None
  }

  ghost predicate Inv(s: State) {
    && |s.result| == |s.outcome|
    && |s.loads| + (if s.phase.Starting? then 1 else 0) <= |s.outcome|
    && s.tokens == Running(s.loads) + s.waited + (if s.phase.Starting? then 1 else 0)
    && s.tokens <= CONCURRENCY
    && (s.phase.Putting? || s.phase.Starting? ==> s.waited == 0)
    && (s.phase.Waiting? || s.phase.Closed? ==> |s.loads| == |s.outcome|)
    && (s.phase.Closed? ==> s.waited == CONCURRENCY)
    && (forall i: nat :: i < |s.outcome| ==> SlotOk(s, i))
  }

  lemma {:induction false} RunningAfter(loads: seq<Load>, i: nat, v: Load)
    requires i < |loads|
    ensures Running(loads[i := v]) ==
            Running(loads) - (if loads[i].Finished? then 0 else 1) + (if v.Finished? then 0 else 1)
  {
    var n := |loads| - 1;
    if i == n {
      assert loads[i := v][..n] == loads[..n];
    } else {
      RunningAfter(loads[..n], i, v);
      assert loads[i := v][..n] == loads[..n][i := v];
    }
  }

  lemma {:induction false} RunningNone(loads: seq<Load>, i: nat)
    requires i < |loads| && Running(loads) == 0
    ensures loads[i].Finished?
  {
    if i < |loads| - 1 {
      RunningNone(loads[..|loads| - 1], i);
    }
  }

  lemma {:induction false} RunningSome(loads: seq<Load>) returns (i: nat)
    requires Running(loads) > 0
    ensures i < |loads| && !loads[i].Finished?
  {
    i := |loads| - 1;
    if loads[i].Finished? {
      i := RunningSome(loads[..i]);
    }
  }

  lemma StepKeepsInv(s: State, a: Step)
    requires Inv(s) && Enabled(s, a)
    ensures Inv(Apply(s, a))
  {
    var t := Apply(s, a);
    forall k: nat | k < |t.outcome|
      ensures SlotOk(t, k)
    {
      assert SlotOk(s, k);
    }
    match a
    case Start => assert t.loads[..|t.loads| - 1] == s.loads;
    case Store(i) => RunningAfter(s.loads, i, Stored);
    case Take(i) => RunningAfter(s.loads, i, Finished);
    case _ =>
  }

  lemma EveryRunKeepsInv(run: seq<State>)
    requires IsRun(Init, Next, run)
    ensures forall s :: s in run ==> Inv(s)
  {
    forall s, t | Inv(s) && Next(s, t)
      ensures Inv(t)
    {
      var a :| Enabled(s, a) && t == Apply(s, a);
      StepKeepsInv(s, a);
    }
    InvariantHolds(Init, Next, Inv, run);
  }

  // ----------------------------------------------------------------- theorems

  /**
   Tokens are the loads not yet finished, the caller's one just put, and those it waits with; so loads are
   bounded.
   */
  lemma TokensCountLoads(run: seq<State>, s: State)
    requires IsRun(Init, Next, run) && s in run
    ensures s.tokens == Running(s.loads) + s.waited + (if s.phase.Starting? then 1 else 0)
    ensures Running(s.loads) <= 50
  {
    EveryRunKeepsInv(run);
    assert Inv(s);
  }

  /** Once the channel is closed every load has finished and stored: no slot is written any more. */
  lemma ClosedAfterEveryStore(run: seq<State>, s: State)
    requires IsRun(Init, Next, run) && s in run && s.phase.Closed?
    ensures s.result == s.outcome
    ensures forall a: Step :: !Enabled(s, a)
  {
    EveryRunKeepsInv(run);
    assert Inv(s);
    forall i: nat | i < |s.loads|
      ensures s.loads[i].Finished?
    {
      RunningNone(s.loads, i);
    }
    forall i: nat | i < |s.outcome|
      ensures s.result[i] == s.outcome[i]
    {
      assert SlotOk(s, i);
    }
  }

  /** The loads and the waiting caller never block each other for good. */
  lemma NeverStuck(run: seq<State>, s: State) returns (a: Step)
    requires IsRun(Init, Next, run) && s in run && !s.phase.Closed?
    ensures Enabled(s, a)
  {
    EveryRunKeepsInv(run);
    assert Inv(s);
    if s.phase.Starting? {
      a := Start;
    } else if s.phase.Waiting? && s.waited == CONCURRENCY {
      a := Close;
    } else if s.tokens < CONCURRENCY {
      a := if s.phase.Putting? && |s.loads| < |s.outcome| then Put else Wait;
    } else {
      var i := RunningSome(s.loads);
      a := if s.loads[i].Loading? then Store(i) else Take(i);
    }
  }

  function Weight(l: Load): nat { match l case Loading => 2 case Stored => 1 case Finished => 0 }

  function Unfinished(loads: seq<Load>): nat {
    if loads == [] then 0 else Unfinished(loads[..|loads| - 1]) + Weight(loads[|loads| - 1])
  }

  lemma {:induction false} UnfinishedAfter(loads: seq<Load>, i: nat, v: Load)
    requires i < |loads|
    ensures Unfinished(loads[i := v]) == Unfinished(loads) - Weight(loads[i]) + Weight(v)
  {
    var n := |loads| - 1;
    if i == n {
      assert loads[i := v][..n] == loads[..n];
    } else {
      UnfinishedAfter(loads[..n], i, v);
      assert loads[i := v][..n] == loads[..n][i := v];
    }
  }

  /** How much is left to do. */
  function Remaining(s: State): int {
    4 * (|s.outcome| - |s.loads|) + 2 * (CONCURRENCY - s.waited) + Unfinished(s.loads)
    + (match s.phase case Putting => 1 case Starting => 0 case Waiting => 1 case Closed => 0)
  }

  /** Every step leaves less to do, so with NeverStuck every run reaches the closed channel. */
  lemma EveryStepMakesProgress(run: seq<State>, s: State, a: Step)
    requires IsRun(Init, Next, run) && s in run && Enabled(s, a)
    ensures 0 <= Remaining(Apply(s, a)) < Remaining(s)
  {
    EveryRunKeepsInv(run);
    var t := Apply(s, a);
    assert Inv(s);
    StepKeepsInv(s, a);
    match a
    case Start => assert t.loads[..|t.loads| - 1] == s.loads;
    case Store(i) => UnfinishedAfter(s.loads, i, Stored);
    case Take(i) => UnfinishedAfter(s.loads, i, Finished);
    case _ =>
  }

  // --------------------------------------------------------------- compaction

  /** The manifests that were loaded, in input order. */
  function Successful(slots: seq<Option<Manifest>>): seq<Option<Manifest>> {
    if slots == [] then []
    else
      var last := slots[|slots| - 1];
      Successful(slots[..|slots| - 1]) + if last.Some? then [last] else []
  }

  /** How many were loaded before slot i. */
  ghost function Before(slots: seq<Option<Manifest>>, i: nat): nat
    requires i <= |slots|
  {
    |set k: nat | k < i && slots[k].Some?|
  }

  lemma BeforeGrows(slots: seq<Option<Manifest>>, i: nat)
    requires i < |slots|
    ensures Before(slots, i + 1) == Before(slots, i) + if slots[i].Some? then 1 else 0
  {
    assert (set k: nat | k < i + 1 && slots[k].Some?)
        == (set k: nat | k < i && slots[k].Some?) + if slots[i].Some? then {i} else {};
  }

  /** Every loaded manifest is in the list, at the place given by how many precede it, and nothing else is. */
  lemma {:induction false} SuccessfulAt(slots: seq<Option<Manifest>>, n: nat)
    requires n <= |slots|
    ensures |Successful(slots[..n])| == Before(slots, n)
    ensures forall i: nat :: i < n && slots[i].Some? ==>
                               Before(slots, i) < Before(slots, n)
                                   && Successful(slots[..n])[Before(slots, i)] == slots[i]
  {
    if n > 0 {
      SuccessfulAt(slots, n - 1);
      BeforeGrows(slots, n - 1);
      hide Before;
      assert slots[..n][..n - 1] == slots[..n - 1];
      assert Successful(slots[..n]) == Successful(slots[..n - 1]) + if slots[n - 1].Some? then [slots[n - 1]] else [];
    }
  }

  /** The slice of successes grows over the very array being read. */
  method Compact(result: array<Option<Manifest>>) returns (n: nat)
    modifies result
    ensures n <= result.Length && result[..n] == Successful(old(result[..]))
  {
    n := 0;
    ghost var before := result[..];
    for k := 0 to result.Length
      invariant n <= k && result[..n] == Successful(before[..k])
      invariant result[k..] == before[k..]
    {
      var m := result[k];
      assert m == result[k..][0] == before[k];
      assert before[..k + 1][..k] == before[..k];
      if m.Some? {
        result[n] := m;
        n := n + 1;
        assert result[..n] == Successful(before[..k]) + [m];
      }
    }
    assert before[..result.Length] == before;
  }

  /** The end of every run: compacting what the closed channel left gives the loaded manifests in input order. */
  method Finish(ghost run: seq<State>, ghost s: State, result: array<Option<Manifest>>) returns (n: nat)
    requires IsRun(Init, Next, run) && s in run && s.phase.Closed? && result[..] == s.result
    modifies result
    ensures n <= result.Length && result[..n] == Successful(s.outcome)
    ensures n == Before(s.outcome, |s.outcome|)
  {
    ClosedAfterEveryStore(run, s);
    n := Compact(result);
    SuccessfulAt(s.outcome, |s.outcome|);
    assert s.outcome[..|s.outcome|] == s.outcome;
  }
}

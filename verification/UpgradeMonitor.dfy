/**
 The upgrade lock monitor in front of every storage operation. Any number of
 callbacks run at once under a read-write mutex while the format manager reloads
 the format at any moment, also between two reads of one callback.
 */
module UpgradeMonitor {
  import opened Wrappers
  import opened Runs

  type Time = nat

  /** The zero time, which no loaded format has. */
  const NEVER: Time := 0

  datatype LockIntent = LockIntent(owner: string, creation: int, advanceNotice: int, ioDrain: int, clockDrift: int)

  datatype Feature = Feature(name: string, warnOnly: bool)

  datatype Revision = Revision(loadedTime: Time, lock: Option<LockIntent>, required: set<Feature>)

  datatype Config = Config(me: string, supported: set<string>, ignoreMissing: bool)

  function TotalDrain(l: LockIntent): int { l.clockDrift + 2 * l.ioDrain }

  /** Too little notice locks at once; otherwise the lock starts when the drain must. */
  predicate IsLocked(l: LockIntent, now: Time) {
    l.advanceNotice < TotalDrain(l) || now >= l.creation + l.advanceNotice - TotalDrain(l)
  }

  predicate LockAllows(c: Config, lock: Option<LockIntent>, now: Time) {
    lock.Some? ==> !(IsLocked(lock.value, now) && c.me != lock.value.owner)
  }

  predicate FeaturesAllow(c: Config, required: set<Feature>) {
    forall f :: f in required ==> f.name in c.supported || c.ignoreMissing || f.warnOnly
  }

  /** A check that let its caller through: where it read the lock intent and the features, and when. */
  datatype Check = Check(intentFrom: Revision, featuresFrom: Revision, at: Time)

  /** Where a callback stands; `saw` is the revision whose time its last LoadedTime call returned. */
  datatype Callback =
    | Idle
    | Reading
    | ReadSaw(saw: Revision)
    | Waiting
    | Writing
    | WriteSaw(saw: Revision)
    | Checking(saw: Revision)
    | HasIntent(saw: Revision, intentFrom: Revision)
    | HasFeatures(saw: Revision, intentFrom: Revision, featuresFrom: Revision)
    | PassedByComparison(saw: Revision)
    | PassedByCheck
    | Refused

  datatype State = State(
    config: Config,
    loaded: Revision,
    lastCheckTime: Time,
    clock: Time,
    callbacks: map<nat, Callback>,
    checks: set<Check>)

  datatype Step =
    | Tick
    | Reload(revision: Revision)
    | ReadLock(i: nat)
    | ReadLoadedTime(i: nat)
    | ReadCompare(i: nat)
    | WriteLock(i: nat)
    | WriteLoadedTime(i: nat)
    | WriteCompare(i: nat)
    | GetIntent(i: nat)
    | GetFeatures(i: nat)
    | Fail(i: nat)
    | Decide(i: nat)
    | Return(i: nat)

  ghost predicate Init(s: State) {
    && s.lastCheckTime == NEVER && s.loaded.loadedTime > NEVER && s.checks == {}
    && (forall i :: i in s.callbacks ==> s.callbacks[i] == Idle)
  }

  predicate Reader(p: Callback) { p.Reading? || p.ReadSaw? }

  predicate Writer(p: Callback) { p.Writing? || p.WriteSaw? || p.Checking? || p.HasIntent? || p.HasFeatures? }

  predicate At(s: State, i: nat, p: Callback) { i in s.callbacks && s.callbacks[i] == p }

  /** r was loaded no later than t, and they are one revision if their times agree. */
  predicate Upto(r: Revision, t: Revision) {
    r.loadedTime <= t.loadedTime && (r.loadedTime == t.loadedTime ==> r == t)
  }

  /**
   `orderly` reloads give a later time or the very same revision again, as when
   two callers refresh one after the other and the second is served from the
   cache. Otherwise a reload may give any revision.
   */
  predicate Possible(s: State, a: Step, orderly: bool) {
    match a
    case Tick => true
    case Reload(r) => r.loadedTime > NEVER && (orderly ==> Upto(s.loaded, r))
    case ReadLock(i) => At(s, i, Idle) && forall k :: k in s.callbacks ==> !Writer(s.callbacks[k])
    case ReadLoadedTime(i) => At(s, i, Reading)
    case ReadCompare(i) => i in s.callbacks && s.callbacks[i].ReadSaw?
    case WriteLock(i) =>
      At(s, i, Waiting) && forall k :: k in s.callbacks ==> !Writer(s.callbacks[k]) && !Reader(s.callbacks[k])
    case WriteLoadedTime(i) => At(s, i, Writing)
    case WriteCompare(i) => i in s.callbacks && s.callbacks[i].WriteSaw?
    case GetIntent(i) => i in s.callbacks && s.callbacks[i].Checking?
    case GetFeatures(i) => i in s.callbacks && s.callbacks[i].HasIntent?
    case Fail(i) => i in s.callbacks && (s.callbacks[i].Checking? || s.callbacks[i].HasIntent?)
    case Decide(i) => i in s.callbacks && s.callbacks[i].HasFeatures?
    case Return(i) =>
      && i in s.callbacks
      && (s.callbacks[i].PassedByComparison? || s.callbacks[i].PassedByCheck? || s.callbacks[i].Refused?)
  }

  function Move(s: State, i: nat, p: Callback): State { s.(callbacks := s.callbacks[i := p]) }

  function Apply(s: State, a: Step): State
    requires Possible(s, a, false)
  {
    match a
    case Tick => s.(clock := s.clock + 1)
    case Reload(r) => s.(loaded := r)
    case ReadLock(i) => Move(s, i, Reading)
    case ReadLoadedTime(i) => Move(s, i, ReadSaw(s.loaded))
    case ReadCompare(i) =>
      var saw := s.callbacks[i].saw;
      Move(s, i, if s.lastCheckTime == saw.loadedTime then PassedByComparison(saw) else Waiting)
    case WriteLock(i) => Move(s, i, Writing)
    case WriteLoadedTime(i) => Move(s, i, WriteSaw(s.loaded))
    case WriteCompare(i) =>
      var saw := s.callbacks[i].saw;
      Move(s, i, if s.lastCheckTime == saw.loadedTime then PassedByComparison(saw) else Checking(saw))
    case GetIntent(i) => Move(s, i, HasIntent(s.callbacks[i].saw, s.loaded))
    case GetFeatures(i) =>
      var p := s.callbacks[i];
      if FeaturesAllow(s.config, s.loaded.required) then Move(s, i, HasFeatures(p.saw, p.intentFrom, s.loaded))
      else Move(s, i, Refused)
    case Fail(i) => Move(s, i, Refused)
    case Decide(i) =>
      var p := s.callbacks[i];
      if LockAllows(s.config, p.intentFrom.lock, s.clock) then
        Move(s, i, PassedByCheck).(
          lastCheckTime := p.saw.loadedTime,
          checks := s.checks + {Check(p.intentFrom, p.featuresFrom, s.clock)})
      else
        Move(s, i, Refused)
    case Return(i) => Move(s, i, Idle)
  }

  ghost predicate Next(s: State, t: State) { exists a: Step :: Possible(s, a, true) && t == Apply(s, a) }

  /** Reloads in any order. */
  ghost predicate LooseNext(s: State, t: State) { exists a: Step :: Possible(s, a, false) && t == Apply(s, a) }

  // ---------------------------------------------------------------- invariant

  /** Both the lock intent and the features of this very revision let a caller through, by now. */
  ghost predicate Cleared(s: State, r: Revision) {
    exists c :: c in s.checks && c.intentFrom == r && c.featuresFrom == r
  }

  predicate Sound(s: State, c: Check) {
    && LockAllows(s.config, c.intentFrom.lock, c.at)
    && FeaturesAllow(s.config, c.featuresFrom.required)
    && c.at <= s.clock
  }

  ghost predicate Matched(s: State, r: Revision) { s.lastCheckTime == r.loadedTime ==> Cleared(s, r) }

  ghost predicate CallbackOk(s: State, p: Callback) {
    match p
    case ReadSaw(saw) => Upto(saw, s.loaded) && Matched(s, saw)
    case WriteSaw(saw) => Upto(saw, s.loaded) && Matched(s, saw)
    case Checking(saw) => Upto(saw, s.loaded)
    case HasIntent(saw, from) => Upto(saw, from) && Upto(from, s.loaded)
    case HasFeatures(saw, intentFrom, from) =>
      && Upto(saw, intentFrom) && Upto(intentFrom, from) && Upto(from, s.loaded)
      && FeaturesAllow(s.config, from.required)
    case PassedByComparison(saw) => Cleared(s, saw)
    case _ => true
  }

  ghost predicate CallbacksOk(s: State) { forall i :: i in s.callbacks ==> CallbackOk(s, s.callbacks[i]) }

  /** A writer excludes everybody else. */
  ghost predicate Exclusive(s: State) {
    forall i, k :: i in s.callbacks && k in s.callbacks && i != k && Writer(s.callbacks[i]) ==>
                     !Writer(s.callbacks[k]) && !Reader(s.callbacks[k])
  }

  ghost predicate Inv(s: State) {
    && CallbacksOk(s) && Exclusive(s)
    && s.loaded.loadedTime > NEVER && s.lastCheckTime <= s.loaded.loadedTime
    && Matched(s, s.loaded)
    && (forall c :: c in s.checks ==> Sound(s, c))
  }

  lemma StepKeepsExclusive(s: State, a: Step)
    requires Inv(s) && Possible(s, a, true)
    ensures Exclusive(Apply(s, a))
  {
  }

  /** Nothing this callback holds goes stale when time passes, a revision is loaded or a check is added. */
  lemma OtherStaysOk(s: State, a: Step, k: nat)
    requires Inv(s) && Possible(s, a, true) && k in s.callbacks
    requires a.Tick? || a.Reload? || a.i != k
    ensures CallbackOk(Apply(s, a), s.callbacks[k])
  {
    var t := Apply(s, a);
    var p := s.callbacks[k];
    assert CallbackOk(s, p);
    assert s.checks <= t.checks;
    assert t.lastCheckTime != s.lastCheckTime ==> !Reader(p) && !Writer(p);
  }

  lemma ActorStaysOk(s: State, a: Step)
    requires Inv(s) && Possible(s, a, true) && !a.Tick? && !a.Reload?
    ensures CallbackOk(Apply(s, a), Apply(s, a).callbacks[a.i])
  {
    assert CallbackOk(s, s.callbacks[a.i]);
  }

  /** A check that ends while its first revision is still loaded read everything from that revision. */
  lemma CheckClears(s: State, a: Step)
    requires Inv(s) && Possible(s, a, true) && a.Decide?
    ensures Matched(Apply(s, a), s.loaded)
    ensures Apply(s, a).lastCheckTime <= s.loaded.loadedTime
  {
    var p := s.callbacks[a.i];
    assert CallbackOk(s, p);
    var t := Apply(s, a);
    if t.lastCheckTime == s.loaded.loadedTime && t.checks != s.checks {
      assert Check(p.intentFrom, p.featuresFrom, s.clock) in t.checks;
    }
  }

  lemma ChecksStaySound(s: State, a: Step)
    requires Inv(s) && Possible(s, a, true)
    ensures forall c :: c in Apply(s, a).checks ==> Sound(Apply(s, a), c)
  {
    if a.Decide? {
      assert CallbackOk(s, s.callbacks[a.i]);
    }
  }

  lemma StepKeepsInv(s: State, a: Step)
    requires Inv(s) && Possible(s, a, true)
    ensures Inv(Apply(s, a))
  {
    var t := Apply(s, a);
    StepKeepsExclusive(s, a);
    ChecksStaySound(s, a);
    assert CallbacksOk(t) by {
      forall k | k in t.callbacks
        ensures CallbackOk(t, t.callbacks[k])
      {
        if !a.Tick? && !a.Reload? && a.i == k {
          ActorStaysOk(s, a);
        } else {
          OtherStaysOk(s, a, k);
        }
      }
    }
    if a.Decide? {
      CheckClears(s, a);
    }
  }

  lemma EveryRunKeepsInv(run: seq<State>)
    requires IsRun(Init, Next, run)
    ensures forall s :: s in run ==> Inv(s)
  {
    forall s, t | Inv(s) && Next(s, t)
      ensures Inv(t)
    {
      var a :| Possible(s, a, true) && t == Apply(s, a);
      StepKeepsInv(s, a);
    }
    InvariantHolds(Init, Next, Inv, run);
  }

  // ----------------------------------------------------------------- theorems

  /** What a full check of one revision at one instant is. */
  predicate PassesAt(c: Config, r: Revision, now: Time) {
    LockAllows(c, r.lock, now) && FeaturesAllow(c, r.required)
  }

  /** Such a check of r was made, and let its caller through, no later than now. */
  ghost predicate PassedFullCheck(s: State, r: Revision) {
    exists now: Time :: now <= s.clock && Check(r, r, now) in s.checks && PassesAt(s.config, r, now)
  }

  lemma ClearedPasses(s: State, r: Revision)
    requires Inv(s) && Cleared(s, r)
    ensures PassedFullCheck(s, r)
  {
    var c :| c in s.checks && c.intentFrom == r && c.featuresFrom == r;
    assert c == Check(r, r, c.at) && Sound(s, c);
  }

  /**
   With orderly reloads, an operation let through by comparing times saw the time
   of a revision which itself passed a full lock and feature check earlier,
   however callbacks and reloads interleave.
   */
  lemma ComparisonMeansChecked(run: seq<State>, s: State, i: nat)
    requires IsRun(Init, Next, run) && s in run
    requires i in s.callbacks && s.callbacks[i].PassedByComparison?
    ensures PassedFullCheck(s, s.callbacks[i].saw)
  {
    EveryRunKeepsInv(run);
    assert CallbackOk(s, s.callbacks[i]);
    ClearedPasses(s, s.callbacks[i].saw);
  }

  /** While the cached time equals the loaded one, the revision loaded now passed a full check. */
  lemma EqualTimesMeanChecked(run: seq<State>, s: State)
    requires IsRun(Init, Next, run) && s in run
    requires s.lastCheckTime == s.loaded.loadedTime
    ensures PassedFullCheck(s, s.loaded)
  {
    EveryRunKeepsInv(run);
    assert Inv(s);
    ClearedPasses(s, s.loaded);
  }

  /** A check that spanned a reload never lets the new revision through by comparison. */
  lemma SpannedCheckIsRepeated(run: seq<State>, s: State, i: nat)
    requires IsRun(Init, Next, run) && s in run
    requires i in s.callbacks && s.callbacks[i].HasFeatures? && s.callbacks[i].saw != s.callbacks[i].featuresFrom
    requires LockAllows(s.config, s.callbacks[i].intentFrom.lock, s.clock)
    ensures Apply(s, Decide(i)).lastCheckTime < s.loaded.loadedTime
  {
    EveryRunKeepsInv(run);
    assert CallbackOk(s, s.callbacks[i]);
  }

  // --------------------------------------------------------------- making runs

  lemma Then(run: seq<State>, a: Step) returns (longer: seq<State>)
    requires IsRun(Init, Next, run) && Possible(Last(run), a, true)
    ensures IsRun(Init, Next, longer) && Last(longer) == Apply(Last(run), a)
  {
    assert Next(Last(run), Apply(Last(run), a));
    Extend(Init, Next, run, Apply(Last(run), a));
    longer := run + [Apply(Last(run), a)];
  }

  lemma ThenAny(run: seq<State>, a: Step) returns (longer: seq<State>)
    requires IsRun(Init, LooseNext, run) && Possible(Last(run), a, false)
    ensures IsRun(Init, LooseNext, longer) && Last(longer) == Apply(Last(run), a)
  {
    assert LooseNext(Last(run), Apply(Last(run), a));
    Extend(Init, LooseNext, run, Apply(Last(run), a));
    longer := run + [Apply(Last(run), a)];
  }

  lemma OrderlyRunIsRun(run: seq<State>)
    requires IsRun(Init, Next, run)
    ensures IsRun(Init, LooseNext, run)
  {
    forall i | 0 < i < |run|
      ensures LooseNext(run[i - 1], run[i])
    {
      var a :| Possible(run[i - 1], a, true) && run[i] == Apply(run[i - 1], a);
      assert Possible(run[i - 1], a, false);
    }
  }

  /** One callback in a process that has loaded r. */
  function Lone(c: Config, r: Revision, last: Time, clock: Time, p: Callback, checks: set<Check>): State {
    State(c, r, last, clock, map[0 := p], checks)
  }

  lemma FirstLook(c: Config, r: Revision, now: Time) returns (run: seq<State>)
    requires r.loadedTime > NEVER
    ensures IsRun(Init, Next, run) && Last(run) == Lone(c, r, NEVER, now, Waiting, {})
  {
    run := [Lone(c, r, NEVER, now, Idle, {})];
    assert IsRun(Init, Next, run);
    hide Init, Next;
    run := Then(run, ReadLock(0));
    run := Then(run, ReadLoadedTime(0));
    run := Then(run, ReadCompare(0));
  }

  lemma FirstCheck(c: Config, r: Revision, now: Time) returns (run: seq<State>)
    requires r.loadedTime > NEVER
    ensures IsRun(Init, Next, run) && Last(run) == Lone(c, r, NEVER, now, Checking(r), {})
  {
    run := FirstLook(c, r, now);
    hide Init, Next;
    run := Then(run, WriteLock(0));
    run := Then(run, WriteLoadedTime(0));
    run := Then(run, WriteCompare(0));
  }

  lemma CheckedOnce(c: Config, r: Revision, now: Time) returns (run: seq<State>)
    requires r.loadedTime > NEVER && PassesAt(c, r, now)
    ensures IsRun(Init, Next, run) && Last(run) == Lone(c, r, r.loadedTime, now, Idle, {Check(r, r, now)})
  {
    run := FirstCheck(c, r, now);
    hide Init, Next;
    run := Then(run, GetIntent(0));
    run := Then(run, GetFeatures(0));
    run := Then(run, Decide(0));
    run := Then(run, Return(0));
  }

  // ------------------------------------------------------------ disorderly reloads

  /** An operation was let through on a revision no full check was ever made of. */
  ghost predicate PassedUnchecked(s: State, r: Revision) {
    At(s, 0, PassedByComparison(r)) && forall now: Time :: Check(r, r, now) !in s.checks
  }

  lemma PassOnEqualTime(run: seq<State>, c: Config, r: Revision, now: Time, checks: set<Check>)
    returns (longer: seq<State>)
    requires IsRun(Init, LooseNext, run) && Last(run) == Lone(c, r, r.loadedTime, now, Idle, checks)
    ensures IsRun(Init, LooseNext, longer)
    ensures Last(longer) == Lone(c, r, r.loadedTime, now, PassedByComparison(r), checks)
  {
    hide Init, LooseNext;
    longer := ThenAny(run, ReadLock(0));
    longer := ThenAny(longer, ReadLoadedTime(0));
    longer := ThenAny(longer, ReadCompare(0));
  }

  /** Two different revisions of one loaded time: once the first was checked, the second passes unchecked. */
  lemma RepeatedTimeSkipsTheCheck(c: Config, r: Revision, r': Revision, now: Time) returns (run: seq<State>)
    requires r != r' && r.loadedTime == r'.loadedTime > NEVER && PassesAt(c, r, now)
    ensures IsRun(Init, LooseNext, run) && Last(run).config == c && PassedUnchecked(Last(run), r')
  {
    run := CheckedOnce(c, r, now);
    OrderlyRunIsRun(run);
    hide Init, Next, LooseNext;
    run := ThenAny(run, Reload(r'));
    run := PassOnEqualTime(run, c, r', now, {Check(r, r, now)});
  }

  /** A check of r that reads everything from an earlier revision is recorded as one of r. */
  lemma CheckedAnother(c: Config, r: Revision, r': Revision, now: Time) returns (run: seq<State>)
    requires r.loadedTime > NEVER && r'.loadedTime > NEVER && PassesAt(c, r', now)
    ensures IsRun(Init, LooseNext, run)
    ensures Last(run) == Lone(c, r', r.loadedTime, now, Idle, {Check(r', r', now)})
  {
    run := FirstCheck(c, r, now);
    OrderlyRunIsRun(run);
    hide Init, Next, LooseNext;
    run := ThenAny(run, Reload(r'));
    run := ThenAny(run, GetIntent(0));
    run := ThenAny(run, GetFeatures(0));
    run := ThenAny(run, Decide(0));
    run := ThenAny(run, Return(0));
  }

  /** A reload that goes back to a revision that passes, and then forth again: the newer one passes unchecked. */
  lemma BackwardTimeSkipsTheCheck(c: Config, r: Revision, r': Revision, now: Time) returns (run: seq<State>)
    requires NEVER < r'.loadedTime < r.loadedTime && PassesAt(c, r', now)
    ensures IsRun(Init, LooseNext, run) && Last(run).config == c && PassedUnchecked(Last(run), r)
  {
    run := CheckedAnother(c, r, r', now);
    hide Init, LooseNext;
    run := ThenAny(run, Reload(r));
    run := PassOnEqualTime(run, c, r, now, {Check(r', r', now)});
  }

  /**
   Orderly reloads are what it takes: for every reload from r to r' that is not
   orderly, if the revision with the older time (of two with one time: r) can pass
   a full check, there is a run in which the other one passes without any.
   */
  lemma DisorderlyReloadSkipsACheck(c: Config, r: Revision, r': Revision, now: Time)
    returns (run: seq<State>, unchecked: Revision)
    requires r.loadedTime > NEVER && r'.loadedTime > NEVER && !Upto(r, r')
    requires PassesAt(c, if r'.loadedTime < r.loadedTime then r' else r, now)
    ensures IsRun(Init, LooseNext, run) && Last(run).config == c && PassedUnchecked(Last(run), unchecked)
    ensures unchecked == if r'.loadedTime < r.loadedTime then r else r'
  {
    if r'.loadedTime < r.loadedTime {
      unchecked := r;
      run := BackwardTimeSkipsTheCheck(c, r, r', now);
    } else {
      unchecked := r';
      run := RepeatedTimeSkipsTheCheck(c, r, r', now);
    }
  }

  // ------------------------------------------------- how long a passed check lasts

  /**
   What a full check asks of one revision, from the fields alone: there is no lock, or it is the client's own, or
   its notice leaves time to drain and that time has not come; and every required feature is supported, only
   warned about, or ignored.
   */
  lemma FullCheckPassesExactly(c: Config, r: Revision, now: Time)
    ensures PassesAt(c, r, now) <==>
      && (r.lock.Some? && r.lock.value.owner != c.me ==>
            var l := r.lock.value;
            && l.clockDrift + l.ioDrain + l.ioDrain <= l.advanceNotice
            && now < l.creation + l.advanceNotice - l.clockDrift - l.ioDrain - l.ioDrain)
      && (!c.ignoreMissing ==> forall f :: f in r.required && f.name !in c.supported ==> f.warnOnly)
  {
  }

  /** Someone else's lock is in force. */
  predicate LockedOut(c: Config, r: Revision, now: Time) {
    r.lock.Some? && c.me != r.lock.value.owner && IsLocked(r.lock.value, now)
  }

  /** The two steps that decide refuse exactly what such a check refuses, and a failed read refuses as well. */
  lemma StepsDecide(s: State, i: nat)
    requires i in s.callbacks
    ensures s.callbacks[i].HasIntent? ==>
              (Apply(s, GetFeatures(i)).callbacks[i] == Refused <==>
                 !s.config.ignoreMissing
                     && exists f :: f in s.loaded.required && f.name !in s.config.supported && !f.warnOnly)
    ensures s.callbacks[i].HasFeatures? ==>
              (Apply(s, Decide(i)).callbacks[i] == Refused <==>
                 LockedOut(s.config, s.callbacks[i].intentFrom, s.clock))
    ensures s.callbacks[i].HasFeatures? ==>
              Apply(s, Decide(i)).callbacks[i] == Refused || Apply(s, Decide(i)).callbacks[i] == PassedByCheck
    ensures s.callbacks[i].Checking? || s.callbacks[i].HasIntent? ==>
              Apply(s, Fail(i)).callbacks[i] == Refused && Apply(s, Fail(i)).lastCheckTime == s.lastCheckTime
  {
  }

  /**
   A revision that once passed passes a fresh check exactly until someone else's
   lock starts: the notice given, less the time to drain, after its creation.
   */
  lemma FreshCheckAgreesExactly(c: Config, r: Revision, checked: Time, now: Time)
    requires PassesAt(c, r, checked) && checked <= now
    ensures PassesAt(c, r, now) <==> !LockedOut(c, r, now)
    ensures LockedOut(c, r, now) <==>
            && r.lock.Some? && c.me != r.lock.value.owner
            && r.lock.value.creation + r.lock.value.advanceNotice - TotalDrain(r.lock.value) <= now
  {
  }

  lemma {:induction false} TimePasses(run: seq<State>, n: nat) returns (longer: seq<State>)
    requires IsRun(Init, Next, run)
    ensures IsRun(Init, Next, longer) && Last(longer) == Last(run).(clock := Last(run).clock + n)
    decreases n
  {
    hide Init, Next;
    longer := run;
    if n > 0 {
      longer := TimePasses(run, n - 1);
      longer := Then(longer, Tick);
    }
  }

  /**
   Until the format is reloaded the pass goes on: however much later, an operation
   is let through by comparison, also when a fresh check would refuse it.
   */
  lemma OldCheckStillPasses(c: Config, r: Revision, checked: Time, now: Time) returns (run: seq<State>)
    requires r.loadedTime > NEVER && PassesAt(c, r, checked) && checked <= now
    ensures IsRun(Init, Next, run)
    ensures Last(run) == Lone(c, r, r.loadedTime, now, PassedByComparison(r), {Check(r, r, checked)})
  {
    run := CheckedOnce(c, r, checked);
    hide Init, Next;
    run := TimePasses(run, now - checked);
    assert Last(run) == Lone(c, r, r.loadedTime, now, Idle, {Check(r, r, checked)});
    run := Then(run, ReadLock(0));
    run := Then(run, ReadLoadedTime(0));
    run := Then(run, ReadCompare(0));
  }
}

/**
 How calls of the gRPC repository client share, kill and re-establish inner
 sessions, and how often a request is put on a stream.

 A call either retries (reads of a client with transparent retries, through
 doRetry) or not (PutManifest, DeleteManifest, ApplyRetentionPolicy and
 everything else that goes through inSessionWithoutRetry).
 */
module SessionRetry {
  import opened Wrappers
  import opened Runs

  type Sid = nat

  /** Establishing and Killing hold innerSessionMutex. */
  datatype Pc =
    | Begin
    | Establishing
    | Ready(sid: Sid)
    | Waiting(sid: Sid)
    | WantKill
    | Killing(sid: Sid)
    | Done

  /** A call: the streams its request was put on, and how many of those attempts ended in STREAM_BROKEN. */
  datatype Call = Call(retries: bool, pc: Pc, sends: seq<Sid>, broken: nat)

  datatype State = State(
    inner: Option<Sid>,
    mutex: Option<nat>,
    nextSid: Sid,
    used: set<Sid>,        // sessions that are or were the inner session
    exited: set<Sid>,      // sessions whose read loop has exited
    calls: map<nat, Call>)

  datatype Step =
    | NewCall(c: nat, retries: bool)
    | GetSession(c: nat)
    | Established(c: nat)
    | InitializeFails(c: nat)
    | EstablishErr(c: nat, eof: bool)
    | PutRequest(c: nat)
    | SendErr(c: nat, reached: bool)
    | Answered(c: nat)
    | StreamBroken(c: nat)
    | Kill(c: nat)
    | KillDone(c: nat)
    | GiveUp(c: nat)
    | LoopExits(sid: Sid)

  ghost predicate Init(s: State) { s == State(None, None, 0, {}, {}, map[]) }

  predicate At(s: State, c: nat, pc: Pc) { c in s.calls && s.calls[c].pc == pc }

  predicate Enabled(s: State, a: Step) {
    match a
    case NewCall(c, _) => c !in s.calls
    case GetSession(c) => At(s, c, Begin) && s.mutex.None?
    case Established(c) => At(s, c, Establishing)
    case InitializeFails(c) => At(s, c, Establishing)
    case EstablishErr(c, _) => At(s, c, Establishing)
    case PutRequest(c) => c in s.calls && s.calls[c].pc.Ready?
    case SendErr(c, _) => c in s.calls && s.calls[c].pc.Ready?
    case Answered(c) => c in s.calls && s.calls[c].pc.Waiting?
    case StreamBroken(c) => c in s.calls && s.calls[c].pc.Waiting?
    case Kill(c) => At(s, c, WantKill) && s.mutex.None?
    case KillDone(c) => c in s.calls && s.calls[c].pc.Killing? && s.calls[c].pc.sid in s.exited
    case GiveUp(c) => At(s, c, Begin)
    case LoopExits(sid) => sid < s.nextSid
  }

  function Set(s: State, c: nat, call: Call): State { s.(calls := s.calls[c := call]) }

  /** The attempt ended in an error: io.EOF makes a retrying call kill the session, anything else ends the call. */
  function Ended(call: Call, eof: bool): Call { call.(pc := if call.retries && eof then WantKill else Done) }

  function Apply(s: State, a: Step): State
    requires Enabled(s, a)
  {
    match a
    case NewCall(c, retries) => Set(s, c, Call(retries, Begin, [], 0))
    case GetSession(c) =>
      if s.inner.Some? then Set(s, c, s.calls[c].(pc := Ready(s.inner.value)))
      else Set(s, c, s.calls[c].(pc := Establishing)).(mutex := Some(c))
    case Established(c) =>
      Set(s, c, s.calls[c].(pc := Ready(s.nextSid))).(
        inner := Some(s.nextSid), used := s.used + {s.nextSid}, nextSid := s.nextSid + 1, mutex := None)
    case InitializeFails(c) => s.(nextSid := s.nextSid + 1)
    case EstablishErr(c, eof) => Set(s, c, Ended(s.calls[c], eof)).(mutex := None)
    case PutRequest(c) =>
      var sid := s.calls[c].pc.sid;
      Set(s, c, s.calls[c].(pc := Waiting(sid), sends := s.calls[c].sends + [sid]))
    case SendErr(c, reached) =>
      var call := Ended(s.calls[c], true);
      Set(s, c, if reached then call.(sends := call.sends + [s.calls[c].pc.sid], broken := call.broken + 1) else call)
    case Answered(c) => Set(s, c, s.calls[c].(pc := Done))
    case StreamBroken(c) => Set(s, c, Ended(s.calls[c], true).(broken := s.calls[c].broken + 1))
    case Kill(c) =>
      if s.inner.Some? then Set(s, c, s.calls[c].(pc := Killing(s.inner.value))).(mutex := Some(c))
      else Set(s, c, s.calls[c].(pc := Begin))
    case KillDone(c) => Set(s, c, s.calls[c].(pc := Begin)).(inner := None, mutex := None)
    case GiveUp(c) => Set(s, c, s.calls[c].(pc := Done))
    case LoopExits(sid) => s.(exited := s.exited + {sid})
  }

  ghost predicate Next(s: State, t: State) { exists a: Step :: Enabled(s, a) && t == Apply(s, a) }

  // ---------------------------------------------------------------- invariant

  /** A session that was inner and is not any more has exited, and is older than the inner one. */
  ghost predicate SessionsOk(s: State) {
    && (forall sid :: sid in s.used ==> sid < s.nextSid)
    && (s.inner.Some? ==> s.inner.value in s.used)
    && (forall sid :: sid in s.used && s.inner != Some(sid) ==>
          sid in s.exited && (s.inner.Some? ==> sid < s.inner.value))
  }

  ghost predicate Increasing(sends: seq<Sid>) { forall i, j :: 0 <= i < j < |sends| ==> sends[i] < sends[j] }

  /** The sessions of all earlier attempts have been replaced. */
  ghost predicate Dropped(s: State, sends: seq<Sid>) { forall i :: 0 <= i < |sends| ==> s.inner != Some(sends[i]) }

  ghost predicate CallOk(s: State, c: nat)
    requires c in s.calls
  {
    var call := s.calls[c];
    && (forall i :: 0 <= i < |call.sends| ==> call.sends[i] in s.used)
    && Increasing(call.sends)
    && (s.mutex == Some(c) <==> call.pc.Establishing? || call.pc.Killing?)
    && (call.pc.Begin? || call.pc.Establishing? ==> Dropped(s, call.sends))
    && (call.pc.Establishing? ==> s.inner.None?)
    && (call.pc.Killing? ==> s.inner == Some(call.pc.sid))
    && (call.pc.Ready? ==>
          call.pc.sid in s.used && forall i :: 0 <= i < |call.sends| ==>
              call.sends[i] in s.exited && call.sends[i] < call.pc.sid)
    && (call.pc.Waiting? ==> |call.sends| > 0 && call.broken == |call.sends| - 1)
    && (!call.pc.Waiting? && !call.pc.Done? ==> call.broken == |call.sends|)
    && (!call.retries ==> |call.sends| <= 1 && !call.pc.WantKill? && !call.pc.Killing?)
    && (!call.retries && |call.sends| == 1 ==> call.pc.Waiting? || call.pc.Done?)
  }

  ghost predicate Inv(s: State) {
    && SessionsOk(s)
    && (s.mutex.Some? ==> s.mutex.value in s.calls)
    && forall c :: c in s.calls ==> CallOk(s, c)
  }

  predicate Acts(a: Step, c: nat) { !a.LoopExits? && a.c == c }

  lemma StepKeepsSessions(s: State, a: Step)
    requires SessionsOk(s) && Enabled(s, a)
    requires !a.LoopExits? && !a.NewCall? ==> CallOk(s, a.c)
    ensures SessionsOk(Apply(s, a))
    ensures forall sid :: sid in s.used && s.inner != Some(sid) ==> Apply(s, a).inner != Some(sid)
    ensures s.exited <= Apply(s, a).exited && s.used <= Apply(s, a).used
  {
  }

  lemma ActorStaysOk(s: State, a: Step, c: nat)
    requires SessionsOk(s) && Enabled(s, a) && Acts(a, c) && (a.NewCall? || CallOk(s, c))
    requires a.NewCall? && s.mutex.Some? ==> s.mutex.value in s.calls
    ensures CallOk(Apply(s, a), c)
  {
  }

  lemma BystanderStaysOk(s: State, a: Step, c: nat)
    requires SessionsOk(s) && Enabled(s, a) && !Acts(a, c) && c in s.calls && CallOk(s, c)
    requires !a.LoopExits? && !a.NewCall? ==> CallOk(s, a.c)
    ensures CallOk(Apply(s, a), c)
  {
    StepKeepsSessions(s, a);
  }

  lemma StepKeepsInv(s: State, a: Step)
    requires Inv(s) && Enabled(s, a)
    ensures Inv(Apply(s, a))
  {
    StepKeepsSessions(s, a);
    var t := Apply(s, a);
    forall c | c in t.calls ensures CallOk(t, c) {
      if Acts(a, c) {
        ActorStaysOk(s, a, c);
      } else {
        BystanderStaysOk(s, a, c);
      }
    }
  }

  lemma EveryRunKeepsInv(run: seq<State>)
    requires IsRun(Init, Next, run)
    ensures forall s :: s in run ==> Inv(s)
  {
    forall s, t | Inv(s) && Next(s, t) ensures Inv(t) {
      hide Enabled, Apply, Inv;
      var a :| Enabled(s, a) && t == Apply(s, a);
      StepKeepsInv(s, a);
    }
    InvariantHolds(Init, Next, Inv, run);
  }

  // ---------------------------------------------------------------- theorems

  /** A call that does not retry puts its request on at most one stream; no call puts it twice on the same stream. */
  lemma WritesAreSentOnce(run: seq<State>, s: State, c: nat)
    requires IsRun(Init, Next, run) && s in run && c in s.calls
    ensures !s.calls[c].retries ==> |s.calls[c].sends| <= 1
    ensures forall i, j :: 0 <= i < j < |s.calls[c].sends| ==> s.calls[c].sends[i] != s.calls[c].sends[j]
  {
    EveryRunKeepsInv(run);
    assert Inv(s) && CallOk(s, c);
  }

  lemma SendIsFresh(s: State, a: Step, c: nat)
    requires Inv(s) && Enabled(s, a) && c in s.calls && Apply(s, a).calls[c].sends != s.calls[c].sends
    ensures var was, now := s.calls[c], Apply(s, a).calls[c];
      && |now.sends| == |was.sends| + 1 && now.sends[..|was.sends|] == was.sends
      && was.broken == |was.sends|
      && (was.sends != [] ==> was.retries)
      && forall k :: 0 <= k < |was.sends| ==> was.sends[k] in s.exited && was.sends[k] < now.sends[|was.sends|]
  {
    assert CallOk(s, c);
    assert a.PutRequest? || a.SendErr?;
  }

  /**
   When a call puts its request on a stream again, it is a retrying call, every earlier attempt has ended in
   STREAM_BROKEN, the read loops of all the sessions it used have exited, and the session is a new one.
   */
  lemma ResendsFollowBrokenStreams(run: seq<State>, i: nat, c: nat)
    requires IsRun(Init, Next, run) && i + 1 < |run| && c in run[i].calls && c in run[i + 1].calls
    requires run[i + 1].calls[c].sends != run[i].calls[c].sends
    ensures var was, now := run[i].calls[c], run[i + 1].calls[c];
      && |now.sends| == |was.sends| + 1 && now.sends[..|was.sends|] == was.sends
      && was.broken == |was.sends|
      && (was.sends != [] ==> was.retries)
      && forall k :: 0 <= k < |was.sends| ==> was.sends[k] in run[i].exited && was.sends[k] < now.sends[|was.sends|]
  {
    EveryRunKeepsInv(run);
    assert run[i] in run && Next(run[i], run[i + 1]);
    var a :| Enabled(run[i], a) && run[i + 1] == Apply(run[i], a);
    SendIsFresh(run[i], a, c);
  }

  // ---------------------------------------------------------------- retrying

  /** The call goes on to kill the session if it retries, and ends if not; its sends are these. */
  ghost predicate RetriesOrEnds(was: Call, now: Call, sends: seq<Sid>) {
    now.pc == (if was.retries then WantKill else Done) && now.retries == was.retries && now.sends == sends
  }

  ghost predicate Ends(was: Call, now: Call) { now.pc == Done && now.retries == was.retries && now.sends == was.sends }

  /**
   How an attempt can end, and what follows. A retrying call goes on to kill the session exactly when its stream
   broke, its Send failed or io.EOF kept it from a session. Any other error, an answer, and every end of a call
   that does not retry, is the end of the call.
   */
  lemma EndsOfAttempts(s: State, c: nat, eof: bool)
    requires c in s.calls
    ensures var call := s.calls[c];
      match call.pc
      case Begin => Ends(call, Apply(s, GiveUp(c)).calls[c])
      case Establishing =>
        var now := Apply(s, EstablishErr(c, eof)).calls[c];
        if eof then RetriesOrEnds(call, now, call.sends) else Ends(call, now)
      case Ready(sid) =>
        && RetriesOrEnds(call, Apply(s, SendErr(c, true)).calls[c], call.sends + [sid])
        && RetriesOrEnds(call, Apply(s, SendErr(c, false)).calls[c], call.sends)
      case Waiting(_) =>
        && RetriesOrEnds(call, Apply(s, StreamBroken(c)).calls[c], call.sends)
        && Ends(call, Apply(s, Answered(c)).calls[c])
      case _ => true
  {
  }

  lemma Then(run: seq<State>, a: Step) returns (longer: seq<State>)
    requires IsRun(Init, Next, run) && Enabled(Last(run), a)
    ensures IsRun(Init, Next, longer) && longer == run + [Apply(Last(run), a)]
  {
    var t := Apply(Last(run), a);
    assert Next(Last(run), t);
    Extend(Init, Next, run, t);
    longer := run + [t];
  }

  lemma RunEndsOk(run: seq<State>)
    requires IsRun(Init, Next, run)
    ensures Inv(Last(run))
  {
    EveryRunKeepsInv(run);
    assert Last(run) in run;
  }

  /** Whoever holds the mutex can let go of it, which leaves the other calls as they are. */
  lemma MutexCanBeFreed(run: seq<State>, c: nat) returns (longer: seq<State>)
    requires IsRun(Init, Next, run) && Inv(Last(run)) && c in Last(run).calls && Last(run).mutex != Some(c)
    ensures IsRun(Init, Next, longer) && run <= longer
    ensures Last(longer).mutex.None? && c in Last(longer).calls && Last(longer).calls[c] == Last(run).calls[c]
  {
    var s := Last(run);
    longer := run;
    if s.mutex.Some? {
      var d := s.mutex.value;
      assert CallOk(s, d);
      hide Init, Next;
      if s.calls[d].pc.Establishing? {
        longer := Then(run, Established(d));
      } else {
        longer := Then(run, LoopExits(s.calls[d].pc.sid));
        longer := Then(longer, KillDone(d));
      }
    }
  }

  /** A call that wants the session killed can begin again, with no session there. */
  lemma SessionCanBeKilled(run: seq<State>, c: nat) returns (longer: seq<State>)
    requires IsRun(Init, Next, run) && Inv(Last(run)) && At(Last(run), c, WantKill) && Last(run).mutex.None?
    ensures IsRun(Init, Next, longer) && run <= longer
    ensures Last(longer).mutex.None? && Last(longer).inner.None?
    ensures At(Last(longer), c, Begin) && Last(longer).calls[c] == Last(run).calls[c].(pc := Begin)
  {
    var inner := Last(run).inner;
    hide Init, Next;
    longer := Then(run, Kill(c));
    if inner.Some? {
      longer := Then(longer, LoopExits(inner.value));
      longer := Then(longer, KillDone(c));
    }
  }

  /** A call that begins without a session can establish one, put its request on it and be answered. */
  lemma RequestCanBeAnswered(run: seq<State>, c: nat) returns (longer: seq<State>, sid: Sid)
    requires IsRun(Init, Next, run) && At(Last(run), c, Begin) && Last(run).mutex.None? && Last(run).inner.None?
    ensures IsRun(Init, Next, longer) && run < longer && sid == Last(run).nextSid
    ensures var s := longer[|longer| - 2];
      At(s, c, Waiting(sid)) && s.calls[c].sends == Last(run).calls[c].sends + [sid]
          && Last(longer) == Apply(s, Answered(c))
  {
    sid := Last(run).nextSid;
    hide Init, Next;
    longer := Then(run, GetSession(c));
    longer := Then(longer, Established(c));
    longer := Then(longer, PutRequest(c));
    longer := Then(longer, Answered(c));
  }

  /**
   Retrying does happen: from every reachable state in which the attempt of a retrying call ends in a broken
   stream or io.EOF, the call can put its request on a newer session than all it used before and be answered.
   */
  lemma BrokenAttemptCanSucceed(run: seq<State>, a: Step) returns (longer: seq<State>, sid: Sid)
    requires IsRun(Init, Next, run) && Enabled(Last(run), a)
    requires a.StreamBroken? || a.SendErr? || (a.EstablishErr? && a.eof)
    requires Last(run).calls[a.c].retries
    ensures IsRun(Init, Next, longer) && run + [Apply(Last(run), a)] <= longer && |longer| >= 2
    ensures var sends := Apply(Last(run), a).calls[a.c].sends;
      && (forall i :: 0 <= i < |sends| ==> sends[i] < sid)
      && At(longer[|longer| - 2], a.c, Waiting(sid)) && longer[|longer| - 2].calls[a.c].sends == sends + [sid]
      && Last(longer) == Apply(longer[|longer| - 2], Answered(a.c))
  {
    hide Init, Next;
    longer := Then(run, a);
    RunEndsOk(longer);
    assert CallOk(Last(longer), a.c);
    longer := MutexCanBeFreed(longer, a.c);
    RunEndsOk(longer);
    longer := SessionCanBeKilled(longer, a.c);
    RunEndsOk(longer);
    assert CallOk(Last(longer), a.c);
    longer, sid := RequestCanBeAnswered(longer, a.c);
  }

  lemma RequestCanBeSent() returns (run: seq<State>)
    ensures IsRun(Init, Next, run)
    ensures At(Last(run), 0, Waiting(0)) && Last(run).calls[0].retries && Last(run).calls[0].sends == [0]
  {
    hide Next;
    run := [State(None, None, 0, {}, {}, map[])];
    run := Then(run, NewCall(0, true));
    run := Then(run, GetSession(0));
    run := Then(run, Established(0));
    run := Then(run, PutRequest(0));
  }

  /** A run in which a request is put on two sessions, one after the other. */
  lemma RequestIsSentAgain() returns (run: seq<State>, sid: Sid)
    ensures IsRun(Init, Next, run) && At(Last(run), 0, Done)
    ensures Last(run).calls[0].sends == [0, sid] && sid != 0
  {
    hide Next, Init;
    run := RequestCanBeSent();
    var sends: seq<Sid> := Last(run).calls[0].sends;
    run, sid := BrokenAttemptCanSucceed(run, StreamBroken(0));
    assert sends[0] < sid;
    assert Last(run).calls[0].sends == sends + [sid];
  }
}

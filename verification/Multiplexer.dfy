/**
 The gRPC session multiplexer: many callers share one stream, and a map from
 request ID to response channel decides who may put into and close a channel.

 Threads: any number of senders (`sendRequest`), one read loop (`readLoop`), the
 callers that drain their channels, and the server. Every mutex section, every
 channel send and every close is one step.

 What the stream is assumed to do (`Enabled` of SendOk, Emit and Recv):
 the server answers only requests whose Send succeeded, answers nothing after a
 response without HasMore, the answers to one request arrive in order, and once
 Recv has failed every later Send fails.
 */
module Multiplexer {
  import opened Wrappers
  import opened Runs

  /** Channels are named by the order of their creation, which is that of the requests. */
  type ChanId = nat

  datatype Body = Payload(value: int) | BrokenError

  /** A session response: the request it answers, whether more follow, and what it says. */
  datatype Msg = Msg(rid: nat, hasMore: bool, body: Body)

  /** The response the client makes up when the stream breaks. Request IDs start at 1. */
  const STREAM_BROKEN := Msg(0, false, BrokenError)

  /** A channel of capacity 1: all that was ever put into it, and how much of that its reader took. */
  datatype Channel = Channel(log: seq<Msg>, taken: nat, closed: bool)

  /** Where a call of sendRequest stands. From Sending to Leaving it holds sendMutex. */
  datatype SenderPc =
    | Registered
    | Sending
    | SendFailed
    | Took(ch: ChanId)
    | BrokenPut(ch: ChanId)
    | Leaving
    | Returned

  /** A request: its sender, the channel handed to its caller, and what the server did with it. */
  datatype Request = Request(pc: SenderPc, ch: ChanId, delivered: bool, emitted: seq<Msg>, received: nat)

  /** Where readLoop stands. From Draining to DrainClose it holds activeRequestsMutex. */
  datatype LoopPc =
    | Receiving
    | Got(msg: Msg)
    | Looked(msg: Msg, target: Option<ChanId>)
    | Forwarded(msg: Msg, target: Option<ChanId>)
    | RecvFailed
    | Draining
    | DrainPut(ch: ChanId)
    | DrainClose(ch: ChanId)
    | Finished

  datatype State = State(
    nextRid: nat,
    active: map<nat, ChanId>,
    chans: map<ChanId, Channel>,
    reqs: map<nat, Request>,
    sendLock: Option<nat>,
    loop: LoopPc,
    fault: bool)

  datatype Step =
    | Register
    | BeginSend(rid: nat)
    | SendOk(rid: nat)
    | SendErr(rid: nat)
    | TakeChannel(rid: nat)
    | PutBroken(rid: nat)
    | CloseBroken(rid: nat)
    | Return(rid: nat)
    | Consume(rid: nat)
    | Emit(rid: nat, hasMore: bool, body: int)
    | Recv(rid: nat)
    | RecvErr
    | Lookup
    | Forward
    | CloseFinal
    | DrainBegin
    | DrainNext(rid: nat)
    | DrainPutBroken
    | DrainCloseNext
    | DrainEnd

  const INITIAL := State(1, map[], map[], map[], None, Receiving, false)

  ghost predicate Init(s: State) { s == INITIAL }

  predicate MutexHeld(s: State) { s.loop.Draining? || s.loop.DrainPut? || s.loop.DrainClose? }

  /** Recv has not failed yet. */
  predicate StreamUp(s: State) { s.loop.Receiving? || s.loop.Got? || s.loop.Looked? || s.loop.Forwarded? }

  predicate Complete(q: Request) { |q.emitted| > 0 && !q.emitted[|q.emitted| - 1].hasMore }

  /** A put on this channel would not block: there is room, or it fails at once. */
  predicate Ready(s: State, ch: ChanId) {
    ch in s.chans ==> s.chans[ch].closed || |s.chans[ch].log| == s.chans[ch].taken
  }

  /** `ch <- msg`. On a nil or closed channel this is the fault the protocol must exclude. */
  function Put(s: State, target: Option<ChanId>, msg: Msg): State {
    if target.None? || target.value !in s.chans || s.chans[target.value].closed then s.(fault := true)
    else
      var c := s.chans[target.value];
      s.(chans := s.chans[target.value := c.(log := c.log + [msg])])
  }

  /** `close(ch)`. Closing a nil or closed channel is a fault. */
  function Close(s: State, target: Option<ChanId>): State {
    if target.None? || target.value !in s.chans || s.chans[target.value].closed then s.(fault := true)
    else s.(chans := s.chans[target.value := s.chans[target.value].(closed := true)])
  }

  function Find(s: State, rid: nat): Option<ChanId> {
    if rid in s.active then Some(s.active[rid]) else None
  }

  function SetPc(s: State, rid: nat, pc: SenderPc): State
    requires rid in s.reqs
  {
    s.(reqs := s.reqs[rid := s.reqs[rid].(pc := pc)])
  }

  predicate PcIs(s: State, rid: nat, pc: SenderPc) { rid in s.reqs && s.reqs[rid].pc == pc }

  predicate Enabled(s: State, a: Step) {
    match a
    case Register => !MutexHeld(s)
    case BeginSend(r) => PcIs(s, r, Registered) && s.sendLock.None?
    case SendOk(r) => PcIs(s, r, Sending) && StreamUp(s)
    case SendErr(r) => PcIs(s, r, Sending)
    case TakeChannel(r) => PcIs(s, r, SendFailed) && !MutexHeld(s)
    case PutBroken(r) => r in s.reqs && s.reqs[r].pc.Took? && Ready(s, s.reqs[r].pc.ch)
    case CloseBroken(r) => r in s.reqs && s.reqs[r].pc.BrokenPut?
    case Return(r) => PcIs(s, r, Leaving)
    case Consume(r) =>
      PcIs(s, r, Returned) && s.reqs[r].ch in s.chans && s.chans[s.reqs[r].ch].taken < |s.chans[s.reqs[r].ch].log|
    case Emit(r, _, _) => r in s.reqs && s.reqs[r].delivered && !Complete(s.reqs[r])
    case Recv(r) => s.loop.Receiving? && r in s.reqs && s.reqs[r].received < |s.reqs[r].emitted|
    case RecvErr => s.loop.Receiving?
    case Lookup => s.loop.Got?
    case Forward =>
      s.loop.Looked? && (s.loop.target.Some? ==> Ready(s, s.loop.target.value))
    case CloseFinal => s.loop.Forwarded?
    case DrainBegin => s.loop.RecvFailed?
    case DrainNext(r) => s.loop.Draining? && r in s.active
    case DrainPutBroken => s.loop.DrainPut? && Ready(s, s.loop.ch)
    case DrainCloseNext => s.loop.DrainClose?
    case DrainEnd => s.loop.Draining? && s.active == map[]
  }

  function Apply(s: State, a: Step): State
    requires Enabled(s, a)
  {
    match a
    case Register =>
      s.(nextRid := s.nextRid + 1,
         chans := s.chans[s.nextRid := Channel([], 0, false)],
         active := s.active[s.nextRid := s.nextRid],
         reqs := s.reqs[s.nextRid := Request(Registered, s.nextRid, false, [], 0)])
    case BeginSend(r) => SetPc(s, r, Sending).(sendLock := Some(r))
    case SendOk(r) => s.(reqs := s.reqs[r := s.reqs[r].(pc := Leaving, delivered := true)])
    case SendErr(r) => SetPc(s, r, SendFailed)
    case TakeChannel(r) =>
      var ch := Find(s, r);
      SetPc(s, r, if ch.Some? then Took(ch.value) else Leaving).(active := s.active - {r})
    case PutBroken(r) => SetPc(Put(s, Some(s.reqs[r].pc.ch), STREAM_BROKEN), r, BrokenPut(s.reqs[r].pc.ch))
    case CloseBroken(r) => SetPc(Close(s, Some(s.reqs[r].pc.ch)), r, Leaving)
    case Return(r) => SetPc(s, r, Returned).(sendLock := None)
    case Consume(r) =>
      var c := s.chans[s.reqs[r].ch];
      s.(chans := s.chans[s.reqs[r].ch := c.(taken := c.taken + 1)])
    case Emit(r, hasMore, body) =>
      s.(reqs := s.reqs[r := s.reqs[r].(emitted := s.reqs[r].emitted + [Msg(r, hasMore, Payload(body))])])
    case Recv(r) =>
      var q := s.reqs[r];
      s.(reqs := s.reqs[r := q.(received := q.received + 1)], loop := Got(q.emitted[q.received]))
    case RecvErr => s.(loop := RecvFailed)
    case Lookup =>
      s.(loop := Looked(s.loop.msg, Find(s, s.loop.msg.rid)),
         active := if s.loop.msg.hasMore then s.active else s.active - {s.loop.msg.rid})
    case Forward =>
      Put(s, s.loop.target, s.loop.msg).(
          loop := if s.loop.msg.hasMore then Receiving else Forwarded(s.loop.msg, s.loop.target))
    case CloseFinal => Close(s, s.loop.target).(loop := Receiving)
    case DrainBegin => s.(loop := Draining)
    case DrainNext(r) => s.(loop := DrainPut(s.active[r]), active := s.active - {r})
    case DrainPutBroken => Put(s, Some(s.loop.ch), STREAM_BROKEN).(loop := DrainClose(s.loop.ch))
    case DrainCloseNext => Close(s, Some(s.loop.ch)).(loop := Draining)
    case DrainEnd => s.(loop := Finished)
  }

  ghost predicate Next(s: State, t: State) { exists a: Step :: Enabled(s, a) && t == Apply(s, a) }

  // ------------------------------------------------ one request's view of the machine

  /** What the read loop is doing with one request. */
  datatype Role =
    | Idle
    | HasMsg(msg: Msg)
    | WillForward(msg: Msg)
    | WillClose
    | WillBreak
    | WillCloseBroken

  datatype Phase = Up | Failed | Down | Done

  datatype View = View(
    pc: SenderPc,
    ch: ChanId,
    delivered: bool,
    emitted: seq<Msg>,
    received: nat,
    log: seq<Msg>,
    taken: nat,
    closed: bool,
    mapped: bool,
    role: Role,
    phase: Phase,
    locked: bool)

  function RoleFor(s: State, r: nat): Role
    requires r in s.reqs
  {
    match s.loop
    case Got(m) => if m.rid == r then HasMsg(m) else Idle
    case Looked(m, _) => if m.rid == r then WillForward(m) else Idle
    case Forwarded(m, _) => if m.rid == r then WillClose else Idle
    case DrainPut(ch) => if ch == s.reqs[r].ch then WillBreak else Idle
    case DrainClose(ch) => if ch == s.reqs[r].ch then WillCloseBroken else Idle
    case _ => Idle
  }

  function PhaseOf(s: State): Phase {
    if StreamUp(s) then Up else if s.loop.RecvFailed? then Failed else if s.loop.Finished? then Done else Down
  }

  function ViewOf(s: State, r: nat): View
    requires r in s.reqs && s.reqs[r].ch in s.chans
  {
    var q, c := s.reqs[r], s.chans[s.reqs[r].ch];
    View(q.pc, q.ch, q.delivered, q.emitted, q.received, c.log, c.taken, c.closed,
         r in s.active, RoleFor(s, r), PhaseOf(s), s.sendLock == Some(r))
  }

  /** What a step does to the view of request r. */
  function Effect(v: View, a: Step, r: nat): View {
    match a
    case Register => v
    case BeginSend(r') => if r == r' then v.(pc := Sending, locked := true) else v
    case SendOk(r') => if r == r' then v.(pc := Leaving, delivered := true) else v
    case SendErr(r') => if r == r' then v.(pc := SendFailed) else v
    case TakeChannel(r') => if r == r' then v.(pc := if v.mapped then Took(v.ch) else Leaving, mapped := false) else v
    case PutBroken(r') => if r == r' then v.(pc := BrokenPut(v.ch), log := v.log + [STREAM_BROKEN]) else v
    case CloseBroken(r') => if r == r' then v.(pc := Leaving, closed := true) else v
    case Return(r') => if r == r' then v.(pc := Returned, locked := false) else v
    case Consume(r') => if r == r' then v.(taken := v.taken + 1) else v
    case Emit(r', hasMore, body) => if r == r' then v.(emitted := v.emitted + [Msg(r, hasMore, Payload(body))]) else v
    case Recv(r') =>
      if r == r' && v.received < |v.emitted|
      then v.(received := v.received + 1, role := HasMsg(v.emitted[v.received])) else v
    case RecvErr => v.(phase := Failed)
    case Lookup =>
      if v.role.HasMsg? then v.(role := WillForward(v.role.msg), mapped := v.mapped && v.role.msg.hasMore) else v
    case Forward =>
      if v.role.WillForward?
      then v.(role := if v.role.msg.hasMore then Idle else WillClose, log := v.log + [v.role.msg]) else v
    case CloseFinal => if v.role.WillClose? then v.(role := Idle, closed := true) else v
    case DrainBegin => v.(phase := Down)
    case DrainNext(r') => if r == r' then v.(role := WillBreak, mapped := false) else v
    case DrainPutBroken => if v.role.WillBreak? then v.(role := WillCloseBroken, log := v.log + [STREAM_BROKEN]) else v
    case DrainCloseNext => if v.role.WillCloseBroken? then v.(role := Idle, closed := true) else v
    case DrainEnd => v.(phase := Done)
  }

  predicate Final(msgs: seq<Msg>, n: int) { 0 < n <= |msgs| && !msgs[n - 1].hasMore }

  /** The guards of a step that the view of request r can see. */
  predicate Sees(v: View, a: Step, r: nat) {
    match a
    case BeginSend(r') => r == r' ==> v.pc.Registered?
    case SendOk(r') => r == r' ==> v.pc.Sending? && v.phase.Up?
    case SendErr(r') => r == r' ==> v.pc.Sending?
    case TakeChannel(r') => r == r' ==> v.pc.SendFailed?
    case PutBroken(r') => r == r' ==> v.pc.Took? && |v.log| == v.taken
    case CloseBroken(r') => r == r' ==> v.pc.BrokenPut?
    case Return(r') => r == r' ==> v.pc.Leaving?
    case Consume(r') => r == r' ==> v.taken < |v.log|
    case Emit(r', _, _) => r == r' ==> v.delivered && !Final(v.emitted, |v.emitted|)
    case Recv(r') => v.phase.Up? && v.role.Idle?
    case RecvErr => v.phase.Up? && v.role.Idle?
    case Forward => v.role.WillForward? ==> |v.log| == v.taken
    case DrainBegin => v.phase.Failed?
    case DrainNext(r') => v.phase.Down? && v.role.Idle? && (r == r' ==> v.mapped)
    case DrainPutBroken => v.role.WillBreak? ==> |v.log| == v.taken
    case DrainEnd => v.phase.Down? && !v.mapped && v.role.Idle?
    case _ => true
  }

  // ---------------------------------------------------------------- invariant

  predicate LoopOwns(v: View) {
    (v.role.WillForward? && !v.role.msg.hasMore) || v.role.WillClose? || v.role.WillBreak? || v.role.WillCloseBroken?
  }

  predicate SenderOwns(v: View) { v.pc.Took? || v.pc.BrokenPut? }

  predicate BeforeSend(v: View) { v.pc.Registered? || v.pc.Sending? || v.pc.SendFailed? }

  /** Responses looked up in the map so far. */
  function LookedUp(v: View): int { v.received - if v.role.HasMsg? then 1 else 0 }

  /** Responses put into the caller's channel so far. */
  function ForwardedTo(v: View): int { v.received - if v.role.HasMsg? || v.role.WillForward? then 1 else 0 }

  /** STREAM_BROKEN has been put into the request's channel. */
  predicate Broke(v: View) {
    v.pc.BrokenPut? || v.role.WillCloseBroken? || (v.closed && !Final(v.emitted, ForwardedTo(v)))
  }

  /** One owner at a time, and none exactly when the channel is closed. */
  predicate OneOwner(v: View) {
    && (!v.closed <==> v.mapped || LoopOwns(v) || SenderOwns(v))
    && !(v.mapped && LoopOwns(v)) && !(v.mapped && SenderOwns(v)) && !(LoopOwns(v) && SenderOwns(v))
    && (SenderOwns(v) ==> v.pc.ch == v.ch)
  }

  ghost predicate EmittedOk(emitted: seq<Msg>, r: nat) {
    && (forall i :: 0 <= i < |emitted| ==> emitted[i].rid == r && emitted[i].body.Payload?)
    && (forall i :: 0 <= i < |emitted| - 1 ==> emitted[i].hasMore)
  }

  ghost predicate ResponsesOk(v: View, r: nat) {
    && EmittedOk(v.emitted, r)
    && v.received <= |v.emitted|
    && (!v.delivered ==> v.emitted == [])
    && (v.role.HasMsg? || v.role.WillForward? ==> 0 < v.received && v.role.msg == v.emitted[v.received - 1])
    && (v.role.WillClose? ==> Final(v.emitted, v.received))
  }

  predicate LogOk(v: View)
    requires v.received <= |v.emitted| && (v.role.HasMsg? || v.role.WillForward? ==> 0 < v.received)
  {
    && v.log == v.emitted[..ForwardedTo(v)] + (if Broke(v) then [STREAM_BROKEN] else [])
    && v.taken <= |v.log| <= v.taken + 1
  }

  ghost predicate TrafficOk(v: View, r: nat) { ResponsesOk(v, r) && LogOk(v) }

  predicate SenderOk(v: View) {
    && (v.delivered ==> v.pc.Leaving? || v.pc.Returned?)
    && (v.locked <==> !v.pc.Registered? && !v.pc.Returned?)
    && ((v.pc.Leaving? || v.pc.Returned?) && !v.delivered ==> !v.mapped)
  }

  /** Which requests are still in the map. */
  predicate MapOk(v: View) {
    && (v.role.WillForward? && v.role.msg.hasMore ==> v.mapped)
    && (v.mapped || v.role.WillBreak? || v.role.WillCloseBroken? ==> !Final(v.emitted, LookedUp(v)))
    && (v.phase.Up? || v.phase.Failed? ==>
          (BeforeSend(v) || (v.delivered && !Final(v.emitted, LookedUp(v))) ==> v.mapped))
    && (v.phase.Done? && v.mapped ==> BeforeSend(v))
    && (v.role.HasMsg? || v.role.WillForward? || v.role.WillClose? ==> v.phase.Up?)
    && (v.role.WillBreak? || v.role.WillCloseBroken? ==> v.phase.Down?)
  }

  ghost predicate ViewOk(v: View, r: nat) { OneOwner(v) && TrafficOk(v, r) && SenderOk(v) && MapOk(v) }

  predicate LoopOk(s: State) {
    match s.loop
    case Got(m) => m.rid in s.reqs
    case Looked(m, target) => m.rid in s.reqs && target == Some(s.reqs[m.rid].ch)
    case Forwarded(m, target) => m.rid in s.reqs && target == Some(s.reqs[m.rid].ch)
    case DrainPut(ch) => ch in s.chans
    case DrainClose(ch) => ch in s.chans
    case _ => true
  }

  /** Every request has a channel of its own, and the map and the loop only name those. */
  ghost predicate Structure(s: State) {
    && !s.fault
    && 1 <= s.nextRid
    && s.chans.Keys == s.reqs.Keys
    && (forall r :: r in s.reqs ==> 1 <= r < s.nextRid && s.reqs[r].ch == r)
    && (forall r :: r in s.active ==> r in s.reqs && s.active[r] == r)
    && (s.sendLock.Some? ==> s.sendLock.value in s.reqs)
    && LoopOk(s)
  }

  ghost predicate Inv(s: State) {
    Structure(s) && forall r :: r in s.reqs ==> ViewOk(ViewOf(s, r), r)
  }

  /** The channel a step puts into or closes. */
  function Target(s: State, a: Step): Option<ChanId>
    requires Enabled(s, a)
  {
    match a
    case PutBroken(r) => Some(s.reqs[r].pc.ch)
    case CloseBroken(r) => Some(s.reqs[r].pc.ch)
    case Forward => s.loop.target
    case CloseFinal => s.loop.target
    case DrainPutBroken => Some(s.loop.ch)
    case DrainCloseNext => Some(s.loop.ch)
    case _ => None
  }

  /** The request a put or close is made for. */
  function TargetRequest(s: State, a: Step): nat
    requires Enabled(s, a) && Structure(s)
  {
    match a
    case PutBroken(r) => r
    case CloseBroken(r) => r
    case Forward => s.loop.msg.rid
    case CloseFinal => s.loop.msg.rid
    case DrainPutBroken => s.loop.ch
    case DrainCloseNext => s.loop.ch
    case _ => 0
  }

  predicate Touches(a: Step) {
    a.PutBroken? || a.CloseBroken? || a.Forward? || a.CloseFinal? || a.DrainPutBroken? || a.DrainCloseNext?
  }

  /** The step puts into or closes an open channel, that of the request it is made for. */
  ghost predicate TargetOpen(s: State, a: Step)
    requires Enabled(s, a) && Structure(s)
  {
    Touches(a) ==>
      var r := TargetRequest(s, a);
      r in s.reqs && Target(s, a) == Some(s.reqs[r].ch) && !s.chans[s.reqs[r].ch].closed
  }

  /**
   A response received is one to the request asked for, its request is in the map, and who returns holds
   sendMutex.
   */
  ghost predicate Expected(s: State, a: Step)
    requires Enabled(s, a)
  {
    && (a.Lookup? ==> s.loop.msg.rid in s.active)
    && (a.Recv? ==> s.reqs[a.rid].emitted[s.reqs[a.rid].received].rid == a.rid)
    && (a.Return? ==> s.sendLock == Some(a.rid))
  }

  /** The request whose view decides whether the step is safe. */
  function Subject(s: State, a: Step): nat
    requires Enabled(s, a) && Structure(s)
  {
    if Touches(a) then TargetRequest(s, a)
    else if a.Lookup? then s.loop.msg.rid
    else if a.Recv? || a.Return? then a.rid
    else 0
  }

  /** Whoever is about to put into or close a channel owns it, so it is neither nil nor closed. */
  lemma OwnerFindsChannelOpen(s: State, a: Step)
    requires Structure(s) && Enabled(s, a)
    requires Touches(a) || a.Lookup? || a.Recv? || a.Return? ==>
             Subject(s, a) in s.reqs && ViewOk(ViewOf(s, Subject(s, a)), Subject(s, a))
    ensures TargetOpen(s, a) && Expected(s, a)
  {
    assert TargetOpen(s, a);
    assert Expected(s, a);
  }

  /** A response that is not the last one announces more. */
  lemma OnlyLastIsFinal(emitted: seq<Msg>, r: nat, n: int)
    requires EmittedOk(emitted, r) && n < |emitted|
    ensures !Final(emitted, n)
  {
  }

  lemma EffectKeepsOneOwner(v: View, a: Step, r: nat)
    requires ViewOk(v, r) && Sees(v, a, r)
    ensures OneOwner(Effect(v, a, r))
  {
    if v.role.HasMsg? {
      OnlyLastIsFinal(v.emitted, r, LookedUp(v));
    }
    hide EmittedOk, LogOk;
  }

  lemma EffectKeepsSender(v: View, a: Step, r: nat)
    requires ViewOk(v, r) && Sees(v, a, r)
    ensures SenderOk(Effect(v, a, r))
  {
    hide EmittedOk, LogOk;
  }

  predicate SenderStep(a: Step) { a.BeginSend? || a.SendOk? || a.SendErr? || a.TakeChannel? || a.Return? }

  predicate StepOfSender(a: Step) {
    SenderStep(a) || a.PutBroken? || a.CloseBroken? || a.Register? || a.Consume? || a.Emit?
  }

  lemma SenderEffectKeepsMap(v: View, a: Step, r: nat)
    requires ViewOk(v, r) && Sees(v, a, r) && StepOfSender(a)
    ensures MapOk(Effect(v, a, r))
  {
    hide EmittedOk, LogOk;
  }

  predicate StepOfDrain(a: Step) {
    a.DrainBegin? || a.DrainNext? || a.DrainPutBroken? || a.DrainCloseNext? || a.DrainEnd?
  }

  lemma ReceiveEffectKeepsMap(v: View, a: Step, r: nat)
    requires ViewOk(v, r) && Sees(v, a, r) && !StepOfSender(a) && !StepOfDrain(a)
    ensures MapOk(Effect(v, a, r))
  {
    if v.role.HasMsg? {
      OnlyLastIsFinal(v.emitted, r, LookedUp(v));
    }
    hide EmittedOk, LogOk;
  }

  lemma DrainEffectKeepsMap(v: View, a: Step, r: nat)
    requires ViewOk(v, r) && Sees(v, a, r) && StepOfDrain(a)
    ensures MapOk(Effect(v, a, r))
  {
    hide EmittedOk, LogOk;
  }

  lemma EffectKeepsMap(v: View, a: Step, r: nat)
    requires ViewOk(v, r) && Sees(v, a, r)
    ensures MapOk(Effect(v, a, r))
  {
    hide ViewOk, Sees, Effect, MapOk, StepOfSender, StepOfDrain;
    if StepOfSender(a) {
      SenderEffectKeepsMap(v, a, r);
    } else if StepOfDrain(a) {
      DrainEffectKeepsMap(v, a, r);
    } else {
      ReceiveEffectKeepsMap(v, a, r);
    }
  }

  lemma EffectKeepsOwnership(v: View, a: Step, r: nat)
    requires ViewOk(v, r) && Sees(v, a, r)
    ensures OneOwner(Effect(v, a, r)) && SenderOk(Effect(v, a, r)) && MapOk(Effect(v, a, r))
  {
    hide ViewOk, Sees, Effect, OneOwner, SenderOk, MapOk;
    EffectKeepsOneOwner(v, a, r);
    EffectKeepsSender(v, a, r);
    EffectKeepsMap(v, a, r);
  }

  lemma EffectKeepsResponses(v: View, a: Step, r: nat)
    requires ViewOk(v, r) && Sees(v, a, r)
    ensures ResponsesOk(Effect(v, a, r), r)
  {
    hide LogOk;
  }

  lemma EmitEffectKeepsTraffic(v: View, a: Step, r: nat)
    requires ViewOk(v, r) && Sees(v, a, r) && a.Emit?
    ensures TrafficOk(Effect(v, a, r), r)
  {
    EffectKeepsResponses(v, a, r);
    hide EmittedOk;
    assert Effect(v, a, r).emitted[..ForwardedTo(v)] == v.emitted[..ForwardedTo(v)];
  }

  lemma ForwardEffectKeepsTraffic(v: View, a: Step, r: nat)
    requires ViewOk(v, r) && Sees(v, a, r) && a.Forward?
    ensures TrafficOk(Effect(v, a, r), r)
  {
    EffectKeepsResponses(v, a, r);
    hide EmittedOk;
    if v.role.WillForward? {
      assert v.emitted[..v.received] == v.emitted[..v.received - 1] + [v.role.msg];
    }
  }

  lemma SenderEffectKeepsTraffic(v: View, a: Step, r: nat)
    requires ViewOk(v, r) && Sees(v, a, r) && StepOfSender(a) && !a.Emit?
    ensures TrafficOk(Effect(v, a, r), r)
  {
    EffectKeepsResponses(v, a, r);
    hide EmittedOk, ResponsesOk;
    var t := Effect(v, a, r);
    assert t.emitted == v.emitted && ForwardedTo(t) == ForwardedTo(v);
  }

  lemma LoopEffectKeepsTraffic(v: View, a: Step, r: nat)
    requires ViewOk(v, r) && Sees(v, a, r) && !StepOfSender(a) && !a.Forward?
    ensures TrafficOk(Effect(v, a, r), r)
  {
    EffectKeepsResponses(v, a, r);
    hide EmittedOk;
    var t := Effect(v, a, r);
    assert t.emitted == v.emitted && ForwardedTo(t) == ForwardedTo(v);
  }

  lemma EffectKeepsTraffic(v: View, a: Step, r: nat)
    requires ViewOk(v, r) && Sees(v, a, r)
    ensures TrafficOk(Effect(v, a, r), r)
  {
    hide ViewOk, Sees, Effect, TrafficOk, StepOfSender;
    if a.Emit? {
      EmitEffectKeepsTraffic(v, a, r);
    } else if a.Forward? {
      ForwardEffectKeepsTraffic(v, a, r);
    } else if StepOfSender(a) {
      SenderEffectKeepsTraffic(v, a, r);
    } else {
      LoopEffectKeepsTraffic(v, a, r);
    }
  }

  /** The step is seen in the view of request r, and changes it as Effect says. */
  ghost predicate Projects(s: State, a: Step, r: nat)
    requires Structure(s) && Enabled(s, a) && r in s.reqs
  {
    && Sees(ViewOf(s, r), a, r)
    && r in Apply(s, a).reqs && Apply(s, a).reqs[r].ch in Apply(s, a).chans
    && ViewOf(Apply(s, a), r) == Effect(ViewOf(s, r), a, r)
  }

  lemma BeginStepProjects(s: State, a: Step, r: nat)
    requires Structure(s) && Enabled(s, a) && r in s.reqs
    requires a.BeginSend?
    ensures Projects(s, a, r)
  {
  }

  lemma SendStepProjects(s: State, a: Step, r: nat)
    requires Structure(s) && Enabled(s, a) && r in s.reqs
    requires a.SendOk? || a.SendErr?
    ensures Projects(s, a, r)
  {
  }

  lemma LeaveStepProjects(s: State, a: Step, r: nat)
    requires Structure(s) && Enabled(s, a) && r in s.reqs
    requires a.TakeChannel? || a.Return?
    requires Expected(s, a)
    ensures Projects(s, a, r)
  {
  }

  lemma SenderStepProjects(s: State, a: Step, r: nat)
    requires Structure(s) && Enabled(s, a) && r in s.reqs
    requires SenderStep(a)
    requires Expected(s, a)
    ensures Projects(s, a, r)
  {
    hide Apply, Enabled, ViewOf, Effect, Sees, Structure, Expected;
    if a.BeginSend? {
      BeginStepProjects(s, a, r);
    } else if a.SendOk? || a.SendErr? {
      SendStepProjects(s, a, r);
    } else {
      LeaveStepProjects(s, a, r);
    }
  }

  lemma SenderStepKeepsStructure(s: State, a: Step)
    requires Structure(s) && Enabled(s, a)
    requires SenderStep(a)
    requires Expected(s, a)
    ensures Structure(Apply(s, a))
  {
  }

  lemma CallerStepProjects(s: State, a: Step, r: nat)
    requires Structure(s) && Enabled(s, a) && r in s.reqs
    requires a.Register? || a.Consume? || a.Emit?
    ensures Projects(s, a, r)
  {
  }

  lemma CallerStepKeepsStructure(s: State, a: Step)
    requires Structure(s) && Enabled(s, a)
    requires a.Register? || a.Consume? || a.Emit?
    ensures Structure(Apply(s, a))
  {
  }

  lemma SenderChannelStepProjects(s: State, a: Step, r: nat)
    requires Structure(s) && Enabled(s, a) && r in s.reqs
    requires a.PutBroken? || a.CloseBroken?
    requires TargetOpen(s, a)
    ensures Projects(s, a, r)
  {
  }

  lemma LoopChannelStepProjects(s: State, a: Step, r: nat)
    requires Structure(s) && Enabled(s, a) && r in s.reqs
    requires a.Forward? || a.CloseFinal? || a.DrainPutBroken? || a.DrainCloseNext?
    requires TargetOpen(s, a)
    ensures Projects(s, a, r)
  {
  }

  lemma ChannelStepProjects(s: State, a: Step, r: nat)
    requires Structure(s) && Enabled(s, a) && r in s.reqs
    requires Touches(a)
    requires TargetOpen(s, a)
    ensures Projects(s, a, r)
  {
    hide Apply, Enabled, ViewOf, Effect, Sees, Structure, TargetOpen;
    if a.PutBroken? || a.CloseBroken? {
      SenderChannelStepProjects(s, a, r);
    } else {
      LoopChannelStepProjects(s, a, r);
    }
  }

  lemma ChannelStepKeepsStructure(s: State, a: Step)
    requires Structure(s) && Enabled(s, a)
    requires Touches(a)
    requires TargetOpen(s, a)
    ensures Structure(Apply(s, a))
  {
  }

  lemma RecvStepProjects(s: State, a: Step, r: nat)
    requires Structure(s) && Enabled(s, a) && r in s.reqs
    requires a.Recv? || a.RecvErr? || a.Lookup?
    requires Expected(s, a)
    ensures Projects(s, a, r)
  {
  }

  lemma RecvStepKeepsStructure(s: State, a: Step)
    requires Structure(s) && Enabled(s, a)
    requires a.Recv? || a.RecvErr? || a.Lookup?
    requires Expected(s, a)
    ensures Structure(Apply(s, a))
  {
  }

  lemma DrainStepProjects(s: State, a: Step, r: nat)
    requires Structure(s) && Enabled(s, a) && r in s.reqs
    requires a.DrainBegin? || a.DrainNext? || a.DrainEnd?
    ensures Projects(s, a, r)
  {
  }

  lemma DrainStepKeepsStructure(s: State, a: Step)
    requires Structure(s) && Enabled(s, a)
    requires a.DrainBegin? || a.DrainNext? || a.DrainEnd?
    ensures Structure(Apply(s, a))
  {
  }

  lemma StepProjects(s: State, a: Step, r: nat)
    requires Structure(s) && Enabled(s, a) && TargetOpen(s, a) && Expected(s, a) && r in s.reqs
    ensures Projects(s, a, r)
  {
    if SenderStep(a) {
      SenderStepProjects(s, a, r);
    } else if Touches(a) {
      ChannelStepProjects(s, a, r);
    } else if a.Register? || a.Consume? || a.Emit? {
      CallerStepProjects(s, a, r);
    } else if a.Recv? || a.RecvErr? || a.Lookup? {
      RecvStepProjects(s, a, r);
    } else {
      DrainStepProjects(s, a, r);
    }
  }

  lemma StepKeepsStructure(s: State, a: Step)
    requires Structure(s) && Enabled(s, a) && TargetOpen(s, a) && Expected(s, a)
    ensures Structure(Apply(s, a))
  {
    if SenderStep(a) {
      SenderStepKeepsStructure(s, a);
    } else if Touches(a) {
      ChannelStepKeepsStructure(s, a);
    } else if a.Register? || a.Consume? || a.Emit? {
      CallerStepKeepsStructure(s, a);
    } else if a.Recv? || a.RecvErr? || a.Lookup? {
      RecvStepKeepsStructure(s, a);
    } else {
      DrainStepKeepsStructure(s, a);
    }
  }

  lemma StepIsSafe(s: State, a: Step)
    requires Inv(s) && Enabled(s, a)
    ensures TargetOpen(s, a) && Expected(s, a)
  {
    hide ViewOk, ViewOf, TargetOpen, Expected;
    OwnerFindsChannelOpen(s, a);
  }

  lemma OldRequestOk(s: State, a: Step, r: nat)
    requires Structure(s) && Enabled(s, a) && TargetOpen(s, a) && Expected(s, a)
    requires r in s.reqs && ViewOk(ViewOf(s, r), r)
    ensures r in Apply(s, a).reqs && Apply(s, a).reqs[r].ch in Apply(s, a).chans
    ensures ViewOk(ViewOf(Apply(s, a), r), r)
  {
    StepProjects(s, a, r);
    EffectKeepsOwnership(ViewOf(s, r), a, r);
    EffectKeepsTraffic(ViewOf(s, r), a, r);
  }

  function FreshView(r: nat, phase: Phase): View {
    View(Registered, r, false, [], 0, [], 0, false, true, Idle, phase, false)
  }

  lemma FreshViewOk(r: nat, phase: Phase)
    ensures ViewOk(FreshView(r, phase), r)
  {
  }

  lemma OthersKeepRequests(s: State, a: Step)
    requires Enabled(s, a) && !a.Register?
    ensures Apply(s, a).reqs.Keys == s.reqs.Keys
  {
  }

  lemma RegisteredView(s: State)
    requires Structure(s) && Enabled(s, Register)
    ensures var t := Apply(s, Register);
      s.nextRid in t.reqs && t.reqs[s.nextRid].ch in t.chans && ViewOf(t, s.nextRid) == FreshView(s.nextRid, PhaseOf(s))
  {
    var t := Apply(s, Register);
    assert RoleFor(t, s.nextRid) == Idle && PhaseOf(t) == PhaseOf(s);
  }

  lemma NewRequestOk(s: State, a: Step, r: nat)
    requires Structure(s) && Enabled(s, a) && r in Apply(s, a).reqs && r !in s.reqs
    ensures Apply(s, a).reqs[r].ch in Apply(s, a).chans
    ensures ViewOk(ViewOf(Apply(s, a), r), r)
  {
    if a.Register? {
      assert r == s.nextRid;
      hide ViewOk, ViewOf, Apply, Enabled, Structure;
      RegisteredView(s);
      FreshViewOk(r, PhaseOf(s));
    } else {
      hide *;
      OthersKeepRequests(s, a);
    }
  }

  lemma StepKeepsInv(s: State, a: Step)
    requires Inv(s) && Enabled(s, a)
    ensures Inv(Apply(s, a))
  {
    StepIsSafe(s, a);
    hide Apply, Enabled, ViewOf, ViewOk, TargetOpen, Expected, Structure;
    StepKeepsStructure(s, a);
    forall r | r in Apply(s, a).reqs ensures ViewOk(ViewOf(Apply(s, a), r), r) {
      if r in s.reqs {
        OldRequestOk(s, a, r);
      } else {
        NewRequestOk(s, a, r);
      }
    }
  }

  // ---------------------------------------------------------------- theorems

  /**
   What the caller of request r finds in its channel: server responses in order, possibly cut short by
   STREAM_BROKEN.
   */
  ghost predicate CarriesOwnResponses(s: State, r: nat)
    requires r in s.reqs && s.reqs[r].ch in s.chans
  {
    var q, c := s.reqs[r], s.chans[s.reqs[r].ch];
    && (forall i :: 0 <= i < |q.emitted| ==> q.emitted[i].rid == r && q.emitted[i].body.Payload?)
    && (c.log <= q.emitted || exists n :: 0 <= n <= |q.emitted| && c.log == q.emitted[..n] + [STREAM_BROKEN])
    && (c.closed ==>
          || (c.log == q.emitted && Complete(q))
          || exists n :: 0 <= n <= |q.emitted| && c.log == q.emitted[..n] + [STREAM_BROKEN])
  }

  lemma EveryRunKeepsInv(run: seq<State>)
    requires IsRun(Init, Next, run)
    ensures forall s :: s in run ==> Inv(s)
  {
    forall s, t | Inv(s) && Next(s, t) ensures Inv(t) {
      var a :| Enabled(s, a) && t == Apply(s, a);
      StepKeepsInv(s, a);
    }
    InvariantHolds(Init, Next, Inv, run);
  }

  lemma ViewCarriesOwnResponses(s: State, r: nat)
    requires Structure(s) && r in s.reqs && ViewOk(ViewOf(s, r), r)
    ensures CarriesOwnResponses(s, r)
  {
    var v := ViewOf(s, r);
    var n := ForwardedTo(v);
    if Broke(v) {
      assert v.log == v.emitted[..n] + [STREAM_BROKEN];
    } else {
      assert v.log == v.emitted[..n];
      if v.closed {
        assert n == |v.emitted|;
      }
    }
  }

  /**
   In every interleaving no channel is put into or closed when nil or closed, and every caller's channel
   carries its own responses in order.
   */
  lemma ChannelsAreSafe(run: seq<State>, s: State)
    requires IsRun(Init, Next, run) && s in run
    ensures !s.fault
    ensures forall a: Step :: Enabled(s, a) && Touches(a) ==>
              Target(s, a).Some? && Target(s, a).value in s.chans && !s.chans[Target(s, a).value].closed
    ensures forall r :: r in s.reqs ==> s.reqs[r].ch in s.chans && CarriesOwnResponses(s, r)
  {
    EveryRunKeepsInv(run);
    forall a: Step | Enabled(s, a) && Touches(a)
      ensures Target(s, a).Some? && Target(s, a).value in s.chans && !s.chans[Target(s, a).value].closed
    {
      StepIsSafe(s, a);
    }
    hide Enabled, Target;
    forall r | r in s.reqs ensures CarriesOwnResponses(s, r) {
      ViewCarriesOwnResponses(s, r);
    }
  }

  lemma QuietRequest(s: State, r: nat)
    requires Structure(s) && r in s.reqs && ViewOk(ViewOf(s, r), r)
    requires s.loop.Finished? && s.reqs[r].pc.Returned?
    ensures r !in s.active && s.chans[r].closed && s.sendLock != Some(r)
  {
  }

  /** Once the read loop has ended and no sender is inside sendRequest, nothing is left in the map or open. */
  lemma QuiescenceClosesEverything(run: seq<State>, s: State)
    requires IsRun(Init, Next, run) && s in run
    requires s.loop.Finished? && forall r :: r in s.reqs ==> s.reqs[r].pc.Returned?
    ensures s.active == map[]
    ensures forall ch :: ch in s.chans ==> s.chans[ch].closed
    ensures s.sendLock.None?
  {
    EveryRunKeepsInv(run);
    hide ViewOk, ViewOf;
    forall r | r in s.reqs ensures r !in s.active && s.chans[r].closed && s.sendLock != Some(r) {
      QuietRequest(s, r);
    }
  }

  // ---------------------------------------------------------------- progress

  /** Some call of sendRequest is under way, or the read loop has a response or a failure in hand. */
  ghost predicate Busy(s: State) {
    !(s.loop.Receiving? || s.loop.Finished?) || exists r :: r in s.reqs && !s.reqs[r].pc.Returned?
  }

  /** A step of a thread that is already at work: no new request, no new response, no failure of Recv. */
  predicate ByClient(a: Step) { !a.Register? && !a.Emit? && !a.RecvErr? }

  /** The next step of the sender that holds sendMutex, while the map is free. */
  lemma LockHolderCanStep(s: State, r: nat) returns (a: Step)
    requires Structure(s) && r in s.reqs && ViewOk(ViewOf(s, r), r)
    requires s.sendLock == Some(r) && !MutexHeld(s)
    ensures Enabled(s, a) && ByClient(a)
  {
    assert ViewOf(s, r).locked;
    match s.reqs[r].pc
    case Sending => a := SendErr(r);
    case SendFailed => a := TakeChannel(r);
    case Took(_) => a := PutBroken(r);
    case BrokenPut(_) => a := CloseBroken(r);
    case Leaving => a := Return(r);
  }

  /** The read loop's put into the channel of r, or what has to happen before it. */
  lemma LoopCanPut(s: State, r: nat) returns (a: Step)
    requires Structure(s) && r in s.reqs && ViewOk(ViewOf(s, r), r)
    requires (s.loop.Looked? && s.loop.msg.rid == r) || (s.loop.DrainPut? && s.loop.ch == r)
    ensures Enabled(s, a) && ByClient(a)
  {
    if Ready(s, r) {
      a := if s.loop.Looked? then Forward else DrainPutBroken;
    } else {
      assert !Broke(ViewOf(s, r)) && ViewOf(s, r).emitted != [];
      a := if s.reqs[r].pc.Leaving? then Return(r) else Consume(r);
    }
  }

  lemma LoopCanStep(s: State) returns (a: Step)
    requires Inv(s) && !s.loop.Receiving? && !s.loop.Finished?
    ensures Enabled(s, a) && ByClient(a)
  {
    hide ViewOk, ViewOf, PcIs, Ready;
    match s.loop
    case Got(_) => a := Lookup;
    case Looked(m, _) => a := LoopCanPut(s, m.rid);
    case Forwarded(_, _) => a := CloseFinal;
    case RecvFailed => a := DrainBegin;
    case Draining =>
      if r :| r in s.active {
        a := DrainNext(r);
      } else {
        a := DrainEnd;
      }
    case DrainPut(ch) => a := LoopCanPut(s, ch);
    case DrainClose(_) => a := DrainCloseNext;
  }

  lemma UnlockedSenderIsRegistered(s: State, r: nat)
    requires Structure(s) && r in s.reqs && ViewOk(ViewOf(s, r), r)
    ensures s.sendLock.None? && !s.reqs[r].pc.Returned? ==> s.reqs[r].pc.Registered?
  {
    assert !ViewOf(s, r).locked || s.sendLock.Some?;
  }

  lemma SomeSenderCanStep(s: State, r: nat) returns (a: Step)
    requires Inv(s) && !MutexHeld(s) && r in s.reqs && !s.reqs[r].pc.Returned?
    ensures Enabled(s, a) && ByClient(a)
  {
    hide ViewOk, ViewOf;
    UnlockedSenderIsRegistered(s, r);
    if s.sendLock.Some? {
      a := LockHolderCanStep(s, s.sendLock.value);
    } else {
      a := BeginSend(r);
    }
  }

  /**
   While every caller reads its channel and Send returns, no sender and no response waits for good: the client
   can take a step without a new request, a new response or a failure of Recv.
   */
  lemma NeverStuck(run: seq<State>, s: State) returns (a: Step)
    requires IsRun(Init, Next, run) && s in run && Busy(s)
    ensures Enabled(s, a) && ByClient(a)
  {
    hide Init, Next, Inv, Enabled;
    EveryRunKeepsInv(run);
    if !s.loop.Receiving? && !s.loop.Finished? {
      a := LoopCanStep(s);
    } else {
      var r :| r in s.reqs && !s.reqs[r].pc.Returned?;
      a := SomeSenderCanStep(s, r);
    }
  }

  /** The read loop is to put STREAM_BROKEN into the channel of r, which is full, and holds the map's mutex. */
  ghost predicate DrainBlocked(s: State, r: nat) {
    && s.loop == DrainPut(r) && r in s.reqs && s.reqs[r].ch == r && r in s.chans
    && !s.chans[r].closed && s.chans[r].taken < |s.chans[r].log|
  }

  lemma BlockedView(s: State, r: nat)
    requires Structure(s) && r in s.reqs
    ensures DrainBlocked(s, r) <==>
            var v := ViewOf(s, r); v.role.WillBreak? && !v.closed && v.taken < |v.log|
  {
  }

  lemma BlockedEffect(v: View, a: Step, r: nat)
    requires ViewOk(v, r) && Sees(v, a, r) && a != Consume(r)
    requires v.role.WillBreak? && !v.closed && v.taken < |v.log|
    ensures var t := Effect(v, a, r); t.role.WillBreak? && !t.closed && t.taken < |t.log|
  {
    hide TrafficOk;
  }

  lemma OthersKeepBlocked(s: State, a: Step, r: nat)
    requires Inv(s) && Enabled(s, a) && DrainBlocked(s, r) && a != Consume(r)
    ensures DrainBlocked(Apply(s, a), r)
  {
    StepIsSafe(s, a);
    hide ViewOk, Apply, TargetOpen, Expected;
    StepProjects(s, a, r);
    StepKeepsStructure(s, a);
    hide ViewOf;
    BlockedView(s, r);
    BlockedView(Apply(s, a), r);
    BlockedEffect(ViewOf(s, r), a, r);
  }

  lemma StepBetween(s: State, t: State) returns (a: Step)
    requires Next(s, t)
    ensures Enabled(s, a) && t == Apply(s, a)
  {
    a :| Enabled(s, a) && t == Apply(s, a);
  }

  lemma ReadingIsSeen(s: State, a: Step, r: nat)
    requires Enabled(s, a) && DrainBlocked(s, r)
    ensures a == Consume(r) ==> r in Apply(s, a).chans && Apply(s, a).chans[r].taken == s.chans[r].taken + 1
    ensures Apply(s, a).reqs.Keys == s.reqs.Keys
  {
  }

  lemma NextKeepsBlocked(s: State, t: State, r: nat)
    requires Inv(s) && Next(s, t) && DrainBlocked(s, r)
    requires r in t.chans && t.chans[r].taken == s.chans[r].taken
    ensures DrainBlocked(t, r) && t.reqs.Keys == s.reqs.Keys
  {
    hide Inv, Next, Enabled, Apply;
    var a := StepBetween(s, t);
    ReadingIsSeen(s, a, r);
    OthersKeepBlocked(s, a, r);
  }

  /**
   A caller that does not read its channel stops every other one: once the drain waits for it, then for as long
   as it reads nothing the loop stays where it is, with the map's mutex, and no request is registered.
   */
  lemma {:induction false} UnreadChannelBlocksEveryone(run: seq<State>, i: nat, k: nat, r: nat)
    requires IsRun(Init, Next, run) && i <= k < |run| && DrainBlocked(run[i], r)
    requires forall j :: i <= j <= k ==> r in run[j].chans && run[j].chans[r].taken == run[i].chans[r].taken
    ensures DrainBlocked(run[k], r) && run[k].reqs.Keys == run[i].reqs.Keys && !Enabled(run[k], Register)
    decreases k
  {
    hide Inv, Init, Next;
    if i < k {
      UnreadChannelBlocksEveryone(run, i, k - 1, r);
      EveryRunKeepsInv(run);
      NextKeepsBlocked(run[k - 1], run[k], r);
    }
  }

  lemma Then(run: seq<State>, a: Step) returns (longer: seq<State>)
    requires IsRun(Init, Next, run) && Enabled(Last(run), a)
    ensures IsRun(Init, Next, longer) && longer == run + [Apply(Last(run), a)]
  {
    var t := Apply(Last(run), a);
    assert Next(Last(run), t);
    Extend(Init, Next, run, t);
    longer := run + [t];
  }

  lemma RequestCanBeAnswered() returns (run: seq<State>)
    ensures IsRun(Init, Next, run)
    ensures Last(run) == State(2, map[1 := 1], map[1 := Channel([], 0, false)],
                               map[1 := Request(Returned, 1, true, [Msg(1, true, Payload(0))], 0)],
                               None, Receiving, false)
  {
    run := [INITIAL];
    run := Then(run, Register);
    run := Then(run, BeginSend(1));
    run := Then(run, SendOk(1));
    run := Then(run, Return(1));
    run := Then(run, Emit(1, true, 0));
    assert Last(run).reqs[1].emitted == [Msg(1, true, Payload(0))];
    assert Last(run).reqs == map[1 := Request(Returned, 1, true, [Msg(1, true, Payload(0))], 0)];
  }

  lemma ResponseCanBeForwarded() returns (run: seq<State>)
    ensures IsRun(Init, Next, run)
    ensures Last(run) == State(2, map[1 := 1], map[1 := Channel([Msg(1, true, Payload(0))], 0, false)],
                               map[1 := Request(Returned, 1, true, [Msg(1, true, Payload(0))], 1)],
                               None, Receiving, false)
  {
    run := RequestCanBeAnswered();
    run := Then(run, Recv(1));
    run := Then(run, Lookup);
    run := Then(run, Forward);
    assert Last(run).chans[1].log == [Msg(1, true, Payload(0))];
  }

  /** The stream can break while a response lies unread and more are to come: then the drain waits for the reader. */
  lemma UnreadChannelCanBlock() returns (run: seq<State>)
    ensures IsRun(Init, Next, run) && DrainBlocked(Last(run), 1)
  {
    run := ResponseCanBeForwarded();
    run := Then(run, RecvErr);
    run := Then(run, DrainBegin);
    run := Then(run, DrainNext(1));
  }
}

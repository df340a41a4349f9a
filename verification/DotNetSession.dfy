/**
  The WebSocket session of the backend: one read loop that echoes what it saves and one write loop
  per conversation share a socket through a semaphore with one permit.  The handler cancels all
  loops when the first side is done and returns, disposing the semaphore, without awaiting the rest.
  A sequence of actions is an interleaving of the loops, the handler and the network.
 */
module DotNetSession {
  import opened Entities
  import opened Sequences

  /** Where a loop stands; from Waiting on it is inside SendJsonAsync. */
  datatype Stage =
    | Idle
    | Waiting(message: ChatMessage)
    | Sending(message: ChatMessage)
    | Releasing(thrown: bool)
    | Done

  /**
    Loop 0 is the read loop, whose `events` are the messages it saved; any other is the write loop
    of one stream.  `lost` holds the messages taken and not sent, until a later send succeeds:
    `gap` is then the position in the loop's frames of the first frame that came too early.
   */
  datatype Loop = Loop(events: seq<ChatMessage>, taken: nat, stage: Stage, lost: seq<ChatMessage>, gap: Option<nat>)

  datatype Socket = Open | CloseReceived | CloseSent | Closed | Aborted

  datatype Handler = AwaitingLoops | Cancelled | Returned

  datatype Frame = Frame(loop: nat, message: ChatMessage)

  /** `overReleases` counts releases beyond the semaphore's maximum of one. */
  datatype Session = Session(
    loops: seq<Loop>,
    permits: nat,
    disposed: bool,
    cancelled: bool,
    socket: Socket,
    log: seq<Frame>,
    handler: Handler,
    failedOpen: bool,
    overReleases: nat)

  /** How the guarded send ends: two kinds of failure also say what becomes of the socket, and a socket that is not open is skipped. */
  datatype SendResult = Written | Swallowed(left: Socket) | Throws(left: Socket) | Skipped

  datatype Action =
    | StreamDelivers(k: nat, message: ChatMessage)
    | WriteLoopTakes(k: nat)
    | WriteLoopEnds(k: nat)
    | ReadLoopSaves(message: ChatMessage)
    | ReadLoopSkips
    | ReadLoopEnds
    | Acquires(k: nat)
    | WaitFails(k: nat)
    | SendEnds(k: nat, result: SendResult)
    | Releases(k: nat)
    | SocketChanges(left: Socket)
    | RequestAborts
    | HandlerCancels
    | HandlerReturns(left: Socket)

  predicate OwnsPermit(l: Loop) {
    l.stage.Sending? || l.stage.Releasing?
  }

  /** An open socket may leave that state; it never comes back. */
  predicate MayBecome(socket: Socket, left: Socket) {
    left == socket || !left.Open?
  }

  predicate IsWriteLoop(s: Session, k: nat) {
    0 < k < |s.loops|
  }

  predicate Enabled(s: Session, a: Action) {
    match a
    case StreamDelivers(k, _) => IsWriteLoop(s, k)
    case WriteLoopTakes(k) => IsWriteLoop(s, k) && s.loops[k].stage.Idle? && s.loops[k].taken < |s.loops[k].events|
    case WriteLoopEnds(k) => IsWriteLoop(s, k) && s.loops[k].stage.Idle?
    case ReadLoopSaves(_) => s.loops != [] && s.loops[0].stage.Idle?
    case ReadLoopSkips => s.loops != [] && s.loops[0].stage.Idle?
    case ReadLoopEnds => s.loops != [] && s.loops[0].stage.Idle?
    case Acquires(k) => k < |s.loops| && s.loops[k].stage.Waiting? && s.permits > 0 && !s.disposed
    case WaitFails(k) => k < |s.loops| && s.loops[k].stage.Waiting? && (s.cancelled || s.disposed)
    case SendEnds(k, result) =>
      && k < |s.loops| && s.loops[k].stage.Sending?
      && (match result
          case Written => s.socket.Open?
          case Swallowed(left) => s.socket.Open?
          case Throws(left) => s.socket.Open?
          case Skipped => !s.socket.Open?)
    case Releases(k) => k < |s.loops| && s.loops[k].stage.Releasing?
    case SocketChanges(left) => MayBecome(s.socket, left)
    case RequestAborts => true
    case HandlerCancels =>
      && s.handler.AwaitingLoops? && s.loops != []
      && (s.loops[0].stage.Done? || forall k :: 1 <= k < |s.loops| ==> s.loops[k].stage.Done?)
    case HandlerReturns(left) => s.handler.Cancelled? && MayBecome(s.socket, left)
  }

  /** The test at the top of the read loop. */
  function ReadLoopTop(s: Session): Stage {
    if s.socket.Open? && !s.cancelled then Idle else Done
  }

  /** Where a loop goes on after SendJsonAsync; releasing a disposed semaphore throws. */
  function AfterSend(s: Session, k: nat, thrown: bool): Stage {
    if k == 0 then ReadLoopTop(s)
    else if thrown || s.disposed then Done
    else Idle
  }

  function HeldBy(stage: Stage): seq<ChatMessage> {
    match stage
    case Waiting(m) => [m]
    case Sending(m) => [m]
    case _ => []
  }

  /** The frames of one loop, in the order in which the socket took them. */
  function Sent(log: seq<Frame>, k: nat): seq<ChatMessage> {
    if log == [] then []
    else
      var last := log[|log| - 1];
      if last.loop == k then Sent(log[..|log| - 1], k) + [last.message] else Sent(log[..|log| - 1], k)
  }

  /** What the acting loop does to itself. */
  function LoopStep(s: Session, k: nat, a: Action): Loop
    requires k < |s.loops|
  {
    var l := s.loops[k];
    match a
    case StreamDelivers(_, m) => l.(events := l.events + [m])
    case WriteLoopTakes(_) =>
      if l.taken >= |l.events| then l
      else if s.socket.Open? then l.(taken := l.taken + 1, stage := Waiting(l.events[l.taken]))
      else l.(taken := l.taken + 1, stage := Done, lost := l.lost + [l.events[l.taken]])
    case WriteLoopEnds(_) => l.(stage := Done)
    case ReadLoopSaves(m) => l.(events := l.events + [m], taken := l.taken + 1, stage := Waiting(m))
    case ReadLoopSkips => l.(stage := ReadLoopTop(s))
    case ReadLoopEnds => l.(stage := Done)
    case Acquires(_) => if l.stage.Waiting? then l.(stage := Sending(l.stage.message)) else l
    case WaitFails(_) => l.(stage := Done, lost := l.lost + HeldBy(l.stage))
    case SendEnds(_, result) =>
      if result.Written? then
        l.(stage := Releasing(false), lost := [],
           gap := if l.gap.None? && l.lost != [] then Some(|Sent(s.log, k)|) else l.gap)
      else l.(stage := Releasing(result.Throws?), lost := l.lost + HeldBy(l.stage))
    case Releases(_) => if l.stage.Releasing? then l.(stage := AfterSend(s, k, l.stage.thrown)) else l
    case _ => l
  }

  function ActingLoop(a: Action): Option<nat> {
    match a
    case StreamDelivers(k, _) => Some(k)
    case WriteLoopTakes(k) => Some(k)
    case WriteLoopEnds(k) => Some(k)
    case ReadLoopSaves(_) => Some(0)
    case ReadLoopSkips => Some(0)
    case ReadLoopEnds => Some(0)
    case Acquires(k) => Some(k)
    case WaitFails(k) => Some(k)
    case SendEnds(k, _) => Some(k)
    case Releases(k) => Some(k)
    case _ => None
  }

  /** What the send does to the socket. */
  function SocketAfter(s: Session, result: SendResult): Socket {
    match result
    case Written => s.socket
    case Swallowed(left) => left
    case Throws(left) => left
    case Skipped => s.socket
  }

  /** The send failed and left the socket open. */
  predicate FailsOpen(result: SendResult) {
    (result.Swallowed? || result.Throws?) && result.left.Open?
  }

  function Apply(s: Session, a: Action): Session
    requires Enabled(s, a)
  {
    var s1 := if ActingLoop(a).Some? then s.(loops := s.loops[ActingLoop(a).value := LoopStep(s, ActingLoop(a).value, a)]) else s;
    match a
    case Acquires(_) => s1.(permits := s.permits - 1)
    case SendEnds(k, result) =>
      s1.(log := if result.Written? then s.log + [Frame(k, s.loops[k].stage.message)] else s.log,
          socket := SocketAfter(s, result),
          failedOpen := s.failedOpen || FailsOpen(result))
    case Releases(_) =>
      if s.disposed then s1
      else if s.permits >= 1 then s1.(overReleases := s.overReleases + 1)
      else s1.(permits := s.permits + 1)
    case SocketChanges(left) => s1.(socket := left)
    case RequestAborts => s1.(cancelled := true)
    case HandlerCancels => s1.(cancelled := true, handler := Cancelled)
    case HandlerReturns(left) =>
      s1.(socket := if s.socket.Open? || s.socket.CloseReceived? then left else s.socket, handler := Returned, disposed := true)
    case _ => s1
  }

  function Start(streams: nat): Session {
    Session(seq(streams + 1, _ => Loop([], 0, Idle, [], None)), 1, false, false, Open, [], AwaitingLoops, false, 0)
  }

  predicate IsRun(s: Session, actions: seq<Action>)
    decreases |actions|
  {
    actions == [] || (Enabled(s, actions[0]) && IsRun(Apply(s, actions[0]), actions[1..]))
  }

  function Run(s: Session, actions: seq<Action>): Session
    requires IsRun(s, actions)
    decreases |actions|
  {
    if actions == [] then s else Run(Apply(s, actions[0]), actions[1..])
  }

  // ---------------------------------------------------------------- invariant

  ghost predicate AtMostOneOwner(s: Session) {
    forall j, k :: 0 <= j < k < |s.loops| ==> !(OwnsPermit(s.loops[j]) && OwnsPermit(s.loops[k]))
  }

  /** Until the semaphore is disposed, the permit is with exactly one loop or with the semaphore. */
  ghost predicate PermitsOk(s: Session) {
    && s.permits <= 1 && s.overReleases == 0
    && (!s.disposed ==> (s.permits == 1 <==> forall k :: 0 <= k < |s.loops| ==> !OwnsPermit(s.loops[k])))
  }

  /** The frames of a loop against the messages that it took. */
  ghost predicate FramesOk(l: Loop, sent: seq<ChatMessage>) {
    && l.taken <= |l.events|
    && IsSubsequence(sent + HeldBy(l.stage), l.events[..l.taken])
    && (l.gap.None? ==> sent + l.lost + HeldBy(l.stage) == l.events[..l.taken])
    && (l.gap.Some? ==>
          l.gap.value < |sent| && l.gap.value < l.taken
          && (Distinct(l.events) ==> sent[l.gap.value] != l.events[l.gap.value]))
  }

  /** A loop that lost a message can only go on sending if the socket survived the failure. */
  ghost predicate LossOk(s: Session, l: Loop) {
    && (l.gap.Some? ==> s.failedOpen)
    && (l.lost != [] && s.socket.Open? && !l.stage.Done? ==> s.failedOpen)
  }

  ghost predicate LoopsOk(s: Session) {
    forall k :: 0 <= k < |s.loops| ==> FramesOk(s.loops[k], Sent(s.log, k)) && LossOk(s, s.loops[k])
  }

  /** The read loop takes each message that it saves at once. */
  ghost predicate EchoesTaken(s: Session) {
    s.loops != [] && s.loops[0].taken == |s.loops[0].events|
  }

  ghost predicate LogOk(s: Session) {
    forall k :: 0 <= k < |s.log| ==> s.log[k].loop < |s.loops|
  }

  ghost predicate EndOk(s: Session) {
    && (!s.handler.AwaitingLoops? ==> s.cancelled)
    && (s.disposed <==> s.handler.Returned?)
  }

  ghost predicate Inv(s: Session) {
    AtMostOneOwner(s) && PermitsOk(s) && LoopsOk(s) && EchoesTaken(s) && LogOk(s) && EndOk(s)
  }

  // ---------------------------------------------------------------- preservation

  /** One loop acts, or none. */
  lemma StepShape(s: Session, a: Action)
    requires Enabled(s, a)
    ensures var t := Apply(s, a);
            t.loops == match ActingLoop(a) case Some(k) => s.loops[k := LoopStep(s, k, a)] case None => s.loops
    ensures ActingLoop(a).Some? ==> ActingLoop(a).value < |s.loops|
  {
  }

  lemma AcquireKeepsPermits(s: Session, k: nat)
    requires AtMostOneOwner(s) && PermitsOk(s) && Enabled(s, Acquires(k))
    ensures AtMostOneOwner(Apply(s, Acquires(k))) && PermitsOk(Apply(s, Acquires(k)))
  {
    StepShape(s, Acquires(k));
    assert OwnsPermit(Apply(s, Acquires(k)).loops[k]);
  }

  lemma ReleaseKeepsPermits(s: Session, k: nat)
    requires AtMostOneOwner(s) && PermitsOk(s) && Enabled(s, Releases(k))
    ensures AtMostOneOwner(Apply(s, Releases(k))) && PermitsOk(Apply(s, Releases(k)))
  {
    StepShape(s, Releases(k));
    assert OwnsPermit(s.loops[k]) && !OwnsPermit(Apply(s, Releases(k)).loops[k]);
  }

  /** Other actions neither give nor take a permit. */
  lemma OtherStepKeepsOwners(s: Session, a: Action)
    requires Enabled(s, a) && !a.Acquires? && !a.Releases?
    ensures var t := Apply(s, a);
            && t.permits == s.permits && t.overReleases == s.overReleases && (s.disposed ==> t.disposed)
            && |t.loops| == |s.loops|
            && forall j :: 0 <= j < |s.loops| ==> (OwnsPermit(t.loops[j]) <==> OwnsPermit(s.loops[j]))
  {
    StepShape(s, a);
    if ActingLoop(a).Some? {
      var k := ActingLoop(a).value;
      assert OwnsPermit(LoopStep(s, k, a)) <==> OwnsPermit(s.loops[k]);
    }
  }

  lemma PermitsStep(s: Session, a: Action)
    requires AtMostOneOwner(s) && PermitsOk(s) && Enabled(s, a)
    ensures AtMostOneOwner(Apply(s, a)) && PermitsOk(Apply(s, a))
  {
    if a.Acquires? {
      AcquireKeepsPermits(s, a.k);
    } else if a.Releases? {
      ReleaseKeepsPermits(s, a.k);
    } else {
      OtherStepKeepsOwners(s, a);
    }
  }

  lemma SentSnoc(log: seq<Frame>, f: Frame, k: nat)
    ensures Sent(log + [f], k) == if f.loop == k then Sent(log, k) + [f.message] else Sent(log, k)
  {
    assert (log + [f])[..|log|] == log;
  }

  /** Dropping the held message, or appending events, keeps the frames a subsequence. */
  lemma {:induction false} SubsequenceDropsLast<T>(a: seq<T>, x: T, b: seq<T>)
    requires IsSubsequence(a + [x], b)
    ensures IsSubsequence(a, b)
    decreases |b|
  {
    var b' := b[..|b| - 1];
    assert (a + [x])[..|a|] == a;
    if IsSubsequence(a + [x], b') {
      SubsequenceDropsLast(a, x, b');
    }
    SubsequenceSkips(a, b', b[|b| - 1]);
    assert b' + [b[|b| - 1]] == b;
  }

  lemma MoreEventsKeepFrames(l: Loop, sent: seq<ChatMessage>, m: ChatMessage)
    requires FramesOk(l, sent)
    ensures FramesOk(l.(events := l.events + [m]), sent)
  {
    var events := l.events + [m];
    assert events[..l.taken] == l.events[..l.taken];
    if Distinct(events) {
      assert forall i, j :: 0 <= i < j < |l.events| ==> l.events[i] == events[i] && l.events[j] == events[j];
      assert Distinct(l.events);
    }
  }

  /** Taking the next event into the hands of the loop. */
  lemma TakingKeepsFrames(l: Loop, sent: seq<ChatMessage>)
    requires FramesOk(l, sent) && l.stage.Idle? && l.taken < |l.events|
    ensures FramesOk(l.(taken := l.taken + 1, stage := Waiting(l.events[l.taken])), sent)
  {
    var m, past := l.events[l.taken], l.events[..l.taken];
    assert l.events[..l.taken + 1] == past + [m];
    assert sent + [] == sent;
    assert sent + l.lost + [] == sent + l.lost;
    SubsequenceTakes(sent, past, m);
  }

  /** Putting the held message aside. */
  lemma DroppingKeepsFrames(l: Loop, sent: seq<ChatMessage>, stage: Stage)
    requires FramesOk(l, sent) && HeldBy(l.stage) != [] && HeldBy(stage) == []
    ensures FramesOk(l.(stage := stage, lost := l.lost + HeldBy(l.stage)), sent)
  {
    SubsequenceDropsLast(sent, l.stage.message, l.events[..l.taken]);
    assert sent + [] == sent;
    assert sent + l.lost + HeldBy(l.stage) == sent + (l.lost + HeldBy(l.stage)) + [];
  }

  /** Writing the held message. */
  lemma WritingKeepsFrames(l: Loop, sent: seq<ChatMessage>)
    requires FramesOk(l, sent) && l.stage.Sending?
    ensures FramesOk(l.(stage := Releasing(false), lost := [],
                        gap := if l.gap.None? && l.lost != [] then Some(|sent|) else l.gap), sent + [l.stage.message])
  {
    var m := l.stage.message;
    assert sent + [m] + [] == sent + [m];
    if l.gap.None? {
      var all := sent + l.lost + [m];
      assert all == l.events[..l.taken];
      if l.lost == [] {
        assert sent + [m] == all;
      } else {
        assert l.events[|sent|] == all[|sent|] == l.lost[0] && l.events[|all| - 1] == m;
      }
    }
  }

  lemma WriteLoopTakeKeepsFrames(s: Session, k: nat)
    requires k < |s.loops| && FramesOk(s.loops[k], Sent(s.log, k)) && Enabled(s, WriteLoopTakes(k))
    ensures FramesOk(LoopStep(s, k, WriteLoopTakes(k)), Sent(s.log, k))
  {
    var l, sent := s.loops[k], Sent(s.log, k);
    var next := l.(taken := l.taken + 1, stage := Waiting(l.events[l.taken]));
    TakingKeepsFrames(l, sent);
    if !s.socket.Open? {
      DroppingKeepsFrames(next, sent, Done);
      assert LoopStep(s, k, WriteLoopTakes(k)) == next.(stage := Done, lost := next.lost + HeldBy(next.stage));
    }
  }

  lemma ReadLoopSaveKeepsFrames(s: Session, m: ChatMessage)
    requires EchoesTaken(s) && FramesOk(s.loops[0], Sent(s.log, 0)) && Enabled(s, ReadLoopSaves(m))
    ensures FramesOk(LoopStep(s, 0, ReadLoopSaves(m)), Sent(s.log, 0))
  {
    var l, sent := s.loops[0], Sent(s.log, 0);
    MoreEventsKeepFrames(l, sent, m);
    TakingKeepsFrames(l.(events := l.events + [m]), sent);
  }

  lemma SendEndKeepsFrames(s: Session, k: nat, result: SendResult)
    requires k < |s.loops| && FramesOk(s.loops[k], Sent(s.log, k)) && Enabled(s, SendEnds(k, result))
    ensures FramesOk(LoopStep(s, k, SendEnds(k, result)), Sent(Apply(s, SendEnds(k, result)).log, k))
  {
    var l, sent := s.loops[k], Sent(s.log, k);
    if result.Written? {
      SentSnoc(s.log, Frame(k, l.stage.message), k);
      WritingKeepsFrames(l, sent);
    } else {
      DroppingKeepsFrames(l, sent, Releasing(result.Throws?));
    }
  }

  /** Steps that leave the loop's messages and frames where they are. */
  lemma QuietLoopStep(s: Session, k: nat, a: Action)
    requires k < |s.loops| && Enabled(s, a) && ActingLoop(a) == Some(k)
    requires a.WriteLoopEnds? || a.ReadLoopSkips? || a.ReadLoopEnds? || a.Acquires? || a.Releases?
    ensures var l, l' := s.loops[k], LoopStep(s, k, a);
            && l'.events == l.events && l'.taken == l.taken && l'.lost == l.lost && l'.gap == l.gap
            && HeldBy(l'.stage) == HeldBy(l.stage)
    ensures Apply(s, a).log == s.log
  {
  }

  lemma LoopStepKeepsFrames(s: Session, k: nat, a: Action)
    requires k < |s.loops| && FramesOk(s.loops[k], Sent(s.log, k)) && EchoesTaken(s) && Enabled(s, a) && ActingLoop(a) == Some(k)
    ensures FramesOk(LoopStep(s, k, a), Sent(Apply(s, a).log, k))
  {
    var l, sent := s.loops[k], Sent(s.log, k);
    if a.StreamDelivers? {
      MoreEventsKeepFrames(l, sent, a.message);
    } else if a.WriteLoopTakes? {
      WriteLoopTakeKeepsFrames(s, k);
    } else if a.ReadLoopSaves? {
      ReadLoopSaveKeepsFrames(s, a.message);
    } else if a.WaitFails? {
      DroppingKeepsFrames(l, sent, Done);
    } else if a.SendEnds? {
      SendEndKeepsFrames(s, k, a.result);
    } else {
      QuietLoopStep(s, k, a);
    }
  }

  lemma LossStep(s: Session, k: nat, a: Action)
    requires k < |s.loops| && LossOk(s, s.loops[k]) && Enabled(s, a) && ActingLoop(a) == Some(k)
    ensures LossOk(Apply(s, a), Apply(s, a).loops[k])
  {
  }

  lemma OtherLoopStays(s: Session, k: nat, a: Action)
    requires k < |s.loops| && FramesOk(s.loops[k], Sent(s.log, k)) && LossOk(s, s.loops[k]) && Enabled(s, a) && ActingLoop(a) != Some(k)
    ensures var t := Apply(s, a);
            t.loops[k] == s.loops[k] && FramesOk(t.loops[k], Sent(t.log, k)) && LossOk(t, t.loops[k])
  {
    if a.SendEnds? {
      SentSnoc(s.log, Frame(a.k, s.loops[a.k].stage.message), k);
    }
  }

  lemma LoopsStep(s: Session, a: Action)
    requires LoopsOk(s) && EchoesTaken(s) && EndOk(s) && Enabled(s, a)
    ensures LoopsOk(Apply(s, a)) && EchoesTaken(Apply(s, a))
  {
    var t := Apply(s, a);
    forall k | 0 <= k < |t.loops|
      ensures FramesOk(t.loops[k], Sent(t.log, k)) && LossOk(t, t.loops[k])
    {
      if ActingLoop(a) == Some(k) {
        LoopStepKeepsFrames(s, k, a);
        LossStep(s, k, a);
      } else {
        OtherLoopStays(s, k, a);
      }
    }
  }

  lemma EndStep(s: Session, a: Action)
    requires LogOk(s) && EndOk(s) && Enabled(s, a)
    ensures LogOk(Apply(s, a)) && EndOk(Apply(s, a))
  {
  }

  lemma StepKeepsInv(s: Session, a: Action)
    requires Inv(s) && Enabled(s, a)
    ensures Inv(Apply(s, a))
  {
    PermitsStep(s, a);
    LoopsStep(s, a);
    EndStep(s, a);
  }

  lemma {:induction false} RunKeepsInv(s: Session, actions: seq<Action>)
    requires Inv(s) && IsRun(s, actions)
    ensures Inv(Run(s, actions))
    decreases |actions|
  {
    if actions != [] {
      StepKeepsInv(s, actions[0]);
      RunKeepsInv(Apply(s, actions[0]), actions[1..]);
    }
  }

  lemma StartKeepsInv(streams: nat)
    ensures Inv(Start(streams))
  {
  }

  // ---------------------------------------------------------------- results over all runs

  /**
    At most one loop is inside SendAsync, on every interleaving and also after the semaphore has
    been disposed under the loops; until then the permit is conserved, and it is never released twice.
   */
  lemma SendsExcludeEachOther(streams: nat, actions: seq<Action>, j: nat, k: nat)
    requires IsRun(Start(streams), actions)
    ensures var s := Run(Start(streams), actions);
            && (j < |s.loops| && k < |s.loops| && s.loops[j].stage.Sending? && s.loops[k].stage.Sending? ==> j == k)
            && (!s.disposed ==> (s.permits == 1 <==> forall i :: 0 <= i < |s.loops| ==> !OwnsPermit(s.loops[i])))
            && s.permits <= 1 && s.overReleases == 0
  {
    StartKeepsInv(streams);
    RunKeepsInv(Start(streams), actions);
  }

  lemma {:induction false} LoopsStayPut(s: Session, actions: seq<Action>)
    requires IsRun(s, actions)
    ensures |Run(s, actions).loops| == |s.loops|
    decreases |actions|
  {
    if actions != [] {
      LoopsStayPut(Apply(s, actions[0]), actions[1..]);
    }
  }

  lemma ReachableIsOk(streams: nat, actions: seq<Action>)
    requires IsRun(Start(streams), actions)
    ensures Inv(Run(Start(streams), actions)) && |Run(Start(streams), actions).loops| == streams + 1
  {
    StartKeepsInv(streams);
    RunKeepsInv(Start(streams), actions);
    LoopsStayPut(Start(streams), actions);
  }

  lemma PermitIsSomewhere(s: Session) returns (j: nat)
    requires PermitsOk(s) && !s.disposed && s.permits == 0
    ensures j < |s.loops| && OwnsPermit(s.loops[j])
  {
    j :| 0 <= j < |s.loops| && OwnsPermit(s.loops[j]);
  }

  lemma OwnerCanMove(s: Session, j: nat) returns (next: Action)
    requires j < |s.loops| && OwnsPermit(s.loops[j])
    ensures Enabled(s, next) && ActingLoop(next) == Some(j) && (next.SendEnds? || next.Releases?)
  {
    if s.loops[j].stage.Releasing? {
      next := Releases(j);
    } else {
      next := SendEnds(j, if s.socket.Open? then Written else Skipped);
    }
  }

  lemma WaiterIsServed(s: Session, k: nat) returns (next: Action)
    requires PermitsOk(s) && !s.disposed && k < |s.loops| && s.loops[k].stage.Waiting?
    ensures Enabled(s, next)
    ensures next == Acquires(k)
            || (ActingLoop(next).Some? && OwnsPermit(s.loops[ActingLoop(next).value]) && (next.SendEnds? || next.Releases?))
  {
    if s.permits == 1 {
      next := Acquires(k);
    } else {
      var j := PermitIsSomewhere(s);
      next := OwnerCanMove(s, j);
    }
  }

  /** While the semaphore lives, a loop waiting for it can be served or some other loop can move towards releasing it. */
  lemma WaitersAreServed(streams: nat, actions: seq<Action>, k: nat) returns (next: Action)
    requires IsRun(Start(streams), actions)
    requires var s := Run(Start(streams), actions); !s.disposed && k < |s.loops| && s.loops[k].stage.Waiting?
    ensures var s := Run(Start(streams), actions);
            && Enabled(s, next)
            && (next == Acquires(k)
                || (ActingLoop(next).Some? && OwnsPermit(s.loops[ActingLoop(next).value]) && (next.SendEnds? || next.Releases?)))
  {
    ReachableIsOk(streams, actions);
    next := WaiterIsServed(Run(Start(streams), actions), k);
  }

  /** What a loop's invariant says of its frames against all its messages. */
  lemma FramesAreInOrder(l: Loop, sent: seq<ChatMessage>)
    requires FramesOk(l, sent)
    ensures IsSubsequence(sent, l.events)
    ensures l.gap.None? ==> sent <= l.events
  {
    var past, future := l.events[..l.taken], l.events[l.taken..];
    assert past + future == l.events;
    SubsequenceOfLonger(sent + HeldBy(l.stage), past, future);
    if HeldBy(l.stage) == [] {
      assert sent + HeldBy(l.stage) == sent;
    } else {
      SubsequenceDropsLast(sent, l.stage.message, l.events);
    }
    if l.gap.None? {
      assert sent <= sent + l.lost + HeldBy(l.stage) <= l.events;
    }
  }

  /**
    The frame log is a merge of the loops: each frame belongs to one of them, a loop's frames are a
    subsequence of what it took in, and they are a prefix of it unless a send failed and left the
    socket open.
   */
  lemma FramesArePrefixes(streams: nat, actions: seq<Action>, k: nat)
    requires IsRun(Start(streams), actions) && k <= streams
    ensures var s := Run(Start(streams), actions);
            && |s.loops| == streams + 1
            && (forall i :: 0 <= i < |s.log| ==> s.log[i].loop <= streams)
            && IsSubsequence(Sent(s.log, k), s.loops[k].events)
            && (!s.failedOpen ==> Sent(s.log, k) <= s.loops[k].events)
  {
    ReachableIsOk(streams, actions);
    var s := Run(Start(streams), actions);
    FramesAreInOrder(s.loops[k], Sent(s.log, k));
    assert LossOk(s, s.loops[k]);
  }

  lemma PrefixIffNoGap(l: Loop, sent: seq<ChatMessage>)
    requires FramesOk(l, sent)
    ensures l.gap.None? ==> sent <= l.events
    ensures l.gap.Some? && Distinct(l.events) ==> !(sent <= l.events)
  {
    if l.gap.None? {
      assert sent <= sent + l.lost + HeldBy(l.stage) <= l.events;
    }
  }

  predicate FailsAt(a: Action, k: nat) {
    a.SendEnds? && a.k == k && FailsOpen(a.result)
  }

  /** A send of loop `k` failed with the socket still open, and a later send of the loop succeeded. */
  predicate SendsAfterFailure(actions: seq<Action>, k: nat) {
    exists i, j :: 0 <= i < j < |actions| && FailsAt(actions[i], k) && actions[j] == SendEnds(k, Written)
  }

  predicate SendsLater(actions: seq<Action>, k: nat) {
    SendEnds(k, Written) in actions
  }

  lemma SendsLaterCons(actions: seq<Action>, k: nat)
    requires actions != []
    ensures SendsLater(actions, k) <==> actions[0] == SendEnds(k, Written) || SendsLater(actions[1..], k)
  {
    assert actions == [actions[0]] + actions[1..];
  }

  lemma SendsAfterFailureCons(actions: seq<Action>, k: nat)
    requires actions != []
    ensures SendsAfterFailure(actions, k) <==>
            (FailsAt(actions[0], k) && SendsLater(actions[1..], k)) || SendsAfterFailure(actions[1..], k)
  {
    var rest := actions[1..];
    if SendsAfterFailure(rest, k) {
      var i, j :| 0 <= i < j < |rest| && FailsAt(rest[i], k) && rest[j] == SendEnds(k, Written);
      assert actions[i + 1] == rest[i] && actions[j + 1] == rest[j];
    }
    if FailsAt(actions[0], k) && SendsLater(rest, k) {
      var j :| 0 <= j < |rest| && rest[j] == SendEnds(k, Written);
      assert actions[j + 1] == rest[j];
    }
    if SendsAfterFailure(actions, k) {
      var i, j :| 0 <= i < j < |actions| && FailsAt(actions[i], k) && actions[j] == SendEnds(k, Written);
      assert rest[j - 1] == actions[j] && (i > 0 ==> rest[i - 1] == actions[i]);
    }
  }

  /** The loop can never write again. */
  predicate Silent(s: Session, k: nat) {
    !s.socket.Open? || (k < |s.loops| && s.loops[k].stage.Done?)
  }

  lemma SilentStep(s: Session, a: Action, k: nat)
    requires Enabled(s, a) && Silent(s, k)
    ensures Silent(Apply(s, a), k) && a != SendEnds(k, Written)
  {
  }

  lemma {:induction false} SilentForever(s: Session, actions: seq<Action>, k: nat)
    requires IsRun(s, actions) && Silent(s, k)
    ensures !SendsLater(actions, k)
    decreases |actions|
  {
    if actions != [] {
      SilentStep(s, actions[0], k);
      SilentForever(Apply(s, actions[0]), actions[1..], k);
      assert actions == [actions[0]] + actions[1..];
    }
  }

  lemma ActingLossesStep(s: Session, a: Action, k: nat)
    requires Enabled(s, a) && ActingLoop(a) == Some(k) && k < |s.loops|
    ensures var l, l' := s.loops[k], LoopStep(s, k, a);
            && (l'.gap.Some? <==> l.gap.Some? || (a == SendEnds(k, Written) && l.lost != []))
            && (FailsAt(a, k) ==> l'.lost != [])
            && (a != SendEnds(k, Written) && l.lost != [] ==> l'.lost != [])
            && (a == SendEnds(k, Written) ==> l'.lost == [])
            && (l'.lost != [] && l.lost == [] ==>
                  FailsAt(a, k) || l'.stage.Done? || (a.SendEnds? && !SocketAfter(s, a.result).Open?))
  {
  }

  /** What one step does to a loop's losses: a loop that loses and can go on has failed on an open socket. */
  lemma LossesStep(s: Session, a: Action, k: nat)
    requires Enabled(s, a) && k < |s.loops|
    ensures var t := Apply(s, a);
            && k < |t.loops|
            && (t.loops[k].gap.Some? <==> s.loops[k].gap.Some? || (a == SendEnds(k, Written) && s.loops[k].lost != []))
            && (FailsAt(a, k) ==> t.loops[k].lost != [])
            && (a != SendEnds(k, Written) && s.loops[k].lost != [] ==> t.loops[k].lost != [])
            && (a == SendEnds(k, Written) ==> t.loops[k].lost == [])
            && (t.loops[k].lost != [] && s.loops[k].lost == [] ==> FailsAt(a, k) || Silent(t, k))
  {
    StepShape(s, a);
    if ActingLoop(a) == Some(k) {
      ActingLossesStep(s, a, k);
    }
  }

  lemma {:induction false} GapIffActions(s: Session, actions: seq<Action>, k: nat)
    requires IsRun(s, actions) && k < |s.loops|
    ensures k < |Run(s, actions).loops|
    ensures Run(s, actions).loops[k].gap.Some?
            <==> s.loops[k].gap.Some? || (s.loops[k].lost != [] && SendsLater(actions, k)) || SendsAfterFailure(actions, k)
    decreases |actions|
  {
    if actions != [] {
      var a, rest := actions[0], actions[1..];
      var t := Apply(s, a);
      LossesStep(s, a, k);
      GapIffActions(t, rest, k);
      SendsAfterFailureCons(actions, k);
      SendsLaterCons(actions, k);
      if Silent(t, k) {
        SilentForever(t, rest, k);
      }
    }
  }

  /**
    Exactly when a loop's frames are not a prefix of its messages: a send of the loop failed while
    leaving the socket open, and a later send of the loop succeeded.
   */
  lemma NotAPrefixIff(streams: nat, actions: seq<Action>, k: nat)
    requires IsRun(Start(streams), actions) && k <= streams
    ensures var s := Run(Start(streams), actions);
            && |s.loops| == streams + 1
            && (Distinct(s.loops[k].events) ==>
                  (Sent(s.log, k) <= s.loops[k].events <==> !SendsAfterFailure(actions, k)))
  {
    ReachableIsOk(streams, actions);
    GapIffActions(Start(streams), actions, k);
    var s := Run(Start(streams), actions);
    PrefixIffNoGap(s.loops[k], Sent(s.log, k));
  }

  /** A write loop on its way into SendAsync. */
  lemma SendBegins(m: ChatMessage)
    ensures var s := Session([Start(0).loops[0], Loop([m], 1, Sending(m), [], None)], 0, false, false, Open, [], AwaitingLoops, false, 0);
            var actions := [StreamDelivers(1, m), WriteLoopTakes(1), Acquires(1)];
            IsRun(Start(1), actions) && Run(Start(1), actions) == s
  {
    var s0 := Start(1);
    var s1 := Apply(s0, StreamDelivers(1, m));
    var s2 := Apply(s1, WriteLoopTakes(1));
    var s3 := Apply(s2, Acquires(1));
    var actions := [StreamDelivers(1, m), WriteLoopTakes(1), Acquires(1)];
    assert actions[1..] == [WriteLoopTakes(1), Acquires(1)] && actions[1..][1..] == [Acquires(1)];
    assert [] + [m] == [m];
    assert s1.loops == [s0.loops[0], Loop([m], 0, Idle, [], None)];
    assert s2.loops == [s0.loops[0], Loop([m], 1, Waiting(m), [], None)];
    assert s3.loops == [s0.loops[0], Loop([m], 1, Sending(m), [], None)];
    assert Run(s2, [Acquires(1)]) == Apply(s2, Acquires(1)) == s3;
  }

  lemma {:induction false} RunThen(s: Session, first: seq<Action>, second: seq<Action>)
    requires IsRun(s, first) && IsRun(Run(s, first), second)
    ensures IsRun(s, first + second) && Run(s, first + second) == Run(Run(s, first), second)
    decreases |first|
  {
    if first == [] {
      assert first + second == second;
    } else {
      assert (first + second)[1..] == first[1..] + second;
      RunThen(Apply(s, first[0]), first[1..], second);
    }
  }

  lemma RunOne(s: Session, a: Action)
    requires Enabled(s, a)
    ensures IsRun(s, [a]) && Run(s, [a]) == Apply(s, a)
  {
    assert [a][1..] == [];
  }

  lemma RunCons(s: Session, a: Action, rest: seq<Action>)
    requires Enabled(s, a) && IsRun(Apply(s, a), rest)
    ensures IsRun(s, [a] + rest) && Run(s, [a] + rest) == Run(Apply(s, a), rest)
  {
    assert ([a] + rest)[1..] == rest;
  }

  lemma RunTwo(s: Session, a: Action, b: Action)
    requires Enabled(s, a) && Enabled(Apply(s, a), b)
    ensures IsRun(s, [a, b]) && Run(s, [a, b]) == Apply(Apply(s, a), b)
  {
    RunOne(Apply(s, a), b);
    assert [a, b] == [a] + [b];
    RunCons(s, a, [b]);
  }

  lemma FailsAndGoesOn(s: Session, m: ChatMessage, n: ChatMessage) returns (actions: seq<Action>)
    requires s == Session([Start(0).loops[0], Loop([m], 1, Sending(m), [], None)], 0, false, false, Open, [], AwaitingLoops, false, 0)
    ensures IsRun(s, actions)
    ensures Run(s, actions) ==
            Session([Start(0).loops[0], Loop([m, n], 1, Idle, [m], None)], 1, false, false, Open, [], AwaitingLoops, true, 0)
  {
    var failure := SendEnds(1, Swallowed(Open));
    var s1 := Apply(s, failure);
    assert [] + [m] == [m] && s1.loops == [s.loops[0], Loop([m], 1, Releasing(false), [m], None)];
    var s2 := Apply(s1, Releases(1));
    assert s2.loops == [s.loops[0], Loop([m], 1, Idle, [m], None)];
    var s3 := Apply(s2, StreamDelivers(1, n));
    assert [m] + [n] == [m, n] && s3.loops == [s.loops[0], Loop([m, n], 1, Idle, [m], None)];
    RunTwo(s1, Releases(1), StreamDelivers(1, n));
    RunCons(s, failure, [Releases(1), StreamDelivers(1, n)]);
    actions := [failure] + [Releases(1), StreamDelivers(1, n)];
  }

  /** Two messages of one stream, and the first of them fails on a socket that stays open. */
  lemma FirstSendFails(m: ChatMessage, n: ChatMessage) returns (actions: seq<Action>)
    ensures IsRun(Start(1), actions)
    ensures Run(Start(1), actions) ==
            Session([Start(0).loops[0], Loop([m, n], 1, Idle, [m], None)], 1, false, false, Open, [], AwaitingLoops, true, 0)
  {
    SendBegins(m);
    var first := [StreamDelivers(1, m), WriteLoopTakes(1), Acquires(1)];
    var second := FailsAndGoesOn(Run(Start(1), first), m, n);
    RunThen(Start(1), first, second);
    actions := first + second;
  }

  lemma SecondSendSucceeds(s: Session, n: ChatMessage) returns (actions: seq<Action>)
    requires |s.loops| == 2 && s.loops[1].stage.Idle? && s.loops[1].taken < |s.loops[1].events|
    requires s.loops[1].events[s.loops[1].taken] == n && s.permits == 1 && !s.disposed && s.socket.Open?
    ensures IsRun(s, actions)
    ensures var t := Run(s, actions); |t.loops| == 2 && t.log == s.log + [Frame(1, n)] && t.loops[1].events == s.loops[1].events
  {
    var s1 := Apply(s, WriteLoopTakes(1));
    var s2 := Apply(s1, Acquires(1));
    RunTwo(s1, Acquires(1), SendEnds(1, Written));
    RunCons(s, WriteLoopTakes(1), [Acquires(1), SendEnds(1, Written)]);
    actions := [WriteLoopTakes(1)] + [Acquires(1), SendEnds(1, Written)];
  }

  /** A stream's frames need not be a prefix of its messages: here only the second message arrives. */
  lemma FirstMessageCanGetLost(m: ChatMessage, n: ChatMessage) returns (actions: seq<Action>)
    requires m != n
    ensures IsRun(Start(1), actions)
    ensures var s := Run(Start(1), actions);
            && |s.loops| == 2 && s.loops[1].events == [m, n] && s.log == [Frame(1, n)]
            && !(Sent(s.log, 1) <= s.loops[1].events)
  {
    var first := FirstSendFails(m, n);
    var s := Run(Start(1), first);
    var second := SecondSendSucceeds(s, n);
    RunThen(Start(1), first, second);
    actions := first + second;
    assert [] + [Frame(1, n)] == [Frame(1, n)];
    SentSnoc([], Frame(1, n), 1);
    assert Sent([Frame(1, n)], 1) == [] + [n];
    assert Sent([Frame(1, n)], 1)[0] == n && [m, n][0] == m;
  }

  // ---------------------------------------------------------------- loops that go on

  /** What ends a loop, or makes it end once it has released the permit. */
  predicate EndsLoop(s: Session, a: Action, k: nat) {
    || a == WaitFails(k)
    || (k > 0 && a == WriteLoopEnds(k))
    || (k > 0 && a.SendEnds? && a.k == k && a.result.Throws?)
    || (k > 0 && a == WriteLoopTakes(k) && !s.socket.Open?)
    || (k > 0 && a == Releases(k) && s.disposed)
    || (k == 0 && a.ReadLoopEnds?)
    || (k == 0 && (a.ReadLoopSkips? || a == Releases(0)) && (!s.socket.Open? || s.cancelled))
  }

  predicate EndedIn(s: Session, actions: seq<Action>, k: nat)
    requires IsRun(s, actions)
    decreases |actions|
  {
    actions != [] && (EndsLoop(s, actions[0], k) || EndedIn(Apply(s, actions[0]), actions[1..], k))
  }

  predicate Ended(l: Loop, k: nat) {
    l.stage.Done? || (k > 0 && l.stage == Releasing(true))
  }

  lemma ActorEndsIff(s: Session, a: Action, k: nat)
    requires Enabled(s, a) && ActingLoop(a) == Some(k) && k < |s.loops|
    ensures Ended(LoopStep(s, k, a), k) <==> Ended(s.loops[k], k) || EndsLoop(s, a, k)
  {
  }

  lemma EndStepIff(s: Session, a: Action, k: nat)
    requires Enabled(s, a) && k < |s.loops|
    ensures var t := Apply(s, a);
            k < |t.loops| && (Ended(t.loops[k], k) <==> Ended(s.loops[k], k) || EndsLoop(s, a, k))
  {
    StepShape(s, a);
    if ActingLoop(a) == Some(k) {
      ActorEndsIff(s, a, k);
    }
  }

  lemma {:induction false} EndedIff(s: Session, actions: seq<Action>, k: nat)
    requires IsRun(s, actions) && k < |s.loops|
    ensures var t := Run(s, actions);
            k < |t.loops| && (Ended(t.loops[k], k) <==> Ended(s.loops[k], k) || EndedIn(s, actions, k))
    decreases |actions|
  {
    if actions != [] {
      EndStepIff(s, actions[0], k);
      EndedIff(Apply(s, actions[0]), actions[1..], k);
    }
  }

  /**
    Exactly what ends a loop.  A write loop ends when its stream does, when a wait for the semaphore
    fails, when a send or the release throws, or when it takes a message and the socket is not open;
    the read loop when reading or a wait fails, or when it finds the socket not open or the session
    cancelled.  Nothing else does: a send that succeeds, and one whose failure is swallowed, do not.
   */
  lemma LoopsEndIff(streams: nat, actions: seq<Action>, k: nat)
    requires IsRun(Start(streams), actions) && k <= streams
    ensures var t := Run(Start(streams), actions);
            && |t.loops| == streams + 1
            && (t.loops[k].stage.Done? || (k > 0 && t.loops[k].stage == Releasing(true)) <==> EndedIn(Start(streams), actions, k))
  {
    LoopsStayPut(Start(streams), actions);
    EndedIff(Start(streams), actions, k);
  }

  /** What one step gives a loop to send. */
  function OfferedBy(a: Action, k: nat): seq<ChatMessage> {
    if a.StreamDelivers? && a.k == k then [a.message] else if a.ReadLoopSaves? && k == 0 then [a.message] else []
  }

  /** What a loop was given to send: what its stream delivered, or what the read loop saved. */
  function Offered(actions: seq<Action>, k: nat): seq<ChatMessage> {
    if actions == [] then [] else OfferedBy(actions[0], k) + Offered(actions[1..], k)
  }

  lemma EventsAfter(s: Session, a: Action, k: nat)
    requires Enabled(s, a) && k < |s.loops|
    ensures k < |Apply(s, a).loops| && Apply(s, a).loops[k].events == s.loops[k].events + OfferedBy(a, k)
  {
    StepShape(s, a);
  }

  lemma Regroup(xs: seq<ChatMessage>, ys: seq<ChatMessage>, zs: seq<ChatMessage>)
    ensures (xs + ys) + zs == xs + (ys + zs)
  {
  }

  lemma {:induction false} EventsAreOffered(s: Session, actions: seq<Action>, k: nat)
    requires IsRun(s, actions) && k < |s.loops|
    ensures k < |Run(s, actions).loops| && Run(s, actions).loops[k].events == s.loops[k].events + Offered(actions, k)
    decreases |actions|
  {
    if actions == [] {
      assert s.loops[k].events + [] == s.loops[k].events;
    } else {
      var t, rest := Apply(s, actions[0]), actions[1..];
      EventsAfter(s, actions[0], k);
      EventsAreOffered(t, rest, k);
      Regroup(s.loops[k].events, OfferedBy(actions[0], k), Offered(rest, k));
    }
  }

  /** Some send of the loop was tried and did not succeed. */
  predicate SendFails(actions: seq<Action>, k: nat) {
    exists i :: 0 <= i < |actions| && actions[i].SendEnds? && actions[i].k == k && !actions[i].result.Written?
  }

  lemma SendFailsCons(actions: seq<Action>, k: nat)
    requires actions != []
    ensures SendFails(actions, k)
            <==> (actions[0].SendEnds? && actions[0].k == k && !actions[0].result.Written?) || SendFails(actions[1..], k)
  {
    var rest := actions[1..];
    if SendFails(rest, k) {
      var i :| 0 <= i < |rest| && rest[i].SendEnds? && rest[i].k == k && !rest[i].result.Written?;
      assert actions[i + 1] == rest[i];
    }
    if SendFails(actions, k) {
      var i :| 0 <= i < |actions| && actions[i].SendEnds? && actions[i].k == k && !actions[i].result.Written?;
      assert i > 0 ==> rest[i - 1] == actions[i];
    }
  }

  lemma LossesNeedFailure(s: Session, a: Action, k: nat)
    requires Enabled(s, a) && k < |s.loops| && s.loops[k].lost == [] && s.loops[k].gap.None? && !EndsLoop(s, a, k)
    requires !(a.SendEnds? && a.k == k && !a.result.Written?)
    ensures var t := Apply(s, a); k < |t.loops| && t.loops[k].lost == [] && t.loops[k].gap.None?
  {
    StepShape(s, a);
  }

  lemma {:induction false} NothingLost(s: Session, actions: seq<Action>, k: nat)
    requires IsRun(s, actions) && k < |s.loops| && s.loops[k].lost == [] && s.loops[k].gap.None?
    requires !EndedIn(s, actions, k) && !SendFails(actions, k)
    ensures var t := Run(s, actions); k < |t.loops| && t.loops[k].lost == [] && t.loops[k].gap.None?
    decreases |actions|
  {
    if actions != [] {
      SendFailsCons(actions, k);
      LossesNeedFailure(s, actions[0], k);
      NothingLost(Apply(s, actions[0]), actions[1..], k);
    }
  }

  /** A step of the loops' own code; the others wait for a stream, the browser or the handler. */
  predicate IsLoopCode(a: Action) {
    a.WriteLoopTakes? || a.Acquires? || a.WaitFails? || a.SendEnds? || a.Releases?
  }

  ghost predicate Quiet(s: Session) {
    forall a :: IsLoopCode(a) ==> !Enabled(s, a)
  }

  /** In a quiet session nobody is on the way into a send or out of one. */
  lemma QuietLoopsRest(s: Session, k: nat)
    requires Inv(s) && Quiet(s) && k < |s.loops|
    ensures s.loops[k].stage.Idle? || s.loops[k].stage.Done?
  {
    forall j | 0 <= j < |s.loops| && OwnsPermit(s.loops[j])
      ensures false
    {
      var next := OwnerCanMove(s, j);
    }
    assert !Enabled(s, WaitFails(k));
    if s.loops[k].stage.Waiting? && !s.disposed {
      var next := WaiterIsServed(s, k);
      assert IsLoopCode(next);
    }
  }

  lemma RestingLoopHasSent(s: Session, k: nat)
    requires Inv(s) && Quiet(s) && k < |s.loops| && s.loops[k].stage.Idle? && s.loops[k].lost == [] && s.loops[k].gap.None?
    ensures Sent(s.log, k) == s.loops[k].events
  {
    var l, sent := s.loops[k], Sent(s.log, k);
    assert FramesOk(l, sent);
    if k > 0 {
      assert !Enabled(s, WriteLoopTakes(k));
    }
    assert l.events[..l.taken] == l.events;
    assert sent + [] + [] == sent;
  }

  /**
    Nothing is forgotten: if nothing has ended the loop and none of its sends failed, then in a state
    in which no loop can take a step of its own it has sent all that its stream delivered, or all that
    the read loop saved, in order, and waits for more.
   */
  lemma QuietLoopHasSentAll(streams: nat, actions: seq<Action>, k: nat)
    requires IsRun(Start(streams), actions) && k <= streams
    requires !EndedIn(Start(streams), actions, k) && !SendFails(actions, k) && Quiet(Run(Start(streams), actions))
    ensures var t := Run(Start(streams), actions);
            && |t.loops| == streams + 1 && t.loops[k].stage.Idle?
            && Sent(t.log, k) == Offered(actions, k)
  {
    var t := Run(Start(streams), actions);
    ReachableIsOk(streams, actions);
    NothingLost(Start(streams), actions, k);
    LoopsEndIff(streams, actions, k);
    QuietLoopsRest(t, k);
    RestingLoopHasSent(t, k);
    EventsAreOffered(Start(streams), actions, k);
    assert [] + Offered(actions, k) == Offered(actions, k);
  }

  /** How far a loop is from resting. */
  function LoopMeasure(l: Loop): nat {
    (if l.taken < |l.events| then 4 * (|l.events| - l.taken) else 0)
    + match l.stage
      case Waiting(_) => 3
      case Sending(_) => 2
      case Releasing(_) => 1
      case _ => 0
  }

  function Measure(loops: seq<Loop>): nat {
    if loops == [] then 0 else Measure(loops[..|loops| - 1]) + LoopMeasure(loops[|loops| - 1])
  }

  lemma {:induction false} MeasureUpdate(loops: seq<Loop>, k: nat, l: Loop)
    requires k < |loops|
    ensures Measure(loops[k := l]) == Measure(loops) - LoopMeasure(loops[k]) + LoopMeasure(l)
    decreases |loops|
  {
    var init := loops[..|loops| - 1];
    if k == |loops| - 1 {
      assert loops[k := l][..|loops| - 1] == init;
    } else {
      assert loops[k := l][..|loops| - 1] == init[k := l];
      MeasureUpdate(init, k, l);
    }
  }

  /** A step of loop code that goes well. */
  predicate GoesWell(a: Action) {
    a.WriteLoopTakes? || a.Acquires? || a.Releases? || (a.SendEnds? && a.result.Written?)
  }

  ghost predicate AllGoWell(actions: seq<Action>) {
    forall i :: 0 <= i < |actions| ==> GoesWell(actions[i])
  }

  predicate IsHealthy(s: Session) {
    s.socket.Open? && !s.cancelled && !s.disposed
  }

  lemma ActorLowersMeasure(s: Session, a: Action, k: nat)
    requires Enabled(s, a) && GoesWell(a) && ActingLoop(a) == Some(k) && k < |s.loops|
    ensures LoopMeasure(LoopStep(s, k, a)) < LoopMeasure(s.loops[k])
  {
  }

  lemma GoodStep(s: Session, a: Action)
    requires Enabled(s, a) && GoesWell(a) && IsHealthy(s)
    ensures IsHealthy(Apply(s, a)) && Measure(Apply(s, a).loops) < Measure(s.loops)
    ensures forall k :: !EndsLoop(s, a, k)
  {
    StepShape(s, a);
    var k := ActingLoop(a).value;
    ActorLowersMeasure(s, a, k);
    MeasureUpdate(s.loops, k, LoopStep(s, k, a));
  }

  lemma SomeStepGoesWell(s: Session) returns (a: Action)
    requires !Quiet(s) && IsHealthy(s)
    ensures Enabled(s, a) && GoesWell(a)
  {
    a :| IsLoopCode(a) && Enabled(s, a);
    if a.SendEnds? {
      a := SendEnds(a.k, Written);
    }
  }

  /** From every state of a healthy session the loops can go on, without a failure, until they rest. */
  lemma {:induction false} LoopsCanRest(s: Session) returns (more: seq<Action>)
    requires Inv(s) && IsHealthy(s)
    ensures IsRun(s, more) && Quiet(Run(s, more)) && AllGoWell(more)
    decreases Measure(s.loops)
  {
    if Quiet(s) {
      return [];
    }
    var a := SomeStepGoesWell(s);
    GoodStep(s, a);
    StepKeepsInv(s, a);
    var rest := LoopsCanRest(Apply(s, a));
    RunCons(s, a, rest);
    more := [a] + rest;
  }

  lemma {:induction false} GoingWellEndsNothing(s: Session, actions: seq<Action>, k: nat)
    requires IsRun(s, actions) && AllGoWell(actions) && IsHealthy(s)
    ensures !EndedIn(s, actions, k)
    decreases |actions|
  {
    if actions != [] {
      assert GoesWell(actions[0]);
      GoodStep(s, actions[0]);
      GoingWellEndsNothing(Apply(s, actions[0]), actions[1..], k);
    }
  }

  lemma {:induction false} GoingWellOffersNothing(actions: seq<Action>, k: nat)
    requires AllGoWell(actions)
    ensures Offered(actions, k) == [] && !SendFails(actions, k)
    decreases |actions|
  {
    if actions != [] {
      assert GoesWell(actions[0]);
      GoingWellOffersNothing(actions[1..], k);
      SendFailsCons(actions, k);
    }
  }

  lemma RestedLoopHasSent(s: Session, more: seq<Action>, k: nat)
    requires Inv(s) && IsRun(s, more) && k < |s.loops| && Quiet(Run(s, more)) && !EndedIn(s, more, k) && !SendFails(more, k)
    requires !Ended(s.loops[k], k) && s.loops[k].lost == [] && s.loops[k].gap.None?
    ensures var t := Run(s, more); k < |t.loops| && Sent(t.log, k) == t.loops[k].events
  {
    RunKeepsInv(s, more);
    NothingLost(s, more, k);
    EndedIff(s, more, k);
    QuietLoopsRest(Run(s, more), k);
    RestingLoopHasSent(Run(s, more), k);
  }

  /**
    Everything can arrive: from every reachable state in which the session is healthy, the loops can go
    on to a state in which each loop that nothing ended, and none of whose sends failed, has sent all
    that it was given.
   */
  lemma LoopsCanCatchUp(streams: nat, actions: seq<Action>) returns (more: seq<Action>)
    requires IsRun(Start(streams), actions) && IsHealthy(Run(Start(streams), actions))
    ensures var s := Run(Start(streams), actions);
            && IsRun(s, more)
            && forall k: nat :: k <= streams && !EndedIn(Start(streams), actions, k) && !SendFails(actions, k) ==>
                 Sent(Run(s, more).log, k) == Offered(actions, k)
  {
    var s := Run(Start(streams), actions);
    ReachableIsOk(streams, actions);
    more := LoopsCanRest(s);
    forall k: nat | k <= streams && !EndedIn(Start(streams), actions, k) && !SendFails(actions, k)
      ensures Sent(Run(s, more).log, k) == Offered(actions, k)
    {
      NothingLost(Start(streams), actions, k);
      LoopsEndIff(streams, actions, k);
      GoingWellOffersNothing(more, k);
      GoingWellEndsNothing(s, more, k);
      RestedLoopHasSent(s, more, k);
      EventsAreOffered(Start(streams), actions, k);
      EventsAreOffered(s, more, k);
      assert [] + Offered(actions, k) + [] == Offered(actions, k);
    }
  }

  predicate Cancels(actions: seq<Action>) {
    RequestAborts in actions || HandlerCancels in actions
  }

  lemma CancelStep(s: Session, a: Action)
    requires Enabled(s, a)
    ensures Apply(s, a).cancelled <==> s.cancelled || a.RequestAborts? || a.HandlerCancels?
  {
  }

  lemma {:induction false} CancelledIff(s: Session, actions: seq<Action>)
    requires IsRun(s, actions)
    ensures Run(s, actions).cancelled <==> s.cancelled || Cancels(actions)
    decreases |actions|
  {
    if actions != [] {
      assert actions == [actions[0]] + actions[1..];
      CancelStep(s, actions[0]);
      CancelledIff(Apply(s, actions[0]), actions[1..]);
    }
  }

  /** Whoever waits for the semaphore is let go exactly from the abort of the request or the handler's cancellation on. */
  lemma WaitCanFailIff(streams: nat, actions: seq<Action>, k: nat)
    requires IsRun(Start(streams), actions)
    requires var t := Run(Start(streams), actions); k < |t.loops| && t.loops[k].stage.Waiting?
    ensures Enabled(Run(Start(streams), actions), WaitFails(k)) <==> RequestAborts in actions || HandlerCancels in actions
  {
    ReachableIsOk(streams, actions);
    CancelledIff(Start(streams), actions);
  }

  // ---------------------------------------------------------------- when the handler goes

  /** The browser's side is done, or the side of all the streams. */
  predicate OneSideIsDone(s: Session) {
    s.loops != [] && (s.loops[0].stage.Done? || forall k :: 1 <= k < |s.loops| ==> s.loops[k].stage.Done?)
  }

  lemma DoneStays(s: Session, a: Action)
    requires Enabled(s, a) && (s.handler.AwaitingLoops? || OneSideIsDone(s))
    ensures Apply(s, a).handler.AwaitingLoops? || OneSideIsDone(Apply(s, a))
  {
    StepShape(s, a);
    var t := Apply(s, a);
    assert |t.loops| == |s.loops|;
    assert forall k :: 0 <= k < |s.loops| && s.loops[k].stage.Done? ==> t.loops[k].stage.Done?;
  }

  lemma {:induction false} HandlerWaits(s: Session, actions: seq<Action>)
    requires IsRun(s, actions) && (s.handler.AwaitingLoops? || OneSideIsDone(s))
    ensures Run(s, actions).handler.AwaitingLoops? || OneSideIsDone(Run(s, actions))
    decreases |actions|
  {
    if actions != [] {
      DoneStays(s, actions[0]);
      HandlerWaits(Apply(s, actions[0]), actions[1..]);
    }
  }

  /** The handler cancels the loops exactly from the moment on at which one side is done: never before, and then it can. */
  lemma HandlerAwaitsOneSide(streams: nat, actions: seq<Action>)
    requires IsRun(Start(streams), actions)
    ensures var t := Run(Start(streams), actions);
            && (!t.handler.AwaitingLoops? ==> t.cancelled && OneSideIsDone(t))
            && (t.handler.AwaitingLoops? ==> (Enabled(t, HandlerCancels) <==> OneSideIsDone(t)))
  {
    ReachableIsOk(streams, actions);
    HandlerWaits(Start(streams), actions);
  }

  // ---------------------------------------------------------------- sends left behind

  /**
    Exactly when the handler returns with nothing under way: the semaphore shows its permit if and
    only if no loop is between acquiring and releasing it when the handler has returned.
   */
  lemma NothingLeftBehindIff(streams: nat, actions: seq<Action>, left: Socket)
    requires IsRun(Start(streams), actions) && Enabled(Run(Start(streams), actions), HandlerReturns(left))
    ensures var s := Run(Start(streams), actions);
            var t := Apply(s, HandlerReturns(left));
            t.handler.Returned? && (s.permits == 1 <==> forall k :: 0 <= k < |t.loops| ==> !OwnsPermit(t.loops[k]))
  {
    StartKeepsInv(streams);
    RunKeepsInv(Start(streams), actions);
  }

  lemma NoSendStartsAfterDisposal(s: Session, a: Action, k: nat)
    requires s.disposed && Enabled(s, a) && k < |s.loops| && Apply(s, a).loops[k].stage.Sending?
    ensures Apply(s, a).disposed && s.loops[k].stage == Apply(s, a).loops[k].stage
  {
  }

  lemma {:induction false} DisposedSendsWereThere(s: Session, actions: seq<Action>, k: nat)
    requires s.disposed && IsRun(s, actions) && k < |s.loops|
    ensures k < |Run(s, actions).loops|
    ensures Run(s, actions).loops[k].stage.Sending? ==> s.loops[k].stage == Run(s, actions).loops[k].stage
    decreases |actions|
  {
    if actions != [] {
      var t := Apply(s, actions[0]);
      DisposedSendsWereThere(t, actions[1..], k);
      if t.loops[k].stage.Sending? {
        NoSendStartsAfterDisposal(s, actions[0], k);
      }
    }
  }

  /** After the handler's return no send starts: a loop inside SendAsync was there at the return, and it is the only one. */
  lemma AtMostOneSendIsLeftBehind(streams: nat, before: seq<Action>, left: Socket, after: seq<Action>, j: nat, k: nat)
    requires IsRun(Start(streams), before) && Enabled(Run(Start(streams), before), HandlerReturns(left))
    requires IsRun(Apply(Run(Start(streams), before), HandlerReturns(left)), after) && j <= streams && k <= streams
    ensures var s := Run(Start(streams), before);
            var t := Run(Apply(s, HandlerReturns(left)), after);
            && |s.loops| == |t.loops| == streams + 1
            && (t.loops[k].stage.Sending? ==> s.loops[k].stage == t.loops[k].stage && s.permits == 0)
            && (t.loops[j].stage.Sending? && t.loops[k].stage.Sending? ==> j == k)
  {
    var s := Run(Start(streams), before);
    var returned := Apply(s, HandlerReturns(left));
    StartKeepsInv(streams);
    RunKeepsInv(Start(streams), before);
    LoopsStayPut(Start(streams), before);
    LoopsStayPut(returned, after);
    DisposedSendsWereThere(returned, after, j);
    DisposedSendsWereThere(returned, after, k);
  }

  /** As soon as the browser closes, the handler can return, whatever the write loops are doing. */
  lemma HandlerLeaves(s: Session) returns (actions: seq<Action>)
    requires s.loops != [] && s.loops[0].stage.Idle? && s.handler.AwaitingLoops?
    ensures IsRun(s, actions)
    ensures var t := Run(s, actions);
            t.handler.Returned? && t.disposed && t.loops == s.loops[0 := s.loops[0].(stage := Done)]
  {
    var s1 := Apply(s, ReadLoopEnds);
    var s2 := Apply(s1, HandlerCancels);
    var s3 := Apply(s2, HandlerReturns(Closed));
    var last := [HandlerReturns(Closed)];
    assert last[1..] == [];
    assert IsRun(s3, []) && IsRun(s2, last) && Run(s2, last) == s3;
    assert ([HandlerCancels] + last)[1..] == last;
    assert IsRun(s1, [HandlerCancels] + last);
    assert ([ReadLoopEnds] + ([HandlerCancels] + last))[1..] == [HandlerCancels] + last;
    actions := [ReadLoopEnds] + ([HandlerCancels] + last);
  }

  /**
    HandleAsync does not wait for the loops: it can return while one of them is inside SendAsync, so
    its closing handshake may overlap that send.
   */
  lemma HandlerMayLeaveASendBehind(m: ChatMessage) returns (actions: seq<Action>)
    ensures IsRun(Start(1), actions)
    ensures var s := Run(Start(1), actions);
            s.handler.Returned? && s.disposed && |s.loops| == 2 && s.loops[1].stage == Sending(m)
  {
    var first := [StreamDelivers(1, m), WriteLoopTakes(1), Acquires(1)];
    SendBegins(m);
    var second := HandlerLeaves(Run(Start(1), first));
    RunThen(Start(1), first, second);
    actions := first + second;
  }
}

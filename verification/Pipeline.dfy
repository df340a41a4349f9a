/**
  The write side of one WebSocket session of the Go chat service.

  Every subscribed conversation has three goroutines: a reader that moves decoded events from a
  Redis channel into a bounded buffer, a forwarder that hands them over an unbuffered channel, and
  a writer that puts frames on the socket under a mutex shared by all writers.  A wait-group
  goroutine and the request goroutine complete the session.  Each transition below is one atomic
  step of one goroutine, so a sequence of actions is an interleaving.
 */
module Pipeline {
  import opened Entities

  const BUFFER_SIZE: nat := 16

  /** What arrives on a Redis channel: JSON that decodes to an event, or anything else. */
  datatype Payload = Event(message: ChatMessage) | Malformed

  /** The frame that the browser receives. */
  datatype OutboundMessage = OutboundMessage(
    id: Id,
    conversationId: Id,
    personId: Id,
    senderName: string,
    content: string,
    createdAt: Time)

  /** One successful socket write; `message` is the value the frame was built from. */
  datatype Written = Written(sub: nat, message: ChatMessage, frame: OutboundMessage)

  /** `lost` records the message a goroutine was holding when it returned. */
  datatype Reader = ReaderSelecting | ReaderHolding(event: ChatMessage) | ReaderExited(lost: seq<ChatMessage>)

  datatype Forwarder = ForwarderSelecting | ForwarderHolding(event: ChatMessage) | ForwarderExited(lost: seq<ChatMessage>)

  /** In `WriterLocked` and `WriterWritten` the goroutine owns the mutex. */
  datatype Writer =
    | WriterRanging
    | WriterHolding(msg: ChatMessage)
    | WriterLocked(msg: ChatMessage)
    | WriterWritten(lost: seq<ChatMessage>)
    | WriterFailed(lost: seq<ChatMessage>)
    | WriterExited(lost: seq<ChatMessage>)

  /** `history` is everything Redis delivered so far, of which the reader took the first `consumed`. */
  datatype Sub = Sub(
    conv: Id,
    history: seq<Payload>,
    consumed: nat,
    redisClosed: bool,
    reader: Reader,
    buffer: seq<ChatMessage>,
    outCloses: nat,
    forwarder: Forwarder,
    msgCloses: nat,
    writer: Writer)

  datatype RequestGoroutine = Reading | AwaitingWriters | Returned

  /** `panics` counts sends on closed channels, repeated closes and negative wait-group counters. */
  datatype Session = Session(
    subs: seq<Sub>,
    lock: Option<nat>,
    log: seq<Written>,
    cancelled: bool,
    writeFailed: bool,
    waitGroup: int,
    doneCloses: nat,
    request: RequestGoroutine,
    panics: nat)

  datatype Action =
    | RedisDelivers(i: nat, payload: Payload)
    | RedisCloses(i: nat)
    | ParentCancels
    | ReadFails
    | ReaderReceives(i: nat)
    | ReaderPushes(i: nat)
    | ReaderReturns(i: nat)
    | ForwarderReceives(i: nat)
    | ForwarderReturns(i: nat)
    | HandsOver(i: nat)
    | WriterLocks(i: nat)
    | WriterWrites(i: nat, ok: bool)
    | WriterUnlocks(i: nat)
    | WriterReturns(i: nat)
    | WaiterCloses
    | RequestReturns

  /** Actions the network, Redis or the client decide on; all others are steps of session code. */
  predicate Environment(a: Action) {
    a.RedisDelivers? || a.RedisCloses? || a.ParentCancels? || a.ReadFails?
  }

  function NewSub(conv: Id): Sub {
    Sub(conv, [], 0, false, ReaderSelecting, [], 0, ForwarderSelecting, 0, WriterRanging)
  }

  /** The session right after the subscription loop; conversations whose subscription failed are absent. */
  function Open(convs: seq<Id>): Session {
    Session(seq(|convs|, k requires 0 <= k < |convs| => NewSub(convs[k])),
            None, [], false, false, |convs|, 0, Reading, 0)
  }

  function FrameOf(conv: Id, m: ChatMessage): OutboundMessage {
    OutboundMessage(m.id, conv, m.personId, m.senderName, m.content, m.createdAt)
  }

  /** The deferred cleanups close every Redis subscription once the request goroutine returns. */
  predicate RedisIsClosed(s: Session, i: nat)
    requires i < |s.subs|
  {
    s.subs[i].redisClosed || s.request.Returned?
  }

  function IndexOf(a: Action): Option<nat> {
    match a
    case RedisDelivers(i, _) => Some(i)
    case RedisCloses(i) => Some(i)
    case ParentCancels => None
    case ReadFails => None
    case ReaderReceives(i) => Some(i)
    case ReaderPushes(i) => Some(i)
    case ReaderReturns(i) => Some(i)
    case ForwarderReceives(i) => Some(i)
    case ForwarderReturns(i) => Some(i)
    case HandsOver(i) => Some(i)
    case WriterLocks(i) => Some(i)
    case WriterWrites(i, _) => Some(i)
    case WriterUnlocks(i) => Some(i)
    case WriterReturns(i) => Some(i)
    case WaiterCloses => None
    case RequestReturns => None
  }

  /** Whether a goroutine of this subscription can take the step, as far as its own state decides. */
  predicate Ready(sub: Sub, a: Action, cancelled: bool, redisClosed: bool) {
    match a
    case RedisDelivers(_, payload) => !redisClosed
    case ReaderReceives(_) => sub.reader.ReaderSelecting? && sub.consumed < |sub.history|
    case ReaderPushes(_) => sub.reader.ReaderHolding? && (|sub.buffer| < BUFFER_SIZE || sub.outCloses > 0)
    case ReaderReturns(_) =>
      !sub.reader.ReaderExited? &&
      (cancelled || (sub.reader.ReaderSelecting? && redisClosed && sub.consumed == |sub.history|))
    case ForwarderReceives(_) => sub.forwarder.ForwarderSelecting? && sub.buffer != []
    case ForwarderReturns(_) =>
      !sub.forwarder.ForwarderExited? &&
      (cancelled || (sub.forwarder.ForwarderSelecting? && sub.buffer == [] && sub.outCloses > 0))
    case HandsOver(_) => sub.forwarder.ForwarderHolding? && (sub.writer.WriterRanging? || sub.msgCloses > 0)
    case WriterLocks(_) => sub.writer.WriterHolding?
    case WriterWrites(_, _) => sub.writer.WriterLocked?
    case WriterUnlocks(_) => sub.writer.WriterWritten?
    case WriterReturns(_) => sub.writer.WriterFailed? || (sub.writer.WriterRanging? && sub.msgCloses > 0)
    case _ => true
  }

  predicate Enabled(s: Session, a: Action) {
    match IndexOf(a)
    case Some(i) =>
      i < |s.subs| && Ready(s.subs[i], a, s.cancelled, RedisIsClosed(s, i)) && (a.WriterLocks? ==> s.lock.None?)
    case None =>
      match a
      case ReadFails => s.request.Reading?
      case WaiterCloses => s.waitGroup == 0 && s.doneCloses == 0
      case RequestReturns => s.request.AwaitingWriters? && s.doneCloses > 0
      case _ => true
  }

  function HeldByReader(r: Reader): seq<ChatMessage> {
    match r
    case ReaderSelecting => []
    case ReaderHolding(m) => [m]
    case ReaderExited(lost) => lost
  }

  function HeldByForwarder(f: Forwarder): seq<ChatMessage> {
    match f
    case ForwarderSelecting => []
    case ForwarderHolding(m) => [m]
    case ForwarderExited(lost) => lost
  }

  function HeldByWriter(w: Writer): seq<ChatMessage> {
    match w
    case WriterRanging => []
    case WriterHolding(m) => [m]
    case WriterLocked(m) => [m]
    case WriterWritten(lost) => lost
    case WriterFailed(lost) => lost
    case WriterExited(lost) => lost
  }

  function Flag(b: bool): nat {
    if b then 1 else 0
  }

  /** What the acting goroutine does to its own subscription. */
  function SubStep(sub: Sub, a: Action): Sub {
    match a
    case RedisDelivers(_, payload) => sub.(history := sub.history + [payload])
    case RedisCloses(_) => sub.(redisClosed := true)
    case ReaderReceives(_) =>
      if sub.consumed < |sub.history| then
        match sub.history[sub.consumed]
        case Event(m) => sub.(consumed := sub.consumed + 1, reader := ReaderHolding(m))
        case Malformed => sub.(consumed := sub.consumed + 1)
      else sub
    case ReaderPushes(_) =>
      sub.(buffer := sub.buffer + HeldByReader(sub.reader), reader := ReaderSelecting)
    case ReaderReturns(_) =>
      sub.(reader := ReaderExited(HeldByReader(sub.reader)), outCloses := sub.outCloses + 1)
    case ForwarderReceives(_) =>
      if sub.buffer != [] then
        sub.(buffer := sub.buffer[1..], forwarder := ForwarderHolding(sub.buffer[0]))
      else sub
    case ForwarderReturns(_) =>
      sub.(forwarder := ForwarderExited(HeldByForwarder(sub.forwarder)), msgCloses := sub.msgCloses + 1)
    case HandsOver(_) =>
      if sub.forwarder.ForwarderHolding? then
        sub.(forwarder := ForwarderSelecting, writer := WriterHolding(sub.forwarder.event))
      else sub
    case WriterLocks(_) =>
      if sub.writer.WriterHolding? then sub.(writer := WriterLocked(sub.writer.msg)) else sub
    case WriterWrites(_, ok) =>
      if sub.writer.WriterLocked? then
        sub.(writer := WriterWritten(if ok then [] else [sub.writer.msg]))
      else sub
    case WriterUnlocks(_) =>
      if sub.writer.WriterWritten? then
        sub.(writer := if sub.writer.lost == [] then WriterRanging else WriterFailed(sub.writer.lost))
      else sub
    case WriterReturns(_) => sub.(writer := WriterExited(HeldByWriter(sub.writer)))
    case _ => sub
  }

  /** The panics a step causes: each is a misuse of a channel or of the wait group. */
  function PanicsOf(s: Session, a: Action): nat
    requires Enabled(s, a)
  {
    match a
    case ReaderPushes(i) => Flag(s.subs[i].outCloses > 0)
    case ReaderReturns(i) => Flag(s.subs[i].outCloses > 0)
    case HandsOver(i) => Flag(s.subs[i].msgCloses > 0)
    case ForwarderReturns(i) => Flag(s.subs[i].msgCloses > 0)
    case WriterReturns(_) => Flag(s.waitGroup <= 0)
    case WaiterCloses => Flag(s.doneCloses > 0)
    case _ => 0
  }

  function Apply(s: Session, a: Action): Session
    requires Enabled(s, a)
  {
    var s1 := s.(panics := s.panics + PanicsOf(s, a));
    match a
    case ParentCancels => s1.(cancelled := true)
    case ReadFails => s1.(cancelled := true, request := AwaitingWriters)
    case WaiterCloses => s1.(doneCloses := s.doneCloses + 1)
    case RequestReturns => s1.(request := Returned)
    case WriterLocks(i) => s1.(subs := s.subs[i := SubStep(s.subs[i], a)], lock := Some(i))
    case WriterWrites(i, ok) =>
      var m := s.subs[i].writer.msg;
      s1.(subs := s.subs[i := SubStep(s.subs[i], a)],
          log := if ok then s.log + [Written(i, m, FrameOf(s.subs[i].conv, m))] else s.log,
          writeFailed := s.writeFailed || !ok)
    case WriterUnlocks(i) => s1.(subs := s.subs[i := SubStep(s.subs[i], a)], lock := None)
    case WriterReturns(i) => s1.(subs := s.subs[i := SubStep(s.subs[i], a)], waitGroup := s.waitGroup - 1)
    case _ =>
      var i := IndexOf(a).value;
      s1.(subs := s.subs[i := SubStep(s.subs[i], a)])
  }

  /** An interleaving: every action is enabled when its turn comes. */
  predicate IsRun(s: Session, actions: seq<Action>)
    decreases |actions|
  {
    actions == [] || (Enabled(s, actions[0]) && IsRun(Apply(s, actions[0]), actions[1..]))
  }

  function Run(s: Session, actions: seq<Action>): Session
    requires IsRun(s, actions)
    decreases |actions|
  {
    if actions == [] then s else Run(Apply(s, actions[0]), actions[1..])
  }

  // ---------------------------------------------------------------- what the invariant talks about

  /** The decodable part of a channel's payloads, in arrival order. */
  function Decoded(ps: seq<Payload>): seq<ChatMessage> {
    if ps == [] then []
    else
      var front := Decoded(ps[..|ps| - 1]);
      match ps[|ps| - 1]
      case Event(m) => front + [m]
      case Malformed => front
  }

  /** The messages written to the socket for subscription `i`, in write order. */
  function Delivered(log: seq<Written>, i: nat): seq<ChatMessage> {
    if log == [] then []
    else
      var front := Delivered(log[..|log| - 1], i);
      var last := log[|log| - 1];
      if last.sub == i then front + [last.message] else front
  }

  /** Everything taken from Redis and not written, oldest first. */
  function InFlight(sub: Sub): seq<ChatMessage> {
    HeldByWriter(sub.writer) + HeldByForwarder(sub.forwarder) + sub.buffer + HeldByReader(sub.reader)
  }

  function LiveWriters(subs: seq<Sub>): nat {
    if subs == [] then 0
    else LiveWriters(subs[..|subs| - 1]) + Flag(!subs[|subs| - 1].writer.WriterExited?)
  }

  predicate OwnsLock(w: Writer) {
    w.WriterLocked? || w.WriterWritten?
  }

  /** The reader fills a bounded buffer, and each channel is closed exactly when its sender returned. */
  ghost predicate Disciplined(sub: Sub) {
    && sub.consumed <= |sub.history|
    && |sub.buffer| <= BUFFER_SIZE
    && sub.outCloses == Flag(sub.reader.ReaderExited?)
    && sub.msgCloses == Flag(sub.forwarder.ForwarderExited?)
  }

  /** Written, then in flight, is exactly the decodable part of what was taken from Redis. */
  ghost predicate Conserved(sub: Sub, delivered: seq<ChatMessage>) {
    && sub.consumed <= |sub.history|
    && delivered + InFlight(sub) == Decoded(sub.history[..sub.consumed])
  }

  /** Why a goroutine may be gone, and why it may have dropped something. */
  ghost predicate ExitsOk(sub: Sub, cancelled: bool, redisClosed: bool, writeFailed: bool) {
    && (sub.reader.ReaderExited? && !cancelled ==>
          sub.reader.lost == [] && redisClosed && sub.consumed == |sub.history|)
    && (sub.forwarder.ForwarderExited? && !cancelled ==>
          sub.forwarder.lost == [] && sub.buffer == [] && sub.reader.ReaderExited?)
    && (sub.writer.WriterExited? && !writeFailed ==>
          sub.writer.lost == [] && sub.forwarder.ForwarderExited?)
    && ((sub.writer.WriterFailed? || (sub.writer.WriterWritten? && sub.writer.lost != [])) ==> writeFailed)
  }

  ghost predicate SubOk(s: Session, i: nat)
    requires i < |s.subs|
  {
    && Disciplined(s.subs[i])
    && Conserved(s.subs[i], Delivered(s.log, i))
    && ExitsOk(s.subs[i], s.cancelled, RedisIsClosed(s, i), s.writeFailed)
  }

  ghost predicate SubsOk(s: Session) {
    forall i :: 0 <= i < |s.subs| ==> SubOk(s, i)
  }

  /** The mutex has at most one owner, and it is the writer recorded in `lock`. */
  ghost predicate LockOk(s: Session) {
    && (forall i :: 0 <= i < |s.subs| ==> (s.lock == Some(i) <==> OwnsLock(s.subs[i].writer)))
    && (s.lock.Some? ==> s.lock.value < |s.subs|)
  }

  ghost predicate FramesOk(s: Session) {
    forall k :: 0 <= k < |s.log| ==>
      s.log[k].sub < |s.subs| && s.log[k].frame == FrameOf(s.subs[s.log[k].sub].conv, s.log[k].message)
  }

  ghost predicate EndOk(s: Session) {
    && s.waitGroup == LiveWriters(s.subs)
    && s.doneCloses <= 1
    && (s.doneCloses == 1 ==> s.waitGroup == 0)
    && (s.request.Returned? ==> s.doneCloses == 1)
    && (!s.request.Reading? ==> s.cancelled)
    && s.panics == 0
  }

  ghost predicate Inv(s: Session) {
    SubsOk(s) && LockOk(s) && FramesOk(s) && EndOk(s)
  }
}

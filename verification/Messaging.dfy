/**
  Sending a message and its way to every socket, as one interleaved system: access checks, saves,
  detached publishes, Redis deliveries and the steps of every WebSocket session.
 */
module Messaging {
  import opened Entities
  import opened Sequences
  import opened Membership
  import P = Pipeline

  datatype SendRequest = SendRequest(
    workspaceId: Id,
    conversationId: Id,
    personId: Id,
    senderName: string,
    content: string)

  /** How far one SendMessage call, or the publish it left behind, has come. */
  datatype Send =
    | Begun(request: SendRequest)
    | Admitted(request: SendRequest)
    | Publishing(message: ChatMessage)
    | Finished

  /** One Redis PUBLISH; a channel is named after a conversation. */
  datatype Publication = Publication(channel: Id, message: ChatMessage)

  /** A session, the publications there were when it subscribed, and how many of them Redis has dealt with for each subscription. */
  datatype Socket = Socket(session: P.Session, since: nat, cursors: seq<nat>)

  /** `conversations` maps each conversation to its workspace. */
  datatype System = System(
    workspaces: set<Id>,
    conversations: map<Id, Id>,
    members: seq<MemberRow>,
    stored: seq<ChatMessage>,
    nextId: Id,
    sends: seq<Send>,
    published: seq<Publication>,
    sockets: seq<Socket>)

  datatype Event =
    | MembershipChanges(request: Membership.Request)
    | SendBegins(send: SendRequest)
    | AccessChecked(k: nat, dbOk: bool)
    | Saved(k: nat, outcome: Outcome, now: Time)
    | Published(k: nat, redisOk: bool)
    | Connects(convs: seq<Id>)
    | Delivered(j: nat, i: nat, p: nat)
    | Garbled(j: nat, i: nat)
    | SessionSteps(j: nat, action: P.Action)

  predicate HasAccess(members: seq<MemberRow>, workspaceId: Id, personId: Id) {
    match RowOf(members, workspaceId, personId)
    case Some(row) => row.hasAccess
    case None => false
  }

  /** The entity constructor's checks, in its order. */
  function NewMessage(q: SendRequest): Result<SendRequest> {
    if q.workspaceId == NIL then Err(Required("workspaceID"))
    else if q.conversationId == NIL then Err(Required("conversationID"))
    else if q.personId == NIL then Err(Required("personID"))
    else if q.content == "" then Err(Required("content"))
    else Ok(q)
  }

  /** The stored row: the request with a fresh id and the database clock. */
  function RowFor(q: SendRequest, id: Id, now: Time): ChatMessage {
    ChatMessage(id, q.workspaceId, q.conversationId, q.personId, q.senderName, q.content, now)
  }

  /** The row says what the request says. */
  predicate Carries(m: ChatMessage, q: SendRequest) {
    && m.workspaceId == q.workspaceId && m.conversationId == q.conversationId
    && m.personId == q.personId && m.senderName == q.senderName && m.content == q.content
  }

  /** The foreign keys of chat_messages; nothing relates the conversation to the workspace. */
  predicate References(s: System, q: SendRequest) {
    q.workspaceId in s.workspaces && q.conversationId in s.conversations
  }

  function AfterCheck(s: System, q: SendRequest, dbOk: bool): Send {
    if dbOk && HasAccess(s.members, q.workspaceId, q.personId) && NewMessage(q).Ok? then Admitted(q) else Finished
  }

  function OpenSocket(s: System, convs: seq<Id>): Socket {
    Socket(P.Open(convs), |s.published|, seq(|convs|, i => |s.published|))
  }

  /** A socket after Redis gave it publication `p` for subscription `i`. */
  function Receive(socket: Socket, i: nat, p: nat, m: ChatMessage): Socket
    requires P.Enabled(socket.session, P.RedisDelivers(i, P.Event(m))) && i < |socket.cursors|
  {
    socket.(session := P.Apply(socket.session, P.RedisDelivers(i, P.Event(m))), cursors := socket.cursors[i := p + 1])
  }

  predicate Enabled(s: System, e: Event) {
    match e
    case MembershipChanges(_) => true
    case SendBegins(_) => true
    case AccessChecked(k, _) => k < |s.sends| && s.sends[k].Begun?
    case Saved(k, _, _) => k < |s.sends| && s.sends[k].Admitted?
    case Published(k, _) => k < |s.sends| && s.sends[k].Publishing?
    case Connects(_) => true
    case Delivered(j, i, p) =>
      // Redis keeps a channel's order and may skip, but never repeats or goes back.
      && j < |s.sockets| && i < |s.sockets[j].session.subs| && i < |s.sockets[j].cursors|
      && s.sockets[j].cursors[i] <= p < |s.published|
      && s.published[p].channel == s.sockets[j].session.subs[i].conv
      && P.Enabled(s.sockets[j].session, P.RedisDelivers(i, P.Event(s.published[p].message)))
    case Garbled(j, i) =>
      j < |s.sockets| && P.Enabled(s.sockets[j].session, P.RedisDelivers(i, P.Malformed))
    case SessionSteps(j, a) => j < |s.sockets| && !a.RedisDelivers? && P.Enabled(s.sockets[j].session, a)
  }

  function Apply(s: System, e: Event): System
    requires Enabled(s, e)
  {
    match e
    case MembershipChanges(q) => s.(members := Effect(s.workspaces, s.members, q))
    case SendBegins(q) => s.(sends := s.sends + [Begun(q)])
    case AccessChecked(k, dbOk) => s.(sends := s.sends[k := AfterCheck(s, s.sends[k].request, dbOk)])
    case Saved(k, outcome, now) =>
      if !outcome.Fails? && References(s, s.sends[k].request) then
        var m := RowFor(s.sends[k].request, s.nextId, now);
        s.(stored := s.stored + [m], nextId := s.nextId + 1,
           sends := s.sends[k := if outcome.Succeeds? then Publishing(m) else Finished])
      else s.(sends := s.sends[k := Finished])
    case Published(k, redisOk) =>
      var m := s.sends[k].message;
      s.(sends := s.sends[k := Finished],
         published := if redisOk then s.published + [Publication(m.conversationId, m)] else s.published)
    case Connects(convs) => s.(sockets := s.sockets + [OpenSocket(s, convs)])
    case Delivered(j, i, p) =>
      s.(sockets := s.sockets[j := Receive(s.sockets[j], i, p, s.published[p].message)])
    case Garbled(j, i) =>
      s.(sockets := s.sockets[j := s.sockets[j].(session :=
           P.Apply(s.sockets[j].session, P.RedisDelivers(i, P.Malformed)))])
    case SessionSteps(j, a) =>
      s.(sockets := s.sockets[j := s.sockets[j].(session := P.Apply(s.sockets[j].session, a))])
  }

  /** A service that has just started on any directory of workspaces, members and conversations. */
  ghost predicate Initial(s: System) {
    UniqueRows(s.members) && s.stored == [] && s.sends == [] && s.published == [] && s.sockets == []
  }

  predicate IsRun(s: System, events: seq<Event>)
    decreases |events|, 0
  {
    events == [] ||
    (IsRun(s, events[..|events| - 1]) && Enabled(Run(s, events[..|events| - 1]), events[|events| - 1]))
  }

  function Run(s: System, events: seq<Event>): System
    requires IsRun(s, events)
    decreases |events|, 1
  {
    if events == [] then s else Apply(Run(s, events[..|events| - 1]), events[|events| - 1])
  }

  lemma RunSnoc(s: System, events: seq<Event>, e: Event)
    requires IsRun(s, events) && Enabled(Run(s, events), e)
    ensures IsRun(s, events + [e]) && Run(s, events + [e]) == Apply(Run(s, events), e)
  {
    assert (events + [e])[..|events|] == events;
  }

  /** A run with the states it goes through: `states[n]` is the state before event `n`, and the last one is the end. */
  datatype Trace = Trace(events: seq<Event>, states: seq<System>)

  ghost predicate StepsAt(tr: Trace, n: nat)
    requires |tr.states| == |tr.events| + 1 && n < |tr.events|
  {
    Enabled(tr.states[n], tr.events[n]) && tr.states[n + 1] == Apply(tr.states[n], tr.events[n])
  }

  ghost predicate IsTrace(tr: Trace) {
    |tr.states| == |tr.events| + 1 && forall n: nat :: n < |tr.events| ==> StepsAt(tr, n)
  }

  function Last(tr: Trace): System
    requires |tr.states| == |tr.events| + 1
  {
    tr.states[|tr.events|]
  }

  /** The messages published on one channel, in order. */
  function ChannelLog(pubs: seq<Publication>, channel: Id): seq<ChatMessage> {
    if pubs == [] then []
    else
      var front := ChannelLog(pubs[..|pubs| - 1], channel);
      var last := pubs[|pubs| - 1];
      if last.channel == channel then front + [last.message] else front
  }

  // ---------------------------------------------------------------- invariant

  /** Rows are stored in the order of their ids, which stand for the order of the inserts. */
  ghost predicate StoredOk(s: System) {
    && (forall a :: 0 <= a < |s.stored| ==> s.stored[a].id < s.nextId)
    && (forall a, b :: 0 <= a < b < |s.stored| ==> s.stored[a].id < s.stored[b].id)
  }

  /** A pending publish is for a stored message that nobody else publishes or has published. */
  ghost predicate PendingOk(s: System) {
    && (forall k :: 0 <= k < |s.sends| && s.sends[k].Publishing? ==>
          && s.sends[k].message in s.stored
          && forall p :: 0 <= p < |s.published| ==> s.published[p].message.id != s.sends[k].message.id)
    && (forall k, l :: 0 <= k < l < |s.sends| && s.sends[k].Publishing? && s.sends[l].Publishing? ==>
          s.sends[k].message.id != s.sends[l].message.id)
  }

  ghost predicate PublishedOk(s: System) {
    && (forall p :: 0 <= p < |s.published| ==>
          s.published[p].message in s.stored && s.published[p].channel == s.published[p].message.conversationId)
    && (forall p, q :: 0 <= p < q < |s.published| ==> s.published[p].message.id != s.published[q].message.id)
  }

  /** What Redis delivered to a subscription is a subsequence of its channel, in channel order. */
  ghost predicate FeedOk(published: seq<Publication>, sub: P.Sub, cursor: nat) {
    && cursor <= |published|
    && IsSubsequence(P.Decoded(sub.history), ChannelLog(published[..cursor], sub.conv))
  }

  ghost predicate SocketOk(published: seq<Publication>, socket: Socket) {
    && P.Inv(socket.session)
    && |socket.cursors| == |socket.session.subs|
    && forall i :: 0 <= i < |socket.cursors| ==> FeedOk(published, socket.session.subs[i], socket.cursors[i])
  }

  ghost predicate SocketsOk(s: System) {
    forall j :: 0 <= j < |s.sockets| ==> SocketOk(s.published, s.sockets[j])
  }

  ghost predicate Inv(s: System) {
    StoredOk(s) && PendingOk(s) && PublishedOk(s) && SocketsOk(s)
  }
}

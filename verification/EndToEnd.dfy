/**
  From the publish to the browser.  While Redis skips nothing, every subscription of a socket carries
  its channel from the connection on, so the browser's list follows the channel.
 */
module EndToEnd {
  import opened Entities
  import opened Sequences
  import opened Messaging
  import opened Causality
  import opened SendConditions
  import P = Pipeline
  import O = PipelineOrder
  import R = Replica

  /** What Redis delivered is exactly the channel from the connection up to the cursor. */
  ghost predicate FeedExact(published: seq<Publication>, sub: P.Sub, since: nat, cursor: nat) {
    since <= cursor <= |published| && P.Decoded(sub.history) == ChannelLog(published[since..cursor], sub.conv)
  }

  ghost predicate SocketExact(published: seq<Publication>, socket: Socket) {
    && |socket.cursors| == |socket.session.subs|
    && socket.since <= |published|
    && forall i :: 0 <= i < |socket.cursors| ==> FeedExact(published, socket.session.subs[i], socket.since, socket.cursors[i])
  }

  ghost predicate Exact(s: System) {
    forall j :: 0 <= j < |s.sockets| ==> SocketExact(s.published, s.sockets[j])
  }

  /** The delivery passes over a publication on the subscription's channel. */
  predicate Skips(s: System, e: Event) {
    e.Delivered? && Enabled(s, e)
    && ChannelLog(s.published[s.sockets[e.j].cursors[e.i]..e.p], s.sockets[e.j].session.subs[e.i].conv) != []
  }

  lemma {:induction false} ChannelLogConcat(a: seq<Publication>, b: seq<Publication>, channel: Id)
    ensures ChannelLog(a + b, channel) == ChannelLog(a, channel) + ChannelLog(b, channel)
    decreases |b|
  {
    if b == [] {
      assert a + b == a;
    } else {
      var front, last := b[..|b| - 1], b[|b| - 1];
      ChannelLogConcat(a, front, channel);
      ChannelLogSnoc(a + front, last, channel);
      assert a + front + [last] == a + b;
    }
  }

  lemma ExactAdvances(published: seq<Publication>, sub: P.Sub, since: nat, cursor: nat, p: nat)
    requires FeedExact(published, sub, since, cursor) && cursor <= p < |published| && published[p].channel == sub.conv
    requires ChannelLog(published[cursor..p], sub.conv) == []
    ensures FeedExact(published, sub.(history := sub.history + [P.Event(published[p].message)]), since, p + 1)
  {
    assert published[since..p] == published[since..cursor] + published[cursor..p];
    ChannelLogConcat(published[since..cursor], published[cursor..p], sub.conv);
    assert published[since..p + 1] == published[since..p] + [published[p]];
    ChannelLogSnoc(published[since..p], published[p], sub.conv);
    O.DecodedSnoc(sub.history, P.Event(published[p].message));
  }

  lemma DeliveryKeepsExact(s: System, j: nat, i: nat, p: nat)
    requires Exact(s) && Enabled(s, Delivered(j, i, p)) && !Skips(s, Delivered(j, i, p))
    ensures SocketExact(s.published, Apply(s, Delivered(j, i, p)).sockets[j])
  {
    var socket := s.sockets[j];
    assert SocketExact(s.published, socket);
    O.ApplyShape(socket.session, P.RedisDelivers(i, P.Event(s.published[p].message)));
    ExactAdvances(s.published, socket.session.subs[i], socket.since, socket.cursors[i], p);
  }

  lemma NoiseKeepsExact(s: System, j: nat, i: nat)
    requires Exact(s) && Enabled(s, Garbled(j, i))
    ensures SocketExact(s.published, Apply(s, Garbled(j, i)).sockets[j])
  {
    var socket := s.sockets[j];
    assert SocketExact(s.published, socket);
    O.ApplyShape(socket.session, P.RedisDelivers(i, P.Malformed));
    O.DecodedSnoc(socket.session.subs[i].history, P.Malformed);
  }

  lemma SessionKeepsExact(s: System, j: nat, a: P.Action)
    requires Exact(s) && Enabled(s, SessionSteps(j, a))
    ensures SocketExact(s.published, Apply(s, SessionSteps(j, a)).sockets[j])
  {
    var socket := s.sockets[j];
    assert SocketExact(s.published, socket);
    O.ApplyShape(socket.session, a);
    forall i | 0 <= i < |socket.cursors|
      ensures FeedExact(s.published, P.Apply(socket.session, a).subs[i], socket.since, socket.cursors[i])
    {
      SessionCodeKeepsHistory(socket.session, a, i);
    }
  }

  lemma PublishKeepsExact(s: System, pub: Publication)
    requires Exact(s)
    ensures Exact(s.(published := s.published + [pub]))
  {
    forall j | 0 <= j < |s.sockets|
      ensures SocketExact(s.published + [pub], s.sockets[j])
    {
      var socket := s.sockets[j];
      assert SocketExact(s.published, socket);
      forall i | 0 <= i < |socket.cursors|
        ensures FeedExact(s.published + [pub], socket.session.subs[i], socket.since, socket.cursors[i])
      {
        assert FeedExact(s.published, socket.session.subs[i], socket.since, socket.cursors[i]);
        assert (s.published + [pub])[socket.since..socket.cursors[i]] == s.published[socket.since..socket.cursors[i]];
      }
    }
  }

  lemma ConnectIsExact(s: System, convs: seq<Id>)
    ensures SocketExact(s.published, OpenSocket(s, convs))
  {
    assert s.published[|s.published|..|s.published|] == [];
  }

  /** Steps that change one socket, or none. */
  lemma SocketStepKeepsExact(s: System, e: Event)
    requires Exact(s) && Enabled(s, e) && !Skips(s, e) && !e.Published?
    ensures Exact(Apply(s, e))
  {
    match e
    case Delivered(j, i, p) => DeliveryKeepsExact(s, j, i, p);
    case Garbled(j, i) => NoiseKeepsExact(s, j, i);
    case SessionSteps(j, a) => SessionKeepsExact(s, j, a);
    case Connects(convs) => ConnectIsExact(s, convs);
    case _ =>
  }

  lemma EventKeepsExact(s: System, e: Event)
    requires Exact(s) && Enabled(s, e) && !Skips(s, e)
    ensures Exact(Apply(s, e))
  {
    if e.Published? {
      var m := s.sends[e.k].message;
      PublishKeepsExact(s, Publication(m.conversationId, m));
    } else {
      SocketStepKeepsExact(s, e);
    }
  }

  ghost predicate NothingSkipped(tr: Trace)
    requires IsTrace(tr)
  {
    forall n: nat | n < |tr.events| :: !Skips(tr.states[n], tr.events[n])
  }

  lemma {:induction false} RunIsExact(tr: Trace, n: nat)
    requires IsTrace(tr) && Initial(tr.states[0]) && NothingSkipped(tr) && n <= |tr.events|
    ensures Exact(tr.states[n])
    decreases n
  {
    if n > 0 {
      RunIsExact(tr, n - 1);
      TracePrevious(tr, n);
      EventKeepsExact(tr.states[n - 1], tr.events[n - 1]);
    }
  }

  // ---------------------------------------------------------------- what the browser shows

  function Subscriptions(t: P.Session): seq<Id> {
    seq(|t.subs|, i requires 0 <= i < |t.subs| => t.subs[i].conv)
  }

  /** The browser's list of a conversation after all frames on its socket. */
  function ShownTo(socket: Socket, conv: Id): seq<P.OutboundMessage> {
    R.ListOf(R.Replay(map[], R.FramesOn(socket.session.log)), conv)
  }

  /** The conversation's channel since the socket connected. */
  function StreamOf(s: System, j: nat, conv: Id): seq<ChatMessage>
    requires j < |s.sockets| && s.sockets[j].since <= |s.published|
  {
    ChannelLog(s.published[s.sockets[j].since..], conv)
  }

  lemma WrittenWasDelivered(session: P.Session, i: nat)
    requires P.Inv(session) && i < |session.subs|
    ensures P.Delivered(session.log, i) <= P.Decoded(session.subs[i].history)
  {
    var sub := session.subs[i];
    assert P.SubOk(session, i);
    O.DecodedConcat(sub.history[..sub.consumed], sub.history[sub.consumed..]);
    assert sub.history[..sub.consumed] + sub.history[sub.consumed..] == sub.history;
  }

  lemma FeedIsAPrefix(published: seq<Publication>, sub: P.Sub, since: nat, cursor: nat)
    requires FeedExact(published, sub, since, cursor)
    ensures P.Decoded(sub.history) <= ChannelLog(published[since..], sub.conv)
  {
    ChannelLogConcat(published[since..cursor], published[cursor..], sub.conv);
    assert published[since..cursor] + published[cursor..] == published[since..];
  }

  lemma FramesAreAPrefix(s: System, j: nat, i: nat)
    requires Inv(s) && Exact(s) && j < |s.sockets| && i < |s.sockets[j].session.subs|
    ensures s.sockets[j].since <= |s.published|
    ensures P.Delivered(s.sockets[j].session.log, i) <= StreamOf(s, j, s.sockets[j].session.subs[i].conv)
  {
    var socket := s.sockets[j];
    assert SocketOk(s.published, socket) && SocketExact(s.published, socket);
    WrittenWasDelivered(socket.session, i);
    FeedIsAPrefix(s.published, socket.session.subs[i], socket.since, socket.cursors[i]);
  }

  lemma StreamIsUnique(s: System, j: nat, conv: Id)
    requires Inv(s) && j < |s.sockets| && s.sockets[j].since <= |s.published|
    ensures R.UniqueStream(StreamOf(s, j, conv))
    ensures forall m :: m in StreamOf(s, j, conv) ==> m in s.stored && m.conversationId == conv
  {
    var pubs := s.published[s.sockets[j].since..];
    ChannelLogDistinct(pubs, conv);
    forall m | m in ChannelLog(pubs, conv)
      ensures m in s.stored && m.conversationId == conv
    {
      ChannelLogElements(pubs, conv, m);
      var p :| 0 <= p < |pubs| && pubs[p].message == m && pubs[p].channel == conv;
      assert s.published[s.sockets[j].since + p] == pubs[p];
    }
  }

  lemma StateShowsAPrefix(t: System, j: nat, conv: Id) returns (n: nat)
    requires Inv(t) && Exact(t) && j < |t.sockets|
    ensures var log := t.sockets[j].session.log;
            && t.sockets[j].since <= |t.published|
            && R.Shows(log, conv, StreamOf(t, j, conv), n)
            && R.LongestIs(log, Subscriptions(t.sockets[j].session), conv, n)
            && (forall m :: m in StreamOf(t, j, conv) ==> m in t.stored && m.conversationId == conv)
  {
    var session := t.sockets[j].session;
    assert SocketOk(t.published, t.sockets[j]) && SocketExact(t.published, t.sockets[j]);
    var convs, stream := Subscriptions(session), StreamOf(t, j, conv);
    forall i | 0 <= i < |convs| && convs[i] == conv
      ensures P.Delivered(session.log, i) <= stream
    {
      FramesAreAPrefix(t, j, i);
    }
    StreamIsUnique(t, j, conv);
    n := R.DuplicateSubscriptionsMerge(session.log, convs, conv, stream);
  }

  /** Event `c` is the socket's connection to these conversations. */
  ghost predicate ConnectedAt(tr: Trace, c: nat, j: nat, convs: seq<Id>)
    requires IsTrace(tr)
  {
    c < |tr.events| && tr.events[c] == Connects(convs) && |tr.states[c].sockets| == j
  }

  lemma SessionKeepsConversations(session: P.Session, a: P.Action)
    requires P.Enabled(session, a)
    ensures Subscriptions(P.Apply(session, a)) == Subscriptions(session)
  {
    O.ApplyShape(session, a);
  }

  lemma SocketStep(s: System, e: Event, j: nat)
    requires Enabled(s, e) && j < |Apply(s, e).sockets|
    ensures var t := Apply(s, e);
            if j < |s.sockets| then
              t.sockets[j].since == s.sockets[j].since && Subscriptions(t.sockets[j].session) == Subscriptions(s.sockets[j].session)
            else
              && e.Connects? && j == |s.sockets|
              && t.sockets[j].since == |s.published| && Subscriptions(t.sockets[j].session) == e.convs
  {
    match e
    case Delivered(l, i, p) => O.ApplyShape(s.sockets[l].session, P.RedisDelivers(i, P.Event(s.published[p].message)));
    case Garbled(l, i) => O.ApplyShape(s.sockets[l].session, P.RedisDelivers(i, P.Malformed));
    case SessionSteps(l, a) => SessionKeepsConversations(s.sockets[l].session, a);
    case _ =>
  }

  /** A socket counts from its own connection on. */
  lemma {:induction false} SocketWasConnected(tr: Trace, n: nat, j: nat) returns (c: nat, convs: seq<Id>)
    requires IsTrace(tr) && Initial(tr.states[0]) && n <= |tr.events| && j < |tr.states[n].sockets|
    ensures c < n && ConnectedAt(tr, c, j, convs)
    ensures var socket := tr.states[n].sockets[j];
            socket.since == |tr.states[c].published| && Subscriptions(socket.session) == convs
    decreases n
  {
    TracePrevious(tr, n);
    SocketStep(tr.states[n - 1], tr.events[n - 1], j);
    if j < |tr.states[n - 1].sockets| {
      c, convs := SocketWasConnected(tr, n - 1, j);
    } else {
      c, convs := n - 1, tr.events[n - 1].convs;
    }
  }

  /**
    Publishes, Redis, sessions and the browser together: while Redis skips nothing, and however often
    a socket subscribed to a conversation, the browser shows the first `n` messages published on it
    since the connection, each once and as it was stored, where `n` is what the furthest subscription
    has written.
   */
  lemma BrowserFollowsTheChannel(tr: Trace, j: nat, conv: Id) returns (connected: nat, convs: seq<Id>, n: nat)
    requires IsTrace(tr) && Initial(tr.states[0]) && NothingSkipped(tr) && j < |Last(tr).sockets|
    ensures ConnectedAt(tr, connected, j, convs)
    ensures var t := Last(tr);
            var before := |tr.states[connected].published|;
            && before <= |t.published|
            && var stream := ChannelLog(t.published[before..], conv);
               && n <= |stream| && R.TellsAll(ShownTo(t.sockets[j], conv), conv, stream[..n])
               && R.LongestIs(t.sockets[j].session.log, convs, conv, n)
               && (forall m :: m in stream ==> m in t.stored && m.conversationId == conv)
  {
    var t := Last(tr);
    TraceInv(tr, |tr.events|);
    RunIsExact(tr, |tr.events|);
    n := StateShowsAPrefix(t, j, conv);
    R.FramesTell(conv, StreamOf(t, j, conv)[..n]);
    connected, convs := SocketWasConnected(tr, |tr.events|, j);
  }

  /** Redis has delivered whatever there is on the subscription's channel. */
  predicate CaughtUp(t: System, j: nat, i: nat)
    requires j < |t.sockets| && i < |t.sockets[j].session.subs| && i < |t.sockets[j].cursors|
  {
    var cursor := t.sockets[j].cursors[i];
    cursor <= |t.published| && ChannelLog(t.published[cursor..], t.sockets[j].session.subs[i].conv) == []
  }

  lemma FedUpToTheEnd(t: System, j: nat, i: nat)
    requires Exact(t) && j < |t.sockets| && i < |t.sockets[j].session.subs| && i < |t.sockets[j].cursors|
    requires CaughtUp(t, j, i)
    ensures t.sockets[j].since <= |t.published|
    ensures P.Decoded(t.sockets[j].session.subs[i].history) == StreamOf(t, j, t.sockets[j].session.subs[i].conv)
  {
    var socket := t.sockets[j];
    assert SocketExact(t.published, socket) && FeedExact(t.published, socket.session.subs[i], socket.since, socket.cursors[i]);
    var conv, cursor := socket.session.subs[i].conv, socket.cursors[i];
    ChannelLogConcat(t.published[socket.since..cursor], t.published[cursor..], conv);
    assert t.published[socket.since..cursor] + t.published[cursor..] == t.published[socket.since..];
  }

  /** A subscription that has written the whole stream is the furthest one. */
  lemma AtTheEnd(session: P.Session, i: nat, n: nat, stream: seq<ChatMessage>)
    requires i < |session.subs| && P.Delivered(session.log, i) == stream && n <= |stream|
    requires R.LongestIs(session.log, Subscriptions(session), session.subs[i].conv, n)
    ensures stream[..n] == stream
  {
    assert Subscriptions(session)[i] == session.subs[i].conv;
  }

  lemma StateCatchesUp(t: System, j: nat, i: nat)
    requires Inv(t) && Exact(t) && j < |t.sockets|
    requires var session := t.sockets[j].session;
             && i < |session.subs| && i < |t.sockets[j].cursors| && CaughtUp(t, j, i)
             && O.Quiet(session) && !session.cancelled && !session.writeFailed && !P.RedisIsClosed(session, i)
    ensures var conv := t.sockets[j].session.subs[i].conv;
            && t.sockets[j].since <= |t.published|
            && R.TellsAll(ShownTo(t.sockets[j], conv), conv, StreamOf(t, j, conv))
  {
    var session, conv := t.sockets[j].session, t.sockets[j].session.subs[i].conv;
    assert SocketOk(t.published, t.sockets[j]) && SocketExact(t.published, t.sockets[j]);
    FedUpToTheEnd(t, j, i);
    O.QuietMeansDelivered(session, i);
    var n := StateShowsAPrefix(t, j, conv);
    AtTheEnd(session, i, n, StreamOf(t, j, conv));
    R.FramesTell(conv, StreamOf(t, j, conv));
  }

  /** And when the session has nothing left to do and Redis has caught up, the browser shows the whole channel since the connection. */
  lemma BrowserCatchesUp(tr: Trace, j: nat, i: nat) returns (connected: nat, convs: seq<Id>)
    requires IsTrace(tr) && Initial(tr.states[0]) && NothingSkipped(tr) && j < |Last(tr).sockets|
    requires var t := Last(tr);
             var session := t.sockets[j].session;
             && i < |session.subs| && i < |t.sockets[j].cursors| && CaughtUp(t, j, i)
             && O.Quiet(session) && !session.cancelled && !session.writeFailed && !P.RedisIsClosed(session, i)
    ensures ConnectedAt(tr, connected, j, convs) && i < |convs|
    ensures var t := Last(tr);
            var before := |tr.states[connected].published|;
            && before <= |t.published|
            && R.TellsAll(ShownTo(t.sockets[j], convs[i]), convs[i], ChannelLog(t.published[before..], convs[i]))
  {
    connected, convs := SocketWasConnected(tr, |tr.events|, j);
    assert convs[i] == Last(tr).sockets[j].session.subs[i].conv;
    TraceInv(tr, |tr.events|);
    RunIsExact(tr, |tr.events|);
    StateCatchesUp(Last(tr), j, i);
  }

  lemma LaterPartInSaveOrder(before: seq<ChatMessage>, since: seq<ChatMessage>, stored: seq<ChatMessage>)
    requires InSaveOrder(before + since, stored)
    ensures InSaveOrder(since, stored)
  {
    forall a, b | 0 <= a < b < |since|
      ensures Older(stored, since[a], since[b])
    {
      assert (before + since)[|before| + a] == since[a] && (before + since)[|before| + b] == since[b];
    }
  }

  lemma StreamInSaveOrder(t: System, j: nat, conv: Id)
    requires j < |t.sockets| && t.sockets[j].since <= |t.published| && InSaveOrder(ChannelLog(t.published, conv), t.stored)
    ensures InSaveOrder(StreamOf(t, j, conv), t.stored)
  {
    var before, since := t.published[..t.sockets[j].since], t.published[t.sockets[j].since..];
    assert before + since == t.published;
    ChannelLogConcat(before, since, conv);
    LaterPartInSaveOrder(ChannelLog(before, conv), ChannelLog(since, conv), t.stored);
  }

  lemma FirstPartInSaveOrder(ms: seq<ChatMessage>, n: nat, stored: seq<ChatMessage>)
    requires n <= |ms| && InSaveOrder(ms, stored)
    ensures InSaveOrder(ms[..n], stored)
  {
  }

  /**
    If moreover no publish overtook another, the browser's list of the conversation says what some
    stored messages say, in the order in which they were saved.
   */
  lemma BrowserShowsSaveOrder(tr: Trace, j: nat, conv: Id) returns (shown: seq<ChatMessage>)
    requires IsTrace(tr) && Initial(tr.states[0]) && NothingSkipped(tr) && j < |Last(tr).sockets|
    requires NoOvertaking(tr, conv, |tr.events|)
    ensures var t := Last(tr);
            && R.TellsAll(ShownTo(t.sockets[j], conv), conv, shown)
            && InSaveOrder(shown, t.stored)
            && (forall m :: m in shown ==> m in t.stored && m.conversationId == conv)
  {
    var t := Last(tr);
    TraceInv(tr, |tr.events|);
    RunIsExact(tr, |tr.events|);
    var n := StateShowsAPrefix(t, j, conv);
    R.FramesTell(conv, StreamOf(t, j, conv)[..n]);
    ChannelInSaveOrderIff(tr, conv);
    StreamInSaveOrder(t, j, conv);
    FirstPartInSaveOrder(StreamOf(t, j, conv), n, t.stored);
    shown := StreamOf(t, j, conv)[..n];
  }

  // ---------------------------------------------------------------- what was sent

  lemma {:induction false} ListedWasAFrame(frames: seq<P.OutboundMessage>, conv: Id, f: P.OutboundMessage)
    requires f in R.ListOf(R.Replay(map[], frames), conv)
    ensures f in frames && f.conversationId == conv
  {
    if frames != [] {
      var front, last := frames[..|frames| - 1], frames[|frames| - 1];
      assert frames == front + [last];
      if f in R.ListOf(R.Replay(map[], front), conv) {
        ListedWasAFrame(front, conv, f);
      }
    }
  }

  lemma ListedWasWritten(t: System, j: nat, conv: Id, k: nat) returns (m: ChatMessage)
    requires Inv(t) && j < |t.sockets| && k < |ShownTo(t.sockets[j], conv)|
    ensures m in t.stored && m.conversationId == conv && R.Tells(ShownTo(t.sockets[j], conv)[k], conv, m)
  {
    var log, f := t.sockets[j].session.log, ShownTo(t.sockets[j], conv)[k];
    ListedWasAFrame(R.FramesOn(log), conv, f);
    var i :| 0 <= i < |log| && R.FramesOn(log)[i] == f;
    FramesShowPublications(t, j, i);
    m := log[i].message;
  }

  /**
    In every run, whatever Redis skips: an entry of the browser's list says what somebody sent to the
    conversation and nothing else, and that person had access at a check of that very call.
   */
  lemma BrowserShowsWhatWasSent(tr: Trace, j: nat, conv: Id, k: nat) returns (began: nat, checked: nat)
    requires IsTrace(tr) && Initial(tr.states[0]) && j < |Last(tr).sockets| && k < |ShownTo(Last(tr).sockets[j], conv)|
    ensures began < checked < |tr.events| && tr.events[began].SendBegins?
    ensures var f, send := ShownTo(Last(tr).sockets[j], conv)[k], tr.events[began].send;
            && f.conversationId == conv == send.conversationId
            && f.personId == send.personId && f.senderName == send.senderName && f.content == send.content
            && HasAccess(tr.states[checked].members, send.workspaceId, send.personId)
  {
    TraceInv(tr, |tr.events|);
    var m := ListedWasWritten(Last(tr), j, conv, k);
    var call, saved;
    call, began, checked, saved := AccessAtSaveIff(tr, m);
    var request := tr.states[saved].sends[call].request;
    assert tr.events[began] == SendBegins(request) && Carries(m, request);
  }
}

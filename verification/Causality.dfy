/** What holds over every interleaving of sends, access changes, publishes, deliveries and sessions. */
module Causality {
  import opened Entities
  import opened Sequences
  import opened Membership
  import opened Messaging
  import P = Pipeline
  import O = PipelineOrder

  lemma ChannelLogSnoc(pubs: seq<Publication>, pub: Publication, channel: Id)
    ensures ChannelLog(pubs + [pub], channel) ==
            ChannelLog(pubs, channel) + (if pub.channel == channel then [pub.message] else [])
  {
    assert (pubs + [pub])[..|pubs|] == pubs;
  }

  lemma {:induction false} ChannelLogGrows(pubs: seq<Publication>, m: nat, n: nat, channel: Id)
    requires m <= n <= |pubs|
    ensures ChannelLog(pubs[..m], channel) <= ChannelLog(pubs[..n], channel)
    decreases n
  {
    if m < n {
      ChannelLogGrows(pubs, m, n - 1, channel);
      assert pubs[..n] == pubs[..n - 1] + [pubs[n - 1]];
      ChannelLogSnoc(pubs[..n - 1], pubs[n - 1], channel);
    }
  }

  lemma {:induction false} ChannelLogElements(pubs: seq<Publication>, channel: Id, m: ChatMessage)
    requires m in ChannelLog(pubs, channel)
    ensures exists p :: 0 <= p < |pubs| && pubs[p].message == m && pubs[p].channel == channel
  {
    var last := pubs[|pubs| - 1];
    if m in ChannelLog(pubs[..|pubs| - 1], channel) {
      ChannelLogElements(pubs[..|pubs| - 1], channel, m);
      var p :| 0 <= p < |pubs| - 1 && pubs[..|pubs| - 1][p].message == m && pubs[..|pubs| - 1][p].channel == channel;
      assert pubs[p].message == m;
    } else {
      assert pubs[|pubs| - 1].message == m;
    }
  }

  /** A channel on which ids are unique is a log without repetitions. */
  lemma {:induction false} ChannelLogDistinct(pubs: seq<Publication>, channel: Id)
    requires forall p, q :: 0 <= p < q < |pubs| ==> pubs[p].message.id != pubs[q].message.id
    ensures Distinct(ChannelLog(pubs, channel))
    ensures forall a, b :: 0 <= a < b < |ChannelLog(pubs, channel)| ==>
              ChannelLog(pubs, channel)[a].id != ChannelLog(pubs, channel)[b].id
  {
    if pubs != [] {
      var front := pubs[..|pubs| - 1];
      ChannelLogDistinct(front, channel);
      var log := ChannelLog(front, channel);
      forall a | 0 <= a < |log|
        ensures log[a].id != pubs[|pubs| - 1].message.id
      {
        ChannelLogElements(front, channel, log[a]);
        var p :| 0 <= p < |front| && front[p].message == log[a];
        assert pubs[p] == front[p];
      }
    }
  }

  // ---------------------------------------------------------------- preservation, event by event

  lemma FeedSurvivesPublish(pubs: seq<Publication>, pub: Publication, sub: P.Sub, cursor: nat)
    requires FeedOk(pubs, sub, cursor)
    ensures FeedOk(pubs + [pub], sub, cursor)
  {
    assert (pubs + [pub])[..cursor] == pubs[..cursor];
  }

  lemma FeedAdvances(pubs: seq<Publication>, sub: P.Sub, cursor: nat, p: nat)
    requires FeedOk(pubs, sub, cursor) && cursor <= p < |pubs| && pubs[p].channel == sub.conv
    ensures FeedOk(pubs, sub.(history := sub.history + [P.Event(pubs[p].message)]), p + 1)
  {
    ChannelLogGrows(pubs, cursor, p, sub.conv);
    var before, upTo := ChannelLog(pubs[..cursor], sub.conv), ChannelLog(pubs[..p], sub.conv);
    assert upTo == before + upTo[|before|..];
    SubsequenceOfLonger(P.Decoded(sub.history), before, upTo[|before|..]);
    SubsequenceTakes(P.Decoded(sub.history), upTo, pubs[p].message);
    assert pubs[..p + 1] == pubs[..p] + [pubs[p]];
    ChannelLogSnoc(pubs[..p], pubs[p], sub.conv);
    O.DecodedSnoc(sub.history, P.Event(pubs[p].message));
  }

  lemma FeedIgnoresNoise(pubs: seq<Publication>, sub: P.Sub, cursor: nat)
    requires FeedOk(pubs, sub, cursor)
    ensures FeedOk(pubs, sub.(history := sub.history + [P.Malformed]), cursor)
  {
    O.DecodedSnoc(sub.history, P.Malformed);
  }

  lemma SessionCodeKeepsHistory(t: P.Session, a: P.Action, i: nat)
    requires P.Enabled(t, a) && !a.RedisDelivers? && i < |t.subs|
    ensures i < |P.Apply(t, a).subs| && P.Apply(t, a).subs[i].history == t.subs[i].history
    ensures P.Apply(t, a).subs[i].conv == t.subs[i].conv
    ensures |P.Apply(t, a).subs| == |t.subs|
  {
    O.ApplyShape(t, a);
  }

  lemma SessionCodeKeepsSocket(pubs: seq<Publication>, socket: Socket, a: P.Action)
    requires SocketOk(pubs, socket) && P.Enabled(socket.session, a) && !a.RedisDelivers?
    ensures SocketOk(pubs, socket.(session := P.Apply(socket.session, a)))
  {
    var t := P.Apply(socket.session, a);
    O.StepKeepsInv(socket.session, a);
    O.ApplyShape(socket.session, a);
    forall i | 0 <= i < |socket.cursors|
      ensures FeedOk(pubs, t.subs[i], socket.cursors[i])
    {
      SessionCodeKeepsHistory(socket.session, a, i);
      assert FeedOk(pubs, socket.session.subs[i], socket.cursors[i]);
    }
  }

  lemma RedisKeepsSocket(pubs: seq<Publication>, socket: Socket, i: nat, p: nat)
    requires SocketOk(pubs, socket) && i < |socket.cursors| && socket.cursors[i] <= p < |pubs|
    requires P.Enabled(socket.session, P.RedisDelivers(i, P.Event(pubs[p].message)))
    requires pubs[p].channel == socket.session.subs[i].conv
    ensures SocketOk(pubs, Receive(socket, i, p, pubs[p].message))
  {
    var a := P.RedisDelivers(i, P.Event(pubs[p].message));
    O.StepKeepsInv(socket.session, a);
    O.ApplyShape(socket.session, a);
    assert FeedOk(pubs, socket.session.subs[i], socket.cursors[i]);
    FeedAdvances(pubs, socket.session.subs[i], socket.cursors[i], p);
  }

  lemma NoiseKeepsSocket(pubs: seq<Publication>, socket: Socket, i: nat)
    requires SocketOk(pubs, socket) && P.Enabled(socket.session, P.RedisDelivers(i, P.Malformed))
    ensures SocketOk(pubs, socket.(session := P.Apply(socket.session, P.RedisDelivers(i, P.Malformed))))
  {
    var a := P.RedisDelivers(i, P.Malformed);
    O.StepKeepsInv(socket.session, a);
    O.ApplyShape(socket.session, a);
    assert FeedOk(pubs, socket.session.subs[i], socket.cursors[i]);
    FeedIgnoresNoise(pubs, socket.session.subs[i], socket.cursors[i]);
  }

  lemma NewSocketIsOk(s: System, convs: seq<Id>)
    ensures SocketOk(s.published, OpenSocket(s, convs))
  {
    O.OpenEstablishesInv(convs);
  }

  lemma OneSocketChanges(s: System, j: nat, socket: Socket)
    requires SocketsOk(s) && j < |s.sockets| && SocketOk(s.published, socket)
    ensures SocketsOk(s.(sockets := s.sockets[j := socket]))
  {
  }

  lemma DeliveryKeepsSockets(s: System, j: nat, i: nat, p: nat)
    requires SocketsOk(s) && Enabled(s, Delivered(j, i, p))
    ensures SocketsOk(Apply(s, Delivered(j, i, p)))
  {
    assert SocketOk(s.published, s.sockets[j]);
    RedisKeepsSocket(s.published, s.sockets[j], i, p);
    OneSocketChanges(s, j, Receive(s.sockets[j], i, p, s.published[p].message));
  }

  lemma GarbageKeepsSockets(s: System, j: nat, i: nat)
    requires SocketsOk(s) && Enabled(s, Garbled(j, i))
    ensures SocketsOk(Apply(s, Garbled(j, i)))
  {
    assert SocketOk(s.published, s.sockets[j]);
    NoiseKeepsSocket(s.published, s.sockets[j], i);
    OneSocketChanges(s, j, s.sockets[j].(session := P.Apply(s.sockets[j].session, P.RedisDelivers(i, P.Malformed))));
  }

  lemma SessionStepKeepsSockets(s: System, j: nat, a: P.Action)
    requires SocketsOk(s) && Enabled(s, SessionSteps(j, a))
    ensures SocketsOk(Apply(s, SessionSteps(j, a)))
  {
    assert SocketOk(s.published, s.sockets[j]);
    SessionCodeKeepsSocket(s.published, s.sockets[j], a);
    OneSocketChanges(s, j, s.sockets[j].(session := P.Apply(s.sockets[j].session, a)));
  }

  lemma PublishKeepsSockets(s: System, pub: Publication)
    requires SocketsOk(s)
    ensures SocketsOk(s.(published := s.published + [pub]))
  {
    forall j | 0 <= j < |s.sockets|
      ensures SocketOk(s.published + [pub], s.sockets[j])
    {
      var socket := s.sockets[j];
      assert SocketOk(s.published, socket);
      forall i | 0 <= i < |socket.cursors|
        ensures FeedOk(s.published + [pub], socket.session.subs[i], socket.cursors[i])
      {
        FeedSurvivesPublish(s.published, pub, socket.session.subs[i], socket.cursors[i]);
      }
    }
  }

  lemma EventKeepsSockets(s: System, e: Event)
    requires SocketsOk(s) && Enabled(s, e)
    ensures SocketsOk(Apply(s, e))
  {
    match e
    case Connects(convs) => NewSocketIsOk(s, convs);
    case Published(k, _) =>
      PublishKeepsSockets(s, Publication(s.sends[k].message.conversationId, s.sends[k].message));
    case Delivered(j, i, p) => DeliveryKeepsSockets(s, j, i, p);
    case Garbled(j, i) => GarbageKeepsSockets(s, j, i);
    case SessionSteps(j, a) => SessionStepKeepsSockets(s, j, a);
    case _ =>
  }

  ghost predicate MessagesOk(s: System) {
    StoredOk(s) && PendingOk(s) && PublishedOk(s)
  }

  lemma SaveKeepsMessages(s: System, k: nat, now: Time, next: Send)
    requires MessagesOk(s) && k < |s.sends| && s.sends[k].Admitted?
    requires next == Publishing(RowFor(s.sends[k].request, s.nextId, now)) || next == Finished
    ensures var m := RowFor(s.sends[k].request, s.nextId, now);
            MessagesOk(s.(stored := s.stored + [m], nextId := s.nextId + 1, sends := s.sends[k := next]))
  {
    var m := RowFor(s.sends[k].request, s.nextId, now);
    assert (s.stored + [m])[|s.stored|] == m;
    forall p | 0 <= p < |s.published|
      ensures s.published[p].message.id < s.nextId
    {
      assert s.published[p].message in s.stored;
      var a :| 0 <= a < |s.stored| && s.stored[a] == s.published[p].message;
    }
    forall l | 0 <= l < |s.sends| && s.sends[l].Publishing?
      ensures s.sends[l].message.id < s.nextId
    {
      assert s.sends[l].message in s.stored;
      var a :| 0 <= a < |s.stored| && s.stored[a] == s.sends[l].message;
    }
  }

  lemma PublishKeepsMessages(s: System, k: nat)
    requires MessagesOk(s) && k < |s.sends| && s.sends[k].Publishing?
    ensures var m := s.sends[k].message;
            MessagesOk(s.(sends := s.sends[k := Finished],
                          published := s.published + [Publication(m.conversationId, m)]))
  {
  }

  lemma SendStateKeepsMessages(s: System, sends: seq<Send>)
    requires MessagesOk(s)
    requires forall l :: 0 <= l < |sends| && sends[l].Publishing? ==> l < |s.sends| && sends[l] == s.sends[l]
    ensures MessagesOk(s.(sends := sends))
  {
  }

  lemma SendEventKeepsMessages(s: System, e: Event)
    requires MessagesOk(s) && Enabled(s, e) && (e.SendBegins? || e.AccessChecked?)
    ensures MessagesOk(Apply(s, e))
  {
    match e
    case SendBegins(q) => SendStateKeepsMessages(s, s.sends + [Begun(q)]);
    case AccessChecked(k, dbOk) =>
      SendStateKeepsMessages(s, s.sends[k := AfterCheck(s, s.sends[k].request, dbOk)]);
  }

  lemma SavedKeepsMessages(s: System, k: nat, outcome: Outcome, now: Time)
    requires MessagesOk(s) && Enabled(s, Saved(k, outcome, now))
    ensures MessagesOk(Apply(s, Saved(k, outcome, now)))
  {
    if !outcome.Fails? && References(s, s.sends[k].request) {
      SaveKeepsMessages(s, k, now, if outcome.Succeeds? then Publishing(RowFor(s.sends[k].request, s.nextId, now)) else Finished);
    } else {
      SendStateKeepsMessages(s, s.sends[k := Finished]);
    }
  }

  lemma PublishedKeepsMessages(s: System, k: nat, redisOk: bool)
    requires MessagesOk(s) && Enabled(s, Published(k, redisOk))
    ensures MessagesOk(Apply(s, Published(k, redisOk)))
  {
    if redisOk {
      PublishKeepsMessages(s, k);
    } else {
      SendStateKeepsMessages(s, s.sends[k := Finished]);
    }
  }

  /** Other events leave sends, stored and published messages alone. */
  lemma OtherEventsLeaveMessages(s: System, e: Event)
    requires Enabled(s, e) && !e.SendBegins? && !e.AccessChecked? && !e.Saved? && !e.Published?
    ensures var t := Apply(s, e);
            t.sends == s.sends && t.stored == s.stored && t.published == s.published && t.nextId == s.nextId
  {
  }

  lemma SameMessages(s: System, t: System)
    requires MessagesOk(s) && t.sends == s.sends && t.stored == s.stored && t.published == s.published && t.nextId == s.nextId
    ensures MessagesOk(t)
  {
  }

  lemma EventKeepsMessages(s: System, e: Event)
    requires MessagesOk(s) && Enabled(s, e)
    ensures MessagesOk(Apply(s, e))
  {
    if e.SendBegins? || e.AccessChecked? {
      SendEventKeepsMessages(s, e);
    } else if e.Saved? {
      SavedKeepsMessages(s, e.k, e.outcome, e.now);
    } else if e.Published? {
      PublishedKeepsMessages(s, e.k, e.redisOk);
    } else {
      OtherEventsLeaveMessages(s, e);
      SameMessages(s, Apply(s, e));
    }
  }

  lemma EventKeepsInv(s: System, e: Event)
    requires Inv(s) && Enabled(s, e)
    ensures Inv(Apply(s, e))
  {
    EventKeepsSockets(s, e);
    EventKeepsMessages(s, e);
  }

  lemma {:induction false} RunKeepsInv(s: System, events: seq<Event>)
    requires Initial(s) && IsRun(s, events)
    ensures Inv(Run(s, events))
    decreases |events|
  {
    if events != [] {
      RunKeepsInv(s, events[..|events| - 1]);
      EventKeepsInv(Run(s, events[..|events| - 1]), events[|events| - 1]);
    }
  }

  lemma {:induction false} PrefixIsRun(s: System, events: seq<Event>, n: nat)
    requires IsRun(s, events) && n <= |events|
    ensures IsRun(s, events[..n])
    decreases |events|
  {
    if n == |events| {
      assert events[..n] == events;
    } else {
      PrefixIsRun(s, events[..|events| - 1], n);
      assert events[..|events| - 1][..n] == events[..n];
    }
  }

  // ---------------------------------------------------------------- results over all runs

  /** Some strictly earlier state of the run in which the pair is a member with access. */
  ghost predicate HadAccess(s: System, events: seq<Event>, w: Id, p: Id) {
    exists n :: 0 <= n < |events| && IsRun(s, events[..n]) && HasAccess(Run(s, events[..n]).members, w, p)
  }

  lemma HadAccessStays(s: System, events: seq<Event>, w: Id, p: Id)
    requires events != [] && HadAccess(s, events[..|events| - 1], w, p)
    ensures HadAccess(s, events, w, p)
  {
    var front := events[..|events| - 1];
    var n :| 0 <= n < |front| && IsRun(s, front[..n]) && HasAccess(Run(s, front[..n]).members, w, p);
    assert front[..n] == events[..n];
  }

  lemma {:induction false} AdmittedHadAccess(s: System, events: seq<Event>, k: nat)
    requires Initial(s) && IsRun(s, events)
    requires k < |Run(s, events).sends| && Run(s, events).sends[k].Admitted?
    ensures var q := Run(s, events).sends[k].request; HadAccess(s, events, q.workspaceId, q.personId)
    decreases |events|
  {
    var front, e := events[..|events| - 1], events[|events| - 1];
    var q := Run(s, events).sends[k].request;
    if e.AccessChecked? && e.k == k {
      assert HasAccess(Run(s, front).members, q.workspaceId, q.personId);
    } else {
      assert k < |Run(s, front).sends| && Run(s, front).sends[k] == Run(s, events).sends[k];
      AdmittedHadAccess(s, front, k);
      HadAccessStays(s, events, q.workspaceId, q.personId);
    }
  }

  /** Every stored message has an earlier state in which its sender was a member with access. */
  lemma {:induction false} StoredHadAccess(s: System, events: seq<Event>, m: ChatMessage)
    requires Initial(s) && IsRun(s, events) && m in Run(s, events).stored
    ensures HadAccess(s, events, m.workspaceId, m.personId)
    decreases |events|
  {
    var front, e := events[..|events| - 1], events[|events| - 1];
    if m in Run(s, front).stored {
      StoredHadAccess(s, front, m);
    } else {
      AdmittedHadAccess(s, front, e.k);
    }
    HadAccessStays(s, events, m.workspaceId, m.personId);
  }

  lemma {:induction false} LogEntryIsDelivered(log: seq<P.Written>, k: nat)
    requires k < |log|
    ensures log[k].message in P.Delivered(log, log[k].sub)
    decreases |log|
  {
    if k < |log| - 1 {
      LogEntryIsDelivered(log[..|log| - 1], k);
    }
  }

  /** What a session wrote, Redis had delivered to the subscription. */
  lemma WrittenWasFed(t: P.Session, k: nat)
    requires P.Inv(t) && k < |t.log|
    ensures t.log[k].sub < |t.subs| && t.log[k].message in P.Decoded(t.subs[t.log[k].sub].history)
    ensures t.log[k].frame == P.FrameOf(t.subs[t.log[k].sub].conv, t.log[k].message)
  {
    var sub := t.subs[t.log[k].sub];
    assert P.SubOk(t, t.log[k].sub);
    LogEntryIsDelivered(t.log, k);
    O.DecodedConcat(sub.history[..sub.consumed], sub.history[sub.consumed..]);
    assert sub.history[..sub.consumed] + sub.history[sub.consumed..] == sub.history;
  }

  lemma FedWasPublished(published: seq<Publication>, sub: P.Sub, cursor: nat, m: ChatMessage)
    requires FeedOk(published, sub, cursor) && m in P.Decoded(sub.history)
    ensures exists p :: 0 <= p < |published| && published[p].message == m && published[p].channel == sub.conv
  {
    var pubs := published[..cursor];
    SubsequenceElements(P.Decoded(sub.history), ChannelLog(pubs, sub.conv), m);
    ChannelLogElements(pubs, sub.conv, m);
    var p :| 0 <= p < |pubs| && pubs[p].message == m && pubs[p].channel == sub.conv;
    assert published[p] == pubs[p];
  }

  /** A frame says what a stored and published message says, under the conversation that message belongs to. */
  lemma FramesShowPublications(s: System, j: nat, k: nat)
    requires Inv(s) && j < |s.sockets| && k < |s.sockets[j].session.log|
    ensures var w := s.sockets[j].session.log[k];
            && w.message in s.stored
            && Publication(w.message.conversationId, w.message) in s.published
            && w.frame.id == w.message.id && w.frame.conversationId == w.message.conversationId
            && w.frame.personId == w.message.personId && w.frame.senderName == w.message.senderName
            && w.frame.content == w.message.content && w.frame.createdAt == w.message.createdAt
  {
    var socket := s.sockets[j];
    var i, m := socket.session.log[k].sub, socket.session.log[k].message;
    assert SocketOk(s.published, socket);
    WrittenWasFed(socket.session, k);
    assert FeedOk(s.published, socket.session.subs[i], socket.cursors[i]);
    FedWasPublished(s.published, socket.session.subs[i], socket.cursors[i], m);
    var p :| 0 <= p < |s.published| && s.published[p].message == m && s.published[p].channel == socket.session.subs[i].conv;
  }

  ghost predicate UniqueIds(ms: seq<ChatMessage>) {
    forall a, b :: 0 <= a < b < |ms| ==> ms[a].id != ms[b].id
  }

  lemma SubsequenceKeepsUniqueIds(ms: seq<ChatMessage>, all: seq<ChatMessage>)
    requires IsSubsequence(ms, all) && UniqueIds(all)
    ensures UniqueIds(ms)
  {
    SubsequenceIsDistinct(ms, all);
    forall a, b | 0 <= a < b < |ms|
      ensures ms[a].id != ms[b].id
    {
      SubsequenceElements(ms, all, ms[a]);
      SubsequenceElements(ms, all, ms[b]);
    }
  }

  /** No subscription's stream repeats a message, and it follows the order of its channel. */
  lemma StreamsNeverRepeat(s: System, j: nat, i: nat)
    requires Inv(s) && j < |s.sockets| && i < |s.sockets[j].session.subs|
    ensures var t := s.sockets[j].session;
            && UniqueIds(P.Decoded(t.subs[i].history))
            && IsSubsequence(P.Decoded(t.subs[i].history), ChannelLog(s.published, t.subs[i].conv))
  {
    var socket := s.sockets[j];
    var sub := socket.session.subs[i];
    assert SocketOk(s.published, socket) && FeedOk(s.published, sub, socket.cursors[i]);
    ChannelLogGrows(s.published, socket.cursors[i], |s.published|, sub.conv);
    assert s.published[..|s.published|] == s.published;
    var seen, all := ChannelLog(s.published[..socket.cursors[i]], sub.conv), ChannelLog(s.published, sub.conv);
    assert all == seen + all[|seen|..];
    SubsequenceOfLonger(P.Decoded(sub.history), seen, all[|seen|..]);
    ChannelLogDistinct(s.published, sub.conv);
    SubsequenceKeepsUniqueIds(P.Decoded(sub.history), all);
  }

  /** Was stored in a strictly earlier state of the run. */
  ghost predicate WasStored(s: System, events: seq<Event>, m: ChatMessage) {
    exists n :: 0 <= n < |events| && IsRun(s, events[..n]) && m in Run(s, events[..n]).stored
  }

  lemma SavesDoNotDeliver(s: System, e: Event)
    requires Enabled(s, e)
    ensures Apply(s, e).stored == s.stored || Apply(s, e).sockets == s.sockets
  {
  }

  lemma FrameWasStoredEarlier(s: System, events: seq<Event>, j: nat, k: nat)
    requires Initial(s) && IsRun(s, events)
    requires j < |Run(s, events).sockets| && k < |Run(s, events).sockets[j].session.log|
    ensures WasStored(s, events, Run(s, events).sockets[j].session.log[k].message)
  {
    var n := |events| - 1;
    var before := Run(s, events[..n]);
    SavesDoNotDeliver(before, events[n]);
    if before.sockets == Run(s, events).sockets {
      RunKeepsInv(s, events[..n]);
      FramesShowPublications(before, j, k);
    } else {
      RunKeepsInv(s, events);
      FramesShowPublications(Run(s, events), j, k);
    }
  }

  /**
    Causality over whole runs.  Each saved message is published at most once and on its own
    conversation's channel; every frame on every socket carries the conversation of a message that
    was saved strictly earlier; and the sender of every stored message had access strictly earlier.
   */
  lemma WholeRunCausality(s: System, events: seq<Event>)
    requires Initial(s) && IsRun(s, events)
    ensures var t := Run(s, events);
            && (forall p, q :: 0 <= p < q < |t.published| ==> t.published[p].message.id != t.published[q].message.id)
            && (forall p :: 0 <= p < |t.published| ==>
                  t.published[p].message in t.stored && t.published[p].channel == t.published[p].message.conversationId)
            && (forall j, k :: 0 <= j < |t.sockets| && 0 <= k < |t.sockets[j].session.log| ==>
                  var w := t.sockets[j].session.log[k];
                  WasStored(s, events, w.message) && w.frame.conversationId == w.message.conversationId)
            && (forall m :: m in t.stored ==> HadAccess(s, events, m.workspaceId, m.personId))
  {
    var t := Run(s, events);
    RunKeepsInv(s, events);
    forall j, k | 0 <= j < |t.sockets| && 0 <= k < |t.sockets[j].session.log|
      ensures var w := t.sockets[j].session.log[k];
              WasStored(s, events, w.message) && w.frame.conversationId == w.message.conversationId
    {
      FrameWasStoredEarlier(s, events, j, k);
      FramesShowPublications(t, j, k);
    }
    forall m | m in t.stored
      ensures HadAccess(s, events, m.workspaceId, m.personId)
    {
      StoredHadAccess(s, events, m);
    }
  }

  // ---------------------------------------------------------------- what the code does not promise

  const SURPRISE: SendRequest := SendRequest(1, 5, 7, "Alice", "hi")

  const SURPRISED: System := System({1, 2}, map[5 := 2], [MemberRow(1, 7, ADMIN, true)], [], 1, [], [], [])

  /** Two sends of one person begin and pass the access check. */
  lemma BothAdmitted() returns (events: seq<Event>)
    ensures IsRun(SURPRISED, events) && forall i :: 2 <= i < |events| ==> !events[i].SendBegins?
    ensures Run(SURPRISED, events) == SURPRISED.(sends := [Admitted(SURPRISE), Admitted(SURPRISE)])
  {
    var s := SURPRISED;
    RunSnoc(s, [], SendBegins(SURPRISE));
    var e1 := [] + [SendBegins(SURPRISE)];
    RunSnoc(s, e1, SendBegins(SURPRISE));
    var e2 := e1 + [SendBegins(SURPRISE)];
    RunSnoc(s, e2, AccessChecked(0, true));
    var e3 := e2 + [AccessChecked(0, true)];
    RunSnoc(s, e3, AccessChecked(1, true));
    events := e3 + [AccessChecked(1, true)];
  }

  /** Then the sender's access is revoked. */
  lemma RevokedAfterCheck() returns (events: seq<Event>)
    ensures IsRun(SURPRISED, events) && forall i :: 2 <= i < |events| ==> !events[i].SendBegins?
    ensures Run(SURPRISED, events) ==
            SURPRISED.(members := [MemberRow(1, 7, ADMIN, false)], sends := [Admitted(SURPRISE), Admitted(SURPRISE)])
  {
    var e4 := BothAdmitted();
    var revoke := MembershipChanges(Request.UpdateMemberAccess(1, 7, false));
    RunSnoc(SURPRISED, e4, revoke);
    events := e4 + [revoke];
  }

  lemma StoredAfterRevocation() returns (events: seq<Event>, n: nat)
    ensures n <= |events| && IsRun(SURPRISED, events) && IsRun(SURPRISED, events[..n])
    ensures forall i :: 2 <= i < |events| ==> !events[i].SendBegins?
    ensures Run(SURPRISED, events[..n]) ==
            SURPRISED.(members := [MemberRow(1, 7, ADMIN, false)], sends := [Admitted(SURPRISE), Admitted(SURPRISE)])
    ensures var x, y := RowFor(SURPRISE, 1, 100), RowFor(SURPRISE, 2, 101);
            Run(SURPRISED, events) ==
            SURPRISED.(members := [MemberRow(1, 7, ADMIN, false)], stored := [x, y], nextId := 3, sends := [Publishing(x), Publishing(y)])
  {
    var e5 := RevokedAfterCheck();
    n := |e5|;
    RunSnoc(SURPRISED, e5, Saved(0, Succeeds, 100));
    var e6 := e5 + [Saved(0, Succeeds, 100)];
    RunSnoc(SURPRISED, e6, Saved(1, Succeeds, 101));
    events := e6 + [Saved(1, Succeeds, 101)];
    assert events[..n] == e5;
  }

  /** The second publish fires first. */
  lemma PublishedBackwards(e7: seq<Event>) returns (last: seq<Event>)
    requires IsRun(SURPRISED, e7) && |Run(SURPRISED, e7).sends| == 2
    requires Run(SURPRISED, e7).sends[0].Publishing? && Run(SURPRISED, e7).sends[1].Publishing?
    ensures IsRun(SURPRISED, e7 + last) && forall i :: 0 <= i < |last| ==> !last[i].SendBegins?
    ensures var s, t := Run(SURPRISED, e7), Run(SURPRISED, e7 + last);
            && t.stored == s.stored
            && t.published == s.published + [Publication(s.sends[1].message.conversationId, s.sends[1].message)]
                              + [Publication(s.sends[0].message.conversationId, s.sends[0].message)]
  {
    RunSnoc(SURPRISED, e7, Published(1, true));
    var e8 := e7 + [Published(1, true)];
    RunSnoc(SURPRISED, e8, Published(0, true));
    last := [Published(1, true), Published(0, true)];
    assert e7 + last == e8 + [Published(0, true)];
  }

  /**
    One run with three surprises: messages are published in the opposite order of their saves, both
    are saved after their sender's access was revoked, and both belong to workspace 1 while their
    conversation belongs to workspace 2.
   */
  lemma UnpromisedOrderAccessAndWorkspace() returns (events: seq<Event>, n: nat)
    ensures Initial(SURPRISED) && IsRun(SURPRISED, events)
    ensures forall i :: 2 <= i < |events| ==> !events[i].SendBegins?
    ensures var t := Run(SURPRISED, events);
            && |t.stored| == 2
            && t.published == [Publication(5, t.stored[1]), Publication(5, t.stored[0])]
            && t.stored[0].workspaceId == t.stored[1].workspaceId != SURPRISED.conversations[5]
    ensures n <= |events| && IsRun(SURPRISED, events[..n]) && Run(SURPRISED, events[..n]).stored == []
            && !HasAccess(Run(SURPRISED, events[..n]).members, 1, 7)
  {
    var e7;
    e7, n := StoredAfterRevocation();
    var last := PublishedBackwards(e7);
    events := e7 + last;
    assert events[..n] == e7[..n];
  }
}

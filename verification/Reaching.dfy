/**
  Messages can arrive: from every reachable state an admitted request can be saved, published,
  delivered and written, and then the browser shows it.  The runs here are made, not assumed.
 */
module Reaching {
  import opened Entities
  import opened Sequences
  import opened Membership
  import opened Messaging
  import opened Causality
  import opened SendConditions
  import opened EndToEnd
  import P = Pipeline
  import O = PipelineOrder
  import D = PipelineShutdown
  import R = Replica

  ghost predicate Extends(tr: Trace, tr': Trace) {
    && IsTrace(tr) && IsTrace(tr')
    && |tr.events| <= |tr'.events| && tr'.events[..|tr.events|] == tr.events
    && tr'.states[..|tr.states|] == tr.states
  }

  lemma ExtendsSame(tr: Trace)
    requires IsTrace(tr)
    ensures Extends(tr, tr)
  {
    assert tr.events[..|tr.events|] == tr.events && tr.states[..|tr.states|] == tr.states;
  }

  lemma ExtendsBy(tr: Trace, e: Event) returns (tr': Trace)
    requires IsTrace(tr) && Enabled(Last(tr), e)
    ensures Extends(tr, tr') && Last(tr') == Apply(Last(tr), e)
  {
    tr' := Trace(tr.events + [e], tr.states + [Apply(Last(tr), e)]);
    TraceSnoc(tr, e);
  }

  lemma ExtendsThen(a: Trace, b: Trace, c: Trace)
    requires Extends(a, b) && Extends(b, c)
    ensures Extends(a, c)
  {
    assert c.events[..|a.events|] == b.events[..|a.events|];
    assert c.states[..|a.states|] == b.states[..|a.states|];
  }

  // ---------------------------------------------------------------- send and publish

  lemma BeginAndCheck(tr: Trace, q: SendRequest) returns (tr': Trace)
    requires IsTrace(tr) && HasAccess(Last(tr).members, q.workspaceId, q.personId) && NewMessage(q).Ok?
    ensures Extends(tr, tr') && Last(tr') == Last(tr).(sends := Last(tr).sends + [Admitted(q)])
  {
    var s, k := Last(tr), |Last(tr).sends|;
    var begun := ExtendsBy(tr, SendBegins(q));
    tr' := ExtendsBy(begun, AccessChecked(k, true));
    ExtendsThen(tr, begun, tr');
    assert (s.sends + [Begun(q)])[k := Admitted(q)] == s.sends + [Admitted(q)];
  }

  lemma SaveAndPublish(tr: Trace, k: nat, q: SendRequest, now: Time) returns (tr': Trace, m: ChatMessage)
    requires IsTrace(tr) && k < |Last(tr).sends| && Last(tr).sends[k] == Admitted(q) && References(Last(tr), q)
    ensures Extends(tr, tr') && Carries(m, q) && m.createdAt == now
    ensures var s, t := Last(tr), Last(tr');
            && t.stored == s.stored + [m] && t.sockets == s.sockets
            && t.published == s.published + [Publication(q.conversationId, m)]
  {
    var s := Last(tr);
    m := RowFor(q, s.nextId, now);
    var saved := ExtendsBy(tr, Saved(k, Succeeds, now));
    assert Last(saved).sends[k] == Publishing(m);
    tr' := ExtendsBy(saved, Published(k, true));
    ExtendsThen(tr, saved, tr');
  }

  lemma SendIsPublished(tr: Trace, q: SendRequest, now: Time) returns (tr': Trace, m: ChatMessage)
    requires IsTrace(tr) && HasAccess(Last(tr).members, q.workspaceId, q.personId) && NewMessage(q).Ok? && References(Last(tr), q)
    ensures Extends(tr, tr') && Carries(m, q) && m.createdAt == now
    ensures var s, t := Last(tr), Last(tr');
            && m in t.stored && t.sockets == s.sockets
            && t.published == s.published + [Publication(q.conversationId, m)]
  {
    var checked := BeginAndCheck(tr, q);
    tr', m := SaveAndPublish(checked, |Last(tr).sends|, q, now);
    ExtendsThen(tr, checked, tr');
    assert Last(tr').stored[|Last(checked).stored|] == m;
  }

  // ---------------------------------------------------------------- deliver and write

  /** A subscription to the conversation that nothing has disturbed. */
  ghost predicate IsOpenTo(socket: Socket, i: nat, conv: Id) {
    && i < |socket.session.subs| && i < |socket.cursors| && socket.session.subs[i].conv == conv
    && !socket.session.cancelled && !socket.session.writeFailed && !P.RedisIsClosed(socket.session, i)
  }

  lemma DeliverLatest(tr: Trace, j: nat, i: nat, conv: Id, m: ChatMessage) returns (tr': Trace)
    requires IsTrace(tr) && j < |Last(tr).sockets| && IsOpenTo(Last(tr).sockets[j], i, conv)
    requires Last(tr).published != [] && Last(tr).published[|Last(tr).published| - 1] == Publication(conv, m)
    requires Last(tr).sockets[j].cursors[i] < |Last(tr).published|
    ensures Extends(tr, tr') && Last(tr').stored == Last(tr).stored
    ensures var s, t := Last(tr), Last(tr');
            && j < |t.sockets| && IsOpenTo(t.sockets[j], i, conv)
            && t.sockets[j].session.subs[i].history == s.sockets[j].session.subs[i].history + [P.Event(m)]
  {
    var s, p := Last(tr), |Last(tr).published| - 1;
    var a := P.RedisDelivers(i, P.Event(m));
    O.ApplyShape(s.sockets[j].session, a);
    tr' := ExtendsBy(tr, Delivered(j, i, p));
  }

  /** The steps of one session, as steps of the whole system. */
  lemma {:induction false} SessionRuns(tr: Trace, j: nat, actions: seq<P.Action>) returns (tr': Trace)
    requires IsTrace(tr) && j < |Last(tr).sockets| && P.IsRun(Last(tr).sockets[j].session, actions)
    requires forall k :: 0 <= k < |actions| ==> !P.Environment(actions[k])
    ensures Extends(tr, tr') && Last(tr').stored == Last(tr).stored
    ensures j < |Last(tr').sockets| && Last(tr').sockets[j].session == P.Run(Last(tr).sockets[j].session, actions)
    decreases |actions|
  {
    if actions == [] {
      ExtendsSame(tr);
      return tr;
    }
    var one := ExtendsBy(tr, SessionSteps(j, actions[0]));
    tr' := SessionRuns(one, j, actions[1..]);
    ExtendsThen(tr, one, tr');
  }

  lemma DeliverAndWrite(tr: Trace, j: nat, i: nat, conv: Id, m: ChatMessage) returns (tr': Trace)
    requires IsTrace(tr) && Initial(tr.states[0]) && j < |Last(tr).sockets| && IsOpenTo(Last(tr).sockets[j], i, conv)
    requires Last(tr).published != [] && Last(tr).published[|Last(tr).published| - 1] == Publication(conv, m)
    requires Last(tr).sockets[j].cursors[i] < |Last(tr).published|
    ensures Extends(tr, tr') && Last(tr').stored == Last(tr).stored
    ensures j < |Last(tr').sockets| && i < |Last(tr').sockets[j].session.subs|
    ensures m in P.Delivered(Last(tr').sockets[j].session.log, i)
  {
    var delivered := DeliverLatest(tr, j, i, conv, m);
    TraceInv(delivered, |delivered.events|);
    var session := Last(delivered).sockets[j].session;
    assert SocketOk(Last(delivered).published, Last(delivered).sockets[j]);
    var actions := D.SessionCanCatchUp(session, i);
    tr' := SessionRuns(delivered, j, actions);
    ExtendsThen(tr, delivered, tr');
    var before := Last(tr).sockets[j].session.subs[i].history;
    O.DecodedSnoc(before, P.Event(m));
    assert (P.Decoded(before) + [m])[|P.Decoded(before)|] == m;
  }

  // ---------------------------------------------------------------- shown

  lemma {:induction false} DeliveredIsLogged(log: seq<P.Written>, i: nat, m: ChatMessage) returns (k: nat)
    requires m in P.Delivered(log, i)
    ensures k < |log| && log[k].message == m
    decreases |log|
  {
    var front, last := log[..|log| - 1], log[|log| - 1];
    if m in P.Delivered(front, i) {
      k := DeliveredIsLogged(front, i, m);
    } else {
      k := |log| - 1;
    }
  }

  /** Every frame's id is in its conversation's list. */
  lemma {:induction false} FramesAreListed(frames: seq<P.OutboundMessage>, k: nat)
    requires k < |frames|
    ensures R.HasId(R.ListOf(R.Replay(map[], frames), frames[k].conversationId), frames[k].id)
  {
    var front, last := frames[..|frames| - 1], frames[|frames| - 1];
    var lists := R.Replay(map[], front);
    var list := R.ListOf(lists, last.conversationId);
    if k < |front| {
      FramesAreListed(front, k);
      assert front[k] == frames[k];
      R.HasIdSnoc(list, last, frames[k].id);
    } else {
      R.HasIdSnoc(list, last, last.id);
    }
  }

  lemma SameIdSameMessage(t: System, x: ChatMessage, y: ChatMessage)
    requires StoredOk(t) && x in t.stored && y in t.stored && x.id == y.id
    ensures x == y
  {
    var a :| 0 <= a < |t.stored| && t.stored[a] == x;
    var b :| 0 <= b < |t.stored| && t.stored[b] == y;
  }

  lemma WrittenIsShown(t: System, j: nat, i: nat, m: ChatMessage) returns (k: nat)
    requires Inv(t) && j < |t.sockets| && m in P.Delivered(t.sockets[j].session.log, i) && m in t.stored
    ensures k < |ShownTo(t.sockets[j], m.conversationId)| && R.Tells(ShownTo(t.sockets[j], m.conversationId)[k], m.conversationId, m)
  {
    var log, conv := t.sockets[j].session.log, m.conversationId;
    var n := DeliveredIsLogged(log, i, m);
    FramesShowPublications(t, j, n);
    FramesAreListed(R.FramesOn(log), n);
    assert R.FramesOn(log)[n].conversationId == conv && R.FramesOn(log)[n].id == m.id;
    k :| 0 <= k < |ShownTo(t.sockets[j], conv)| && ShownTo(t.sockets[j], conv)[k].id == m.id;
    var shown := ListedWasWritten(t, j, conv, k);
    SameIdSameMessage(t, shown, m);
  }

  /**
    From every reachable state, whatever is under way and whatever Redis has skipped so far: a request
    with content, by somebody with access, for an existing workspace and conversation can be sent, and
    a socket with an undisturbed subscription to the conversation can come to show just what was sent.
   */
  lemma EverySendCanBeShown(tr: Trace, q: SendRequest, now: Time, j: nat, i: nat) returns (tr': Trace, k: nat)
    requires IsTrace(tr) && Initial(tr.states[0])
    requires var s := Last(tr);
             && HasAccess(s.members, q.workspaceId, q.personId)
             && q.workspaceId != NIL && q.conversationId != NIL && q.personId != NIL && q.content != ""
             && q.workspaceId in s.workspaces && q.conversationId in s.conversations
             && j < |s.sockets| && IsOpenTo(s.sockets[j], i, q.conversationId)
    ensures Extends(tr, tr') && j < |Last(tr').sockets|
    ensures var list := ShownTo(Last(tr').sockets[j], q.conversationId);
            && k < |list| && list[k].conversationId == q.conversationId && list[k].personId == q.personId
            && list[k].senderName == q.senderName && list[k].content == q.content && list[k].createdAt == now
  {
    TraceInv(tr, |tr.events|);
    assert SocketOk(Last(tr).published, Last(tr).sockets[j]);
    assert FeedOk(Last(tr).published, Last(tr).sockets[j].session.subs[i], Last(tr).sockets[j].cursors[i]);
    var published, m := SendIsPublished(tr, q, now);
    tr' := DeliverAndWrite(published, j, i, q.conversationId, m);
    ExtendsThen(tr, published, tr');
    TraceInv(tr', |tr'.events|);
    k := WrittenIsShown(Last(tr'), j, i, m);
  }

  /** A new connection is such a socket. */
  lemma ConnectionsAreOpen(tr: Trace, convs: seq<Id>, i: nat) returns (tr': Trace)
    requires IsTrace(tr) && i < |convs|
    ensures Extends(tr, tr') && Last(tr') == Last(tr).(sockets := Last(tr').sockets)
    ensures var j := |Last(tr).sockets|; j < |Last(tr').sockets| && IsOpenTo(Last(tr').sockets[j], i, convs[i])
  {
    tr' := ExtendsBy(tr, Connects(convs));
  }

  /** So a service that has just started can bring a first message all the way to a browser. */
  lemma FirstMessageCanBeShown(s: System, q: SendRequest, now: Time) returns (tr: Trace, k: nat)
    requires Initial(s) && HasAccess(s.members, q.workspaceId, q.personId)
    requires q.workspaceId != NIL && q.conversationId != NIL && q.personId != NIL && q.content != ""
    requires q.workspaceId in s.workspaces && q.conversationId in s.conversations
    ensures IsTrace(tr) && tr.states[0] == s && |Last(tr).sockets| > 0
    ensures var list := ShownTo(Last(tr).sockets[0], q.conversationId);
            k < |list| && list[k].personId == q.personId && list[k].senderName == q.senderName && list[k].content == q.content
  {
    var start := Trace([], [s]);
    var connected := ConnectionsAreOpen(start, [q.conversationId], 0);
    assert connected.states[0] == connected.states[..|start.states|][0] == s;
    tr, k := EverySendCanBeShown(connected, q, now, 0, 0);
    assert tr.states[0] == tr.states[..|connected.states|][0];
  }
}

/**
  Exactly when a run meets what the send path leaves open: that a message's conversation lies in its
  workspace, that its sender still has access when it is saved, and that a channel carries messages
  in the order in which they were saved.
 */
module SendConditions {
  import opened Entities
  import opened Membership
  import opened Messaging
  import opened Causality

  lemma TraceStep(tr: Trace, n: nat)
    requires IsTrace(tr) && n < |tr.events|
    ensures Enabled(tr.states[n], tr.events[n]) && tr.states[n + 1] == Apply(tr.states[n], tr.events[n])
  {
    assert StepsAt(tr, n);
  }

  lemma TracePrevious(tr: Trace, n: nat)
    requires IsTrace(tr) && 0 < n <= |tr.events|
    ensures Enabled(tr.states[n - 1], tr.events[n - 1]) && tr.states[n] == Apply(tr.states[n - 1], tr.events[n - 1])
  {
    assert StepsAt(tr, n - 1);
  }

  lemma TraceSnoc(tr: Trace, e: Event)
    requires IsTrace(tr) && Enabled(Last(tr), e)
    ensures IsTrace(Trace(tr.events + [e], tr.states + [Apply(Last(tr), e)]))
  {
    var longer := Trace(tr.events + [e], tr.states + [Apply(Last(tr), e)]);
    forall n: nat | n < |longer.events|
      ensures StepsAt(longer, n)
    {
      assert n < |tr.events| ==> StepsAt(tr, n);
    }
  }

  /** Traces are runs with their states: every run has one. */
  lemma {:induction false} TraceOf(s: System, events: seq<Event>) returns (tr: Trace)
    requires IsRun(s, events)
    ensures IsTrace(tr) && tr.events == events && tr.states[0] == s && Last(tr) == Run(s, events)
    decreases |events|
  {
    if events == [] {
      tr := Trace([], [s]);
    } else {
      var front, e := events[..|events| - 1], events[|events| - 1];
      var before := TraceOf(s, front);
      TraceSnoc(before, e);
      tr := Trace(before.events + [e], before.states + [Apply(Last(before), e)]);
      assert front + [e] == events;
    }
  }

  /** And every trace is one of a run. */
  lemma {:induction false} TraceIsRun(tr: Trace, n: nat)
    requires IsTrace(tr) && n <= |tr.events|
    ensures IsRun(tr.states[0], tr.events[..n]) && Run(tr.states[0], tr.events[..n]) == tr.states[n]
    decreases n
  {
    if n > 0 {
      TraceIsRun(tr, n - 1);
      TracePrevious(tr, n);
      assert tr.events[..n][..|tr.events[..n]| - 1] == tr.events[..n - 1] && tr.events[..n][|tr.events[..n]| - 1] == tr.events[n - 1];
    }
  }

  lemma {:induction false} TraceInv(tr: Trace, n: nat)
    requires IsTrace(tr) && Initial(tr.states[0]) && n <= |tr.events|
    ensures Inv(tr.states[n])
    decreases n
  {
    if n > 0 {
      TraceInv(tr, n - 1);
      TracePrevious(tr, n);
      EventKeepsInv(tr.states[n - 1], tr.events[n - 1]);
    }
  }

  /** What no event changes, and what only grows. */
  lemma {:induction false} OnlyGrows(tr: Trace, i: nat, n: nat)
    requires IsTrace(tr) && i <= n <= |tr.events|
    ensures var t, u := tr.states[i], tr.states[n];
            && u.workspaces == t.workspaces && u.conversations == t.conversations
            && t.nextId <= u.nextId && t.stored <= u.stored && t.published <= u.published
            && |t.sends| <= |u.sends|
    decreases n
  {
    if i < n {
      OnlyGrows(tr, i, n - 1);
      TracePrevious(tr, n);
    }
  }

  // ---------------------------------------------------------------- where a stored message comes from

  /** The event stores a row, whether or not it is reported as failed. */
  predicate Saves(s: System, e: Event) {
    e.Saved? && Enabled(s, e) && !e.outcome.Fails? && References(s, s.sends[e.k].request)
  }

  function SavedRow(s: System, e: Event): ChatMessage
    requires Saves(s, e)
  {
    RowFor(s.sends[e.k].request, s.nextId, e.now)
  }

  ghost predicate SavedAt(tr: Trace, n: nat, m: ChatMessage)
    requires IsTrace(tr)
  {
    n < |tr.events| && Saves(tr.states[n], tr.events[n]) && SavedRow(tr.states[n], tr.events[n]) == m
  }

  lemma {:induction false} StoredWasSaved(tr: Trace, n: nat, m: ChatMessage) returns (i: nat)
    requires IsTrace(tr) && Initial(tr.states[0]) && n <= |tr.events| && m in tr.states[n].stored
    ensures i < n && SavedAt(tr, i, m)
    decreases n
  {
    TracePrevious(tr, n);
    if m in tr.states[n - 1].stored {
      i := StoredWasSaved(tr, n - 1, m);
    } else {
      i := n - 1;
    }
  }

  lemma SavedIsStored(tr: Trace, n: nat, m: ChatMessage)
    requires IsTrace(tr) && SavedAt(tr, n, m)
    ensures m in Last(tr).stored
  {
    TraceStep(tr, n);
    OnlyGrows(tr, n + 1, |tr.events|);
    var t := tr.states[n];
    assert tr.states[n + 1].stored == t.stored + [m];
    assert Last(tr).stored[|t.stored|] == m;
  }

  // ---------------------------------------------------------------- the conversation's workspace

  predicate InOwnWorkspace(s: System, q: SendRequest) {
    q.conversationId in s.conversations && s.conversations[q.conversationId] == q.workspaceId
  }

  predicate LiesInItsWorkspace(s: System, m: ChatMessage) {
    m.conversationId in s.conversations && s.conversations[m.conversationId] == m.workspaceId
  }

  /** All stored messages lie in their conversation's workspace exactly if every request that was saved named one of its own. */
  lemma WorkspacesAgreeIff(tr: Trace)
    requires IsTrace(tr) && Initial(tr.states[0])
    ensures (forall m :: m in Last(tr).stored ==> LiesInItsWorkspace(tr.states[0], m))
            <==>
            forall n: nat | n < |tr.events| && Saves(tr.states[n], tr.events[n]) ::
              InOwnWorkspace(tr.states[0], tr.states[n].sends[tr.events[n].k].request)
  {
    forall m | m in Last(tr).stored
      ensures exists n: nat :: SavedAt(tr, n, m)
    {
      var n := StoredWasSaved(tr, |tr.events|, m);
    }
    forall n: nat | n < |tr.events| && Saves(tr.states[n], tr.events[n])
      ensures SavedRow(tr.states[n], tr.events[n]) in Last(tr).stored
    {
      SavedIsStored(tr, n, SavedRow(tr.states[n], tr.events[n]));
    }
  }

  // ---------------------------------------------------------------- the life of one send

  /** Call `k` arrived with the request as event `b`. */
  ghost predicate BeganAt(tr: Trace, b: nat, k: nat, q: SendRequest)
    requires IsTrace(tr)
  {
    b < |tr.events| && tr.events[b] == SendBegins(q) && |tr.states[b].sends| == k
  }

  /** Event `c` is the call's own look-up, and finds a member with access. */
  ghost predicate CheckedAt(tr: Trace, c: nat, k: nat, q: SendRequest)
    requires IsTrace(tr)
  {
    c < |tr.events| && tr.events[c] == AccessChecked(k, true) && HasAccess(tr.states[c].members, q.workspaceId, q.personId)
  }

  lemma SendStep(t: System, e: Event, k: nat)
    requires Enabled(t, e) && k < |Apply(t, e).sends|
    ensures var send := Apply(t, e).sends[k];
            && (send.Begun? ==> if k < |t.sends| then t.sends[k] == send else e == SendBegins(send.request) && k == |t.sends|)
            && (send.Admitted? ==>
                  k < |t.sends|
                  && (t.sends[k] == send
                      || (t.sends[k] == Begun(send.request) && e == AccessChecked(k, true)
                          && HasAccess(t.members, send.request.workspaceId, send.request.personId))))
            && (send.Publishing? ==>
                  k < |t.sends| && (t.sends[k] == send || (t.sends[k].Admitted? && send.message.id == t.nextId)))
  {
  }

  lemma {:induction false} BegunSince(tr: Trace, n: nat, k: nat) returns (b: nat)
    requires IsTrace(tr) && Initial(tr.states[0]) && n <= |tr.events|
    requires var t := tr.states[n]; k < |t.sends| && t.sends[k].Begun?
    ensures b < n && BeganAt(tr, b, k, tr.states[n].sends[k].request)
    decreases n
  {
    TracePrevious(tr, n);
    var before := tr.states[n - 1];
    SendStep(before, tr.events[n - 1], k);
    if k < |before.sends| {
      b := BegunSince(tr, n - 1, k);
    } else {
      b := n - 1;
    }
  }

  lemma {:induction false} AdmittedSince(tr: Trace, n: nat, k: nat) returns (b: nat, c: nat)
    requires IsTrace(tr) && Initial(tr.states[0]) && n <= |tr.events|
    requires var t := tr.states[n]; k < |t.sends| && t.sends[k].Admitted?
    ensures b < c < n
    ensures var q := tr.states[n].sends[k].request; BeganAt(tr, b, k, q) && CheckedAt(tr, c, k, q)
    decreases n
  {
    TracePrevious(tr, n);
    var before := tr.states[n - 1];
    SendStep(before, tr.events[n - 1], k);
    if before.sends[k] == tr.states[n].sends[k] {
      b, c := AdmittedSince(tr, n - 1, k);
    } else {
      c := n - 1;
      b := BegunSince(tr, n - 1, k);
    }
  }

  /** A caller who only names conversations of the workspace stores only messages that lie in it. */
  lemma OwnConversationsSuffice(tr: Trace)
    requires IsTrace(tr) && Initial(tr.states[0])
    requires forall n: nat | n < |tr.events| && tr.events[n].SendBegins? :: InOwnWorkspace(tr.states[0], tr.events[n].send)
    ensures forall m :: m in Last(tr).stored ==> LiesInItsWorkspace(tr.states[0], m)
  {
    WorkspacesAgreeIff(tr);
    forall n: nat | n < |tr.events| && Saves(tr.states[n], tr.events[n])
      ensures InOwnWorkspace(tr.states[0], tr.states[n].sends[tr.events[n].k].request)
    {
      var b, c := AdmittedSince(tr, n, tr.events[n].k);
    }
  }

  // ---------------------------------------------------------------- access at the save

  /** The membership requests among the events from `i` up to `n`. */
  function ChangesBetween(events: seq<Event>, i: nat, n: nat): seq<Membership.Request>
    requires n <= |events|
  {
    if n <= i then []
    else
      var front := ChangesBetween(events, i, n - 1);
      match events[n - 1]
      case MembershipChanges(q) => front + [q]
      case _ => front
  }

  /** Whether access that was there before the changes is still there after them: the last update decides. */
  predicate StillGranted(workspaces: set<Id>, changes: seq<Membership.Request>, w: Id, p: Id) {
    match LastAccessUpdate(workspaces, changes, w, p)
    case Some(granted) => granted
    case None => true
  }

  lemma StillGrantedSnoc(workspaces: set<Id>, changes: seq<Membership.Request>, q: Membership.Request, w: Id, p: Id)
    ensures StillGranted(workspaces, changes + [q], w, p)
            == if Concerns(workspaces, q, w, p) && q.UpdateMemberAccess? then q.hasAccess else StillGranted(workspaces, changes, w, p)
  {
    assert (changes + [q])[..|changes|] == changes;
  }

  lemma {:induction false} MembersStayUnique(tr: Trace, n: nat)
    requires IsTrace(tr) && Initial(tr.states[0]) && n <= |tr.events|
    ensures UniqueRows(tr.states[n].members)
    decreases n
  {
    if n > 0 {
      MembersStayUnique(tr, n - 1);
      TracePrevious(tr, n);
      if tr.events[n - 1].MembershipChanges? {
        var t, q := tr.states[n - 1], tr.events[n - 1].request;
        EffectOnRow(t.workspaces, t.members, q, q.workspaceId, q.personId);
      }
    }
  }

  lemma AccessStep(t: System, e: Event, w: Id, p: Id)
    requires UniqueRows(t.members) && Enabled(t, e) && RowOf(t.members, w, p).Some?
    ensures RowOf(Apply(t, e).members, w, p).Some?
    ensures HasAccess(Apply(t, e).members, w, p)
            == if e.MembershipChanges? && Concerns(t.workspaces, e.request, w, p) && e.request.UpdateMemberAccess?
               then e.request.hasAccess else HasAccess(t.members, w, p)
  {
    if e.MembershipChanges? {
      EffectOnRow(t.workspaces, t.members, e.request, w, p);
    }
  }

  /** The pair has a row at `n`, and access exactly if the changes since `i` left it granted. */
  ghost predicate AccessTracks(tr: Trace, i: nat, n: nat, w: Id, p: Id)
    requires IsTrace(tr) && n <= |tr.events|
  {
    var members := tr.states[n].members;
    && RowOf(members, w, p).Some?
    && HasAccess(members, w, p) == StillGranted(tr.states[0].workspaces, ChangesBetween(tr.events, i, n), w, p)
  }

  lemma WorkspacesStay(tr: Trace, n: nat)
    requires IsTrace(tr) && n <= |tr.events|
    ensures tr.states[n].workspaces == tr.states[0].workspaces
  {
    OnlyGrows(tr, 0, n);
  }

  lemma AccessTracksStep(tr: Trace, i: nat, n: nat, w: Id, p: Id)
    requires IsTrace(tr) && Initial(tr.states[0]) && i < n <= |tr.events| && AccessTracks(tr, i, n - 1, w, p)
    ensures AccessTracks(tr, i, n, w, p)
  {
    TracePrevious(tr, n);
    MembersStayUnique(tr, n - 1);
    WorkspacesStay(tr, n - 1);
    AccessStep(tr.states[n - 1], tr.events[n - 1], w, p);
    if tr.events[n - 1].MembershipChanges? {
      StillGrantedSnoc(tr.states[0].workspaces, ChangesBetween(tr.events, i, n - 1), tr.events[n - 1].request, w, p);
    }
  }

  lemma {:induction false} AccessSince(tr: Trace, i: nat, n: nat, w: Id, p: Id)
    requires IsTrace(tr) && Initial(tr.states[0]) && i <= n <= |tr.events| && HasAccess(tr.states[i].members, w, p)
    ensures AccessTracks(tr, i, n, w, p)
    decreases n
  {
    if i < n {
      AccessSince(tr, i, n - 1, w, p);
      AccessTracksStep(tr, i, n, w, p);
    }
  }

  /**
    Every stored message was begun, then checked, then saved, by one call; at its check the sender
    had access; and the sender still has it at the save exactly if the last access update for the
    pair between the two, if there is one, granted it.
   */
  lemma AccessAtSaveIff(tr: Trace, m: ChatMessage) returns (k: nat, began: nat, checked: nat, saved: nat)
    requires IsTrace(tr) && Initial(tr.states[0]) && m in Last(tr).stored
    ensures began < checked < saved < |tr.events|
    ensures SavedAt(tr, saved, m) && tr.events[saved].k == k
    ensures var q := tr.states[saved].sends[k].request;
            && Carries(m, q) && m.createdAt == tr.events[saved].now
            && BeganAt(tr, began, k, q) && CheckedAt(tr, checked, k, q)
    ensures HasAccess(tr.states[saved].members, m.workspaceId, m.personId)
            <==> StillGranted(tr.states[0].workspaces, ChangesBetween(tr.events, checked, saved), m.workspaceId, m.personId)
  {
    saved := StoredWasSaved(tr, |tr.events|, m);
    k := tr.events[saved].k;
    began, checked := AdmittedSince(tr, saved, k);
    AccessSince(tr, checked, saved, m.workspaceId, m.personId);
  }

  // ---------------------------------------------------------------- the order of a channel

  /** Stored before. */
  predicate Older(stored: seq<ChatMessage>, x: ChatMessage, y: ChatMessage) {
    exists i, j :: 0 <= i < j < |stored| && stored[i] == x && stored[j] == y
  }

  ghost predicate InSaveOrder(log: seq<ChatMessage>, stored: seq<ChatMessage>) {
    forall a, b :: 0 <= a < b < |log| ==> Older(stored, log[a], log[b])
  }

  ghost predicate AscendingIds(log: seq<ChatMessage>) {
    forall a, b :: 0 <= a < b < |log| ==> log[a].id < log[b].id
  }

  lemma OlderMeansSmallerId(s: System, x: ChatMessage, y: ChatMessage)
    requires StoredOk(s) && x in s.stored && y in s.stored
    ensures Older(s.stored, x, y) <==> x.id < y.id
  {
    var i :| 0 <= i < |s.stored| && s.stored[i] == x;
    var j :| 0 <= j < |s.stored| && s.stored[j] == y;
    assert i < j <==> x.id < y.id;
  }

  lemma SaveOrderIsIdOrder(s: System, c: Id)
    requires Inv(s)
    ensures InSaveOrder(ChannelLog(s.published, c), s.stored) <==> AscendingIds(ChannelLog(s.published, c))
  {
    var log := ChannelLog(s.published, c);
    forall a | 0 <= a < |log|
      ensures log[a] in s.stored
    {
      ChannelLogElements(s.published, c, log[a]);
    }
    forall a, b | 0 <= a < b < |log|
      ensures Older(s.stored, log[a], log[b]) <==> log[a].id < log[b].id
    {
      OlderMeansSmallerId(s, log[a], log[b]);
    }
  }

  /** The event puts the message on the channel. */
  predicate Publishes(s: System, e: Event, c: Id, m: ChatMessage) {
    e.Published? && e.redisOk && Enabled(s, e) && s.sends[e.k].message == m && m.conversationId == c
  }

  /** Event `i` publishes on the channel while an older message is pending, which event `j` publishes later. */
  ghost predicate Overtakes(tr: Trace, c: Id, i: nat, j: nat)
    requires IsTrace(tr)
  {
    && i < j < |tr.events| && tr.events[i].Published? && tr.events[j].Published?
    && var t := tr.states[i];
       && tr.events[i].k < |t.sends| && tr.events[j].k < |t.sends| && t.sends[tr.events[i].k].Publishing? && t.sends[tr.events[j].k].Publishing?
       && var x, y := t.sends[tr.events[i].k].message, t.sends[tr.events[j].k].message;
          && Publishes(t, tr.events[i], c, x) && Publishes(tr.states[j], tr.events[j], c, y)
          && Older(t.stored, y, x)
  }

  ghost predicate IsOvertaken(tr: Trace, c: Id, j: nat)
    requires IsTrace(tr)
  {
    exists i: nat :: Overtakes(tr, c, i, j)
  }

  /** One step back: what is pending and was saved before `i` was pending. */
  lemma PendingBefore(tr: Trace, i: nat, n: nat, k: nat)
    requires IsTrace(tr) && i < n <= |tr.events|
    requires var t := tr.states[n];
             k < |t.sends| && t.sends[k].Publishing? && t.sends[k].message.id < tr.states[i].nextId
    ensures k < |tr.states[n - 1].sends| && tr.states[n - 1].sends[k] == tr.states[n].sends[k]
  {
    TracePrevious(tr, n);
    OnlyGrows(tr, i, n - 1);
    SendStep(tr.states[n - 1], tr.events[n - 1], k);
  }

  /** What is pending at `n` and was saved before `i` was pending at `i` already. */
  lemma {:induction false} PendingSince(tr: Trace, i: nat, n: nat, k: nat)
    requires IsTrace(tr) && i <= n <= |tr.events|
    requires var t := tr.states[n];
             k < |t.sends| && t.sends[k].Publishing? && t.sends[k].message.id < tr.states[i].nextId
    ensures k < |tr.states[i].sends| && tr.states[i].sends[k] == tr.states[n].sends[k]
    decreases n
  {
    if i < n {
      PendingBefore(tr, i, n, k);
      PendingSince(tr, i, n - 1, k);
    }
  }

  lemma {:induction false} LoggedWasPublished(tr: Trace, n: nat, c: Id, m: ChatMessage) returns (i: nat)
    requires IsTrace(tr) && Initial(tr.states[0]) && n <= |tr.events| && m in ChannelLog(tr.states[n].published, c)
    ensures i < n && Publishes(tr.states[i], tr.events[i], c, m)
    decreases n
  {
    TracePrevious(tr, n);
    var t := tr.states[n - 1];
    if m in ChannelLog(t.published, c) {
      i := LoggedWasPublished(tr, n - 1, c, m);
    } else {
      i := n - 1;
      var x := t.sends[tr.events[i].k].message;
      ChannelLogSnoc(t.published, Publication(x.conversationId, x), c);
    }
  }

  lemma LogGrowsPast(before: seq<Publication>, pub: Publication, later: seq<Publication>)
    requires before + [pub] <= later
    ensures pub.message in ChannelLog(later, pub.channel)
  {
    var now, log := before + [pub], ChannelLog(before, pub.channel);
    ChannelLogSnoc(before, pub, pub.channel);
    assert ChannelLog(now, pub.channel)[|log|] == pub.message;
    ChannelLogGrows(later, |now|, |later|, pub.channel);
    assert later[..|now|] == now && later[..|later|] == later;
  }

  lemma PublishedIsLogged(tr: Trace, i: nat, n: nat, c: Id, m: ChatMessage)
    requires IsTrace(tr) && i < n <= |tr.events| && Publishes(tr.states[i], tr.events[i], c, m)
    ensures m in ChannelLog(tr.states[n].published, c)
  {
    var t, u := tr.states[i], tr.states[n];
    TraceStep(tr, i);
    OnlyGrows(tr, i + 1, n);
    LogGrowsPast(t.published, Publication(c, m), u.published);
  }

  /** The message overtaken is the one that is published later. */
  lemma OvertakenIsThisOne(tr: Trace, c: Id, i: nat, n: nat, y: ChatMessage)
    requires IsTrace(tr) && Initial(tr.states[0]) && n < |tr.events| && Publishes(tr.states[n], tr.events[n], c, y)
    requires Overtakes(tr, c, i, n)
    ensures var u := tr.states[i];
            u.sends[tr.events[n].k].message == y && y in u.stored && u.sends[tr.events[i].k].message in u.stored
  {
    TraceInv(tr, i);
  }

  lemma PublishOvertakes(tr: Trace, c: Id, i: nat, n: nat, x: ChatMessage, y: ChatMessage)
    requires IsTrace(tr) && Initial(tr.states[0]) && i < n < |tr.events|
    requires Publishes(tr.states[i], tr.events[i], c, x) && Publishes(tr.states[n], tr.events[n], c, y)
    requires y.id < x.id
    ensures Overtakes(tr, c, i, n)
  {
    var u := tr.states[i];
    TraceInv(tr, i);
    assert x in u.stored;
    assert x.id < u.nextId;
    PendingSince(tr, i, n, tr.events[n].k);
    OlderMeansSmallerId(u, y, x);
  }

  /** A publish at `n` breaks the order of the channel exactly if some earlier publish overtook its message. */
  lemma LateIffOvertaken(tr: Trace, c: Id, n: nat, y: ChatMessage)
    requires IsTrace(tr) && Initial(tr.states[0]) && n < |tr.events| && Publishes(tr.states[n], tr.events[n], c, y)
    ensures (exists x :: x in ChannelLog(tr.states[n].published, c) && y.id < x.id)
            <==> IsOvertaken(tr, c, n)
  {
    var t := tr.states[n];
    if x :| x in ChannelLog(t.published, c) && y.id < x.id {
      var i := LoggedWasPublished(tr, n, c, x);
      PublishOvertakes(tr, c, i, n, x, y);
    }
    if IsOvertaken(tr, c, n) {
      var i: nat :| Overtakes(tr, c, i, n);
      var u := tr.states[i];
      var x := u.sends[tr.events[i].k].message;
      PublishedIsLogged(tr, i, n, c, x);
      TraceInv(tr, i);
      OvertakenIsThisOne(tr, c, i, n, y);
      OlderMeansSmallerId(u, y, x);
    }
  }

  ghost predicate NoOvertaking(tr: Trace, c: Id, n: nat)
    requires IsTrace(tr)
  {
    forall i: nat, j: nat | i < j < n :: !Overtakes(tr, c, i, j)
  }

  lemma AscendingSnoc(log: seq<ChatMessage>, y: ChatMessage)
    requires forall x :: x in log ==> x.id != y.id
    ensures AscendingIds(log + [y]) <==> AscendingIds(log) && !(exists x :: x in log && y.id < x.id)
  {
    var longer := log + [y];
    if AscendingIds(longer) {
      forall a | 0 <= a < |log|
        ensures log[a].id < y.id
      {
        assert longer[a] == log[a] && longer[|log|] == y;
      }
      forall a, b | 0 <= a < b < |log|
        ensures log[a].id < log[b].id
      {
        assert longer[a] == log[a] && longer[b] == log[b];
      }
    }
  }

  ghost predicate AscendsAt(tr: Trace, c: Id, n: nat)
    requires IsTrace(tr) && n <= |tr.events|
  {
    AscendingIds(ChannelLog(tr.states[n].published, c))
  }

  /** The order of the channel at `n` tells whether a publish overtook another before. */
  ghost predicate OrderTellsOvertaking(tr: Trace, c: Id, n: nat) {
    && IsTrace(tr) && n <= |tr.events|
    && (AscendsAt(tr, c, n) <==> NoOvertaking(tr, c, n))
  }

  lemma NoOvertakingSnoc(tr: Trace, c: Id, n: nat)
    requires IsTrace(tr) && 0 < n <= |tr.events|
    ensures NoOvertaking(tr, c, n)
            <==> NoOvertaking(tr, c, n - 1) && !IsOvertaken(tr, c, n - 1)
  {
  }

  lemma PublishedOnce(tr: Trace, c: Id, n: nat, y: ChatMessage)
    requires IsTrace(tr) && Initial(tr.states[0]) && n < |tr.events| && Publishes(tr.states[n], tr.events[n], c, y)
    ensures forall x :: x in ChannelLog(tr.states[n].published, c) ==> x.id != y.id
  {
    var t := tr.states[n];
    TraceInv(tr, n);
    forall x | x in ChannelLog(t.published, c)
      ensures x.id != y.id
    {
      ChannelLogElements(t.published, c, x);
    }
  }

  lemma QuietEvent(t: System, e: Event, c: Id)
    requires Enabled(t, e)
    requires !(e.Published? && e.redisOk && t.sends[e.k].message.conversationId == c)
    ensures ChannelLog(Apply(t, e).published, c) == ChannelLog(t.published, c)
  {
    if e.Published? && e.redisOk {
      var m := t.sends[e.k].message;
      ChannelLogSnoc(t.published, Publication(m.conversationId, m), c);
    }
  }

  /** The log after a publish is in order exactly if it was before and nothing newer was on it. */
  lemma OneMorePublish(tr: Trace, c: Id, n: nat)
    requires IsTrace(tr) && Initial(tr.states[0]) && 0 < n <= |tr.events|
    requires var t, e := tr.states[n - 1], tr.events[n - 1];
             e.Published? && e.redisOk && e.k < |t.sends| && t.sends[e.k].Publishing? && t.sends[e.k].message.conversationId == c
    ensures AscendsAt(tr, c, n) <==> AscendsAt(tr, c, n - 1) && !IsOvertaken(tr, c, n - 1)
  {
    var t, e := tr.states[n - 1], tr.events[n - 1];
    var y := t.sends[e.k].message;
    TracePrevious(tr, n);
    ChannelLogSnoc(t.published, Publication(c, y), c);
    PublishedOnce(tr, c, n - 1, y);
    AscendingSnoc(ChannelLog(t.published, c), y);
    LateIffOvertaken(tr, c, n - 1, y);
  }

  lemma QuietIsNotLate(tr: Trace, c: Id, n: nat)
    requires IsTrace(tr) && n < |tr.events|
    requires var t, e := tr.states[n], tr.events[n];
             Enabled(t, e) && !(e.Published? && e.redisOk && t.sends[e.k].message.conversationId == c)
    ensures !IsOvertaken(tr, c, n)
  {
  }

  lemma OneQuietEvent(tr: Trace, c: Id, n: nat)
    requires IsTrace(tr) && Initial(tr.states[0]) && 0 < n <= |tr.events|
    requires var t, e := tr.states[n - 1], tr.events[n - 1];
             Enabled(t, e) && !(e.Published? && e.redisOk && t.sends[e.k].message.conversationId == c)
    ensures AscendsAt(tr, c, n) <==> AscendsAt(tr, c, n - 1) && !IsOvertaken(tr, c, n - 1)
  {
    TracePrevious(tr, n);
    QuietEvent(tr.states[n - 1], tr.events[n - 1], c);
    QuietIsNotLate(tr, c, n - 1);
  }

  lemma AscendsSnoc(tr: Trace, c: Id, n: nat)
    requires IsTrace(tr) && Initial(tr.states[0]) && 0 < n <= |tr.events|
    ensures AscendsAt(tr, c, n) <==> AscendsAt(tr, c, n - 1) && !IsOvertaken(tr, c, n - 1)
  {
    var t, e := tr.states[n - 1], tr.events[n - 1];
    TracePrevious(tr, n);
    if e.Published? && e.redisOk && t.sends[e.k].message.conversationId == c {
      OneMorePublish(tr, c, n);
    } else {
      OneQuietEvent(tr, c, n);
    }
  }

  lemma OneMoreEvent(tr: Trace, c: Id, n: nat)
    requires IsTrace(tr) && Initial(tr.states[0]) && 0 < n <= |tr.events| && OrderTellsOvertaking(tr, c, n - 1)
    ensures OrderTellsOvertaking(tr, c, n)
  {
    AscendsSnoc(tr, c, n);
    NoOvertakingSnoc(tr, c, n);
  }

  lemma OrderAtStart(tr: Trace, c: Id)
    requires IsTrace(tr) && Initial(tr.states[0])
    ensures OrderTellsOvertaking(tr, c, 0)
  {
    assert ChannelLog(tr.states[0].published, c) == [];
  }

  lemma {:induction false} AscendingIffNoOvertaking(tr: Trace, c: Id, n: nat)
    requires IsTrace(tr) && Initial(tr.states[0]) && n <= |tr.events|
    ensures OrderTellsOvertaking(tr, c, n)
    decreases n
  {
    if n == 0 {
      OrderAtStart(tr, c);
    } else {
      AscendingIffNoOvertaking(tr, c, n - 1);
      OneMoreEvent(tr, c, n);
    }
  }

  /**
    A channel carries messages in the order in which they were saved exactly if no publish on it
    fires while an older message is pending that is published later.
   */
  lemma ChannelInSaveOrderIff(tr: Trace, c: Id)
    requires IsTrace(tr) && Initial(tr.states[0])
    ensures InSaveOrder(ChannelLog(Last(tr).published, c), Last(tr).stored)
            <==> NoOvertaking(tr, c, |tr.events|)
  {
    AscendingIffNoOvertaking(tr, c, |tr.events|);
    TraceInv(tr, |tr.events|);
    SaveOrderIsIdOrder(Last(tr), c);
  }

  // ---------------------------------------------------------------- senders that take turns

  /** A send for the conversation that has begun and whose publish is not over. */
  predicate Unfinished(send: Send, c: Id) {
    match send
    case Begun(q) => q.conversationId == c
    case Admitted(q) => q.conversationId == c
    case Publishing(m) => m.conversationId == c
    case Finished => false
  }

  ghost predicate OneAtATime(s: System, c: Id) {
    forall j, k :: 0 <= j < k < |s.sends| ==> !(Unfinished(s.sends[j], c) && Unfinished(s.sends[k], c))
  }

  lemma OneAtATimeStep(t: System, e: Event, c: Id)
    requires OneAtATime(t, c) && Enabled(t, e)
    requires e.SendBegins? && e.send.conversationId == c ==> forall k :: 0 <= k < |t.sends| ==> !Unfinished(t.sends[k], c)
    ensures OneAtATime(Apply(t, e), c)
  {
    var u := Apply(t, e);
    forall k | 0 <= k < |t.sends| && Unfinished(u.sends[k], c)
      ensures Unfinished(t.sends[k], c)
    {
    }
  }

  /** Each send for the conversation begins only when no other one is unfinished. */
  ghost predicate TakeTurns(tr: Trace, c: Id)
    requires IsTrace(tr)
  {
    forall n: nat | n < |tr.events| && tr.events[n].SendBegins? && tr.events[n].send.conversationId == c ::
      forall k :: 0 <= k < |tr.states[n].sends| ==> !Unfinished(tr.states[n].sends[k], c)
  }

  lemma {:induction false} TurnsStaySeparate(tr: Trace, c: Id, n: nat)
    requires IsTrace(tr) && Initial(tr.states[0]) && TakeTurns(tr, c) && n <= |tr.events|
    ensures OneAtATime(tr.states[n], c)
    decreases n
  {
    if n > 0 {
      TurnsStaySeparate(tr, c, n - 1);
      TracePrevious(tr, n);
      OneAtATimeStep(tr.states[n - 1], tr.events[n - 1], c);
    }
  }

  lemma PublishedSendIsSame(tr: Trace, c: Id, i: nat, j: nat)
    requires IsTrace(tr) && Initial(tr.states[0]) && Overtakes(tr, c, i, j)
    ensures tr.states[i].sends[tr.events[i].k].message.conversationId == c
    ensures tr.states[i].sends[tr.events[j].k].message.conversationId == c
  {
  }

  lemma OvertakingNeedsTwo(tr: Trace, c: Id, i: nat, j: nat)
    requires IsTrace(tr) && Initial(tr.states[0]) && Overtakes(tr, c, i, j)
    ensures !OneAtATime(tr.states[i], c)
  {
    var t := tr.states[i];
    TraceInv(tr, i);
    var x, y := t.sends[tr.events[i].k].message, t.sends[tr.events[j].k].message;
    OlderMeansSmallerId(t, y, x);
    PublishedSendIsSame(tr, c, i, j);
    assert Unfinished(t.sends[tr.events[i].k], c) && Unfinished(t.sends[tr.events[j].k], c);
    assert tr.events[i].k < tr.events[j].k || tr.events[j].k < tr.events[i].k;
  }

  /** If the senders of a conversation take turns, its channel carries their messages in the order of the saves. */
  lemma TurnsKeepSaveOrder(tr: Trace, c: Id)
    requires IsTrace(tr) && Initial(tr.states[0]) && TakeTurns(tr, c)
    ensures InSaveOrder(ChannelLog(Last(tr).published, c), Last(tr).stored)
  {
    ChannelInSaveOrderIff(tr, c);
    forall i: nat, j: nat | i < j < |tr.events|
      ensures !Overtakes(tr, c, i, j)
    {
      TurnsStaySeparate(tr, c, i);
      if Overtakes(tr, c, i, j) {
        OvertakingNeedsTwo(tr, c, i, j);
      }
    }
  }

  lemma NothingPendingAtFirst(tr: Trace, n: nat)
    requires IsTrace(tr) && Initial(tr.states[0]) && n <= |tr.events| && n <= 1
    ensures forall k :: 0 <= k < |tr.states[n].sends| ==> !tr.states[n].sends[k].Publishing?
  {
    if n == 1 {
      TracePrevious(tr, 1);
    }
  }

  lemma BackwardsIsNotSaveOrder(tr: Trace)
    requires IsTrace(tr) && Initial(tr.states[0]) && |Last(tr).stored| == 2
    requires Last(tr).published == [Publication(5, Last(tr).stored[1]), Publication(5, Last(tr).stored[0])]
    ensures !InSaveOrder(ChannelLog(Last(tr).published, 5), Last(tr).stored)
  {
    var t := Last(tr);
    var x, y := t.stored[0], t.stored[1];
    var first := [] + [Publication(5, y)];
    TraceInv(tr, |tr.events|);
    ChannelLogSnoc([], Publication(5, y), 5);
    ChannelLogSnoc(first, Publication(5, x), 5);
    assert t.published == first + [Publication(5, x)];
    assert ChannelLog(t.published, 5) == [y, x];
    OlderMeansSmallerId(t, y, x);
    assert [y, x][0] == y && [y, x][1] == x;
  }

  /** It is not enough that no publish is pending when a send begins: two sends may begin, and then race. */
  lemma QuietChannelIsNotEnough() returns (tr: Trace)
    ensures IsTrace(tr) && Initial(tr.states[0])
    ensures forall n: nat | n < |tr.events| && tr.events[n].SendBegins? ::
              forall k :: 0 <= k < |tr.states[n].sends| ==> !tr.states[n].sends[k].Publishing?
    ensures !InSaveOrder(ChannelLog(Last(tr).published, 5), Last(tr).stored)
  {
    var events, r := UnpromisedOrderAccessAndWorkspace();
    tr := TraceOf(SURPRISED, events);
    forall n: nat | n < |tr.events| && tr.events[n].SendBegins?
      ensures forall k :: 0 <= k < |tr.states[n].sends| ==> !tr.states[n].sends[k].Publishing?
    {
      NothingPendingAtFirst(tr, n);
    }
    BackwardsIsNotSaveOrder(tr);
  }
}

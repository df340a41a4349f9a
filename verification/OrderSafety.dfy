/**
  Whether a channel can still get out of order, told from the state alone: which sends are under way
  for the conversation, and what has been published.
 */
module OrderSafety {
  import opened Entities
  import opened Membership
  import opened Messaging
  import opened Causality
  import opened SendConditions

  /** The send can still reach its publish; access that is missing now may be granted before the check. */
  predicate CanStillPublish(s: System, send: Send, c: Id) {
    match send
    case Begun(q) => q.conversationId == c && NewMessage(q).Ok? && References(s, q)
    case Admitted(q) => q.conversationId == c && References(s, q)
    case Publishing(m) => m.conversationId == c
    case Finished => false
  }

  /** What is pending on the channel is newer than all that was published on it. */
  ghost predicate PendingIsNewer(s: System, c: Id) {
    forall k, x | 0 <= k < |s.sends| && x in ChannelLog(s.published, c) ::
      s.sends[k].Publishing? && s.sends[k].message.conversationId == c ==> x.id < s.sends[k].message.id
  }

  ghost predicate AtMostOneCanPublish(s: System, c: Id) {
    forall j, k :: 0 <= j < k < |s.sends| ==> !(CanStillPublish(s, s.sends[j], c) && CanStillPublish(s, s.sends[k], c))
  }

  ghost predicate OrderIsSafe(s: System, c: Id) {
    AscendingIds(ChannelLog(s.published, c)) && PendingIsNewer(s, c) && AtMostOneCanPublish(s, c)
  }

  /** The event lets no new send for the conversation in. */
  predicate StartsNone(e: Event, c: Id) {
    !(e.SendBegins? && e.send.conversationId == c)
  }

  ghost predicate NoneStarts(events: seq<Event>, c: Id) {
    forall i :: 0 <= i < |events| ==> StartsNone(events[i], c)
  }

  /** No other send than `k` has moved. */
  predicate OnlyMoves(s: System, t: System, k: nat)
    requires k < |s.sends|
  {
    |t.sends| == |s.sends| && forall l :: 0 <= l < |s.sends| && l != k ==> t.sends[l] == s.sends[l]
  }

  // ---------------------------------------------------------------- a safe state stays safe

  lemma CanPublishStep(s: System, e: Event, c: Id, k: nat)
    requires Enabled(s, e) && StartsNone(e, c) && k < |Apply(s, e).sends| && CanStillPublish(Apply(s, e), Apply(s, e).sends[k], c)
    ensures k < |s.sends| && CanStillPublish(s, s.sends[k], c)
  {
  }

  lemma AtMostOneStays(s: System, e: Event, c: Id)
    requires Enabled(s, e) && StartsNone(e, c) && AtMostOneCanPublish(s, c)
    ensures AtMostOneCanPublish(Apply(s, e), c)
  {
    var t := Apply(s, e);
    forall j, k | 0 <= j < k < |t.sends| && CanStillPublish(t, t.sends[j], c) && CanStillPublish(t, t.sends[k], c)
      ensures false
    {
      CanPublishStep(s, e, c, j);
      CanPublishStep(s, e, c, k);
    }
  }

  lemma LoggedIsStored(s: System, c: Id, x: ChatMessage)
    requires Inv(s) && x in ChannelLog(s.published, c)
    ensures x in s.stored && x.id < s.nextId
  {
    ChannelLogElements(s.published, c, x);
  }

  lemma NobodyElseIsPending(s: System, k: nat, c: Id)
    requires AtMostOneCanPublish(s, c) && k < |s.sends| && s.sends[k].Publishing? && s.sends[k].message.conversationId == c
    ensures forall l :: 0 <= l < |s.sends| && l != k ==> !(s.sends[l].Publishing? && s.sends[l].message.conversationId == c)
  {
    assert CanStillPublish(s, s.sends[k], c);
    assert forall l :: 0 <= l < |s.sends| && s.sends[l].Publishing? && s.sends[l].message.conversationId == c ==>
             CanStillPublish(s, s.sends[l], c);
  }

  lemma PublishKeepsSafe(s: System, k: nat, c: Id)
    requires Inv(s) && OrderIsSafe(s, c) && Enabled(s, Published(k, true)) && s.sends[k].message.conversationId == c
    ensures OrderIsSafe(Apply(s, Published(k, true)), c)
  {
    var m := s.sends[k].message;
    var t, log := Apply(s, Published(k, true)), ChannelLog(s.published, c);
    ChannelLogSnoc(s.published, Publication(c, m), c);
    assert forall x :: x in log ==> x.id < m.id;
    AscendingSnoc(log, m);
    AtMostOneStays(s, Published(k, true), c);
    NobodyElseIsPending(s, k, c);
  }

  lemma PendingStaysNewer(s: System, e: Event, c: Id, k: nat, x: ChatMessage)
    requires Inv(s) && PendingIsNewer(s, c) && Enabled(s, e) && x in ChannelLog(s.published, c)
    requires var t := Apply(s, e); k < |t.sends| && t.sends[k].Publishing? && t.sends[k].message.conversationId == c
    ensures x.id < Apply(s, e).sends[k].message.id
  {
    LoggedIsStored(s, c, x);
    SendStep(s, e, k);
  }

  lemma OtherEventKeepsSafe(s: System, e: Event, c: Id)
    requires Inv(s) && OrderIsSafe(s, c) && Enabled(s, e) && StartsNone(e, c)
    requires !(e.Published? && e.redisOk && s.sends[e.k].message.conversationId == c)
    ensures OrderIsSafe(Apply(s, e), c)
  {
    var t := Apply(s, e);
    QuietEvent(s, e, c);
    AtMostOneStays(s, e, c);
    forall k, x | 0 <= k < |t.sends| && t.sends[k].Publishing? && t.sends[k].message.conversationId == c
                  && x in ChannelLog(s.published, c)
      ensures x.id < t.sends[k].message.id
    {
      PendingStaysNewer(s, e, c, k, x);
    }
  }

  lemma StepKeepsSafe(s: System, e: Event, c: Id)
    requires Inv(s) && OrderIsSafe(s, c) && Enabled(s, e) && StartsNone(e, c)
    ensures OrderIsSafe(Apply(s, e), c)
  {
    if e.Published? && e.redisOk && s.sends[e.k].message.conversationId == c {
      PublishKeepsSafe(s, e.k, c);
    } else {
      OtherEventKeepsSafe(s, e, c);
    }
  }

  // ---------------------------------------------------------------- reachable states

  /** The state can come next, or later, without a new send for the conversation. */
  ghost predicate CanReach(s: System, t: System, c: Id) {
    exists events :: IsRun(s, events) && NoneStarts(events, c) && Run(s, events) == t
  }

  lemma ReachSame(s: System, c: Id)
    ensures CanReach(s, s, c)
  {
    assert IsRun(s, []) && NoneStarts([], c) && Run(s, []) == s;
  }

  lemma ReachThenStep(s: System, t: System, e: Event, c: Id)
    requires CanReach(s, t, c) && Enabled(t, e) && StartsNone(e, c)
    ensures CanReach(s, Apply(t, e), c)
  {
    var events :| IsRun(s, events) && NoneStarts(events, c) && Run(s, events) == t;
    RunSnoc(s, events, e);
    assert NoneStarts(events + [e], c);
  }

  lemma {:induction false} ReachThenRun(s: System, t: System, events: seq<Event>, c: Id)
    requires CanReach(s, t, c) && IsRun(t, events) && NoneStarts(events, c)
    ensures CanReach(s, Run(t, events), c)
    decreases |events|
  {
    if events != [] {
      var front, e := events[..|events| - 1], events[|events| - 1];
      assert NoneStarts(front, c) && StartsNone(e, c);
      ReachThenRun(s, t, front, c);
      ReachThenStep(s, Run(t, front), e, c);
    }
  }

  lemma ReachThen(s: System, t: System, u: System, c: Id)
    requires CanReach(s, t, c) && CanReach(t, u, c)
    ensures CanReach(s, u, c)
  {
    var events :| IsRun(t, events) && NoneStarts(events, c) && Run(t, events) == u;
    ReachThenRun(s, t, events, c);
  }

  lemma ReachStep(s: System, e: Event, c: Id)
    requires Enabled(s, e) && StartsNone(e, c)
    ensures CanReach(s, Apply(s, e), c)
  {
    ReachSame(s, c);
    ReachThenStep(s, s, e, c);
  }

  lemma {:induction false} LaterStatesAreOk(s: System, events: seq<Event>, c: Id)
    requires Inv(s) && IsRun(s, events) && NoneStarts(events, c)
    ensures Inv(Run(s, events))
    ensures OrderIsSafe(s, c) ==> OrderIsSafe(Run(s, events), c)
    decreases |events|
  {
    if events != [] {
      var front, e := events[..|events| - 1], events[|events| - 1];
      assert NoneStarts(front, c) && StartsNone(e, c);
      LaterStatesAreOk(s, front, c);
      EventKeepsInv(Run(s, front), e);
      if OrderIsSafe(s, c) {
        StepKeepsSafe(Run(s, front), e, c);
      }
    }
  }

  lemma ReachedIsOk(s: System, t: System, c: Id)
    requires Inv(s) && CanReach(s, t, c)
    ensures Inv(t) && (OrderIsSafe(s, c) ==> OrderIsSafe(t, c))
  {
    var events :| IsRun(s, events) && NoneStarts(events, c) && Run(s, events) == t;
    LaterStatesAreOk(s, events, c);
  }

  // ---------------------------------------------------------------- an unsafe state can go wrong

  /** A state in which only send `k` has moved, up to a pending publish on the channel. */
  ghost predicate IsReady(s: System, t: System, k: nat, c: Id)
    requires k < |s.sends|
  {
    && Inv(t) && UniqueRows(t.members)
    && t.published == s.published && t.workspaces == s.workspaces && t.conversations == s.conversations
    && OnlyMoves(s, t, k)
    && t.sends[k].Publishing? && t.sends[k].message.conversationId == c
  }

  lemma SavesNow(s: System, k: nat, c: Id) returns (t: System)
    requires Inv(s) && UniqueRows(s.members) && k < |s.sends| && s.sends[k].Admitted? && CanStillPublish(s, s.sends[k], c)
    ensures CanReach(s, t, c) && IsReady(s, t, k, c)
  {
    var save := Saved(k, Succeeds, 0);
    t := Apply(s, save);
    EventKeepsInv(s, save);
    ReachStep(s, save, c);
  }

  /** Access is granted if need be, and the check passes. */
  lemma PassesCheck(s: System, k: nat, c: Id) returns (t: System)
    requires Inv(s) && UniqueRows(s.members) && k < |s.sends| && s.sends[k].Begun?
    requires NewMessage(s.sends[k].request).Ok? && References(s, s.sends[k].request)
    ensures CanReach(s, t, c) && Inv(t) && UniqueRows(t.members)
    ensures t == s.(members := t.members, sends := s.sends[k := Admitted(s.sends[k].request)])
  {
    var q := s.sends[k].request;
    var grant := MembershipChanges(Request.UpdateMemberAccess(q.workspaceId, q.personId, true));
    var granted := Apply(s, grant);
    EffectOnRow(s.workspaces, s.members, grant.request, q.workspaceId, q.personId);
    EventKeepsInv(s, grant);
    ReachStep(s, grant, c);
    var check := AccessChecked(k, true);
    t := Apply(granted, check);
    EventKeepsInv(granted, check);
    ReachThenStep(s, granted, check, c);
  }

  /** A send that can publish can be brought to its publish, before any other one moves. */
  lemma GetsReady(s: System, k: nat, c: Id) returns (t: System)
    requires Inv(s) && UniqueRows(s.members) && k < |s.sends| && CanStillPublish(s, s.sends[k], c)
    ensures CanReach(s, t, c) && IsReady(s, t, k, c)
  {
    match s.sends[k] {
      case Publishing(_) =>
        t := s;
        ReachSame(s, c);
      case Admitted(_) =>
        t := SavesNow(s, k, c);
      case Begun(_) =>
        var admitted := PassesCheck(s, k, c);
        t := SavesNow(admitted, k, c);
        ReachThen(s, admitted, t, c);
    }
  }

  /** A publish out of turn: something newer is on the channel already. */
  lemma LatePublish(s: System, k: nat, c: Id, x: ChatMessage)
    requires Inv(s) && k < |s.sends| && s.sends[k].Publishing? && s.sends[k].message.conversationId == c
    requires x in ChannelLog(s.published, c) && x.id >= s.sends[k].message.id
    ensures !AscendingIds(ChannelLog(Apply(s, Published(k, true)).published, c))
  {
    var m, log := s.sends[k].message, ChannelLog(s.published, c);
    ChannelLogSnoc(s.published, Publication(c, m), c);
    forall y | y in log
      ensures y.id != m.id
    {
      ChannelLogElements(s.published, c, y);
    }
    AscendingSnoc(log, m);
  }

  lemma JustLogged(s: System, k: nat, c: Id)
    requires Enabled(s, Published(k, true)) && s.sends[k].message.conversationId == c
    ensures var t := Apply(s, Published(k, true));
            s.sends[k].message in ChannelLog(t.published, c) && OnlyMoves(s, t, k)
  {
    var y, log := s.sends[k].message, ChannelLog(s.published, c);
    ChannelLogSnoc(s.published, Publication(c, y), c);
    assert (log + [y])[|log|] == y;
  }

  /** Two pending publishes may fire in the wrong order. */
  lemma PendingRace(s: System, j: nat, k: nat, c: Id)
    requires Inv(s) && j < |s.sends| && k < |s.sends| && s.sends[j].Publishing? && s.sends[k].Publishing?
    requires s.sends[j].message.conversationId == c && s.sends[k].message.conversationId == c
    requires s.sends[j].message.id < s.sends[k].message.id
    ensures Enabled(s, Published(k, true)) && Enabled(Apply(s, Published(k, true)), Published(j, true))
    ensures !AscendingIds(ChannelLog(Apply(Apply(s, Published(k, true)), Published(j, true)).published, c))
  {
    EventKeepsInv(s, Published(k, true));
    JustLogged(s, k, c);
    LatePublish(Apply(s, Published(k, true)), j, c, s.sends[k].message);
  }

  /** Both may first be brought to their publishes. */
  lemma BothGetReady(s: System, j: nat, k: nat, c: Id) returns (t: System)
    requires Inv(s) && UniqueRows(s.members) && j < k < |s.sends|
    requires CanStillPublish(s, s.sends[j], c) && CanStillPublish(s, s.sends[k], c)
    ensures CanReach(s, t, c)
    ensures Inv(t) && |t.sends| == |s.sends| && t.sends[j].Publishing? && t.sends[k].Publishing?
    ensures t.sends[j].message.conversationId == c && t.sends[k].message.conversationId == c
  {
    var first := GetsReady(s, j, c);
    assert first.sends[k] == s.sends[k];
    t := GetsReady(first, k, c);
    assert t.sends[j] == first.sends[j];
    ReachThen(s, first, t, c);
  }

  lemma PublishBoth(s: System, j: nat, k: nat, c: Id) returns (t: System)
    requires Inv(s) && j < |s.sends| && k < |s.sends| && s.sends[j].Publishing? && s.sends[k].Publishing?
    requires s.sends[j].message.conversationId == c && s.sends[k].message.conversationId == c
    requires s.sends[j].message.id < s.sends[k].message.id
    ensures CanReach(s, t, c) && !AscendingIds(ChannelLog(t.published, c))
  {
    PendingRace(s, j, k, c);
    ReachStep(s, Published(k, true), c);
    ReachThenStep(s, Apply(s, Published(k, true)), Published(j, true), c);
    t := Apply(Apply(s, Published(k, true)), Published(j, true));
  }

  lemma DifferentMessages(s: System, j: nat, k: nat)
    requires Inv(s) && j < k < |s.sends| && s.sends[j].Publishing? && s.sends[k].Publishing?
    ensures s.sends[j].message.id != s.sends[k].message.id
  {
  }

  lemma TwoCanGoWrong(s: System, j: nat, k: nat, c: Id) returns (t: System)
    requires Inv(s) && UniqueRows(s.members) && j < k < |s.sends|
    requires CanStillPublish(s, s.sends[j], c) && CanStillPublish(s, s.sends[k], c)
    ensures CanReach(s, t, c) && !AscendingIds(ChannelLog(t.published, c))
  {
    var ready := BothGetReady(s, j, k, c);
    DifferentMessages(ready, j, k);
    if ready.sends[j].message.id < ready.sends[k].message.id {
      t := PublishBoth(ready, j, k, c);
    } else {
      t := PublishBoth(ready, k, j, c);
    }
    ReachThen(s, ready, t, c);
  }

  lemma LateOneGoesWrong(s: System, k: nat, c: Id, x: ChatMessage) returns (t: System)
    requires Inv(s) && k < |s.sends| && s.sends[k].Publishing? && s.sends[k].message.conversationId == c
    requires x in ChannelLog(s.published, c) && x.id >= s.sends[k].message.id
    ensures CanReach(s, t, c) && !AscendingIds(ChannelLog(t.published, c))
  {
    LatePublish(s, k, c, x);
    ReachStep(s, Published(k, true), c);
    t := Apply(s, Published(k, true));
  }

  lemma UnsafeCanGoWrong(s: System, c: Id) returns (t: System)
    requires Inv(s) && UniqueRows(s.members) && !OrderIsSafe(s, c)
    ensures CanReach(s, t, c) && !AscendingIds(ChannelLog(t.published, c))
  {
    if !AscendingIds(ChannelLog(s.published, c)) {
      t := s;
      ReachSame(s, c);
    } else if !PendingIsNewer(s, c) {
      var k, x :| 0 <= k < |s.sends| && x in ChannelLog(s.published, c)
                  && s.sends[k].Publishing? && s.sends[k].message.conversationId == c && x.id >= s.sends[k].message.id;
      t := LateOneGoesWrong(s, k, c, x);
    } else {
      var j, k :| 0 <= j < k < |s.sends| && CanStillPublish(s, s.sends[j], c) && CanStillPublish(s, s.sends[k], c);
      t := TwoCanGoWrong(s, j, k, c);
    }
  }

  // ---------------------------------------------------------------- the condition

  /** Whatever happens next, as long as no new send for the conversation begins, the channel is in save order. */
  ghost predicate StaysInSaveOrder(s: System, c: Id) {
    forall t :: CanReach(s, t, c) ==> InSaveOrder(ChannelLog(t.published, c), t.stored)
  }

  /**
    Exactly which reachable states are safe: the channel is in order so far, what is pending is newer
    than what was published, and at most one send under way can still publish.
   */
  lemma StaysInSaveOrderIff(tr: Trace, c: Id)
    requires IsTrace(tr) && Initial(tr.states[0])
    ensures StaysInSaveOrder(Last(tr), c) <==> OrderIsSafe(Last(tr), c)
  {
    var s := Last(tr);
    TraceInv(tr, |tr.events|);
    MembersStayUnique(tr, |tr.events|);
    forall t | CanReach(s, t, c)
      ensures InSaveOrder(ChannelLog(t.published, c), t.stored) <==> AscendingIds(ChannelLog(t.published, c))
      ensures OrderIsSafe(s, c) ==> AscendingIds(ChannelLog(t.published, c))
    {
      ReachedIsOk(s, t, c);
      SaveOrderIsIdOrder(t, c);
    }
    if !OrderIsSafe(s, c) {
      var t := UnsafeCanGoWrong(s, c);
    }
  }
}

/**
  SendMessage as one call runs it: membership, entity checks, save, and a publish that is left to a
  detached goroutine.  Run to its end without interference, a call is three steps of Messaging.
 */
module MessagingServices {
  import opened Entities
  import opened Membership
  import opened Messaging

  /** The steps of one call; `k` is its position among the sends. */
  function SendEvents(s: System, q: SendRequest, memberOk: bool, save: Outcome, now: Time): seq<Event> {
    var k := |s.sends|;
    if AfterCheck(s, q, memberOk).Admitted? then [SendBegins(q), AccessChecked(k, memberOk), Saved(k, save, now)]
    else [SendBegins(q), AccessChecked(k, memberOk)]
  }

  /** What the caller is told, in the order in which the checks are made. */
  function Answer(s: System, q: SendRequest, memberOk: bool, save: Outcome, now: Time): Result<ChatMessage> {
    if !memberOk then Err(Unavailable)
    else if RowOf(s.members, q.workspaceId, q.personId).None? then Err(NotFound)
    else if !HasAccess(s.members, q.workspaceId, q.personId) then Err(AccessDenied)
    else if NewMessage(q).Err? then Err(NewMessage(q).error)
    else if save.Fails? then Err(Unavailable)
    else if !References(s, q) then Err(ForeignKeyViolation)
    else if save.FailsAfterEffect? then Err(Unavailable)
    else Ok(RowFor(q, s.nextId, now))
  }

  /** The first two steps: the call arrives and is checked. */
  lemma CheckRuns(s: System, q: SendRequest, memberOk: bool)
    ensures var events := [SendBegins(q), AccessChecked(|s.sends|, memberOk)];
            && IsRun(s, events)
            && Run(s, events) == s.(sends := s.sends + [AfterCheck(s, q, memberOk)])
  {
    var k := |s.sends|;
    var e1 := [] + [SendBegins(q)];
    RunSnoc(s, [], SendBegins(q));
    RunSnoc(s, e1, AccessChecked(k, memberOk));
    assert Run(s, e1).sends[k := AfterCheck(s, q, memberOk)] == s.sends + [AfterCheck(s, q, memberOk)];
    assert e1 + [AccessChecked(k, memberOk)] == [SendBegins(q), AccessChecked(k, memberOk)];
  }

  /** The row is there after the call, whether or not the caller hears of it. */
  predicate Inserts(s: System, q: SendRequest, memberOk: bool, save: Outcome) {
    AfterCheck(s, q, memberOk).Admitted? && !save.Fails? && References(s, q)
  }

  /** What the call leaves behind. */
  function AfterSend(s: System, q: SendRequest, memberOk: bool, save: Outcome, now: Time): System {
    var m := RowFor(q, s.nextId, now);
    var s1 := s.(sends := s.sends + [if Answer(s, q, memberOk, save, now).Ok? then Publishing(m) else Finished]);
    if Inserts(s, q, memberOk, save) then s1.(stored := s.stored + [m], nextId := s.nextId + 1) else s1
  }

  /** The third step of a call that was admitted. */
  lemma SaveStep(s: System, q: SendRequest, save: Outcome, now: Time)
    requires AfterCheck(s, q, true).Admitted?
    ensures var s2 := s.(sends := s.sends + [Admitted(q)]);
            && Enabled(s2, Saved(|s.sends|, save, now))
            && Apply(s2, Saved(|s.sends|, save, now)) == AfterSend(s, q, true, save, now)
  {
    var s2 := s.(sends := s.sends + [Admitted(q)]);
    assert forall send :: s2.sends[|s.sends| := send] == s.sends + [send];
  }

  /** The whole call is a run of the interleaved system, with the same state in the end. */
  lemma SendEventsRun(s: System, q: SendRequest, memberOk: bool, save: Outcome, now: Time)
    ensures IsRun(s, SendEvents(s, q, memberOk, save, now))
    ensures Run(s, SendEvents(s, q, memberOk, save, now)) == AfterSend(s, q, memberOk, save, now)
  {
    CheckRuns(s, q, memberOk);
    if AfterCheck(s, q, memberOk).Admitted? {
      SaveStep(s, q, save, now);
      RunSnoc(s, [SendBegins(q), AccessChecked(|s.sends|, memberOk)], Saved(|s.sends|, save, now));
      assert [SendBegins(q), AccessChecked(|s.sends|, memberOk)] + [Saved(|s.sends|, save, now)]
          == SendEvents(s, q, memberOk, save, now);
    }
  }

  /** The call passes its membership and entity checks. */
  predicate PassesChecks(s: System, q: SendRequest, memberOk: bool) {
    && memberOk && RowOf(s.members, q.workspaceId, q.personId).Some? && RowOf(s.members, q.workspaceId, q.personId).value.hasAccess
    && q.workspaceId != NIL && q.conversationId != NIL && q.personId != NIL && q.content != ""
  }

  /** One more row, which says what the request says. */
  predicate IsAppended(before: seq<ChatMessage>, after: seq<ChatMessage>, q: SendRequest, id: Id, now: Time) {
    && |after| == |before| + 1 && after[..|before|] == before
    && Carries(after[|before|], q) && after[|before|].id == id && after[|before|].createdAt == now
  }

  /** Why a call fails, in the order in which the checks are made. */
  predicate IsRefusedFor(s: System, q: SendRequest, memberOk: bool, save: Outcome, e: Error) {
    var row := RowOf(s.members, q.workspaceId, q.personId);
    && (!memberOk ==> e == Unavailable)
    && (memberOk && row.None? ==> e == NotFound)
    && (memberOk && row.Some? && !row.value.hasAccess ==> e == AccessDenied)
    && (memberOk && row.Some? && row.value.hasAccess ==>
          && (q.workspaceId == NIL ==> e == Required("workspaceID"))
          && (q.workspaceId != NIL && q.conversationId == NIL ==> e == Required("conversationID"))
          && (q.workspaceId != NIL && q.conversationId != NIL && q.personId == NIL ==> e == Required("personID"))
          && (q.workspaceId != NIL && q.conversationId != NIL && q.personId != NIL && q.content == "" ==> e == Required("content")))
    && (PassesChecks(s, q, memberOk) ==> e == if References(s, q) || save.Fails? then Unavailable else ForeignKeyViolation)
  }

  lemma RefusalMeans(s: System, q: SendRequest, memberOk: bool, save: Outcome, now: Time)
    requires Answer(s, q, memberOk, save, now).Err?
    ensures IsRefusedFor(s, q, memberOk, save, Answer(s, q, memberOk, save, now).error)
  {
  }

  /** What one call answers and leaves behind. */
  predicate IsSent(s: System, t: System, q: SendRequest, memberOk: bool, save: Outcome, now: Time, r: Result<ChatMessage>) {
    && (r.Ok? <==> PassesChecks(s, q, memberOk) && References(s, q) && save.Succeeds?)
    && (r.Ok? ==> Carries(r.value, q) && r.value.id == s.nextId && r.value.createdAt == now && t.stored == s.stored + [r.value])
    && t.sends == s.sends + [if r.Ok? then Publishing(r.value) else Finished]
    && (r.Err? ==> IsRefusedFor(s, q, memberOk, save, r.error))
    && (if PassesChecks(s, q, memberOk) && References(s, q) && !save.Fails?
        then IsAppended(s.stored, t.stored, q, s.nextId, now) && t.nextId == s.nextId + 1
        else t.stored == s.stored && t.nextId == s.nextId)
    && t.published == s.published && t.members == s.members
  }

  /** The call is as it should be: when it succeeds, why it fails, and that the stored row says what was sent. */
  lemma CallIsSent(s: System, q: SendRequest, memberOk: bool, save: Outcome, now: Time)
    ensures IsSent(s, AfterSend(s, q, memberOk, save, now), q, memberOk, save, now, Answer(s, q, memberOk, save, now))
  {
    if Answer(s, q, memberOk, save, now).Err? {
      RefusalMeans(s, q, memberOk, save, now);
    }
  }

  /** A failed check decides the answer. */
  lemma RefusalIsAnswer(s: System, q: SendRequest, memberOk: bool, save: Outcome, now: Time, e: Error)
    requires !PassesChecks(s, q, memberOk) && IsRefusedFor(s, q, memberOk, Succeeds, e)
    ensures Answer(s, q, memberOk, save, now) == Err(e)
  {
  }

  class MessagingService {
    var workspaces: set<Id>
    var conversations: map<Id, Id>
    var members: seq<MemberRow>
    var stored: seq<ChatMessage>
    var nextId: Id
    var sends: seq<Send>
    var published: seq<Publication>
    ghost var sockets: seq<Socket>

    ghost function State(): System
      reads this
    {
      System(workspaces, conversations, members, stored, nextId, sends, published, sockets)
    }

    method GetByWorkspaceAndPerson(workspaceId: Id, personId: Id) returns (r: Result<MemberRow>)
      ensures r == match RowOf(members, workspaceId, personId) case Some(row) => Ok(row) case None => Err(NotFound)
    {
      match Find(members, workspaceId, personId) {
        case Some(k) => r := Ok(members[k]);
        case None => r := Err(NotFound);
      }
    }

    /** Inserts a row; the workspace and the conversation are foreign keys of their own. */
    method Save(q: SendRequest, save: Outcome, now: Time) returns (r: Result<ChatMessage>)
      modifies this`stored, this`nextId
      ensures r.Ok? <==> save.Succeeds? && q.workspaceId in workspaces && q.conversationId in conversations
      ensures r.Err? ==>
                r.error == if !save.Fails? && (q.workspaceId !in workspaces || q.conversationId !in conversations)
                           then ForeignKeyViolation else Unavailable
      ensures r.Ok? ==> stored == old(stored) + [r.value]
      ensures if !save.Fails? && q.workspaceId in workspaces && q.conversationId in conversations
              then IsAppended(old(stored), stored, q, old(nextId), now) && nextId == old(nextId) + 1
              else stored == old(stored) && nextId == old(nextId)
    {
      if save.Fails? {
        return Err(Unavailable);
      }
      if q.workspaceId !in workspaces || q.conversationId !in conversations {
        return Err(ForeignKeyViolation);
      }
      var m := RowFor(q, nextId, now);
      stored, nextId := stored + [m], nextId + 1;
      r := if save.Succeeds? then Ok(m) else Err(Unavailable);
    }

    /** Membership, access and the entity's own checks, in this order. */
    method Check(q: SendRequest, memberOk: bool) returns (refusal: Option<Error>)
      ensures refusal.None? <==> PassesChecks(State(), q, memberOk)
      ensures refusal.Some? ==> IsRefusedFor(State(), q, memberOk, Succeeds, refusal.value)
    {
      if !memberOk {
        return Some(Unavailable);
      }
      var member := GetByWorkspaceAndPerson(q.workspaceId, q.personId);
      if member.Err? {
        return Some(member.error);
      }
      if !member.value.hasAccess {
        return Some(AccessDenied);
      }
      var checked := NewMessage(q);
      refusal := if checked.Err? then Some(checked.error) else None;
    }

    /** A row whose insert was reported as failed stays stored and is never published. */
    method SendMessage(q: SendRequest, memberOk: bool, save: Outcome, now: Time) returns (r: Result<ChatMessage>)
      modifies this
      ensures State() == AfterSend(old(State()), q, memberOk, save, now)
      ensures IsSent(old(State()), State(), q, memberOk, save, now, r)
    {
      CallIsSent(State(), q, memberOk, save, now);
      var refusal := Check(q, memberOk);
      match refusal {
        case Some(e) =>
          RefusalIsAnswer(State(), q, memberOk, save, now, e);
          r := Err(e);
        case None =>
          r := Save(q, save, now);
      }
      sends := sends + [if r.Ok? then Publishing(r.value) else Finished];
    }

    /** The detached goroutine; an error of Redis is dropped. */
    method Publish(k: nat, redisOk: bool)
      requires k < |sends| && sends[k].Publishing?
      modifies this`sends, this`published
      ensures State() == Apply(old(State()), Published(k, redisOk))
      ensures published == old(published) + (if redisOk then [Publication(old(sends)[k].message.conversationId, old(sends)[k].message)] else [])
    {
      var m := sends[k].message;
      if redisOk {
        published := published + [Publication(m.conversationId, m)];
      }
      sends := sends[k := Finished];
    }
  }
}

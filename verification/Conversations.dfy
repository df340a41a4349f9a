/**
  The conversation directory: chat_conversations and chat_conversation_participants, the queries on
  them, and the get-or-create operations when calls are made one at a time.
 */
module Conversations {
  import opened Entities

  /** The table checks that a conversation is one of these two. */
  datatype Kind = Group | Dm

  datatype Conversation = Conversation(id: Id, workspaceId: Id, kind: Kind, createdAt: Time)

  datatype Participant = Participant(conversationId: Id, personId: Id)

  datatype Tables = Tables(
    workspaces: set<Id>,
    conversations: seq<Conversation>,
    participants: seq<Participant>,
    nextId: Id)

  predicate IsGroupOf(c: Conversation, workspaceId: Id) {
    c.kind == Group && c.workspaceId == workspaceId
  }

  /** The condition of the DM lookup: both EXISTS subqueries hold. */
  predicate IsDmOf(t: Tables, c: Conversation, workspaceId: Id, a: Id, b: Id) {
    && c in t.conversations
    && c.workspaceId == workspaceId && c.kind == Dm
    && Participant(c.id, a) in t.participants
    && Participant(c.id, b) in t.participants
  }

  predicate HasGroup(t: Tables, workspaceId: Id) {
    exists c :: c in t.conversations && IsGroupOf(c, workspaceId)
  }

  predicate HasDm(t: Tables, workspaceId: Id, a: Id, b: Id) {
    exists c :: c in t.conversations && IsDmOf(t, c, workspaceId, a, b)
  }

  /** The constraint that a new conversation would violate, if any. */
  function CreateError(t: Tables, workspaceId: Id, kind: Kind): Option<Error> {
    if workspaceId == NIL then Some(Required("workspaceID"))
    else if workspaceId !in t.workspaces then Some(ForeignKeyViolation)
    else if kind == Group && HasGroup(t, workspaceId) then Some(UniqueViolation)
    else None
  }

  function Insert(t: Tables, workspaceId: Id, kind: Kind, now: Time): Tables {
    t.(conversations := t.conversations + [Conversation(t.nextId, workspaceId, kind, now)], nextId := t.nextId + 1)
  }

  /** Adding a participant who is there already changes nothing. */
  function Join(t: Tables, p: Participant): Tables {
    if p in t.participants then t else t.(participants := t.participants + [p])
  }

  // ---------------------------------------------------------------- what every operation keeps

  /** Primary keys, the partial unique index on groups, the unique participants and their foreign key. */
  ghost predicate Constraints(t: Tables) {
    && t.nextId > NIL
    && (forall i :: 0 <= i < |t.conversations| ==> NIL < t.conversations[i].id < t.nextId)
    && (forall i, j :: 0 <= i < j < |t.conversations| ==> t.conversations[i].id != t.conversations[j].id)
    && (forall i, j :: 0 <= i < j < |t.conversations| && t.conversations[i].kind == Group ==>
          !IsGroupOf(t.conversations[j], t.conversations[i].workspaceId))
    && (forall i, j :: 0 <= i < j < |t.participants| ==> t.participants[i] != t.participants[j])
    && (forall i :: 0 <= i < |t.participants| ==> t.participants[i].conversationId < t.nextId)
  }

  /** Only DMs have participant rows: kept by every operation, but not so after the data migration. */
  ghost predicate OnlyDmsHaveParticipants(t: Tables) {
    forall c, p :: c in t.conversations && p in t.participants && p.conversationId == c.id ==> c.kind == Dm
  }

  /** At most one DM of a workspace has both people, for two different people. */
  ghost predicate OneDmPerPair(t: Tables) {
    forall w, a, b, c, d :: a != b && IsDmOf(t, c, w, a, b) && IsDmOf(t, d, w, a, b) ==> c == d
  }

  lemma NoGroupYet(t: Tables, workspaceId: Id)
    requires !HasGroup(t, workspaceId)
    ensures forall i :: 0 <= i < |t.conversations| ==> !IsGroupOf(t.conversations[i], workspaceId)
  {
    forall i | 0 <= i < |t.conversations|
      ensures !IsGroupOf(t.conversations[i], workspaceId)
    {
      assert t.conversations[i] in t.conversations;
    }
  }

  lemma InsertKeepsConstraints(t: Tables, workspaceId: Id, kind: Kind, now: Time)
    requires Constraints(t) && CreateError(t, workspaceId, kind).None?
    ensures Constraints(Insert(t, workspaceId, kind, now))
  {
    if kind == Group {
      NoGroupYet(t, workspaceId);
    }
  }

  lemma JoinKeepsConstraints(t: Tables, p: Participant)
    requires Constraints(t) && p.conversationId < t.nextId
    ensures Constraints(Join(t, p))
  {
  }

  /** A group is the only one of its workspace, wherever it is looked up. */
  lemma GroupIsUnique(t: Tables, workspaceId: Id, c: Conversation, d: Conversation)
    requires Constraints(t) && c in t.conversations && d in t.conversations
    requires IsGroupOf(c, workspaceId) && IsGroupOf(d, workspaceId)
    ensures c == d
  {
    var i :| 0 <= i < |t.conversations| && t.conversations[i] == c;
    var j :| 0 <= j < |t.conversations| && t.conversations[j] == d;
  }

  lemma ConversationById(t: Tables, c: Conversation, d: Conversation)
    requires Constraints(t) && c in t.conversations && d in t.conversations && c.id == d.id
    ensures c == d
  {
    var i :| 0 <= i < |t.conversations| && t.conversations[i] == c;
    var j :| 0 <= j < |t.conversations| && t.conversations[j] == d;
  }

  /** One DM lookup that succeeded: who asked for whom, and the id returned. */
  datatype Issued = Issued(workspaceId: Id, a: Id, b: Id, id: Id)

  predicate SamePeople(x: Issued, y: Issued) {
    x.workspaceId == y.workspaceId && ((x.a == y.a && x.b == y.b) || (x.a == y.b && x.b == y.a))
  }

  lemma FreshDmIsForItsPair(t: Tables, t': Tables, added: Conversation, w: Id, x: Id, y: Id, a: Id, b: Id)
    requires Constraints(t) && added.id == t.nextId && x != y && IsDmOf(t', added, w, x, y)
    requires forall p :: p in t'.participants ==>
               p in t.participants || p == Participant(t.nextId, a) || p == Participant(t.nextId, b)
    ensures w == added.workspaceId && ((x == a && y == b) || (x == b && y == a))
  {
    assert Participant(added.id, x) !in t.participants && Participant(added.id, y) !in t.participants;
  }

  /** A new DM row, with some of its two participants, leaves at most one DM per pair. */
  lemma NewDmKeepsPairs(t: Tables, workspaceId: Id, a: Id, b: Id, now: Time, t': Tables)
    requires Constraints(t) && OneDmPerPair(t) && !HasDm(t, workspaceId, a, b)
    requires t'.conversations == Insert(t, workspaceId, Dm, now).conversations
    requires forall p :: p in t'.participants ==>
               p in t.participants || p == Participant(t.nextId, a) || p == Participant(t.nextId, b)
    ensures OneDmPerPair(t') && (OnlyDmsHaveParticipants(t) ==> OnlyDmsHaveParticipants(t'))
  {
    var added := Conversation(t.nextId, workspaceId, Dm, now);
    forall c, x, y, w | IsDmOf(t', c, w, x, y) && c != added
      ensures IsDmOf(t, c, w, x, y)
    {
      assert c in t.conversations;
    }
    forall w, x, y, c, d | x != y && IsDmOf(t', c, w, x, y) && IsDmOf(t', d, w, x, y)
      ensures c == d
    {
      if c == added && d != added {
        FreshDmIsForItsPair(t, t', added, w, x, y, a, b);
      } else if c != added && d == added {
        FreshDmIsForItsPair(t, t', added, w, x, y, a, b);
      }
    }
  }

  ghost predicate AnsweredGroup(t: Tables, workspaceId: Id, id: Id) {
    exists c :: c in t.conversations && IsGroupOf(c, workspaceId) && c.id == id
  }

  ghost predicate AnsweredDm(t: Tables, x: Issued) {
    exists c :: IsDmOf(t, c, x.workspaceId, x.a, x.b) && c.id == x.id
  }

  ghost predicate AllAnswered(t: Tables, dms: seq<Issued>) {
    forall k :: 0 <= k < |dms| ==> AnsweredDm(t, dms[k])
  }

  ghost predicate GroupsAnswered(t: Tables, groups: map<Id, Id>) {
    forall w :: w in groups ==> AnsweredGroup(t, w, groups[w])
  }

  /** An answer for two different people carries the id of every earlier answer for them, in either order. */
  ghost predicate Agrees(dms: seq<Issued>, answer: Issued) {
    forall k | 0 <= k < |dms| :: answer.a != answer.b && SamePeople(dms[k], answer) ==> dms[k].id == answer.id
  }

  /** New rows never invalidate what was answered before. */
  lemma InsertKeepsAnswers(t: Tables, workspaceId: Id, kind: Kind, now: Time)
    requires Constraints(t)
    ensures var t' := Insert(t, workspaceId, kind, now);
            && (forall w, id :: AnsweredGroup(t, w, id) ==> AnsweredGroup(t', w, id))
            && (forall x :: AnsweredDm(t, x) ==> AnsweredDm(t', x))
            && (CreateError(t, workspaceId, kind).None? ==> Constraints(t'))
            && (OneDmPerPair(t) ==> OneDmPerPair(t'))
            && (OnlyDmsHaveParticipants(t) ==> OnlyDmsHaveParticipants(t'))
  {
    var t' := Insert(t, workspaceId, kind, now);
    if CreateError(t, workspaceId, kind).None? {
      InsertKeepsConstraints(t, workspaceId, kind, now);
    }
    forall w, id | AnsweredGroup(t, w, id)
      ensures AnsweredGroup(t', w, id)
    {
      var c :| c in t.conversations && IsGroupOf(c, w) && c.id == id;
      assert c in t'.conversations;
    }
    forall x | AnsweredDm(t, x)
      ensures AnsweredDm(t', x)
    {
      var c :| IsDmOf(t, c, x.workspaceId, x.a, x.b) && c.id == x.id;
      assert IsDmOf(t', c, x.workspaceId, x.a, x.b);
    }
    forall c, w, a, b | IsDmOf(t', c, w, a, b)
      ensures IsDmOf(t, c, w, a, b)
    {
    }
  }

  lemma GroupAnswerStays(t: Tables, workspaceId: Id, id: Id, c: Conversation)
    requires Constraints(t) && AnsweredGroup(t, workspaceId, id)
    requires c in t.conversations && IsGroupOf(c, workspaceId)
    ensures c.id == id
  {
    var d :| d in t.conversations && IsGroupOf(d, workspaceId) && d.id == id;
    GroupIsUnique(t, workspaceId, c, d);
  }

  lemma NewGroupAnswerAgrees(t: Tables, groups: map<Id, Id>, workspaceId: Id, c: Conversation)
    requires Constraints(t) && GroupsAnswered(t, groups) && c in t.conversations && IsGroupOf(c, workspaceId)
    ensures GroupsAnswered(t, groups[workspaceId := c.id])
    ensures workspaceId in groups ==> groups[workspaceId] == c.id
  {
    if workspaceId in groups {
      GroupAnswerStays(t, workspaceId, groups[workspaceId], c);
    }
  }

  lemma JoinKeepsAnswers(t: Tables, p: Participant)
    ensures forall x :: AnsweredDm(t, x) ==> AnsweredDm(Join(t, p), x)
    ensures forall w, id :: AnsweredGroup(t, w, id) ==> AnsweredGroup(Join(t, p), w, id)
  {
    forall x | AnsweredDm(t, x)
      ensures AnsweredDm(Join(t, p), x)
    {
      var c :| IsDmOf(t, c, x.workspaceId, x.a, x.b) && c.id == x.id;
      assert IsDmOf(Join(t, p), c, x.workspaceId, x.a, x.b);
    }
  }

  /** The rows a DM call leaves behind when its lookup found nothing. */
  function AfterMissedLookup(t: Tables, workspaceId: Id, a: Id, b: Id, now: Time): Tables {
    if CreateError(t, workspaceId, Dm).Some? then t
    else
      var t1 := Insert(t, workspaceId, Dm, now);
      if a == NIL then t1
      else
        var t2 := Join(t1, Participant(t.nextId, a));
        if b == NIL then t2 else Join(t2, Participant(t.nextId, b))
  }

  lemma MissedLookupKeepsConstraints(t: Tables, workspaceId: Id, a: Id, b: Id, now: Time)
    requires Constraints(t)
    ensures Constraints(AfterMissedLookup(t, workspaceId, a, b, now))
  {
    if CreateError(t, workspaceId, Dm).None? {
      var t1 := Insert(t, workspaceId, Dm, now);
      InsertKeepsConstraints(t, workspaceId, Dm, now);
      JoinKeepsConstraints(t1, Participant(t.nextId, a));
      JoinKeepsConstraints(Join(t1, Participant(t.nextId, a)), Participant(t.nextId, b));
    }
  }

  lemma MissedLookupKeepsAll(t: Tables, workspaceId: Id, a: Id, b: Id, now: Time)
    requires Constraints(t) && OneDmPerPair(t) && !HasDm(t, workspaceId, a, b)
    ensures var t' := AfterMissedLookup(t, workspaceId, a, b, now);
            && Constraints(t') && OneDmPerPair(t') && (OnlyDmsHaveParticipants(t) ==> OnlyDmsHaveParticipants(t'))
            && (forall w, id :: AnsweredGroup(t, w, id) ==> AnsweredGroup(t', w, id))
            && (forall x :: AnsweredDm(t, x) ==> AnsweredDm(t', x))
  {
    if CreateError(t, workspaceId, Dm).None? {
      var t' := AfterMissedLookup(t, workspaceId, a, b, now);
      MissedLookupKeepsConstraints(t, workspaceId, a, b, now);
      NewDmKeepsPairs(t, workspaceId, a, b, now, t');
      var t1 := Insert(t, workspaceId, Dm, now);
      InsertKeepsAnswers(t, workspaceId, Dm, now);
      JoinKeepsAnswers(t1, Participant(t.nextId, a));
      JoinKeepsAnswers(Join(t1, Participant(t.nextId, a)), Participant(t.nextId, b));
    }
  }

  /** All answers for two different people, in either order, carry the same id. */
  lemma NewAnswerAgrees(t: Tables, dms: seq<Issued>, answer: Issued)
    requires OneDmPerPair(t) && AnsweredDm(t, answer) && AllAnswered(t, dms)
    ensures AllAnswered(t, dms + [answer]) && Agrees(dms, answer)
  {
    forall k | 0 <= k < |dms| && answer.a != answer.b && SamePeople(dms[k], answer)
      ensures dms[k].id == answer.id
    {
      var x := dms[k];
      var c :| IsDmOf(t, c, x.workspaceId, x.a, x.b) && c.id == x.id;
      var d :| IsDmOf(t, d, answer.workspaceId, answer.a, answer.b) && d.id == answer.id;
      assert IsDmOf(t, d, x.workspaceId, x.a, x.b);
    }
  }

  /** What a call may answer, and the rows it leaves: any matching DM, or else the one it makes. */
  predicate MayAnswer(t: Tables, workspaceId: Id, a: Id, b: Id, now: Time, c: Conversation) {
    if HasDm(t, workspaceId, a, b) then IsDmOf(t, c, workspaceId, a, b)
    else
      && CreateError(t, workspaceId, Dm).None? && a != NIL && b != NIL
      && c == Conversation(t.nextId, workspaceId, Dm, now)
  }

  function AfterDmCall(t: Tables, workspaceId: Id, a: Id, b: Id, now: Time): Tables {
    if HasDm(t, workspaceId, a, b) then t else AfterMissedLookup(t, workspaceId, a, b, now)
  }

  /** Why a DM call fails: a nil or unknown workspace, or a nil person. */
  predicate IsDmRefusal(t: Tables, workspaceId: Id, e: Error) {
    e == if workspaceId == NIL then Required("workspaceID")
         else if workspaceId !in t.workspaces then ForeignKeyViolation
         else Required("personID")
  }

  /**
    The rows after a DM call.  Nothing changes if the pair has a DM or the workspace is not there.
    Otherwise there is one more DM with the two people in it; a nil person is noticed only then, so the
    row stays, without the nil person and whoever would come after.
   */
  ghost predicate HasDmRows(t: Tables, t': Tables, workspaceId: Id, a: Id, b: Id, now: Time) {
    if HasDm(t, workspaceId, a, b) || workspaceId == NIL || workspaceId !in t.workspaces then t' == t
    else
      && t'.conversations == t.conversations + [Conversation(t.nextId, workspaceId, Dm, now)]
      && t'.nextId == t.nextId + 1 && t'.workspaces == t.workspaces
      && forall p :: p in t'.participants <==>
           p in t.participants || (a != NIL && p == Participant(t.nextId, a)) || (a != NIL && b != NIL && p == Participant(t.nextId, b))
  }

  lemma DmCallRows(t: Tables, workspaceId: Id, a: Id, b: Id, now: Time)
    ensures HasDmRows(t, AfterDmCall(t, workspaceId, a, b, now), workspaceId, a, b, now)
  {
  }

  /** The answer is a conversation with somebody else in it. */
  ghost predicate MayAnswerForeignDm(t: Tables, workspaceId: Id, a: Id, now: Time) {
    exists c, b ::
      && MayAnswer(t, workspaceId, a, a, now, c)
      && b != a && Participant(c.id, b) in AfterDmCall(t, workspaceId, a, a, now).participants
  }

  /** A new DM with oneself has nobody else in it. */
  lemma NewSelfDmIsLonely(t: Tables, workspaceId: Id, a: Id, now: Time, b: Id)
    requires Constraints(t) && b != a
    ensures Participant(t.nextId, b) !in AfterMissedLookup(t, workspaceId, a, a, now).participants
  {
  }

  lemma ForeignDmIsThere(t: Tables, workspaceId: Id, a: Id, now: Time, c: Conversation, b: Id)
    requires Constraints(t) && MayAnswer(t, workspaceId, a, a, now, c) && b != a
    requires Participant(c.id, b) in AfterDmCall(t, workspaceId, a, a, now).participants
    ensures HasDm(t, workspaceId, a, b)
  {
    NewSelfDmIsLonely(t, workspaceId, a, now, b);
    assert IsDmOf(t, c, workspaceId, a, b);
  }

  /**
    Asking for a DM with oneself: the answer can have another participant exactly if the person is in
    some DM with somebody else.
   */
  lemma SelfDmIsAnyDm(t: Tables, workspaceId: Id, a: Id, now: Time)
    requires Constraints(t)
    ensures MayAnswerForeignDm(t, workspaceId, a, now) <==> exists b :: b != a && HasDm(t, workspaceId, a, b)
  {
    if MayAnswerForeignDm(t, workspaceId, a, now) {
      var c, b :| MayAnswer(t, workspaceId, a, a, now, c)
                  && b != a && Participant(c.id, b) in AfterDmCall(t, workspaceId, a, a, now).participants;
      ForeignDmIsThere(t, workspaceId, a, now, c, b);
    }
    if b :| b != a && HasDm(t, workspaceId, a, b) {
      var c :| c in t.conversations && IsDmOf(t, c, workspaceId, a, b);
      assert IsDmOf(t, c, workspaceId, a, a);
      assert MayAnswer(t, workspaceId, a, a, now, c);
    }
  }

  /** One DM of two people. */
  const ONE_DM: Tables := Tables({1}, [Conversation(1, 1, Dm, 10)], [Participant(1, 7), Participant(1, 8)], 2)

  /** It happens: person 7 asks for a DM with person 7 and gets the one with person 8. */
  lemma SelfDmCanBeForeign(now: Time)
    ensures Constraints(ONE_DM) && OneDmPerPair(ONE_DM)
    ensures MayAnswer(ONE_DM, 1, 7, 7, now, Conversation(1, 1, Dm, 10))
    ensures Participant(1, 8) in AfterDmCall(ONE_DM, 1, 7, 7, now).participants
  {
    assert ONE_DM.conversations[0] == Conversation(1, 1, Dm, 10);
    assert ONE_DM.participants[0] == Participant(1, 7) && ONE_DM.participants[1] == Participant(1, 8);
    assert IsDmOf(ONE_DM, Conversation(1, 1, Dm, 10), 1, 7, 7);
  }

  /** The service over its repository, with database calls that do not fail and do not overlap. */
  class ConversationService {
    var workspaces: set<Id>
    var conversations: seq<Conversation>
    var participants: seq<Participant>
    var nextId: Id
    ghost var groups: map<Id, Id>
    ghost var dms: seq<Issued>

    function State(): Tables
      reads this
    {
      Tables(workspaces, conversations, participants, nextId)
    }

    /** `groups` and `dms` are everything the service ever answered; the answers stay good. */
    ghost predicate Valid()
      reads this
    {
      && Constraints(State())
      && OneDmPerPair(State())
      && GroupsAnswered(State(), groups)
      && AllAnswered(State(), dms)
    }

    /** Starts on any tables without a duplicated DM, migrated ones included. */
    constructor (t: Tables)
      requires Constraints(t) && OneDmPerPair(t)
      ensures Valid()
      ensures State() == t && groups == map[] && dms == []
    {
      workspaces, conversations, participants, nextId := t.workspaces, t.conversations, t.participants, t.nextId;
      groups, dms := map[], [];
    }

    method GetGroupByWorkspace(workspaceId: Id) returns (r: Option<Conversation>)
      ensures r.Some? ==> r.value in conversations && r.value.kind == Group && r.value.workspaceId == workspaceId
      ensures r.None? ==> forall c :: c in conversations ==> !(c.kind == Group && c.workspaceId == workspaceId)
      ensures r.None? <==> !HasGroup(State(), workspaceId)
    {
      if HasGroup(State(), workspaceId) {
        var c :| c in conversations && IsGroupOf(c, workspaceId);
        return Some(c);
      }
      return None;
    }

    /** The query does not say which row it wants: any matching one may come back. */
    method GetDMByParticipants(workspaceId: Id, a: Id, b: Id) returns (r: Option<Conversation>)
      ensures r.Some? ==>
                && r.value in conversations && r.value.kind == Dm && r.value.workspaceId == workspaceId
                && Participant(r.value.id, a) in participants && Participant(r.value.id, b) in participants
      ensures r.None? ==>
                forall c :: c in conversations && c.kind == Dm && c.workspaceId == workspaceId ==>
                  !(Participant(c.id, a) in participants && Participant(c.id, b) in participants)
      ensures r.None? <==> !HasDm(State(), workspaceId, a, b)
    {
      if HasDm(State(), workspaceId, a, b) {
        var c :| c in conversations && IsDmOf(State(), c, workspaceId, a, b);
        return Some(c);
      }
      return None;
    }

    method Create(workspaceId: Id, kind: Kind, now: Time) returns (r: Result<Conversation>)
      modifies this`conversations, this`nextId
      ensures match CreateError(old(State()), workspaceId, kind)
              case Some(e) => r == Err(e) && State() == old(State())
              case None =>
                && r == Ok(Conversation(old(nextId), workspaceId, kind, now))
                && State() == Insert(old(State()), workspaceId, kind, now)
                && conversations == old(conversations) + [r.value] && nextId == old(nextId) + 1
      ensures r.Err? ==>
                r.error == if workspaceId == NIL then Required("workspaceID")
                           else if workspaceId !in workspaces then ForeignKeyViolation else UniqueViolation
      ensures r.Ok? <==>
              && workspaceId != NIL && workspaceId in workspaces
              && (kind == Dm || forall c :: c in old(conversations) ==> !(c.kind == Group && c.workspaceId == workspaceId))
    {
      match CreateError(State(), workspaceId, kind) {
        case Some(e) => r := Err(e);
        case None =>
          var c := Conversation(nextId, workspaceId, kind, now);
          conversations, nextId := conversations + [c], nextId + 1;
          r := Ok(c);
      }
    }

    method AddParticipant(p: Participant)
      modifies this`participants
      ensures State() == Join(old(State()), p)
      ensures participants == if p in old(participants) then old(participants) else old(participants) + [p]
    {
      if p !in participants {
        participants := participants + [p];
      }
    }

    method CreateGroup(workspaceId: Id, now: Time) returns (r: Result<Conversation>)
      requires Valid() && !HasGroup(State(), workspaceId)
      modifies this`conversations, this`nextId
      ensures Valid()
      ensures old(OnlyDmsHaveParticipants(State())) ==> OnlyDmsHaveParticipants(State())
      ensures r.Ok? <==> workspaceId != NIL && workspaceId in workspaces
      ensures r.Ok? ==> r.value in conversations && r.value == Conversation(old(nextId), workspaceId, Group, now)
      ensures r.Err? ==> r.error == if workspaceId == NIL then Required("workspaceID") else ForeignKeyViolation
      ensures State() == if r.Ok? then Insert(old(State()), workspaceId, Group, now) else old(State())
    {
      InsertKeepsAnswers(State(), workspaceId, Group, now);
      r := Create(workspaceId, Group, now);
      assert r.Ok? ==> conversations[|conversations| - 1] == r.value;
    }

    /** One group per workspace, and every successful call ever made returns that one. */
    method GetOrCreateGroupConversation(workspaceId: Id, now: Time) returns (r: Result<Conversation>)
      requires Valid()
      modifies this
      ensures Valid()
      ensures r.Ok? <==> old(HasGroup(State(), workspaceId)) || (workspaceId != NIL && workspaceId in workspaces)
      ensures r.Err? ==> r.error == if workspaceId == NIL then Required("workspaceID") else ForeignKeyViolation
      ensures r.Ok? ==> r.value in conversations && r.value.kind == Group && r.value.workspaceId == workspaceId
      ensures participants == old(participants)
      ensures if r.Ok? && !old(HasGroup(State(), workspaceId))
              then conversations == old(conversations) + [Conversation(old(nextId), workspaceId, Group, now)] && nextId == old(nextId) + 1
              else State() == old(State())
      ensures groups == (if r.Ok? then old(groups)[workspaceId := r.value.id] else old(groups)) && dms == old(dms)
      ensures r.Ok? && workspaceId in old(groups) ==> r.value.id == old(groups)[workspaceId]
      ensures old(OnlyDmsHaveParticipants(State())) ==> OnlyDmsHaveParticipants(State())
    {
      var found := GetGroupByWorkspace(workspaceId);
      match found {
        case Some(c) => r := Ok(c);
        case None => r := CreateGroup(workspaceId, now);
      }
      if r.Ok? {
        NewGroupAnswerAgrees(State(), groups, workspaceId, r.value);
        groups := groups[workspaceId := r.value.id];
      }
    }

    /**
      For two different people the result is the one DM of the pair, now and in every later state.
      A nil person is rejected only after the conversation row exists, so that row stays behind.
     */
    method GetOrCreateDMConversation(workspaceId: Id, a: Id, b: Id, now: Time) returns (r: Result<Conversation>)
      requires Valid()
      modifies this
      ensures Valid()
      ensures r.Ok? <==> old(HasDm(State(), workspaceId, a, b)) ||
                         (CreateError(old(State()), workspaceId, Dm).None? && a != NIL && b != NIL)
      ensures r.Ok? ==> IsDmOf(State(), r.value, workspaceId, a, b)
      ensures r.Ok? ==> MayAnswer(old(State()), workspaceId, a, b, now, r.value)
      ensures r.Err? ==> IsDmRefusal(old(State()), workspaceId, r.error)
      ensures State() == AfterDmCall(old(State()), workspaceId, a, b, now)
      ensures HasDmRows(old(State()), State(), workspaceId, a, b, now)
      ensures dms == (if r.Ok? then old(dms) + [Issued(workspaceId, a, b, r.value.id)] else old(dms))
      ensures groups == old(groups)
      ensures r.Ok? ==> Agrees(old(dms), Issued(workspaceId, a, b, r.value.id))
      ensures old(OnlyDmsHaveParticipants(State())) ==> OnlyDmsHaveParticipants(State())
    {
      DmCallRows(State(), workspaceId, a, b, now);
      var found := GetDMByParticipants(workspaceId, a, b);
      match found {
        case Some(c) =>
          r := Ok(c);
        case None =>
          r := CreateDM(workspaceId, a, b, now);
      }
      if r.Ok? {
        ghost var answer := Issued(workspaceId, a, b, r.value.id);
        NewAnswerAgrees(State(), dms, answer);
        dms := dms + [answer];
      }
    }

    /** The two participants one after the other; a nil person stops it. */
    method AddBoth(conversationId: Id, a: Id, b: Id) returns (ok: bool)
      modifies this`participants
      ensures ok <==> a != NIL && b != NIL
      ensures State() == var t := old(State());
                         if a == NIL then t
                         else
                           var t2 := Join(t, Participant(conversationId, a));
                           if b == NIL then t2 else Join(t2, Participant(conversationId, b))
    {
      if a == NIL {
        return false;
      }
      AddParticipant(Participant(conversationId, a));
      if b == NIL {
        return false;
      }
      AddParticipant(Participant(conversationId, b));
      ok := true;
    }

    method CreateDM(workspaceId: Id, a: Id, b: Id, now: Time) returns (r: Result<Conversation>)
      requires Valid() && !HasDm(State(), workspaceId, a, b)
      modifies this`conversations, this`nextId, this`participants
      ensures Valid()
      ensures old(OnlyDmsHaveParticipants(State())) ==> OnlyDmsHaveParticipants(State())
      ensures State() == AfterMissedLookup(old(State()), workspaceId, a, b, now)
      ensures r.Ok? <==> CreateError(old(State()), workspaceId, Dm).None? && a != NIL && b != NIL
      ensures r.Ok? ==> IsDmOf(State(), r.value, workspaceId, a, b)
      ensures r.Ok? ==> r.value == Conversation(old(nextId), workspaceId, Dm, now)
      ensures r.Err? ==> IsDmRefusal(old(State()), workspaceId, r.error)
    {
      MissedLookupKeepsAll(State(), workspaceId, a, b, now);
      r := Create(workspaceId, Dm, now);
      if r.Ok? {
        var ok := AddBoth(r.value.id, a, b);
        if !ok {
          r := Err(Required("personID"));
        }
      }
      assert r.Ok? ==> conversations[|conversations| - 1] == r.value;
    }
  }
}

/**
  Migration 6: messages that belonged to a workspace move to that workspace's new group
  conversation.  The statements run in order inside one transaction.
 */
module Migration {
  import opened Entities
  import opened Sequences
  import opened Membership
  import opened Conversations
  import Listing

  /** A row of chat_messages; the column added by the migration is NULL until the backfill. */
  datatype MessageRow = MessageRow(
    id: Id,
    workspaceId: Id,
    personId: Id,
    senderName: string,
    content: string,
    createdAt: Time,
    conversationId: Option<Id>)

  /** One new group for every workspace, each with a fresh id. */
  function NewGroups(workspaces: seq<Id>, firstId: Id, now: Time): seq<Conversation> {
    seq(|workspaces|, i requires 0 <= i < |workspaces| => Conversation(firstId + i, workspaces[i], Group, now))
  }

  function FindGroup(cs: seq<Conversation>, w: Id): (r: Option<Id>)
    ensures r.Some? ==> exists k :: 0 <= k < |cs| && IsGroupOf(cs[k], w) && cs[k].id == r.value
    ensures r.None? ==> forall k :: 0 <= k < |cs| ==> !IsGroupOf(cs[k], w)
  {
    if cs == [] then None
    else if IsGroupOf(cs[0], w) then Some(cs[0].id)
    else FindGroup(cs[1..], w)
  }

  /** Every message gets its workspace's group; without one it keeps having no conversation. */
  function Backfill(row: MessageRow, cs: seq<Conversation>): MessageRow {
    match FindGroup(cs, row.workspaceId)
    case Some(id) => row.(conversationId := Some(id))
    case None => row
  }

  function BackfillAll(rows: seq<MessageRow>, cs: seq<Conversation>): seq<MessageRow> {
    seq(|rows|, k requires 0 <= k < |rows| => Backfill(rows[k], cs))
  }

  /** The members of one workspace as participants of a conversation. */
  function MembersOf(members: seq<MemberRow>, w: Id, conv: Id): seq<Participant> {
    if members == [] then []
    else
      var front := MembersOf(members[..|members| - 1], w, conv);
      var m := members[|members| - 1];
      if m.workspaceId == w then front + [Participant(conv, m.personId)] else front
  }

  /** The join of group conversations with members, conversation by conversation. */
  function GroupParticipants(cs: seq<Conversation>, members: seq<MemberRow>): seq<Participant> {
    if cs == [] then []
    else
      var front := GroupParticipants(cs[..|cs| - 1], members);
      var c := cs[|cs| - 1];
      if c.kind == Group then front + MembersOf(members, c.workspaceId, c.id) else front
  }

  // ---------------------------------------------------------------- histories before and after

  function FormerHistory(rows: seq<MessageRow>, w: Id): seq<MessageRow> {
    if rows == [] then []
    else
      var front := FormerHistory(rows[..|rows| - 1], w);
      var m := rows[|rows| - 1];
      if m.workspaceId == w then front + [m] else front
  }

  function ConversationHistory(rows: seq<MessageRow>, conv: Id): seq<MessageRow> {
    if rows == [] then []
    else
      var front := ConversationHistory(rows[..|rows| - 1], conv);
      var m := rows[|rows| - 1];
      if m.conversationId == Some(conv) then front + [m] else front
  }

  /** The same messages without the new column. */
  function Forget(rows: seq<MessageRow>): seq<MessageRow> {
    seq(|rows|, k requires 0 <= k < |rows| => rows[k].(conversationId := None))
  }

  /** The database before the migration: migrations 1 to 5 with their keys and foreign keys. */
  ghost predicate Before(workspaces: seq<Id>, members: seq<MemberRow>, t: Tables, rows: seq<MessageRow>) {
    && Constraints(t) && Distinct(workspaces) && UniqueRows(members)
    && t.workspaces == (set w | w in workspaces)
    && (forall k :: 0 <= k < |t.conversations| ==> t.conversations[k].workspaceId in workspaces)
    && (forall k :: 0 <= k < |rows| ==> rows[k].workspaceId in workspaces && rows[k].conversationId.None?)
  }

  /** No workspace has a group conversation yet. */
  predicate NoGroups(cs: seq<Conversation>) {
    forall k :: 0 <= k < |cs| ==> cs[k].kind == Dm
  }

  function After(workspaces: seq<Id>, members: seq<MemberRow>, t: Tables, now: Time): Tables {
    var cs := t.conversations + NewGroups(workspaces, t.nextId, now);
    t.(conversations := cs,
       participants := t.participants + GroupParticipants(cs, members),
       nextId := t.nextId + |workspaces|)
  }

  // ---------------------------------------------------------------- what the statements establish

  lemma {:induction false} FindGroupSkipsDms(dms: seq<Conversation>, cs: seq<Conversation>, w: Id)
    requires NoGroups(dms)
    ensures FindGroup(dms + cs, w) == FindGroup(cs, w)
  {
    if dms == [] {
      assert dms + cs == cs;
    } else {
      assert (dms + cs)[1..] == dms[1..] + cs;
      FindGroupSkipsDms(dms[1..], cs, w);
    }
  }

  lemma NewGroupsTail(workspaces: seq<Id>, firstId: Id, now: Time)
    requires workspaces != []
    ensures NewGroups(workspaces, firstId, now)[1..] == NewGroups(workspaces[1..], firstId + 1, now)
  {
  }

  /** The group the backfill finds for the i-th workspace is the one inserted for it. */
  lemma {:induction false} FindNewGroup(workspaces: seq<Id>, firstId: Id, now: Time, i: nat)
    requires Distinct(workspaces) && i < |workspaces|
    ensures FindGroup(NewGroups(workspaces, firstId, now), workspaces[i]) == Some(firstId + i)
    decreases |workspaces|
  {
    NewGroupsTail(workspaces, firstId, now);
    if i > 0 {
      assert workspaces[1..][i - 1] == workspaces[i] != workspaces[0];
      FindNewGroup(workspaces[1..], firstId + 1, now, i - 1);
    }
  }

  lemma BackfillFindsGroup(workspaces: seq<Id>, t: Tables, now: Time, i: nat)
    requires Distinct(workspaces) && NoGroups(t.conversations) && i < |workspaces|
    ensures FindGroup(t.conversations + NewGroups(workspaces, t.nextId, now), workspaces[i]) == Some(t.nextId + i)
  {
    FindGroupSkipsDms(t.conversations, NewGroups(workspaces, t.nextId, now), workspaces[i]);
    FindNewGroup(workspaces, t.nextId, now, i);
  }

  lemma ForgetSnoc(kept: seq<MessageRow>, moved: MessageRow, last: MessageRow)
    requires last == moved.(conversationId := None)
    ensures Forget(kept + [moved]) == Forget(kept) + [last]
  {
  }

  lemma BackfillSnoc(rows: seq<MessageRow>, row: MessageRow, cs: seq<Conversation>)
    ensures BackfillAll(rows + [row], cs) == BackfillAll(rows, cs) + [Backfill(row, cs)]
  {
  }

  lemma ConversationHistorySnoc(rows: seq<MessageRow>, row: MessageRow, conv: Id)
    ensures ConversationHistory(rows + [row], conv)
            == ConversationHistory(rows, conv) + (if row.conversationId == Some(conv) then [row] else [])
  {
    assert (rows + [row])[..|rows|] == rows;
  }

  lemma FormerHistorySnoc(rows: seq<MessageRow>, row: MessageRow, w: Id)
    ensures FormerHistory(rows + [row], w) == FormerHistory(rows, w) + (if row.workspaceId == w then [row] else [])
  {
    assert (rows + [row])[..|rows|] == rows;
  }

  /** A message goes to the group of the i-th workspace exactly if it was that workspace's. */
  lemma BackfillGoesHome(workspaces: seq<Id>, t: Tables, row: MessageRow, now: Time, i: nat)
    requires Distinct(workspaces) && NoGroups(t.conversations) && i < |workspaces| && row.workspaceId in workspaces
    ensures var moved := Backfill(row, t.conversations + NewGroups(workspaces, t.nextId, now));
            && moved == row.(conversationId := moved.conversationId)
            && (moved.conversationId == Some(t.nextId + i) <==> row.workspaceId == workspaces[i])
  {
    var j :| 0 <= j < |workspaces| && workspaces[j] == row.workspaceId;
    BackfillFindsGroup(workspaces, t, now, j);
    assert i != j ==> workspaces[j] != workspaces[i];
  }

  /** One message more goes to the end of just its own workspace's history. */
  lemma BackfillOneMore(workspaces: seq<Id>, t: Tables, front: seq<MessageRow>, last: MessageRow, now: Time, i: nat)
    requires Distinct(workspaces) && NoGroups(t.conversations) && i < |workspaces|
    requires last.workspaceId in workspaces && last.conversationId.None?
    requires var cs := t.conversations + NewGroups(workspaces, t.nextId, now);
             Forget(ConversationHistory(BackfillAll(front, cs), t.nextId + i)) == FormerHistory(front, workspaces[i])
    ensures var cs := t.conversations + NewGroups(workspaces, t.nextId, now);
            Forget(ConversationHistory(BackfillAll(front + [last], cs), t.nextId + i)) == FormerHistory(front + [last], workspaces[i])
  {
    var cs := t.conversations + NewGroups(workspaces, t.nextId, now);
    var before, moved := BackfillAll(front, cs), Backfill(last, cs);
    BackfillSnoc(front, last, cs);
    BackfillGoesHome(workspaces, t, last, now, i);
    ConversationHistorySnoc(before, moved, t.nextId + i);
    FormerHistorySnoc(front, last, workspaces[i]);
    var history := ConversationHistory(before, t.nextId + i);
    if last.workspaceId == workspaces[i] {
      ForgetSnoc(history, moved, last);
    } else {
      assert history + [] == history && FormerHistory(front, workspaces[i]) + [] == FormerHistory(front, workspaces[i]);
    }
  }

  /** The history of a workspace's group is the workspace's former history, message for message. */
  lemma {:induction false} HistoryIsPreserved(workspaces: seq<Id>, t: Tables, rows: seq<MessageRow>, now: Time, i: nat)
    requires Distinct(workspaces) && NoGroups(t.conversations) && i < |workspaces|
    requires forall k :: 0 <= k < |rows| ==> rows[k].workspaceId in workspaces && rows[k].conversationId.None?
    ensures var cs := t.conversations + NewGroups(workspaces, t.nextId, now);
            Forget(ConversationHistory(BackfillAll(rows, cs), t.nextId + i)) == FormerHistory(rows, workspaces[i])
    decreases |rows|
  {
    if rows != [] {
      var front, last := rows[..|rows| - 1], rows[|rows| - 1];
      HistoryIsPreserved(workspaces, t, front, now, i);
      BackfillOneMore(workspaces, t, front, last, now, i);
      assert front + [last] == rows;
    }
  }

  lemma {:induction false} MembersOfSpec(members: seq<MemberRow>, w: Id, conv: Id)
    requires UniqueRows(members)
    ensures Distinct(MembersOf(members, w, conv))
    ensures forall p :: p in MembersOf(members, w, conv) ==>
              p.conversationId == conv && exists k :: 0 <= k < |members| && IsFor(members[k], w, p.personId)
  {
    if members != [] {
      var front, m := members[..|members| - 1], members[|members| - 1];
      MembersOfSpec(front, w, conv);
      forall p | p in MembersOf(front, w, conv)
        ensures exists k :: 0 <= k < |members| && IsFor(members[k], w, p.personId)
        ensures m.workspaceId == w ==> p != Participant(conv, m.personId)
      {
        var k :| 0 <= k < |front| && IsFor(front[k], w, p.personId);
        assert IsFor(members[k], w, p.personId);
      }
      assert IsFor(members[|members| - 1], m.workspaceId, m.personId);
    }
  }

  /** New participant rows are unique and belong to new conversations only. */
  lemma {:induction false} GroupParticipantsSpec(workspaces: seq<Id>, members: seq<MemberRow>, firstId: Id, now: Time, n: nat)
    requires UniqueRows(members) && n <= |workspaces|
    ensures var ps := GroupParticipants(NewGroups(workspaces, firstId, now)[..n], members);
            Distinct(ps) && forall p :: p in ps ==> firstId <= p.conversationId < firstId + n
    decreases n
  {
    if n > 0 {
      var groups := NewGroups(workspaces, firstId, now);
      GroupParticipantsSpec(workspaces, members, firstId, now, n - 1);
      assert groups[..n][..n - 1] == groups[..n - 1];
      MembersOfSpec(members, workspaces[n - 1], firstId + n - 1);
      DistinctConcat(GroupParticipants(groups[..n - 1], members), MembersOf(members, workspaces[n - 1], firstId + n - 1));
    }
  }

  lemma {:induction false} DmsBringNoParticipants(dms: seq<Conversation>, cs: seq<Conversation>, members: seq<MemberRow>)
    requires NoGroups(dms)
    ensures GroupParticipants(dms + cs, members) == GroupParticipants(cs, members)
    decreases |dms| + |cs|
  {
    if cs != [] {
      assert (dms + cs)[..|dms + cs| - 1] == dms + cs[..|cs| - 1];
      DmsBringNoParticipants(dms, cs[..|cs| - 1], members);
    } else if dms != [] {
      assert dms + cs == dms;
      DmsBringNoParticipants(dms[..|dms| - 1], [], members);
      assert dms[..|dms| - 1] + [] == dms[..|dms| - 1];
    } else {
      assert dms + cs == cs;
    }
  }

  lemma AfterKeepsConversations(workspaces: seq<Id>, members: seq<MemberRow>, t: Tables, rows: seq<MessageRow>, now: Time)
    requires Before(workspaces, members, t, rows) && NoGroups(t.conversations)
    ensures var cs := After(workspaces, members, t, now).conversations;
            && (forall i :: 0 <= i < |cs| ==> NIL < cs[i].id < t.nextId + |workspaces|)
            && (forall i, j :: 0 <= i < j < |cs| ==> cs[i].id != cs[j].id)
            && (forall i, j :: 0 <= i < j < |cs| && cs[i].kind == Group ==> !IsGroupOf(cs[j], cs[i].workspaceId))
  {
    var cs := After(workspaces, members, t, now).conversations;
    var n := |t.conversations|;
    forall i | 0 <= i < |cs|
      ensures i < n ==> cs[i] == t.conversations[i]
      ensures i >= n ==> cs[i] == Conversation(t.nextId + i - n, workspaces[i - n], Group, now)
    {
    }
  }

  lemma AfterKeepsConstraints(workspaces: seq<Id>, members: seq<MemberRow>, t: Tables, rows: seq<MessageRow>, now: Time)
    requires Before(workspaces, members, t, rows) && NoGroups(t.conversations)
    ensures Constraints(After(workspaces, members, t, now))
  {
    var groups := NewGroups(workspaces, t.nextId, now);
    AfterKeepsConversations(workspaces, members, t, rows, now);
    DmsBringNoParticipants(t.conversations, groups, members);
    GroupParticipantsSpec(workspaces, members, t.nextId, now, |workspaces|);
    assert groups[..|workspaces|] == groups;
    var ps := GroupParticipants(groups, members);
    forall p | p in t.participants
      ensures p !in ps
    {
    }
    DistinctConcat(t.participants, ps);
    forall i | 0 <= i < |t.participants + ps|
      ensures (t.participants + ps)[i].conversationId < t.nextId + |workspaces|
    {
      if i >= |t.participants| {
        assert (t.participants + ps)[i] in ps;
      }
    }
  }

  ghost predicate OneGroupEach(workspaces: seq<Id>, t: Tables) {
    && (forall w :: w in workspaces ==> HasGroup(t, w))
    && (forall w, c, d | c in t.conversations && d in t.conversations ::
          IsGroupOf(c, w) && IsGroupOf(d, w) ==> c == d)
  }

  ghost predicate InOwnGroup(t: Tables, row: MessageRow) {
    exists c :: c in t.conversations && IsGroupOf(c, row.workspaceId) && row.conversationId == Some(c.id)
  }

  ghost predicate AllInOwnGroup(t: Tables, rows: seq<MessageRow>) {
    forall k :: 0 <= k < |rows| ==> InOwnGroup(t, rows[k])
  }

  ghost predicate HistoriesKept(t: Tables, rows: seq<MessageRow>, rows': seq<MessageRow>) {
    forall c :: c in t.conversations && c.kind == Group ==>
      Forget(ConversationHistory(rows', c.id)) == FormerHistory(rows, c.workspaceId)
  }

  predicate IsMember(members: seq<MemberRow>, w: Id, person: Id) {
    exists k :: 0 <= k < |members| && members[k].workspaceId == w && members[k].personId == person
  }

  ghost predicate MembersJoined(t: Tables, members: seq<MemberRow>) {
    forall c, person | c in t.conversations && c.kind == Group ::
      Participant(c.id, person) in t.participants <==> IsMember(members, c.workspaceId, person)
  }

  /**
    After the migration: every workspace has exactly one group conversation; every message has a
    conversation, and it is the group of the message's own workspace; every group's history is its
    workspace's former history, in the same order, and its participants are the workspace's members;
    earlier conversations are still there.
   */
  ghost predicate Migrated(workspaces: seq<Id>, members: seq<MemberRow>, t: Tables, rows: seq<MessageRow>, t': Tables, rows': seq<MessageRow>) {
    && OneGroupEach(workspaces, t')
    && MembersJoined(t', members)
    && Forget(rows') == Forget(rows)
    && AllInOwnGroup(t', rows')
    && HistoriesKept(t', rows, rows')
    && |rows'| == |rows| && t.conversations <= t'.conversations && t.participants <= t'.participants
  }

  lemma NewGroupAt(workspaces: seq<Id>, members: seq<MemberRow>, t: Tables, now: Time, i: nat)
    requires i < |workspaces|
    ensures Conversation(t.nextId + i, workspaces[i], Group, now) in After(workspaces, members, t, now).conversations
  {
    var cs := After(workspaces, members, t, now).conversations;
    assert cs[|t.conversations| + i] == Conversation(t.nextId + i, workspaces[i], Group, now);
  }

  lemma NewGroupIndex(workspaces: seq<Id>, members: seq<MemberRow>, t: Tables, now: Time, c: Conversation) returns (i: nat)
    requires NoGroups(t.conversations) && c in After(workspaces, members, t, now).conversations && c.kind == Group
    ensures i < |workspaces| && c == Conversation(t.nextId + i, workspaces[i], Group, now)
  {
    var cs := After(workspaces, members, t, now).conversations;
    var j :| 0 <= j < |cs| && cs[j] == c;
    i := j - |t.conversations|;
  }

  lemma MigrationGivesOneGroup(workspaces: seq<Id>, members: seq<MemberRow>, t: Tables, rows: seq<MessageRow>, now: Time)
    requires Before(workspaces, members, t, rows) && NoGroups(t.conversations)
    ensures OneGroupEach(workspaces, After(workspaces, members, t, now))
  {
    var t' := After(workspaces, members, t, now);
    AfterKeepsConstraints(workspaces, members, t, rows, now);
    forall w | w in workspaces
      ensures HasGroup(t', w)
    {
      var i :| 0 <= i < |workspaces| && workspaces[i] == w;
      NewGroupAt(workspaces, members, t, now, i);
    }
    forall w, c, d | c in t'.conversations && d in t'.conversations && IsGroupOf(c, w) && IsGroupOf(d, w)
      ensures c == d
    {
      GroupIsUnique(t', w, c, d);
    }
  }

  lemma MigrationMovesMessages(workspaces: seq<Id>, members: seq<MemberRow>, t: Tables, rows: seq<MessageRow>, now: Time)
    requires Before(workspaces, members, t, rows) && NoGroups(t.conversations)
    ensures var t' := After(workspaces, members, t, now); AllInOwnGroup(t', BackfillAll(rows, t'.conversations))
  {
    var t' := After(workspaces, members, t, now);
    var rows' := BackfillAll(rows, t'.conversations);
    forall k | 0 <= k < |rows'|
      ensures InOwnGroup(t', rows'[k])
    {
      var i :| 0 <= i < |workspaces| && workspaces[i] == rows[k].workspaceId;
      BackfillFindsGroup(workspaces, t, now, i);
      NewGroupAt(workspaces, members, t, now, i);
    }
  }

  lemma MigrationKeepsHistories(workspaces: seq<Id>, members: seq<MemberRow>, t: Tables, rows: seq<MessageRow>, now: Time)
    requires Before(workspaces, members, t, rows) && NoGroups(t.conversations)
    ensures var t' := After(workspaces, members, t, now); HistoriesKept(t', rows, BackfillAll(rows, t'.conversations))
  {
    var t' := After(workspaces, members, t, now);
    var rows' := BackfillAll(rows, t'.conversations);
    forall c | c in t'.conversations && c.kind == Group
      ensures Forget(ConversationHistory(rows', c.id)) == FormerHistory(rows, c.workspaceId)
    {
      var i := NewGroupIndex(workspaces, members, t, now, c);
      HistoryIsPreserved(workspaces, t, rows, now, i);
    }
  }

  lemma IsMemberSnoc(front: seq<MemberRow>, last: MemberRow, w: Id, person: Id)
    ensures IsMember(front + [last], w, person) <==> IsMember(front, w, person) || (last.workspaceId == w && last.personId == person)
  {
    assert (front + [last])[|front|] == last;
    if IsMember(front, w, person) {
      var k :| 0 <= k < |front| && front[k].workspaceId == w && front[k].personId == person;
      assert (front + [last])[k] == front[k];
    }
  }

  lemma {:induction false} MembersOfElements(members: seq<MemberRow>, w: Id, conv: Id, p: Participant)
    ensures p in MembersOf(members, w, conv) <==> p.conversationId == conv && IsMember(members, w, p.personId)
  {
    if members != [] {
      var front, last := members[..|members| - 1], members[|members| - 1];
      MembersOfElements(front, w, conv, p);
      assert members == front + [last];
      IsMemberSnoc(front, last, w, p.personId);
    }
  }

  /** A group's new participants come from its workspace's members. */
  lemma {:induction false} GroupParticipantsElements(cs: seq<Conversation>, members: seq<MemberRow>, p: Participant)
    ensures p in GroupParticipants(cs, members)
            <==> exists c :: c in cs && c.kind == Group && c.id == p.conversationId && IsMember(members, c.workspaceId, p.personId)
  {
    if cs != [] {
      var front, c := cs[..|cs| - 1], cs[|cs| - 1];
      assert cs == front + [c];
      GroupParticipantsElements(front, members, p);
      MembersOfElements(members, c.workspaceId, c.id, p);
    }
  }

  lemma MigrationJoinsMembers(workspaces: seq<Id>, members: seq<MemberRow>, t: Tables, rows: seq<MessageRow>, now: Time)
    requires Before(workspaces, members, t, rows) && NoGroups(t.conversations)
    ensures MembersJoined(After(workspaces, members, t, now), members)
  {
    var t' := After(workspaces, members, t, now);
    AfterKeepsConstraints(workspaces, members, t, rows, now);
    forall c, person | c in t'.conversations && c.kind == Group
      ensures Participant(c.id, person) in t'.participants <==> IsMember(members, c.workspaceId, person)
    {
      var p := Participant(c.id, person);
      var i := NewGroupIndex(workspaces, members, t, now, c);
      assert p !in t.participants;
      GroupParticipantsElements(t'.conversations, members, p);
      if d :| d in t'.conversations && d.kind == Group && d.id == c.id && IsMember(members, d.workspaceId, person) {
        ConversationById(t', c, d);
      }
    }
  }

  lemma BackfillForgets(rows: seq<MessageRow>, cs: seq<Conversation>)
    ensures |BackfillAll(rows, cs)| == |rows| && Forget(BackfillAll(rows, cs)) == Forget(rows)
  {
  }

  lemma NothingIsDropped(workspaces: seq<Id>, members: seq<MemberRow>, t: Tables, now: Time)
    ensures var t' := After(workspaces, members, t, now);
            t.conversations <= t'.conversations && t.participants <= t'.participants
  {
  }

  lemma MigrationPreservesHistory(workspaces: seq<Id>, members: seq<MemberRow>, t: Tables, rows: seq<MessageRow>, now: Time)
    requires Before(workspaces, members, t, rows) && NoGroups(t.conversations)
    ensures var t' := After(workspaces, members, t, now);
            Constraints(t') && Migrated(workspaces, members, t, rows, t', BackfillAll(rows, t'.conversations))
  {
    AfterKeepsConstraints(workspaces, members, t, rows, now);
    MigrationGivesOneGroup(workspaces, members, t, rows, now);
    MigrationMovesMessages(workspaces, members, t, rows, now);
    MigrationKeepsHistories(workspaces, members, t, rows, now);
    MigrationJoinsMembers(workspaces, members, t, rows, now);
    BackfillForgets(rows, After(workspaces, members, t, now).conversations);
    NothingIsDropped(workspaces, members, t, now);
  }

  // ---------------------------------------------------------------- the statements as they run

  lemma EveryMessageHasConversation(t: Tables, rows: seq<MessageRow>)
    requires AllInOwnGroup(t, rows)
    ensures forall k :: 0 <= k < |rows| ==> rows[k].conversationId.Some?
  {
    forall k | 0 <= k < |rows|
      ensures rows[k].conversationId.Some?
    {
      assert InOwnGroup(t, rows[k]);
    }
  }

  lemma BackfilledHaveConversations(workspaces: seq<Id>, members: seq<MemberRow>, t: Tables, rows: seq<MessageRow>, now: Time)
    requires Before(workspaces, members, t, rows) && NoGroups(t.conversations)
    ensures var after := BackfillAll(rows, t.conversations + NewGroups(workspaces, t.nextId, now));
            forall k :: 0 <= k < |after| ==> after[k].conversationId.Some?
  {
    MigrationPreservesHistory(workspaces, members, t, rows, now);
    EveryMessageHasConversation(After(workspaces, members, t, now), BackfillAll(rows, t.conversations + NewGroups(workspaces, t.nextId, now)));
  }

  lemma ExistingGroup(cs: seq<Conversation>, workspaces: seq<Id>, firstId: Id, now: Time, i: nat, c: Conversation)
    requires Distinct(workspaces) && i < |workspaces|
    requires c in cs + NewGroups(workspaces[..i], firstId, now) && IsGroupOf(c, workspaces[i])
    ensures c in cs && !NoGroups(cs)
  {
    assert forall j :: 0 <= j < i ==> NewGroups(workspaces[..i], firstId, now)[j].workspaceId != workspaces[i];
  }

  class ChatDatabase {
    var workspaces: seq<Id>
    var members: seq<MemberRow>
    var conversations: seq<Conversation>
    var participants: seq<Participant>
    var nextId: Id
    var messages: seq<MessageRow>
    var conversationRequired: bool

    function State(): Tables
      reads this
    {
      Tables((set w | w in workspaces), conversations, participants, nextId)
    }

    /** Inserts one group per workspace; the partial unique index rejects a second one. */
    method InsertGroups(now: Time) returns (ok: bool)
      requires Before(workspaces, members, State(), messages)
      modifies this`conversations, this`nextId
      ensures ok <==> NoGroups(old(conversations))
      ensures ok ==> conversations == old(conversations) + NewGroups(workspaces, old(nextId), now)
                     && nextId == old(nextId) + |workspaces|
    {
      for i := 0 to |workspaces|
        invariant conversations == old(conversations) + NewGroups(workspaces[..i], old(nextId), now)
        invariant nextId == old(nextId) + i
        invariant forall k, j :: 0 <= k < |old(conversations)| && 0 <= j < i ==>
                    !IsGroupOf(old(conversations)[k], workspaces[j])
      {
        if c :| c in conversations && IsGroupOf(c, workspaces[i]) {
          ExistingGroup(old(conversations), workspaces, old(nextId), now, i, c);
          return false;
        }
        assert forall k :: 0 <= k < |old(conversations)| ==> old(conversations)[k] in conversations;
        conversations := conversations + [Conversation(nextId, workspaces[i], Group, now)];
        nextId := nextId + 1;
      }
      assert workspaces[..|workspaces|] == workspaces;
      return true;
    }

    method BackfillMessages()
      modifies this`messages
      ensures messages == BackfillAll(old(messages), conversations)
    {
      var rows := messages;
      for k := 0 to |rows|
        invariant |messages| == |rows|
        invariant forall j :: 0 <= j < |rows| ==> messages[j] == if j < k then Backfill(rows[j], conversations) else rows[j]
      {
        messages := messages[k := Backfill(rows[k], conversations)];
      }
    }

    /** Requiring a conversation fails if some message has none. */
    method RequireConversation() returns (ok: bool)
      modifies this`conversationRequired
      ensures ok <==> forall k :: 0 <= k < |messages| ==> messages[k].conversationId.Some?
      ensures ok ==> conversationRequired
    {
      for k := 0 to |messages|
        invariant forall j :: 0 <= j < k ==> messages[j].conversationId.Some?
      {
        if messages[k].conversationId.None? {
          return false;
        }
      }
      conversationRequired := true;
      return true;
    }

    /** The statements after the groups are there; none of them can fail. */
    method FillMessagesAndParticipants(ghost before: Tables, now: Time)
      requires Before(workspaces, members, before, messages) && NoGroups(before.conversations)
      requires State() == before.(conversations := conversations, nextId := nextId)
      requires conversations == before.conversations + NewGroups(workspaces, before.nextId, now)
      requires nextId == before.nextId + |workspaces|
      modifies this`messages, this`conversationRequired, this`participants
      ensures conversationRequired && State() == After(workspaces, members, before, now)
      ensures messages == BackfillAll(old(messages), conversations)
    {
      BackfillMessages();
      BackfilledHaveConversations(workspaces, members, before, old(messages), now);
      var complete := RequireConversation();
      participants := participants + GroupParticipants(conversations, members);
    }

    /** Succeeds exactly if no group exists yet, and then preserves every history; otherwise nothing changes. */
    method Up(now: Time) returns (ok: bool)
      requires Before(workspaces, members, State(), messages) && !conversationRequired
      modifies this
      ensures workspaces == old(workspaces) && members == old(members)
      ensures ok <==> NoGroups(old(conversations))
      ensures ok ==> conversationRequired && State() == After(workspaces, members, old(State()), now)
      ensures ok ==> Migrated(workspaces, members, old(State()), old(messages), State(), messages)
      ensures !ok ==> State() == old(State()) && messages == old(messages) && !conversationRequired
    {
      var conversations0, nextId0 := conversations, nextId;
      ghost var before := State();
      ok := InsertGroups(now);
      if !ok {
        conversations, nextId := conversations0, nextId0;
        return;
      }
      FillMessagesAndParticipants(before, now);
      MigrationPreservesHistory(workspaces, members, before, old(messages), now);
    }
  }

  // ---------------------------------------------------------------- the listing afterwards

  lemma {:induction false} MatchedConcat(c: Conversation, ps: seq<Participant>, qs: seq<Participant>)
    ensures Listing.Matched(c, ps + qs) == Listing.Matched(c, ps) + Listing.Matched(c, qs)
    decreases |qs|
  {
    if qs == [] {
      assert ps + qs == ps;
    } else {
      assert (ps + qs)[..|ps + qs| - 1] == ps + qs[..|qs| - 1];
      MatchedConcat(c, ps, qs[..|qs| - 1]);
    }
  }

  lemma {:induction false} MatchedMembers(c: Conversation, members: seq<MemberRow>, w: Id, conv: Id)
    ensures |Listing.Matched(c, MembersOf(members, w, conv))| == if c.id == conv then |MembersOf(members, w, conv)| else 0
  {
    if members != [] {
      var front := members[..|members| - 1];
      MatchedMembers(c, front, w, conv);
      if members[|members| - 1].workspaceId == w {
        assert MembersOf(members, w, conv)[..|MembersOf(members, w, conv)| - 1] == MembersOf(front, w, conv);
      }
    }
  }

  lemma {:induction false} MatchedNewGroups(workspaces: seq<Id>, members: seq<MemberRow>, firstId: Id, now: Time, i: nat, n: nat)
    requires i < |workspaces| && n <= |workspaces|
    ensures var groups := NewGroups(workspaces, firstId, now);
            |Listing.Matched(groups[i], GroupParticipants(groups[..n], members))|
              == if i < n then |MembersOf(members, workspaces[i], firstId + i)| else 0
    decreases n
  {
    if n > 0 {
      var groups := NewGroups(workspaces, firstId, now);
      MatchedNewGroups(workspaces, members, firstId, now, i, n - 1);
      assert groups[..n][..n - 1] == groups[..n - 1];
      MatchedConcat(groups[i], GroupParticipants(groups[..n - 1], members), MembersOf(members, workspaces[n - 1], firstId + n - 1));
      MatchedMembers(groups[i], members, workspaces[n - 1], firstId + n - 1);
    }
  }

  /** The join finds one participant row per member of the group's workspace. */
  lemma GroupMatchesItsMembers(workspaces: seq<Id>, members: seq<MemberRow>, t: Tables, rows: seq<MessageRow>, now: Time, i: nat)
    requires Before(workspaces, members, t, rows) && NoGroups(t.conversations) && i < |workspaces|
    ensures |NewGroups(workspaces, t.nextId, now)| == |workspaces|
    ensures |Listing.Matched(NewGroups(workspaces, t.nextId, now)[i], After(workspaces, members, t, now).participants)|
            == |MembersOf(members, workspaces[i], t.nextId + i)|
  {
    var t' := After(workspaces, members, t, now);
    var groups := NewGroups(workspaces, t.nextId, now);
    var c := groups[i];
    MatchedConcat(c, t.participants, GroupParticipants(t'.conversations, members));
    Listing.MatchedNone(c, t.participants);
    DmsBringNoParticipants(t.conversations, groups, members);
    MatchedNewGroups(workspaces, members, t.nextId, now, i, |workspaces|);
    assert groups[..|workspaces|] == groups;
  }

  /** The positions of a workspace's member rows. */
  function MemberRowsOf(members: seq<MemberRow>, w: Id): set<nat> {
    set k | 0 <= k < |members| && members[k].workspaceId == w
  }

  lemma {:induction false} OnePerMember(members: seq<MemberRow>, w: Id, conv: Id)
    ensures |MembersOf(members, w, conv)| == |MemberRowsOf(members, w)|
  {
    if members != [] {
      var front, last := members[..|members| - 1], |members| - 1;
      OnePerMember(front, w, conv);
      var more := if members[last].workspaceId == w then {last} else {};
      assert MemberRowsOf(members, w) == MemberRowsOf(front, w) + more;
    }
  }

  /**
    The migration gives the group one participant row per member, so the listing returns the group
    once per member (and at least once): with two or more members it contains duplicates.
   */
  lemma ListingAfterMigration(workspaces: seq<Id>, members: seq<MemberRow>, t: Tables, rows: seq<MessageRow>, now: Time,
                              i: nat, person: Id, result: seq<Conversation>)
    requires Before(workspaces, members, t, rows) && NoGroups(t.conversations) && i < |workspaces|
    requires Listing.IsListing(After(workspaces, members, t, now), workspaces[i], person, result)
    ensures var n := |MemberRowsOf(members, workspaces[i])|;
            && multiset(result)[Conversation(t.nextId + i, workspaces[i], Group, now)] == (if n == 0 then 1 else n)
            && (n >= 2 ==> !Distinct(result))
  {
    var t' := After(workspaces, members, t, now);
    var c := NewGroups(workspaces, t.nextId, now)[i];
    AfterKeepsConstraints(workspaces, members, t, rows, now);
    NewGroupAt(workspaces, members, t, now, i);
    GroupMatchesItsMembers(workspaces, members, t, rows, now, i);
    OnePerMember(members, workspaces[i], t.nextId + i);
    Listing.MatchedSize(c, t'.participants);
    Listing.ListingMultiplicity(t', workspaces[i], person, result, c);
    DistinctMeansOnce(result);
  }
}

/** The listing query: a LEFT JOIN with an OR filter, and how often it returns each conversation. */
module Listing {
  import opened Entities
  import opened Sequences
  import opened Conversations

  /** One row of the join; `person` is NULL when the conversation has no participants. */
  datatype JoinedRow = JoinedRow(conv: Conversation, person: Option<Id>)

  function Matched(c: Conversation, ps: seq<Participant>): seq<JoinedRow> {
    if ps == [] then []
    else
      var front := Matched(c, ps[..|ps| - 1]);
      var last := ps[|ps| - 1];
      if last.conversationId == c.id then front + [JoinedRow(c, Some(last.personId))] else front
  }

  function RowsFor(c: Conversation, ps: seq<Participant>): seq<JoinedRow> {
    if Matched(c, ps) == [] then [JoinedRow(c, None)] else Matched(c, ps)
  }

  function LeftJoin(cs: seq<Conversation>, ps: seq<Participant>): seq<JoinedRow> {
    if cs == [] then [] else LeftJoin(cs[..|cs| - 1], ps) + RowsFor(cs[|cs| - 1], ps)
  }

  predicate Keeps(row: JoinedRow, w: Id, person: Id) {
    row.conv.workspaceId == w && (row.conv.kind == Group || row.person == Some(person))
  }

  /** The rows that pass the filter, without their participant column. */
  function Picked(rows: seq<JoinedRow>, w: Id, person: Id): seq<Conversation> {
    if rows == [] then []
    else
      var front := Picked(rows[..|rows| - 1], w, person);
      if Keeps(rows[|rows| - 1], w, person) then front + [rows[|rows| - 1].conv] else front
  }

  /** DMs before the group, and older before newer within each. */
  predicate Before(c: Conversation, d: Conversation) {
    if c.kind == d.kind then c.createdAt <= d.createdAt else c.kind == Dm
  }

  /** What ListByWorkspaceAndPerson may return: any sorted arrangement of the selected rows. */
  ghost predicate IsListing(t: Tables, w: Id, person: Id, result: seq<Conversation>) {
    && multiset(result) == multiset(Picked(LeftJoin(t.conversations, t.participants), w, person))
    && SortedBy(Before, result)
  }

  function ParticipantsOf(ps: seq<Participant>, conv: Id): set<Participant> {
    set p | p in ps && p.conversationId == conv
  }

  /** How often the query should return a conversation, stated without the join. */
  function Multiplicity(t: Tables, w: Id, person: Id, c: Conversation): nat {
    if c.workspaceId != w || c !in t.conversations then 0
    else if c.kind == Group then
      var n := |ParticipantsOf(t.participants, c.id)|;
      if n == 0 then 1 else n
    else if Participant(c.id, person) in t.participants then 1 else 0
  }

  lemma {:induction false} PickedConcat(xs: seq<JoinedRow>, ys: seq<JoinedRow>, w: Id, person: Id)
    ensures Picked(xs + ys, w, person) == Picked(xs, w, person) + Picked(ys, w, person)
    decreases |ys|
  {
    if ys == [] {
      assert xs + ys == xs;
    } else {
      assert (xs + ys)[..|xs + ys| - 1] == xs + ys[..|ys| - 1];
      PickedConcat(xs, ys[..|ys| - 1], w, person);
    }
  }

  lemma {:induction false} MatchedConv(c: Conversation, ps: seq<Participant>)
    ensures forall k :: 0 <= k < |Matched(c, ps)| ==> Matched(c, ps)[k].conv == c
  {
    if ps != [] {
      MatchedConv(c, ps[..|ps| - 1]);
    }
  }

  /** The rows of one conversation only ever yield that conversation. */
  lemma {:induction false} PickedFromOne(rows: seq<JoinedRow>, c: Conversation, w: Id, person: Id, d: Conversation)
    requires forall k :: 0 <= k < |rows| ==> rows[k].conv == c
    requires d != c
    ensures multiset(Picked(rows, w, person))[d] == 0
  {
    if rows != [] {
      PickedFromOne(rows[..|rows| - 1], c, w, person, d);
    }
  }

  lemma {:induction false} GroupRowsAllKept(c: Conversation, ps: seq<Participant>, w: Id, person: Id)
    requires c.kind == Group && c.workspaceId == w
    ensures multiset(Picked(Matched(c, ps), w, person))[c] == |Matched(c, ps)|
  {
    if ps != [] {
      var front := ps[..|ps| - 1];
      GroupRowsAllKept(c, front, w, person);
      if ps[|ps| - 1].conversationId == c.id {
        assert Matched(c, ps)[..|Matched(c, ps)| - 1] == Matched(c, front);
      }
    }
  }

  lemma {:induction false} DmRowsKeptOnce(c: Conversation, ps: seq<Participant>, w: Id, person: Id)
    requires c.kind == Dm && c.workspaceId == w
    ensures multiset(Picked(Matched(c, ps), w, person))[c] == multiset(ps)[Participant(c.id, person)]
  {
    if ps != [] {
      var front, last := ps[..|ps| - 1], ps[|ps| - 1];
      assert ps == front + [last];
      DmRowsKeptOnce(c, front, w, person);
      if last.conversationId == c.id {
        assert Matched(c, ps)[..|Matched(c, ps)| - 1] == Matched(c, front);
      }
    }
  }

  lemma {:induction false} ForeignRowsDropped(rows: seq<JoinedRow>, w: Id, person: Id)
    requires forall k :: 0 <= k < |rows| ==> rows[k].conv.workspaceId != w
    ensures Picked(rows, w, person) == []
  {
    if rows != [] {
      ForeignRowsDropped(rows[..|rows| - 1], w, person);
    }
  }

  lemma {:induction false} MatchedSize(c: Conversation, ps: seq<Participant>)
    requires Distinct(ps)
    ensures |Matched(c, ps)| == |ParticipantsOf(ps, c.id)|
  {
    if ps != [] {
      var front, last := ps[..|ps| - 1], ps[|ps| - 1];
      MatchedSize(c, front);
      assert ps == front + [last];
      var more := if last.conversationId == c.id then {last} else {};
      assert ParticipantsOf(ps, c.id) == ParticipantsOf(front, c.id) + more;
    }
  }

  lemma OneConversationsRows(t: Tables, c: Conversation, w: Id, person: Id)
    requires Constraints(t) && c in t.conversations
    ensures multiset(Picked(RowsFor(c, t.participants), w, person))[c] == Multiplicity(t, w, person, c)
  {
    var ps := t.participants;
    MatchedConv(c, ps);
    if c.workspaceId != w {
      ForeignRowsDropped(RowsFor(c, ps), w, person);
    } else {
      assert Picked([JoinedRow(c, None)], w, person) == Picked([], w, person) + (if c.kind == Group then [c] else []);
      if c.kind == Group {
        GroupRowsAllKept(c, ps, w, person);
        MatchedSize(c, ps);
      } else {
        DmRowsKeptOnce(c, ps, w, person);
        DistinctCount(ps, Participant(c.id, person));
      }
    }
  }

  lemma RowsOfOne(t: Tables, d: Conversation, w: Id, person: Id, c: Conversation)
    requires Constraints(t) && d in t.conversations
    ensures multiset(Picked(RowsFor(d, t.participants), w, person))[c] == if c == d then Multiplicity(t, w, person, c) else 0
  {
    MatchedConv(d, t.participants);
    if c == d {
      OneConversationsRows(t, c, w, person);
    } else {
      PickedFromOne(RowsFor(d, t.participants), d, w, person, c);
    }
  }

  lemma {:induction false} JoinCounts(t: Tables, cs: seq<Conversation>, w: Id, person: Id, c: Conversation)
    requires Constraints(t) && cs <= t.conversations
    ensures multiset(Picked(LeftJoin(cs, t.participants), w, person))[c] ==
            if c in cs then Multiplicity(t, w, person, c) else 0
    decreases |cs|
  {
    if cs != [] {
      var front, last := cs[..|cs| - 1], cs[|cs| - 1];
      JoinCounts(t, front, w, person, c);
      PickedConcat(LeftJoin(front, t.participants), RowsFor(last, t.participants), w, person);
      RowsOfOne(t, last, w, person, c);
      assert last == t.conversations[|cs| - 1];
      assert c == last ==> c !in front;
      assert cs == front + [last];
    }
  }

  /**
    A workspace's group comes back once per participant row, but at least once; a DM comes back once
    for each of its participants and never for anybody else; nothing else comes back.
   */
  lemma ListingMultiplicity(t: Tables, w: Id, person: Id, result: seq<Conversation>, c: Conversation)
    requires Constraints(t) && IsListing(t, w, person, result)
    ensures multiset(result)[c] == Multiplicity(t, w, person, c)
  {
    JoinCounts(t, t.conversations, w, person, c);
  }

  /** The listing repeats a conversation exactly when a group of the workspace has two participant rows. */
  lemma ListingRepeatsIff(t: Tables, w: Id, person: Id, result: seq<Conversation>)
    requires Constraints(t) && IsListing(t, w, person, result)
    ensures Distinct(result) <==>
            forall c :: c in t.conversations && c.kind == Group && c.workspaceId == w ==> |ParticipantsOf(t.participants, c.id)| <= 1
  {
    forall c
      ensures multiset(result)[c] == Multiplicity(t, w, person, c)
    {
      ListingMultiplicity(t, w, person, result, c);
    }
    DistinctMeansOnce(result);
    if !Distinct(result) {
      var c :| multiset(result)[c] > 1;
      assert c in t.conversations && IsGroupOf(c, w) && |ParticipantsOf(t.participants, c.id)| > 1;
    } else {
      forall c | c in t.conversations && IsGroupOf(c, w)
        ensures |ParticipantsOf(t.participants, c.id)| <= 1
      {
        assert multiset(result)[c] <= 1;
      }
    }
  }

  lemma {:induction false} MatchedNone(c: Conversation, ps: seq<Participant>)
    requires forall p :: p in ps ==> p.conversationId != c.id
    ensures Matched(c, ps) == []
  {
    if ps != [] {
      MatchedNone(c, ps[..|ps| - 1]);
    }
  }

  /** DMs come before the group, and among DMs the older ones first. */
  ghost predicate InListingOrder(result: seq<Conversation>) {
    forall i, j :: 0 <= i < j < |result| ==>
      && (result[i].kind == Group ==> result[j].kind == Group)
      && (result[i].kind == result[j].kind ==> result[i].createdAt <= result[j].createdAt)
  }

  lemma SortedMeansListingOrder(result: seq<Conversation>)
    requires SortedBy(Before, result)
    ensures InListingOrder(result)
  {
    forall i, j | 0 <= i < j < |result|
      ensures result[i].kind == Group ==> result[j].kind == Group
      ensures result[i].kind == result[j].kind ==> result[i].createdAt <= result[j].createdAt
    {
      assert Before(result[i], result[j]);
    }
  }

  /** While only DMs have participants, the listing has no duplicates and shows the group once. */
  lemma ListingWithoutDuplicates(t: Tables, w: Id, person: Id, result: seq<Conversation>)
    requires Constraints(t) && OnlyDmsHaveParticipants(t) && IsListing(t, w, person, result)
    ensures Distinct(result) && InListingOrder(result)
    ensures forall c :: c in result <==>
              c in t.conversations && c.workspaceId == w && (c.kind == Group || Participant(c.id, person) in t.participants)
  {
    forall c | c in t.conversations && IsGroupOf(c, w)
      ensures ParticipantsOf(t.participants, c.id) == {}
    {
    }
    SortedMeansListingOrder(result);
    ListingRepeatsIff(t, w, person, result);
    forall c
      ensures c in result <==>
              c in t.conversations && c.workspaceId == w && (c.kind == Group || Participant(c.id, person) in t.participants)
    {
      ListingMultiplicity(t, w, person, result, c);
      assert c in result <==> c in multiset(result);
    }
  }

  /** The query always has an answer. */
  lemma ListingExists(t: Tables, w: Id, person: Id) returns (result: seq<Conversation>)
    ensures IsListing(t, w, person, result)
  {
    result := SortedArrangementExists(Before, Picked(LeftJoin(t.conversations, t.participants), w, person));
  }

  /**
    The repository's loop over the rows that the database answers with.  In every state the service
    reaches, the caller sees its conversations in order, with the multiplicities of the join; without
    group participants that is the group once and each of its DMs once.
   */
  method ListByWorkspaceAndPerson(service: ConversationService, w: Id, person: Id, rows: seq<Conversation>)
    returns (conversations: seq<Conversation>)
    requires service.Valid() && IsListing(service.State(), w, person, rows)
    ensures IsListing(service.State(), w, person, conversations)
    ensures InListingOrder(conversations)
    ensures forall c :: multiset(conversations)[c] == Multiplicity(service.State(), w, person, c)
    ensures OnlyDmsHaveParticipants(service.State()) ==>
              Distinct(conversations)
              && forall c :: c in conversations <==>
                   c in service.conversations && c.workspaceId == w && (c.kind == Group || Participant(c.id, person) in service.participants)
  {
    conversations := [];
    for k := 0 to |rows|
      invariant conversations == rows[..k]
    {
      conversations := conversations + [rows[k]];
    }
    assert rows[..|rows|] == rows;
    SortedMeansListingOrder(conversations);
    forall c
      ensures multiset(conversations)[c] == Multiplicity(service.State(), w, person, c)
    {
      ListingMultiplicity(service.State(), w, person, conversations, c);
    }
    if OnlyDmsHaveParticipants(service.State()) {
      ListingWithoutDuplicates(service.State(), w, person, conversations);
    }
  }
}

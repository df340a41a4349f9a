/** Stored message history: saving, and listing one page before a timestamp cursor. */
module History {
  import opened Entities
  import opened Sequences

  const DEFAULT_LIMIT := 50
  const MAX_LIMIT := 200

  predicate Selected(m: ChatMessage, conv: Id, before: Time) {
    m.conversationId == conv && m.createdAt < before
  }

  /** The messages of the conversation that are older than the cursor. */
  function Eligible(table: seq<ChatMessage>, conv: Id, before: Time): seq<ChatMessage> {
    if table == [] then []
    else
      var front := Eligible(table[..|table| - 1], conv, before);
      var last := table[|table| - 1];
      if Selected(last, conv, before) then front + [last] else front
  }

  predicate Newest(x: ChatMessage, y: ChatMessage) {
    x.createdAt >= y.createdAt
  }

  predicate Oldest(x: ChatMessage, y: ChatMessage) {
    x.createdAt <= y.createdAt
  }

  function Min(a: nat, b: nat): nat {
    if a < b then a else b
  }

  /** The eligible messages, newest first, in one of the orders that the database may choose for ties. */
  ghost predicate IsDescending(all: seq<ChatMessage>, table: seq<ChatMessage>, conv: Id, before: Time) {
    multiset(all) == multiset(Eligible(table, conv, before)) && SortedBy(Newest, all)
  }

  /** The eligible messages, oldest first, with ties in any order. */
  ghost predicate IsHistory(all: seq<ChatMessage>, table: seq<ChatMessage>, conv: Id, before: Time) {
    multiset(all) == multiset(Eligible(table, conv, before)) && SortedBy(Oldest, all)
  }

  /** The newest of them, newest first: ties may come in any order, and so may be cut off anywhere. */
  ghost predicate IsQueryResult(table: seq<ChatMessage>, conv: Id, before: Time, limit: nat, rows: seq<ChatMessage>) {
    exists all :: IsDescending(all, table, conv, before) && rows == all[..Min(limit, |all|)]
  }

  /** The last `limit` eligible messages, or all of them, oldest first. */
  ghost predicate IsPage(table: seq<ChatMessage>, conv: Id, before: Time, limit: nat, page: seq<ChatMessage>) {
    exists all :: IsHistory(all, table, conv, before) && page == all[|all| - Min(limit, |all|)..]
  }

  function Reversed<T>(s: seq<T>): seq<T> {
    seq(|s|, i requires 0 <= i < |s| => s[|s| - 1 - i])
  }

  /** The handler's normalisation of the requested limit. */
  function EffectiveLimit(limit: int): (n: nat)
    ensures 1 <= n <= MAX_LIMIT
    ensures 1 <= limit <= MAX_LIMIT ==> n == limit
    ensures limit < 1 || limit > 200 ==> n == 50
  {
    if limit <= 0 || limit > MAX_LIMIT then DEFAULT_LIMIT else limit
  }

  /** The cursor of the request, or one second past the clock when it has none. */
  function EffectiveCursor(before: Option<Time>, now: Time, second: nat): Time {
    match before
    case Some(t) => t
    case None => now + second
  }

  lemma {:induction false} ReversedKeepsElements<T>(s: seq<T>)
    ensures multiset(Reversed(s)) == multiset(s)
  {
    if s != [] {
      var front, last := s[..|s| - 1], s[|s| - 1];
      ReversedKeepsElements(front);
      assert s == front + [last];
      assert Reversed(s) == [last] + Reversed(front);
    }
  }

  lemma ReversedPrefix(all: seq<ChatMessage>, k: nat)
    requires SortedBy(Newest, all) && k <= |all|
    ensures SortedBy(Oldest, Reversed(all))
    ensures Reversed(all[..k]) == Reversed(all)[|all| - k..]
  {
  }

  /** Reversing a descending page of the query gives the ascending page the caller is promised. */
  lemma ReversedQueryIsPage(table: seq<ChatMessage>, conv: Id, before: Time, limit: nat, rows: seq<ChatMessage>)
    requires IsQueryResult(table, conv, before, limit, rows)
    ensures IsPage(table, conv, before, limit, Reversed(rows))
  {
    var all :| IsDescending(all, table, conv, before) && rows == all[..Min(limit, |all|)];
    ReversedKeepsElements(all);
    ReversedPrefix(all, Min(limit, |all|));
    assert IsHistory(Reversed(all), table, conv, before);
  }

  lemma PageIsEmptyIff(table: seq<ChatMessage>, conv: Id, before: Time, limit: nat, page: seq<ChatMessage>)
    requires limit >= 1 && IsPage(table, conv, before, limit, page)
    ensures page == [] <==> Eligible(table, conv, before) == []
  {
    var all :| IsHistory(all, table, conv, before) && page == all[|all| - Min(limit, |all|)..];
    assert |all| == |multiset(all)| == |Eligible(table, conv, before)|;
  }

  // ---------------------------------------------------------------- what a page is, without the query

  /** All messages of the conversation, oldest first. */
  ghost predicate IsConversation(all: seq<ChatMessage>, rows: seq<ChatMessage>, conv: Id) {
    && SortedBy(Oldest, all)
    && forall m: ChatMessage :: multiset(all)[m] == if m.conversationId == conv then multiset(rows)[m] else 0
  }

  /** The last `n` of all messages of the conversation, or all of them if there are no more. */
  ghost predicate IsEndOf(rows: seq<ChatMessage>, conv: Id, n: nat, reply: seq<ChatMessage>) {
    exists all :: IsConversation(all, rows, conv) && reply == all[if n < |all| then |all| - n else 0..]
  }

  /** The whole conversation is older than the time. */
  ghost predicate AllBefore(rows: seq<ChatMessage>, conv: Id, t: Time) {
    forall m :: m in rows && m.conversationId == conv ==> m.createdAt < t
  }

  /** Older messages of the conversation, and a missing one is not newer than `n` that are there. */
  ghost predicate IsBefore(rows: seq<ChatMessage>, conv: Id, t: Time, n: nat, reply: seq<ChatMessage>) {
    && |reply| <= n
    && (forall m :: m in reply ==> m in rows && m.conversationId == conv && m.createdAt < t)
    && (forall i, j :: 0 <= i < j < |reply| ==> reply[i].createdAt <= reply[j].createdAt)
    && (forall m :: m in rows && m.conversationId == conv && m.createdAt < t && m !in reply ==>
          |reply| == n && forall x :: x in reply ==> m.createdAt <= x.createdAt)
  }

  lemma {:induction false} EligibleCounts(table: seq<ChatMessage>, conv: Id, before: Time, m: ChatMessage)
    ensures multiset(Eligible(table, conv, before))[m] == if Selected(m, conv, before) then multiset(table)[m] else 0
  {
    if table != [] {
      assert table == table[..|table| - 1] + [table[|table| - 1]];
      EligibleCounts(table[..|table| - 1], conv, before, m);
    }
  }

  lemma InHistory(rows: seq<ChatMessage>, conv: Id, before: Time, all: seq<ChatMessage>, m: ChatMessage)
    requires IsHistory(all, rows, conv, before)
    ensures multiset(all)[m] == if Selected(m, conv, before) then multiset(rows)[m] else 0
    ensures m in all <==> m in rows && Selected(m, conv, before)
  {
    EligibleCounts(rows, conv, before, m);
    assert m in all <==> multiset(all)[m] > 0;
    assert m in rows <==> multiset(rows)[m] > 0;
  }

  /** All that precedes a time is everything if everything does. */
  lemma HistoryOfAll(rows: seq<ChatMessage>, conv: Id, before: Time, all: seq<ChatMessage>)
    requires IsHistory(all, rows, conv, before) && AllBefore(rows, conv, before)
    ensures IsConversation(all, rows, conv)
  {
    forall m: ChatMessage
      ensures multiset(all)[m] == if m.conversationId == conv then multiset(rows)[m] else 0
    {
      InHistory(rows, conv, before, all, m);
      assert m in rows <==> multiset(rows)[m] > 0;
    }
  }

  lemma MissingIsOlder(all: seq<ChatMessage>, k: nat, m: ChatMessage)
    requires SortedBy(Oldest, all) && k <= |all| && m in all && m !in all[k..]
    ensures k > 0 && forall x :: x in all[k..] ==> m.createdAt <= x.createdAt
  {
    var i :| 0 <= i < |all| && all[i] == m;
    forall j | k <= j < |all|
      ensures all[j] in all[k..]
    {
      assert all[k..][j - k] == all[j];
    }
    forall x | x in all[k..]
      ensures m.createdAt <= x.createdAt
    {
      var j :| k <= j < |all| && all[j] == x;
      assert Oldest(all[i], all[j]);
    }
  }

  /** The last `n` of what is older than a time. */
  lemma EndIsBefore(rows: seq<ChatMessage>, conv: Id, before: Time, n: nat, all: seq<ChatMessage>, k: nat)
    requires IsHistory(all, rows, conv, before) && k == |all| - Min(n, |all|)
    ensures IsBefore(rows, conv, before, n, all[k..])
  {
    forall m
      ensures m in all <==> m in rows && m.conversationId == conv && m.createdAt < before
    {
      InHistory(rows, conv, before, all, m);
    }
    forall i, j | 0 <= i < j < |all| - k
      ensures all[k..][i].createdAt <= all[k..][j].createdAt
    {
      assert Oldest(all[k + i], all[k + j]);
    }
    forall m | m in rows && m.conversationId == conv && m.createdAt < before && m !in all[k..]
      ensures |all[k..]| == n && forall x :: x in all[k..] ==> m.createdAt <= x.createdAt
    {
      MissingIsOlder(all, k, m);
    }
  }

  lemma HistoryOfPage(rows: seq<ChatMessage>, conv: Id, before: Time, n: nat, page: seq<ChatMessage>) returns (all: seq<ChatMessage>)
    requires IsPage(rows, conv, before, n, page)
    ensures IsHistory(all, rows, conv, before) && page == all[|all| - Min(n, |all|)..]
  {
    all :| IsHistory(all, rows, conv, before) && page == all[|all| - Min(n, |all|)..];
  }

  /** What a request for `n` messages gets. */
  ghost predicate IsReply(rows: seq<ChatMessage>, conv: Id, before: Option<Time>, now: Time, second: nat, n: nat, reply: seq<ChatMessage>) {
    && (before.Some? ==> IsBefore(rows, conv, before.value, n, reply))
    && (before.None? ==> IsBefore(rows, conv, now + second, n, reply))
    && (before.None? && AllBefore(rows, conv, now + second) ==> IsEndOf(rows, conv, n, reply))
  }

  lemma PageIsReply(rows: seq<ChatMessage>, conv: Id, before: Option<Time>, now: Time, second: nat, n: nat, reply: seq<ChatMessage>)
    requires IsPage(rows, conv, EffectiveCursor(before, now, second), n, reply)
    ensures IsReply(rows, conv, before, now, second, n, reply)
  {
    var from := EffectiveCursor(before, now, second);
    var all := HistoryOfPage(rows, conv, from, n, reply);
    EndIsBefore(rows, conv, from, n, all, |all| - Min(n, |all|));
    if AllBefore(rows, conv, from) {
      HistoryOfAll(rows, conv, from, all);
    }
  }

  /** The message repository and the handler in front of it. */
  class MessageStore {
    var rows: seq<ChatMessage>

    constructor (rows: seq<ChatMessage>)
      ensures this.rows == rows
    {
      this.rows := rows;
    }

    /** Scans the result rows, one append per row. */
    method Scan(cursor: seq<ChatMessage>) returns (messages: array<ChatMessage>)
      ensures fresh(messages) && messages[..] == cursor
    {
      var scanned: seq<ChatMessage> := [];
      for k := 0 to |cursor|
        invariant scanned == cursor[..k]
      {
        scanned := scanned + [cursor[k]];
      }
      messages := new ChatMessage[|scanned|](k requires 0 <= k < |scanned| => scanned[k]);
    }

    /** `cursor` is what the database answers to the query. */
    method List(conv: Id, before: Time, limit: nat, cursor: seq<ChatMessage>) returns (messages: array<ChatMessage>)
      requires IsQueryResult(rows, conv, before, limit, cursor)
      ensures fresh(messages) && messages[..] == Reversed(cursor)
      ensures IsPage(rows, conv, before, limit, messages[..])
    {
      messages := Scan(cursor);
      ReverseInPlace(messages);
      ReversedQueryIsPage(rows, conv, before, limit, cursor);
    }

    method ReverseInPlace(messages: array<ChatMessage>)
      modifies messages
      ensures messages[..] == Reversed(old(messages[..]))
    {
      var i, j := 0, messages.Length - 1;
      while i < j
        invariant 0 <= i <= j + 1 && i + j == messages.Length - 1
        invariant forall k :: 0 <= k < messages.Length ==>
                    messages[k] == old(messages[..])[if i <= k <= j then k else messages.Length - 1 - k]
      {
        messages[i], messages[j] := messages[j], messages[i];
        i, j := i + 1, j - 1;
      }
    }

    /** The reply's entries, one per message and in order. */
    method Copy(messages: array<ChatMessage>) returns (reply: seq<ChatMessage>)
      ensures reply == messages[..]
    {
      reply := [];
      for k := 0 to messages.Length
        invariant reply == messages[..k]
      {
        reply := reply + [messages[k]];
      }
    }

    /**
      The handler.  Without a cursor the reply is the end of the conversation, unless the clock of this
      service lags the database's by a second or more; with one it is the end of what is older.
     */
    method ListMessages(conv: Id, before: Option<Time>, limit: int, now: Time, second: nat, cursor: seq<ChatMessage>)
      returns (reply: seq<ChatMessage>)
      requires IsQueryResult(rows, conv, EffectiveCursor(before, now, second), EffectiveLimit(limit), cursor)
      ensures IsPage(rows, conv, EffectiveCursor(before, now, second), EffectiveLimit(limit), reply)
      ensures reply == [] <==> Eligible(rows, conv, EffectiveCursor(before, now, second)) == []
      ensures IsReply(rows, conv, before, now, second, if 1 <= limit <= 200 then limit else 50, reply)
    {
      var from := now + second;
      if before.Some? {
        from := before.value;
      }
      var n := limit;
      if n <= 0 || n > MAX_LIMIT {
        n := DEFAULT_LIMIT;
      }
      var messages := List(conv, from, n, cursor);
      reply := Copy(messages);
      PageIsEmptyIff(rows, conv, from, n, reply);
      PageIsReply(rows, conv, before, now, second, n, reply);
    }
  }
}

/**
  What paging loses to timestamp ties, told from the stored rows alone: something is lost exactly if
  one of the page boundaries, counted from the newest message on, falls inside a tie.
 */
module TiedPages {
  import opened Entities
  import opened Sequences
  import opened History
  import opened Pagination

  /** A boundary after each `limit` messages, from the end of the ascending history, separates two with one timestamp. */
  predicate CutsATie(all: seq<ChatMessage>, limit: nat)
    requires limit >= 1
  {
    && |all| > limit
    && (all[|all| - limit - 1].createdAt == all[|all| - limit].createdAt || CutsATie(all[..|all| - limit], limit))
  }

  ghost predicate LosesSomething(all: seq<ChatMessage>, pages: seq<seq<ChatMessage>>) {
    exists m :: m in all && m !in Prepended(pages)
  }

  /** A sequence without repetitions inside another one of the same length has the same elements. */
  lemma SameSizeSameElements(xs: seq<ChatMessage>, ys: seq<ChatMessage>)
    requires Distinct(xs) && Distinct(ys) && |xs| >= |ys| && forall x :: x in xs ==> x in ys
    ensures forall y :: y in ys ==> y in xs
  {
    DistinctSize(xs);
    DistinctSize(ys);
    forall y | y in ys
      ensures y in xs
    {
      if y !in xs {
        SubsetSize(Elements(xs), Elements(ys) - {y});
      }
    }
  }

  lemma SuffixDistinct(all: seq<ChatMessage>, k: nat)
    requires Distinct(all) && k <= |all|
    ensures Distinct(all[k..])
  {
  }

  lemma SuffixFrom(all: seq<ChatMessage>, k: nat, m: ChatMessage)
    requires SortedBy(Oldest, all) && k < |all| && m in all[k..]
    ensures all[k].createdAt <= m.createdAt && m in all
  {
    var i :| k <= i < |all| && all[i] == m;
    assert i == k || Oldest(all[k], all[i]);
  }

  lemma PrefixUpTo(all: seq<ChatMessage>, k: nat, m: ChatMessage)
    requires SortedBy(Oldest, all) && k < |all| && m in all[..k + 1]
    ensures m.createdAt <= all[k].createdAt && m in all
  {
    var i :| 0 <= i <= k && all[i] == m;
    assert i == k || Oldest(all[i], all[k]);
  }

  lemma InOneOfTwo(all: seq<ChatMessage>, k: nat, m: ChatMessage)
    requires k <= |all| && m in all
    ensures m in all[..k] || m in all[k..]
  {
    assert all == all[..k] + all[k..];
  }

  /** A sequence without repetitions is not longer than one that has all its elements. */
  lemma FitsInto(xs: seq<ChatMessage>, ys: seq<ChatMessage>)
    requires Distinct(xs) && Distinct(ys) && forall x :: x in xs ==> x in ys
    ensures |xs| <= |ys|
  {
    DistinctSize(xs);
    DistinctSize(ys);
    SubsetSize(Elements(xs), Elements(ys));
  }

  lemma NotLater(table: seq<ChatMessage>, conv: Id, before: Time, limit: nat, page: seq<ChatMessage>, all: seq<ChatMessage>)
    requires limit >= 1 && IsTable(table) && IsPage(table, conv, before, limit, page)
    requires IsHistory(all, table, conv, before) && |all| > limit && |page| == limit
    ensures page[0].createdAt <= all[|all| - limit].createdAt
  {
    var k := |all| - limit;
    PageProperties(table, conv, before, limit, page);
    ArrangementFacts(table, conv, before, all);
    if page[0].createdAt > all[k].createdAt {
      forall m | m in page
        ensures m in all[k + 1..]
      {
        InOneOfTwo(all, k + 1, m);
        if m in all[..k + 1] {
          PrefixUpTo(all, k, m);
        }
      }
      SuffixDistinct(all, k + 1);
      FitsInto(page, all[k + 1..]);
    }
  }

  lemma NotEarlier(table: seq<ChatMessage>, conv: Id, before: Time, limit: nat, page: seq<ChatMessage>, all: seq<ChatMessage>)
    requires limit >= 1 && IsTable(table) && IsPage(table, conv, before, limit, page)
    requires IsHistory(all, table, conv, before) && |all| > limit && |page| == limit
    ensures page[0].createdAt >= all[|all| - limit].createdAt
  {
    var k := |all| - limit;
    PageProperties(table, conv, before, limit, page);
    ArrangementFacts(table, conv, before, all);
    if page[0].createdAt < all[k].createdAt {
      assert page[0] in page;
      forall m | m in all[k..]
        ensures m in page
      {
        SuffixFrom(all, k, m);
      }
      SuffixDistinct(all, k);
      SameSizeSameElements(all[k..], page);
      SuffixFrom(all, k, page[0]);
    }
  }

  /** Whatever the database does with ties, the page starts at the time at which the ascending history has `limit` messages left. */
  lemma PageStartsAt(table: seq<ChatMessage>, conv: Id, before: Time, limit: nat, page: seq<ChatMessage>, all: seq<ChatMessage>)
    requires limit >= 1 && IsTable(table) && IsPage(table, conv, before, limit, page)
    requires IsHistory(all, table, conv, before) && |all| > limit
    ensures |page| == limit && page[0].createdAt == all[|all| - limit].createdAt
  {
    var k := |all| - limit;
    PageProperties(table, conv, before, limit, page);
    ArrangementFacts(table, conv, before, all);
    NotLater(table, conv, before, limit, page, all);
    NotEarlier(table, conv, before, limit, page, all);
  }

  /** A boundary inside a tie leaves one of the tied messages off the page for good. */
  lemma TieAtBoundaryLoses(table: seq<ChatMessage>, conv: Id, before: Time, limit: nat, page: seq<ChatMessage>, all: seq<ChatMessage>)
    returns (m: ChatMessage)
    requires limit >= 1 && IsTable(table) && IsPage(table, conv, before, limit, page)
    requires IsHistory(all, table, conv, before) && |all| > limit
    requires all[|all| - limit - 1].createdAt == all[|all| - limit].createdAt
    ensures m in all && CutOffBy(page, m)
  {
    var k := |all| - limit - 1;
    PageProperties(table, conv, before, limit, page);
    ArrangementFacts(table, conv, before, all);
    PageStartsAt(table, conv, before, limit, page, all);
    SuffixDistinct(all, k);
    if forall x :: x in all[k..] ==> x in page {
      FitsInto(all[k..], page);
    }
    m :| m in all[k..] && m !in page;
    SuffixFrom(all, k, m);
    assert page[0] in page;
  }

  /** A boundary between two times leaves exactly the older messages to the next pages. */
  lemma CleanBoundary(table: seq<ChatMessage>, conv: Id, before: Time, limit: nat, page: seq<ChatMessage>, all: seq<ChatMessage>)
    requires limit >= 1 && IsTable(table) && IsPage(table, conv, before, limit, page)
    requires IsHistory(all, table, conv, before) && |all| > limit
    requires all[|all| - limit - 1].createdAt != all[|all| - limit].createdAt
    ensures page != []
    ensures forall m :: m in all[|all| - limit..] ==> m in page
    ensures forall m :: m in all[..|all| - limit] ==> m.createdAt < page[0].createdAt && m !in page
  {
    var k := |all| - limit;
    PageProperties(table, conv, before, limit, page);
    ArrangementFacts(table, conv, before, all);
    PageStartsAt(table, conv, before, limit, page, all);
    assert Oldest(all[k - 1], all[k]);
    forall m | m in all[..k]
      ensures m.createdAt < page[0].createdAt && m !in page
    {
      PrefixUpTo(all, k - 1, m);
    }
    forall m | m in page
      ensures m in all[k..]
    {
      InOneOfTwo(all, k, m);
    }
    SuffixDistinct(all, k);
    SameSizeSameElements(page, all[k..]);
  }

  lemma SortedPrefix(all: seq<ChatMessage>, k: nat)
    requires SortedBy(Oldest, all) && k <= |all|
    ensures SortedBy(Oldest, all[..k])
  {
  }

  /** What is left after a clean boundary is the next cursor's history. */
  lemma NextHistory(table: seq<ChatMessage>, conv: Id, before: Time, cursor: Time, all: seq<ChatMessage>, k: nat)
    requires IsTable(table) && cursor <= before && k <= |all|
    requires IsHistory(all, table, conv, before)
    requires forall m :: m in all[..k] ==> m.createdAt < cursor
    requires forall m :: m in all[k..] ==> m.createdAt >= cursor
    ensures IsHistory(all[..k], table, conv, cursor)
  {
    assert all == all[..k] + all[k..];
    forall m
      ensures multiset(all[..k])[m] == multiset(Eligible(table, conv, cursor))[m]
    {
      EligibleCounts(table, conv, before, m);
      EligibleCounts(table, conv, cursor, m);
      assert multiset(all)[m] == multiset(all[..k])[m] + multiset(all[k..])[m];
      assert m in all[..k] <==> multiset(all[..k])[m] > 0;
      assert m in all[k..] <==> multiset(all[k..])[m] > 0;
    }
    SortedPrefix(all, k);
  }

  /** Nothing is lost on a page that has room for everything. */
  lemma ShortHistoryIsComplete(table: seq<ChatMessage>, conv: Id, before: Time, limit: nat, page: seq<ChatMessage>, all: seq<ChatMessage>)
    requires IsTable(table) && IsPage(table, conv, before, limit, page)
    requires IsHistory(all, table, conv, before) && |all| <= limit
    ensures forall m :: m in all ==> m in page
  {
    PageProperties(table, conv, before, limit, page);
    ArrangementFacts(table, conv, before, all);
    SameSizeSameElements(page, all);
  }

  lemma TieLoses(table: seq<ChatMessage>, conv: Id, before: Time, limit: nat, pages: seq<seq<ChatMessage>>, all: seq<ChatMessage>)
    requires limit >= 1 && IsTable(table) && IsWalk(table, conv, before, limit, pages) && pages != []
    requires IsHistory(all, table, conv, before) && |all| > limit
    requires all[|all| - limit - 1].createdAt == all[|all| - limit].createdAt
    ensures LosesSomething(all, pages)
  {
    var m := TieAtBoundaryLoses(table, conv, before, limit, pages[0], all);
    ArrangementFacts(table, conv, before, all);
    assert CutOffBy(pages[0], m);
    WalkMissesExactlyCutOffs(table, conv, before, limit, pages, m);
  }

  lemma CleanPageLosesLater(table: seq<ChatMessage>, conv: Id, before: Time, limit: nat, pages: seq<seq<ChatMessage>>, all: seq<ChatMessage>)
    requires limit >= 1 && IsTable(table) && IsWalk(table, conv, before, limit, pages) && pages != []
    requires IsHistory(all, table, conv, before) && |all| > limit
    requires all[|all| - limit - 1].createdAt != all[|all| - limit].createdAt
    ensures LosesSomething(all, pages) <==> LosesSomething(all[..|all| - limit], pages[1..])
  {
    var k := |all| - limit;
    CleanBoundary(table, conv, before, limit, pages[0], all);
    forall m | m in all
      ensures m in all[..k] || m in pages[0]
    {
      InOneOfTwo(all, k, m);
    }
    forall m | m in all[..k]
      ensures m in all && m !in pages[0]
    {
    }
    assert forall m :: m in Prepended(pages) <==> m in Prepended(pages[1..]) || m in pages[0];
  }

  lemma RestIsNextHistory(table: seq<ChatMessage>, conv: Id, before: Time, limit: nat, page: seq<ChatMessage>, all: seq<ChatMessage>)
    requires limit >= 1 && IsTable(table) && IsPage(table, conv, before, limit, page)
    requires IsHistory(all, table, conv, before) && |all| > limit
    requires all[|all| - limit - 1].createdAt != all[|all| - limit].createdAt
    ensures page != []
    ensures IsHistory(all[..|all| - limit], table, conv, page[0].createdAt)
  {
    var k := |all| - limit;
    CleanBoundary(table, conv, before, limit, page, all);
    PageProperties(table, conv, before, limit, page);
    EligibleShrinks(table, conv, before, limit, page);
    forall m | m in all[k..]
      ensures m.createdAt >= page[0].createdAt
    {
      SuffixFrom(all, k, m);
    }
    PageStartsAt(table, conv, before, limit, page, all);
    NextHistory(table, conv, before, page[0].createdAt, all, k);
  }

  /** One page without a tie at its boundary passes the question on to the older history and the remaining pages. */
  lemma CleanPagePassesOn(table: seq<ChatMessage>, conv: Id, before: Time, limit: nat, pages: seq<seq<ChatMessage>>, all: seq<ChatMessage>)
    requires limit >= 1 && IsTable(table) && IsWalk(table, conv, before, limit, pages) && pages != []
    requires IsHistory(all, table, conv, before) && |all| > limit
    requires all[|all| - limit - 1].createdAt != all[|all| - limit].createdAt
    ensures var older := all[..|all| - limit];
            && IsHistory(older, table, conv, pages[0][0].createdAt)
            && (LosesSomething(all, pages) <==> LosesSomething(older, pages[1..]))
            && (CutsATie(all, limit) <==> CutsATie(older, limit))
  {
    CleanPageLosesLater(table, conv, before, limit, pages, all);
    RestIsNextHistory(table, conv, before, limit, pages[0], all);
  }

  lemma NothingToLose(table: seq<ChatMessage>, conv: Id, before: Time, limit: nat, pages: seq<seq<ChatMessage>>, all: seq<ChatMessage>)
    requires limit >= 1 && IsTable(table) && IsWalk(table, conv, before, limit, pages) && IsHistory(all, table, conv, before)
    requires pages == [] || |all| <= limit
    ensures !LosesSomething(all, pages) && !CutsATie(all, limit)
  {
    ArrangementFacts(table, conv, before, all);
    if pages == [] {
      WalkEnds(table, conv, before, limit);
    } else {
      ShortHistoryIsComplete(table, conv, before, limit, pages[0], all);
    }
  }

  /**
    Exactly when paging loses messages, for every complete walk and whatever the database does with
    ties: when a page boundary, counted back from the newest message, falls inside a tie.
   */
  lemma {:induction false} LossIffTieIsCut(table: seq<ChatMessage>, conv: Id, before: Time, limit: nat, pages: seq<seq<ChatMessage>>,
                                           all: seq<ChatMessage>)
    requires limit >= 1 && IsTable(table) && IsWalk(table, conv, before, limit, pages)
    requires IsHistory(all, table, conv, before)
    ensures LosesSomething(all, pages) <==> CutsATie(all, limit)
    decreases |pages|
  {
    if pages == [] || |all| <= limit {
      NothingToLose(table, conv, before, limit, pages, all);
    } else if all[|all| - limit - 1].createdAt == all[|all| - limit].createdAt {
      TieLoses(table, conv, before, limit, pages, all);
    } else {
      CleanPagePassesOn(table, conv, before, limit, pages, all);
      LossIffTieIsCut(table, conv, pages[0][0].createdAt, limit, pages[1..], all[..|all| - limit]);
    }
  }

  lemma EligibleOfTwo(a: ChatMessage, b: ChatMessage, before: Time)
    requires a.conversationId == b.conversationId && a.createdAt == b.createdAt
    ensures Eligible([a, b], a.conversationId, before) == if a.createdAt < before then [a, b] else []
  {
    assert [a, b][..1] == [a] && [a][..0] == [];
    assert Eligible([a], a.conversationId, before) == if a.createdAt < before then [a] else [];
  }

  lemma PageOfTwo(a: ChatMessage, b: ChatMessage)
    requires a.conversationId == b.conversationId && a.createdAt == b.createdAt
    ensures IsHistory([a, b], [a, b], a.conversationId, a.createdAt + 1)
    ensures IsPage([a, b], a.conversationId, a.createdAt + 1, 1, [b])
  {
    var all := [a, b];
    EligibleOfTwo(a, b, a.createdAt + 1);
    assert IsHistory(all, [a, b], a.conversationId, a.createdAt + 1);
    assert [b] == all[|all| - Min(1, |all|)..];
  }

  lemma NoPageBefore(a: ChatMessage, b: ChatMessage)
    requires a.conversationId == b.conversationId && a.createdAt == b.createdAt
    ensures IsPage([a, b], a.conversationId, a.createdAt, 1, [])
  {
    var all: seq<ChatMessage> := [];
    EligibleOfTwo(a, b, a.createdAt);
    assert IsHistory(all, [a, b], a.conversationId, a.createdAt);
    assert all == all[|all| - Min(1, |all|)..];
  }

  lemma WalkOfTwo(a: ChatMessage, b: ChatMessage)
    requires a.conversationId == b.conversationId && a.createdAt == b.createdAt
    ensures IsWalk([a, b], a.conversationId, a.createdAt + 1, 1, [[b]])
  {
    var table, pages := [a, b], [[b]];
    PageOfTwo(a, b);
    NoPageBefore(a, b);
    assert pages[1..] == [] && pages[0] == [b] && pages[0][0] == b;
    assert IsWalk(table, a.conversationId, b.createdAt, 1, pages[1..]);
  }

  lemma PrependedOne(page: seq<ChatMessage>)
    ensures Prepended([page]) == page
  {
    assert [page][1..] == [];
  }

  /** It happens: of two messages with one timestamp, pages of one message show only one. */
  lemma TiedMessageIsLost(a: ChatMessage, b: ChatMessage)
    requires a != b && a.conversationId == b.conversationId && a.createdAt == b.createdAt
    ensures IsTable([a, b]) && IsWalk([a, b], a.conversationId, a.createdAt + 1, 1, [[b]])
    ensures a !in Prepended([[b]]) && CutsATie([a, b], 1)
  {
    WalkOfTwo(a, b);
    PrependedOne([b]);
    var all := [a, b];
    assert all[|all| - 2].createdAt == all[|all| - 1].createdAt;
  }
}

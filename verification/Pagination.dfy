/**
  Walking back through a history: fetch a page, use the timestamp of its first message as the next
  cursor, prepend, and stop at the first empty page.
 */
module Pagination {
  import opened Entities
  import opened Sequences
  import opened History

  /** The non-empty pages of a complete walk, newest page first. */
  ghost predicate IsWalk(table: seq<ChatMessage>, conv: Id, before: Time, limit: nat, pages: seq<seq<ChatMessage>>)
    decreases |pages|
  {
    if pages == [] then IsPage(table, conv, before, limit, [])
    else
      && pages[0] != []
      && IsPage(table, conv, before, limit, pages[0])
      && IsWalk(table, conv, pages[0][0].createdAt, limit, pages[1..])
  }

  /** What the client has after prepending every page. */
  function Prepended(pages: seq<seq<ChatMessage>>): seq<ChatMessage>
    decreases |pages|
  {
    if pages == [] then [] else Prepended(pages[1..]) + pages[0]
  }

  /** A timestamp tie that a page boundary cut through: the message has the page's first timestamp but is not on it. */
  predicate CutOffBy(page: seq<ChatMessage>, m: ChatMessage) {
    page != [] && m.createdAt == page[0].createdAt && m !in page
  }

  predicate CutOff(pages: seq<seq<ChatMessage>>, m: ChatMessage) {
    exists i :: 0 <= i < |pages| && CutOffBy(pages[i], m)
  }

  /** Rows are unique, as their ids are. */
  ghost predicate IsTable(table: seq<ChatMessage>) {
    Distinct(table)
  }

  /** No two different messages share a timestamp. */
  ghost predicate DistinctTimes(ms: seq<ChatMessage>) {
    forall m, n :: m in ms && n in ms && m.createdAt == n.createdAt ==> m == n
  }

  /** No two different messages before the cursor share a timestamp. */
  ghost predicate NoTies(table: seq<ChatMessage>, conv: Id, before: Time) {
    forall m, n | m in table && n in table && Selected(m, conv, before) && Selected(n, conv, before) ::
      m.createdAt == n.createdAt ==> m == n
  }

  lemma {:induction false} EligibleElements(table: seq<ChatMessage>, conv: Id, before: Time)
    ensures forall m :: m in Eligible(table, conv, before) <==> m in table && Selected(m, conv, before)
  {
    forall m
      ensures m in Eligible(table, conv, before) <==> m in table && Selected(m, conv, before)
    {
      EligibleCounts(table, conv, before, m);
      assert m in Eligible(table, conv, before) <==> m in multiset(Eligible(table, conv, before));
      assert m in table <==> m in multiset(table);
    }
  }

  lemma EligibleIsDistinct(table: seq<ChatMessage>, conv: Id, before: Time)
    requires IsTable(table)
    ensures Distinct(Eligible(table, conv, before))
  {
    DistinctMeansOnce(table);
    forall m
      ensures multiset(Eligible(table, conv, before))[m] <= 1
    {
      EligibleCounts(table, conv, before, m);
    }
    DistinctMeansOnce(Eligible(table, conv, before));
  }

  lemma ArrangementFacts(table: seq<ChatMessage>, conv: Id, before: Time, all: seq<ChatMessage>)
    requires IsTable(table) && IsHistory(all, table, conv, before)
    ensures Distinct(all) && |all| == |Eligible(table, conv, before)|
    ensures forall m :: m in all <==> m in table && Selected(m, conv, before)
  {
    assert |all| == |multiset(all)| == |Eligible(table, conv, before)|;
    EligibleIsDistinct(table, conv, before);
    EligibleElements(table, conv, before);
    DistinctMeansOnce(Eligible(table, conv, before));
    DistinctMeansOnce(all);
    forall m
      ensures m in all <==> m in Eligible(table, conv, before)
    {
      assert m in all <==> m in multiset(all);
      assert m in Eligible(table, conv, before) <==> m in multiset(Eligible(table, conv, before));
    }
  }

  lemma SuffixIsLatest(all: seq<ChatMessage>, k: nat, m: ChatMessage, n: ChatMessage)
    requires k <= |all| && SortedBy(Oldest, all) && m in all[k..] && n in all && n !in all[k..]
    ensures n.createdAt <= m.createdAt
  {
    var j :| k <= j < |all| && all[j] == m;
    var i :| 0 <= i < |all| && all[i] == n;
    assert forall x :: k <= x < |all| ==> all[k..][x - k] == all[x];
    assert Oldest(all[i], all[j]);
  }

  lemma SuffixOfArrangement(all: seq<ChatMessage>, k: nat)
    requires Distinct(all) && SortedBy(Oldest, all) && k <= |all|
    ensures Distinct(all[k..]) && SortedBy(Oldest, all[k..])
    ensures forall m :: m in all[k..] ==> m in all
    ensures forall m, n :: m in all[k..] && n in all && n !in all[k..] ==> n.createdAt <= m.createdAt
    ensures k < |all| ==> forall m :: m in all[k..] ==> all[k].createdAt <= m.createdAt
  {
    forall m, n | m in all[k..] && n in all && n !in all[k..]
      ensures n.createdAt <= m.createdAt
    {
      SuffixIsLatest(all, k, m, n);
    }
  }

  /** A page in terms of membership: eligible, ascending, without repetition, and later than what it leaves out. */
  lemma PageProperties(table: seq<ChatMessage>, conv: Id, before: Time, limit: nat, page: seq<ChatMessage>)
    requires IsTable(table) && IsPage(table, conv, before, limit, page)
    ensures Distinct(page) && SortedBy(Oldest, page)
    ensures |page| == Min(limit, |Eligible(table, conv, before)|)
    ensures forall m :: m in page ==> m in table && Selected(m, conv, before)
    ensures forall m, n :: m in page && n in table && Selected(n, conv, before) && n !in page ==>
              n.createdAt <= m.createdAt
    ensures page != [] ==> forall m :: m in page ==> page[0].createdAt <= m.createdAt
  {
    var all :| IsHistory(all, table, conv, before) && page == all[|all| - Min(limit, |all|)..];
    ArrangementFacts(table, conv, before, all);
    SuffixOfArrangement(all, |all| - Min(limit, |all|));
  }

  lemma SmallerParts<T>(x: multiset<T>, y: multiset<T>, all: multiset<T>)
    requires forall m :: x[m] + y[m] <= all[m]
    ensures |x| + |y| <= |all|
  {
    assert x + y <= all;
    assert |all| == |x + y| + |all - (x + y)|;
  }

  /** A message of a page is not before the page's first timestamp, so it is counted once. */
  lemma AheadOrOnPage(table: seq<ChatMessage>, conv: Id, before: Time, page: seq<ChatMessage>, m: ChatMessage)
    requires Distinct(page) && page != [] && page[0].createdAt < before
    requires forall n :: n in page ==> n in table && Selected(n, conv, before) && page[0].createdAt <= n.createdAt
    ensures multiset(Eligible(table, conv, page[0].createdAt))[m] + multiset(page)[m] <= multiset(Eligible(table, conv, before))[m]
  {
    EligibleCounts(table, conv, page[0].createdAt, m);
    EligibleCounts(table, conv, before, m);
    DistinctCount(page, m);
    assert m in table ==> m in multiset(table);
  }

  /** Every page moves the cursor back past at least one message. */
  lemma EligibleShrinks(table: seq<ChatMessage>, conv: Id, before: Time, limit: nat, page: seq<ChatMessage>)
    requires IsTable(table) && IsPage(table, conv, before, limit, page) && page != []
    ensures page[0].createdAt < before
    ensures |Eligible(table, conv, page[0].createdAt)| + |page| <= |Eligible(table, conv, before)|
  {
    var first := page[0].createdAt;
    PageProperties(table, conv, before, limit, page);
    assert page[0] in page;
    forall m
      ensures multiset(Eligible(table, conv, first))[m] + multiset(page)[m] <= multiset(Eligible(table, conv, before))[m]
    {
      AheadOrOnPage(table, conv, before, page, m);
    }
    SmallerParts(multiset(Eligible(table, conv, first)), multiset(page), multiset(Eligible(table, conv, before)));
  }

  /** A walk has at most one page per eligible message, so it terminates. */
  lemma {:induction false} WalkIsShort(table: seq<ChatMessage>, conv: Id, before: Time, limit: nat, pages: seq<seq<ChatMessage>>)
    requires IsTable(table) && IsWalk(table, conv, before, limit, pages)
    ensures |Prepended(pages)| <= |Eligible(table, conv, before)|
    ensures |pages| <= |Prepended(pages)|
    decreases |pages|
  {
    if pages != [] {
      EligibleShrinks(table, conv, before, limit, pages[0]);
      WalkIsShort(table, conv, pages[0][0].createdAt, limit, pages[1..]);
    }
  }

  lemma PageExists(table: seq<ChatMessage>, conv: Id, before: Time, limit: nat) returns (page: seq<ChatMessage>)
    ensures IsPage(table, conv, before, limit, page)
  {
    var all := SortedArrangementExists(Oldest, Eligible(table, conv, before));
    page := all[|all| - Min(limit, |all|)..];
    assert IsHistory(all, table, conv, before);
  }

  /** The walk can always be completed. */
  lemma {:induction false} WalkExists(table: seq<ChatMessage>, conv: Id, before: Time, limit: nat) returns (pages: seq<seq<ChatMessage>>)
    requires IsTable(table) && limit >= 1
    ensures IsWalk(table, conv, before, limit, pages)
    decreases |Eligible(table, conv, before)|
  {
    var page := PageExists(table, conv, before, limit);
    if page == [] {
      return [];
    }
    EligibleShrinks(table, conv, before, limit, page);
    var rest := WalkExists(table, conv, page[0].createdAt, limit);
    pages := [page] + rest;
    assert pages[1..] == rest;
  }

  // ---------------------------------------------------------------- what a walk reconstructs

  lemma {:induction false} WalkElements(table: seq<ChatMessage>, conv: Id, before: Time, limit: nat, pages: seq<seq<ChatMessage>>)
    requires IsTable(table) && IsWalk(table, conv, before, limit, pages)
    ensures forall m :: m in Prepended(pages) ==> m in table && Selected(m, conv, before)
    decreases |pages|
  {
    if pages != [] {
      PageProperties(table, conv, before, limit, pages[0]);
      EligibleShrinks(table, conv, before, limit, pages[0]);
      WalkElements(table, conv, pages[0][0].createdAt, limit, pages[1..]);
    }
  }

  lemma OrderedConcat(older: seq<ChatMessage>, page: seq<ChatMessage>, first: Time)
    requires Distinct(older) && SortedBy(Oldest, older) && Distinct(page) && SortedBy(Oldest, page)
    requires forall m :: m in older ==> m.createdAt < first
    requires forall m :: m in page ==> first <= m.createdAt
    ensures Distinct(older + page) && SortedBy(Oldest, older + page)
  {
    var s := older + page;
    forall i, j | 0 <= i < j < |s|
      ensures s[i] != s[j] && Oldest(s[i], s[j])
    {
      if i < |older| <= j {
        assert s[i] in older && s[j] in page;
      }
    }
  }

  /** Pages are disjoint and prepending keeps time order, with or without ties. */
  lemma {:induction false} WalkIsOrdered(table: seq<ChatMessage>, conv: Id, before: Time, limit: nat, pages: seq<seq<ChatMessage>>)
    requires IsTable(table) && IsWalk(table, conv, before, limit, pages)
    ensures Distinct(Prepended(pages)) && SortedBy(Oldest, Prepended(pages))
    decreases |pages|
  {
    if pages != [] {
      var first := pages[0][0].createdAt;
      PageProperties(table, conv, before, limit, pages[0]);
      WalkIsOrdered(table, conv, first, limit, pages[1..]);
      WalkElements(table, conv, first, limit, pages[1..]);
      OrderedConcat(Prepended(pages[1..]), pages[0], first);
    }
  }

  /** One page and one cursor: an eligible message is on the page, still ahead, or cut off, and only one of these. */
  lemma PageSplits(table: seq<ChatMessage>, conv: Id, before: Time, limit: nat, page: seq<ChatMessage>, m: ChatMessage)
    requires limit >= 1 && IsTable(table) && IsPage(table, conv, before, limit, page) && page != []
    requires m in table && Selected(m, conv, before)
    ensures m in page <==> !CutOffBy(page, m) && !Selected(m, conv, page[0].createdAt)
    ensures !(CutOffBy(page, m) && Selected(m, conv, page[0].createdAt))
  {
    PageProperties(table, conv, before, limit, page);
    assert page[0] in page;
  }

  lemma CutOffCons(pages: seq<seq<ChatMessage>>, m: ChatMessage)
    requires pages != []
    ensures CutOff(pages, m) <==> CutOffBy(pages[0], m) || CutOff(pages[1..], m)
  {
    if CutOff(pages[1..], m) {
      var i :| 0 <= i < |pages[1..]| && CutOffBy(pages[1..][i], m);
      assert CutOffBy(pages[i + 1], m);
    }
    if i :| 0 <= i < |pages| && CutOffBy(pages[i], m) && i > 0 {
      assert CutOffBy(pages[1..][i - 1], m);
    }
  }

  lemma {:induction false} NoCutOffAhead(table: seq<ChatMessage>, conv: Id, before: Time, limit: nat, pages: seq<seq<ChatMessage>>, m: ChatMessage)
    requires IsTable(table) && IsWalk(table, conv, before, limit, pages) && m.createdAt >= before
    ensures !CutOff(pages, m)
    decreases |pages|
  {
    if pages != [] {
      EligibleShrinks(table, conv, before, limit, pages[0]);
      NoCutOffAhead(table, conv, pages[0][0].createdAt, limit, pages[1..], m);
      CutOffCons(pages, m);
    }
  }

  /**
    With ties: the pages are disjoint, and the messages a complete walk misses are exactly those
    with the timestamp of some page's first message that are not on that page.
   */
  lemma {:induction false} WalkMissesExactlyCutOffs(table: seq<ChatMessage>, conv: Id, before: Time, limit: nat,
                                                   pages: seq<seq<ChatMessage>>, m: ChatMessage)
    requires limit >= 1 && IsTable(table) && IsWalk(table, conv, before, limit, pages)
    requires m in table && Selected(m, conv, before)
    ensures m !in Prepended(pages) <==> CutOff(pages, m)
    decreases |pages|
  {
    if pages == [] {
      PageIsEmptyIff(table, conv, before, limit, []);
      EligibleElements(table, conv, before);
    } else {
      var first := pages[0][0].createdAt;
      PageSplits(table, conv, before, limit, pages[0], m);
      CutOffCons(pages, m);
      if Selected(m, conv, first) {
        WalkMissesExactlyCutOffs(table, conv, first, limit, pages[1..], m);
      } else {
        NoCutOffAhead(table, conv, first, limit, pages[1..], m);
        WalkElements(table, conv, first, limit, pages[1..]);
      }
    }
  }

  lemma {:induction false} FirstIsOnWalk(pages: seq<seq<ChatMessage>>, i: nat)
    requires i < |pages| && pages[i] != []
    ensures pages[i][0] in Prepended(pages)
    decreases |pages|
  {
    if i > 0 {
      assert pages[1..][i - 1] == pages[i];
      FirstIsOnWalk(pages[1..], i - 1);
    }
  }

  lemma DistinctTimesCutNothing(table: seq<ChatMessage>, conv: Id, before: Time, limit: nat, pages: seq<seq<ChatMessage>>,
                                m: ChatMessage, i: nat)
    requires IsTable(table) && NoTies(table, conv, before) && i < |pages|
    requires IsWalk(table, conv, before, limit, pages) && m in table && Selected(m, conv, before)
    ensures !CutOffBy(pages[i], m)
  {
    if pages[i] != [] {
      FirstIsOnWalk(pages, i);
      WalkElements(table, conv, before, limit, pages);
      EligibleElements(table, conv, before);
      assert pages[i][0] in Eligible(table, conv, before) && m in Eligible(table, conv, before);
    }
  }

  lemma SameLast(xs: seq<ChatMessage>, ys: seq<ChatMessage>)
    requires SortedBy(Oldest, xs) && SortedBy(Oldest, ys) && multiset(xs) == multiset(ys) && DistinctTimes(xs)
    requires xs != [] && ys != []
    ensures xs[|xs| - 1] == ys[|ys| - 1]
  {
    var x, y := xs[|xs| - 1], ys[|ys| - 1];
    assert x in multiset(ys) && y in multiset(xs);
    var i :| 0 <= i < |ys| && ys[i] == x;
    var j :| 0 <= j < |xs| && xs[j] == y;
    assert i == |ys| - 1 || Oldest(ys[i], ys[|ys| - 1]);
    assert j == |xs| - 1 || Oldest(xs[j], xs[|xs| - 1]);
  }

  lemma FrontIsAscending(s: seq<ChatMessage>)
    requires s != [] && SortedBy(Oldest, s)
    ensures SortedBy(Oldest, s[..|s| - 1])
    ensures DistinctTimes(s) ==> DistinctTimes(s[..|s| - 1])
  {
  }

  lemma FrontsMatch(xs: seq<ChatMessage>, ys: seq<ChatMessage>)
    requires SortedBy(Oldest, xs) && SortedBy(Oldest, ys) && multiset(xs) == multiset(ys) && DistinctTimes(xs)
    requires xs != [] && ys != []
    ensures var x, y := xs[..|xs| - 1], ys[..|ys| - 1];
            && SortedBy(Oldest, x) && SortedBy(Oldest, y) && multiset(x) == multiset(y) && DistinctTimes(x)
            && xs[|xs| - 1] == ys[|ys| - 1]
  {
    SameLast(xs, ys);
    FrontElements(xs);
    FrontElements(ys);
    FrontIsAscending(xs);
    FrontIsAscending(ys);
    assert forall m :: m in xs[..|xs| - 1] ==> m in xs;
  }

  /** Two ascending arrangements of the same messages with distinct timestamps are the same sequence. */
  lemma {:induction false} ArrangementIsUnique(xs: seq<ChatMessage>, ys: seq<ChatMessage>)
    requires SortedBy(Oldest, xs) && SortedBy(Oldest, ys) && multiset(xs) == multiset(ys) && DistinctTimes(xs)
    ensures xs == ys
    decreases |xs|
  {
    assert |xs| == |multiset(xs)| == |multiset(ys)| == |ys|;
    if xs != [] {
      FrontsMatch(xs, ys);
      ArrangementIsUnique(xs[..|xs| - 1], ys[..|ys| - 1]);
      assert xs == xs[..|xs| - 1] + [xs[|xs| - 1]] && ys == ys[..|ys| - 1] + [ys[|ys| - 1]];
    }
  }

  lemma SameElementsOnce(xs: seq<ChatMessage>, ys: seq<ChatMessage>)
    requires Distinct(xs) && Distinct(ys) && forall m :: m in xs <==> m in ys
    ensures multiset(xs) == multiset(ys)
  {
    forall m
      ensures multiset(xs)[m] == multiset(ys)[m]
    {
      DistinctCount(xs, m);
      DistinctCount(ys, m);
    }
  }

  /** Without ties the next cursor leaves exactly the messages that are not on the page. */
  lemma ShrinksExactly(table: seq<ChatMessage>, conv: Id, before: Time, limit: nat, page: seq<ChatMessage>)
    requires limit >= 1 && IsTable(table) && IsPage(table, conv, before, limit, page) && page != []
    requires NoTies(table, conv, before)
    ensures |Eligible(table, conv, page[0].createdAt)| == |Eligible(table, conv, before)| - |page|
    ensures NoTies(table, conv, page[0].createdAt)
  {
    var first := page[0].createdAt;
    var ahead, all := Eligible(table, conv, first), Eligible(table, conv, before);
    PageProperties(table, conv, before, limit, page);
    assert page[0] in page;
    EligibleElements(table, conv, first);
    EligibleElements(table, conv, before);
    EligibleIsDistinct(table, conv, first);
    EligibleIsDistinct(table, conv, before);
    assert forall m :: m in ahead ==> m !in page;
    forall m | m in all
      ensures m in ahead + page
    {
      PageSplits(table, conv, before, limit, page, m);
    }
    assert Distinct(ahead + page);
    SameElementsOnce(ahead + page, all);
    assert |multiset(ahead + page)| == |ahead + page|;
  }

  lemma NextCursorIsExact(table: seq<ChatMessage>, conv: Id, before: Time, limit: nat, page: seq<ChatMessage>)
    requires limit >= 1 && IsTable(table) && IsPage(table, conv, before, limit, page) && page != []
    requires NoTies(table, conv, before)
    ensures NoTies(table, conv, page[0].createdAt)
    ensures var n := |Eligible(table, conv, before)|;
            n > 0 && |Eligible(table, conv, page[0].createdAt)| == n - Min(limit, n)
  {
    PageProperties(table, conv, before, limit, page);
    ShrinksExactly(table, conv, before, limit, page);
  }

  /** How many pages `n` messages fill. */
  function PagesNeeded(n: nat, limit: nat): nat
    requires limit >= 1
  {
    if n == 0 then 0 else 1 + PagesNeeded(n - Min(limit, n), limit)
  }

  /** It is n / limit, rounded up: so many pages suffice, and one less does not. */
  lemma {:induction false} PagesNeededIsCeiling(n: nat, limit: nat)
    requires limit >= 1
    ensures n <= PagesNeeded(n, limit) * limit && (n == 0 || (PagesNeeded(n, limit) - 1) * limit < n)
    decreases n
  {
    if n > 0 {
      var rest := n - Min(limit, n);
      var k := PagesNeeded(rest, limit);
      PagesNeededIsCeiling(rest, limit);
      assert (k + 1) * limit == k * limit + limit;
      if rest > 0 {
        assert (k - 1) * limit == k * limit - limit;
      }
    }
  }

  lemma WalkEnds(table: seq<ChatMessage>, conv: Id, before: Time, limit: nat)
    requires limit >= 1 && IsWalk(table, conv, before, limit, [])
    ensures |Eligible(table, conv, before)| == 0
  {
    PageIsEmptyIff(table, conv, before, limit, []);
  }

  lemma PagesNeededStep(n: nat, rest: nat, limit: nat, k: nat)
    requires limit >= 1 && n > 0 && rest == n - Min(limit, n) && k == PagesNeeded(rest, limit)
    ensures k + 1 == PagesNeeded(n, limit)
  {
  }

  lemma OneMorePage(table: seq<ChatMessage>, conv: Id, before: Time, limit: nat, page: seq<ChatMessage>, k: nat)
    requires limit >= 1 && IsTable(table) && IsPage(table, conv, before, limit, page) && page != [] && NoTies(table, conv, before)
    requires k == PagesNeeded(|Eligible(table, conv, page[0].createdAt)|, limit)
    ensures k + 1 == PagesNeeded(|Eligible(table, conv, before)|, limit)
  {
    NextCursorIsExact(table, conv, before, limit, page);
    PagesNeededStep(|Eligible(table, conv, before)|, |Eligible(table, conv, page[0].createdAt)|, limit, k);
  }

  lemma NoTiesBefore(table: seq<ChatMessage>, conv: Id, before: Time, cursor: Time)
    requires NoTies(table, conv, before) && cursor <= before
    ensures NoTies(table, conv, cursor)
  {
  }

  /** The number of non-empty pages is just what the history needs. */
  lemma {:induction false} WalkLength(table: seq<ChatMessage>, conv: Id, before: Time, limit: nat, pages: seq<seq<ChatMessage>>)
    requires limit >= 1 && IsTable(table) && IsWalk(table, conv, before, limit, pages)
    requires NoTies(table, conv, before)
    ensures |pages| == PagesNeeded(|Eligible(table, conv, before)|, limit)
    decreases |pages|
  {
    if pages == [] {
      WalkEnds(table, conv, before, limit);
    } else {
      EligibleShrinks(table, conv, before, limit, pages[0]);
      NoTiesBefore(table, conv, before, pages[0][0].createdAt);
      WalkLength(table, conv, pages[0][0].createdAt, limit, pages[1..]);
      OneMorePage(table, conv, before, limit, pages[0], |pages[1..]|);
    }
  }

  lemma WalkHasEverything(table: seq<ChatMessage>, conv: Id, before: Time, limit: nat, pages: seq<seq<ChatMessage>>)
    requires limit >= 1 && IsTable(table) && IsWalk(table, conv, before, limit, pages)
    requires NoTies(table, conv, before)
    ensures forall m :: m in Prepended(pages) <==> m in table && Selected(m, conv, before)
  {
    WalkElements(table, conv, before, limit, pages);
    forall m | m in table && Selected(m, conv, before)
      ensures m in Prepended(pages)
    {
      forall i | 0 <= i < |pages|
        ensures !CutOffBy(pages[i], m)
      {
        DistinctTimesCutNothing(table, conv, before, limit, pages, m, i);
      }
      WalkMissesExactlyCutOffs(table, conv, before, limit, pages, m);
    }
  }

  /**
    Without ties: the prepended pages are exactly the ascending history before the cursor, in
    ceiling(n / limit) non-empty pages.
   */
  lemma WalkReconstructsHistory(table: seq<ChatMessage>, conv: Id, before: Time, limit: nat,
                                pages: seq<seq<ChatMessage>>, history: seq<ChatMessage>)
    requires limit >= 1 && IsTable(table) && IsWalk(table, conv, before, limit, pages)
    requires IsHistory(history, table, conv, before)
    requires NoTies(table, conv, before)
    ensures Prepended(pages) == history
    ensures |history| <= |pages| * limit && (history == [] || (|pages| - 1) * limit < |history|)
  {
    ArrangementFacts(table, conv, before, history);
    WalkIsOrdered(table, conv, before, limit, pages);
    WalkHasEverything(table, conv, before, limit, pages);
    EligibleElements(table, conv, before);
    SameElementsOnce(Prepended(pages), history);
    ArrangementIsUnique(history, Prepended(pages));
    WalkLength(table, conv, before, limit, pages);
    PagesNeededIsCeiling(|history|, limit);
  }
}

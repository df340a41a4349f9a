/**
  A fetch races with frames: the page is what the server answered to a query at some moment, and it
  replaces the list when it arrives, whatever was appended in the meantime.
 */
module Refetch {
  import opened Entities
  import opened Sequences
  import opened History
  import opened Pagination
  import P = Pipeline
  import opened Replica

  /** The conversation's messages before a time. */
  function EligibleSet(table: seq<ChatMessage>, conv: Id, t: Time): set<ChatMessage> {
    set m | m in table && Selected(m, conv, t)
  }

  lemma EligibleSize(table: seq<ChatMessage>, conv: Id, t: Time)
    requires IsTable(table)
    ensures |EligibleSet(table, conv, t)| == |Eligible(table, conv, t)|
  {
    EligibleIsDistinct(table, conv, t);
    EligibleElements(table, conv, t);
    DistinctSize(Eligible(table, conv, t));
    assert Elements(Eligible(table, conv, t)) == EligibleSet(table, conv, t);
  }

  /** How many of the conversation's messages before the cursor are newer than `m`. */
  function Newer(table: seq<ChatMessage>, conv: Id, before: Time, m: ChatMessage): int {
    |Eligible(table, conv, before)| - |Eligible(table, conv, m.createdAt + 1)|
  }

  /** How many of them are not older than `m`, itself included. */
  function NotOlder(table: seq<ChatMessage>, conv: Id, before: Time, m: ChatMessage): int {
    |Eligible(table, conv, before)| - |Eligible(table, conv, m.createdAt)|
  }

  /** The messages of the earlier of two cursors are among those of the later one. */
  lemma EligibleDifference(table: seq<ChatMessage>, conv: Id, early: Time, late: Time)
    requires IsTable(table) && early <= late
    ensures EligibleSet(table, conv, early) <= EligibleSet(table, conv, late)
    ensures |EligibleSet(table, conv, late) - EligibleSet(table, conv, early)|
            == |Eligible(table, conv, late)| - |Eligible(table, conv, early)|
  {
    EligibleSize(table, conv, early);
    EligibleSize(table, conv, late);
    var x, y := EligibleSet(table, conv, early), EligibleSet(table, conv, late);
    assert y == x + (y - x);
  }

  lemma NewerAreOnPage(table: seq<ChatMessage>, conv: Id, before: Time, limit: nat, page: seq<ChatMessage>, m: ChatMessage)
    requires IsTable(table) && IsPage(table, conv, before, limit, page) && m in page
    ensures EligibleSet(table, conv, before) - EligibleSet(table, conv, m.createdAt + 1) <= Elements(page) - {m}
  {
    PageProperties(table, conv, before, limit, page);
  }

  lemma PageEntry(table: seq<ChatMessage>, conv: Id, before: Time, limit: nat, page: seq<ChatMessage>, m: ChatMessage)
    requires IsTable(table) && IsPage(table, conv, before, limit, page) && m in page
    ensures Distinct(page) && |page| <= limit && m in table && Selected(m, conv, before)
  {
    PageProperties(table, conv, before, limit, page);
  }

  lemma FewNewer(table: seq<ChatMessage>, conv: Id, before: Time, limit: nat, page: seq<ChatMessage>, m: ChatMessage)
    requires IsTable(table) && Selected(m, conv, before) && Distinct(page) && m in page && |page| <= limit
    requires EligibleSet(table, conv, before) - EligibleSet(table, conv, m.createdAt + 1) <= Elements(page) - {m}
    ensures Newer(table, conv, before, m) < limit
  {
    EligibleDifference(table, conv, m.createdAt + 1, before);
    DistinctSize(page);
    assert Elements(page) == (Elements(page) - {m}) + {m};
    SubsetSize(EligibleSet(table, conv, before) - EligibleSet(table, conv, m.createdAt + 1), Elements(page) - {m});
  }

  /** A message on a page is eligible, and fewer than `limit` eligible ones are newer. */
  lemma OnPageHasFewNewer(table: seq<ChatMessage>, conv: Id, before: Time, limit: nat, page: seq<ChatMessage>, m: ChatMessage)
    requires IsTable(table) && IsPage(table, conv, before, limit, page) && m in page
    ensures m in table && Selected(m, conv, before) && Newer(table, conv, before, m) < limit
  {
    PageEntry(table, conv, before, limit, page, m);
    NewerAreOnPage(table, conv, before, limit, page, m);
    FewNewer(table, conv, before, limit, page, m);
  }

  /** A message that a page leaves out is not newer than any on it. */
  lemma OffPageIsOlder(table: seq<ChatMessage>, conv: Id, before: Time, limit: nat, page: seq<ChatMessage>, m: ChatMessage)
    requires IsTable(table) && IsPage(table, conv, before, limit, page)
    requires m in table && Selected(m, conv, before) && m !in page
    ensures Elements(page) <= EligibleSet(table, conv, before) - EligibleSet(table, conv, m.createdAt) - {m}
  {
    PageProperties(table, conv, before, limit, page);
  }

  /** An eligible message is left out only if more than `limit` eligible ones are not older. */
  lemma OffPageHasManyNotOlder(table: seq<ChatMessage>, conv: Id, before: Time, limit: nat, page: seq<ChatMessage>, m: ChatMessage)
    requires IsTable(table) && IsPage(table, conv, before, limit, page)
    requires m in table && Selected(m, conv, before) && m !in page
    ensures NotOlder(table, conv, before, m) > limit
  {
    var notOlder := EligibleSet(table, conv, before) - EligibleSet(table, conv, m.createdAt);
    OffPageIsOlder(table, conv, before, limit, page, m);
    PageProperties(table, conv, before, limit, page);
    EligibleDifference(table, conv, m.createdAt, before);
    DistinctSize(page);
    SubsetSize(Elements(page), notOlder - {m});
    assert |notOlder - {m}| == |notOlder| - 1;
  }

  lemma OnlyOneAtItsTime(table: seq<ChatMessage>, conv: Id, before: Time, m: ChatMessage)
    requires NoTies(table, conv, before) && m in table && Selected(m, conv, before)
    ensures EligibleSet(table, conv, m.createdAt + 1) - EligibleSet(table, conv, m.createdAt) == {m}
  {
    forall x | x in EligibleSet(table, conv, m.createdAt + 1) && x !in EligibleSet(table, conv, m.createdAt)
      ensures x == m
    {
      assert Selected(x, conv, before);
    }
  }

  lemma WithoutTiesOnlyItself(table: seq<ChatMessage>, conv: Id, before: Time, m: ChatMessage)
    requires IsTable(table) && NoTies(table, conv, before) && m in table && Selected(m, conv, before)
    ensures NotOlder(table, conv, before, m) == Newer(table, conv, before, m) + 1
  {
    EligibleDifference(table, conv, m.createdAt, m.createdAt + 1);
    OnlyOneAtItsTime(table, conv, before, m);
  }

  // ---------------------------------------------------------------- the store

  lemma {:induction false} PageStays(history: seq<StoreEvent>, later: seq<StoreEvent>, conv: Id)
    requires forall k :: 0 <= k < |later| ==> !(later[k].Fetched? && later[k].conv == conv)
    ensures LastPage(history + later, conv) == LastPage(history, conv)
    ensures ArrivedSince(history + later, conv) == ArrivedSince(history, conv) + ArrivedSince(later, conv)
    decreases |later|
  {
    if later == [] {
      assert history + later == history && ArrivedSince(history, conv) + [] == ArrivedSince(history, conv);
    } else {
      var front := later[..|later| - 1];
      PageStays(history, front, conv);
      assert (history + later)[..|history + later| - 1] == history + front;
    }
  }

  lemma FetchReplaces(history: seq<StoreEvent>, conv: Id, page: seq<P.OutboundMessage>)
    ensures LastPage(history + [Fetched(conv, page)], conv) == page
    ensures ArrivedSince(history + [Fetched(conv, page)], conv) == []
  {
    assert (history + [Fetched(conv, page)])[..|history|] == history;
  }

  /** The frames that the store makes of the messages on a page. */
  lemma PageHasIdIff(conv: Id, page: seq<ChatMessage>, m: ChatMessage)
    requires forall n :: n in page && n.id == m.id ==> n == m
    ensures HasId(FramesFor(conv, page), m.id) <==> m in page
  {
    if HasId(FramesFor(conv, page), m.id) {
      var k :| 0 <= k < |page| && FramesFor(conv, page)[k].id == m.id;
      assert page[k] in page && page[k].id == m.id;
    }
    if m in page {
      var k :| 0 <= k < |page| && page[k] == m;
      assert FramesFor(conv, page)[k].id == m.id;
    }
  }

  /** Everything that happens around one fetch: a frame arrives, more happens, the page arrives, more frames arrive. */
  function Around(history: seq<StoreEvent>, conv: Id, m: ChatMessage, between: seq<StoreEvent>, page: seq<ChatMessage>,
                  later: seq<StoreEvent>): seq<StoreEvent> {
    history + [Arrived(conv, P.FrameOf(conv, m))] + between + [Fetched(conv, FramesFor(conv, page))] + later
  }

  lemma ListAfterFetch(history: seq<StoreEvent>, conv: Id, m: ChatMessage, between: seq<StoreEvent>, page: seq<ChatMessage>,
                       later: seq<StoreEvent>)
    requires forall n :: n in page && n.id == m.id ==> n == m
    requires forall k :: 0 <= k < |later| ==> !(later[k].Fetched? && later[k].conv == conv)
    ensures HasId(ListOf(Fold(Around(history, conv, m, between, page, later)), conv), m.id)
            <==> m in page || HasId(ArrivedSince(later, conv), m.id)
  {
    var before := history + [Arrived(conv, P.FrameOf(conv, m))] + between;
    var fetched := before + [Fetched(conv, FramesFor(conv, page))];
    FetchReplaces(before, conv, FramesFor(conv, page));
    PageStays(fetched, later, conv);
    FoldIds(fetched + later, conv);
    PageHasIdIff(conv, page, m);
    assert [] + ArrivedSince(later, conv) == ArrivedSince(later, conv);
  }

  /**
    A frame appended before a fetch completes, with anything else happening in between: it is shown
    after the fetch exactly if its message was in the table that the server queried, before the
    cursor, with fewer than `limit` newer ones, or if the message arrives once more.  This is for
    histories without timestamp ties; with ties the two bounds that remain are stated below.
   */
  lemma FrameSurvivesFetchIff(table: seq<ChatMessage>, conv: Id, before: Time, limit: nat, page: seq<ChatMessage>, m: ChatMessage,
                              history: seq<StoreEvent>, between: seq<StoreEvent>, later: seq<StoreEvent>)
    requires IsTable(table) && IsPage(table, conv, before, limit, page) && NoTies(table, conv, before)
    requires forall n :: n in table && n.id == m.id ==> n == m
    requires forall k :: 0 <= k < |later| ==> !(later[k].Fetched? && later[k].conv == conv)
    ensures HasId(ListOf(Fold(Around(history, conv, m, between, page, later)), conv), m.id)
            <==> (m in table && Selected(m, conv, before) && Newer(table, conv, before, m) < limit)
                 || HasId(ArrivedSince(later, conv), m.id)
  {
    PageProperties(table, conv, before, limit, page);
    ListAfterFetch(history, conv, m, between, page, later);
    if m in page {
      OnPageHasFewNewer(table, conv, before, limit, page, m);
    } else if m in table && Selected(m, conv, before) {
      WithoutTiesOnlyItself(table, conv, before, m);
      OffPageHasManyNotOlder(table, conv, before, limit, page, m);
    }
  }

  // ---------------------------------------------------------------- timestamp ties

  /** Ascending, with `m` after the others of its time. */
  predicate MLast(m: ChatMessage, x: ChatMessage, y: ChatMessage) {
    x.createdAt < y.createdAt || (x.createdAt == y.createdAt && (x == m ==> y == m))
  }

  /** Ascending, with `m` before the others of its time. */
  predicate MFirst(m: ChatMessage, x: ChatMessage, y: ChatMessage) {
    x.createdAt < y.createdAt || (x.createdAt == y.createdAt && (y == m ==> x == m))
  }

  lemma HistoryWithMLast(table: seq<ChatMessage>, conv: Id, before: Time, m: ChatMessage) returns (all: seq<ChatMessage>)
    ensures IsHistory(all, table, conv, before) && SortedBy((x, y) => MLast(m, x, y), all)
  {
    all := SortedArrangementExists((x, y) => MLast(m, x, y), Eligible(table, conv, before));
    forall i, j | 0 <= i < j < |all|
      ensures Oldest(all[i], all[j])
    {
      assert MLast(m, all[i], all[j]);
    }
  }

  lemma HistoryWithMFirst(table: seq<ChatMessage>, conv: Id, before: Time, m: ChatMessage) returns (all: seq<ChatMessage>)
    ensures IsHistory(all, table, conv, before) && SortedBy((x, y) => MFirst(m, x, y), all)
  {
    all := SortedArrangementExists((x, y) => MFirst(m, x, y), Eligible(table, conv, before));
    forall i, j | 0 <= i < j < |all|
      ensures Oldest(all[i], all[j])
    {
      assert MFirst(m, all[i], all[j]);
    }
  }

  lemma LaterIsNewer(m: ChatMessage, all: seq<ChatMessage>, i: nat, j: nat)
    requires Distinct(all) && SortedBy((x, y) => MLast(m, x, y), all) && i < j < |all| && all[i] == m
    ensures m.createdAt < all[j].createdAt
  {
    assert MLast(m, all[i], all[j]);
  }

  lemma EarlierIsOlder(m: ChatMessage, all: seq<ChatMessage>, i: nat, j: nat)
    requires Distinct(all) && SortedBy((x, y) => MFirst(m, x, y), all) && j < i < |all| && all[i] == m
    ensures all[j].createdAt < m.createdAt
  {
    assert MFirst(m, all[j], all[i]);
  }

  /** So many different newer messages are eligible. */
  lemma NewerFit(table: seq<ChatMessage>, conv: Id, before: Time, m: ChatMessage, newer: seq<ChatMessage>)
    requires IsTable(table) && Selected(m, conv, before) && Distinct(newer)
    requires forall x :: x in newer ==> x in table && Selected(x, conv, before) && m.createdAt < x.createdAt
    ensures |newer| <= Newer(table, conv, before, m)
  {
    EligibleDifference(table, conv, m.createdAt + 1, before);
    DistinctSize(newer);
    SubsetSize(Elements(newer), EligibleSet(table, conv, before) - EligibleSet(table, conv, m.createdAt + 1));
  }

  lemma OlderFit(table: seq<ChatMessage>, conv: Id, m: ChatMessage, older: seq<ChatMessage>)
    requires IsTable(table) && Distinct(older)
    requires forall x :: x in older ==> x in table && x.conversationId == conv && x.createdAt < m.createdAt
    ensures |older| <= |Eligible(table, conv, m.createdAt)|
  {
    EligibleSize(table, conv, m.createdAt);
    DistinctSize(older);
    SubsetSize(Elements(older), EligibleSet(table, conv, m.createdAt));
  }

  /** Only newer messages come after the last of its time. */
  lemma AfterLast(table: seq<ChatMessage>, conv: Id, before: Time, m: ChatMessage, all: seq<ChatMessage>, i: nat)
    requires IsTable(table) && IsHistory(all, table, conv, before) && SortedBy((x, y) => MLast(m, x, y), all)
    requires i < |all| && all[i] == m
    ensures |all| - i - 1 <= Newer(table, conv, before, m)
  {
    ArrangementFacts(table, conv, before, all);
    forall x | x in all[i + 1..]
      ensures x in all && m.createdAt < x.createdAt
    {
      var j :| i < j < |all| && all[j] == x;
      LaterIsNewer(m, all, i, j);
    }
    assert m in all;
    NewerFit(table, conv, before, m, all[i + 1..]);
  }

  /** Only older messages come before the first of its time. */
  lemma BeforeFirst(table: seq<ChatMessage>, conv: Id, before: Time, m: ChatMessage, all: seq<ChatMessage>, i: nat)
    requires IsTable(table) && IsHistory(all, table, conv, before) && SortedBy((x, y) => MFirst(m, x, y), all)
    requires i < |all| && all[i] == m
    ensures i <= |all| - NotOlder(table, conv, before, m)
  {
    ArrangementFacts(table, conv, before, all);
    forall x | x in all[..i]
      ensures x in all && x.createdAt < m.createdAt
    {
      var j :| 0 <= j < i && all[j] == x;
      EarlierIsOlder(m, all, i, j);
    }
    OlderFit(table, conv, m, all[..i]);
  }

  lemma PageWithIt(table: seq<ChatMessage>, conv: Id, before: Time, limit: nat, m: ChatMessage) returns (page: seq<ChatMessage>)
    requires IsTable(table) && m in table && Selected(m, conv, before) && Newer(table, conv, before, m) < limit
    ensures IsPage(table, conv, before, limit, page) && m in page
  {
    var all := HistoryWithMLast(table, conv, before, m);
    ArrangementFacts(table, conv, before, all);
    var i :| 0 <= i < |all| && all[i] == m;
    AfterLast(table, conv, before, m, all, i);
    var k := |all| - Min(limit, |all|);
    page := all[k..];
    assert page[i - k] == m;
  }

  lemma PageWithoutIt(table: seq<ChatMessage>, conv: Id, before: Time, limit: nat, m: ChatMessage) returns (page: seq<ChatMessage>)
    requires IsTable(table) && m in table && Selected(m, conv, before) && NotOlder(table, conv, before, m) > limit
    ensures IsPage(table, conv, before, limit, page) && m !in page
  {
    var all := HistoryWithMFirst(table, conv, before, m);
    ArrangementFacts(table, conv, before, all);
    var i :| 0 <= i < |all| && all[i] == m;
    BeforeFirst(table, conv, before, m, all, i);
    page := all[|all| - Min(limit, |all|)..];
  }

  /** The message is in the list once the page has arrived. */
  ghost predicate ShownAfter(history: seq<StoreEvent>, conv: Id, m: ChatMessage, between: seq<StoreEvent>, page: seq<ChatMessage>,
                             later: seq<StoreEvent>) {
    HasId(ListOf(Fold(Around(history, conv, m, between, page, later)), conv), m.id)
  }

  lemma ShownIffOnPage(table: seq<ChatMessage>, conv: Id, before: Time, limit: nat, page: seq<ChatMessage>, m: ChatMessage,
                       history: seq<StoreEvent>, between: seq<StoreEvent>, later: seq<StoreEvent>)
    requires IsTable(table) && IsPage(table, conv, before, limit, page)
    requires forall n :: n in table && n.id == m.id ==> n == m
    requires forall k :: 0 <= k < |later| ==> !(later[k].Fetched? && later[k].conv == conv)
    requires !HasId(ArrivedSince(later, conv), m.id)
    ensures ShownAfter(history, conv, m, between, page, later) <==> m in page
  {
    PageProperties(table, conv, before, limit, page);
    ListAfterFetch(history, conv, m, between, page, later);
  }

  /**
    With ties the database has a choice, and it is exactly this: some answer keeps the frame if its
    message was eligible with fewer than `limit` newer ones, and some answer loses it if it was not
    eligible or more than `limit` were not older, itself included.
   */
  lemma FrameSurvivesFetchWithTies(table: seq<ChatMessage>, conv: Id, before: Time, limit: nat, m: ChatMessage,
                                   history: seq<StoreEvent>, between: seq<StoreEvent>, later: seq<StoreEvent>)
    requires IsTable(table)
    requires forall n :: n in table && n.id == m.id ==> n == m
    requires forall k :: 0 <= k < |later| ==> !(later[k].Fetched? && later[k].conv == conv)
    requires !HasId(ArrivedSince(later, conv), m.id)
    ensures (exists page :: IsPage(table, conv, before, limit, page) && ShownAfter(history, conv, m, between, page, later))
            <==> m in table && Selected(m, conv, before) && Newer(table, conv, before, m) < limit
    ensures (exists page :: IsPage(table, conv, before, limit, page) && !ShownAfter(history, conv, m, between, page, later))
            <==> !(m in table && Selected(m, conv, before)) || NotOlder(table, conv, before, m) > limit
  {
    forall page | IsPage(table, conv, before, limit, page)
      ensures ShownAfter(history, conv, m, between, page, later) <==> m in page
      ensures m in page ==> m in table && Selected(m, conv, before) && Newer(table, conv, before, m) < limit
      ensures m !in page && m in table && Selected(m, conv, before) ==> NotOlder(table, conv, before, m) > limit
    {
      ShownIffOnPage(table, conv, before, limit, page, m, history, between, later);
      if m in page {
        OnPageHasFewNewer(table, conv, before, limit, page, m);
      } else if m in table && Selected(m, conv, before) {
        OffPageHasManyNotOlder(table, conv, before, limit, page, m);
      }
    }
    if m in table && Selected(m, conv, before) {
      if Newer(table, conv, before, m) < limit {
        var page := PageWithIt(table, conv, before, limit, m);
      }
      if NotOlder(table, conv, before, m) > limit {
        var page := PageWithoutIt(table, conv, before, limit, m);
      }
    } else {
      var page := PageExists(table, conv, before, limit);
    }
  }

  // ---------------------------------------------------------------- pages from the server

  ghost predicate KeyedById(table: seq<ChatMessage>) {
    forall x, y :: x in table && y in table && x.id == y.id ==> x == y
  }

  /** The page is what the server answers from some table, whose ids are keys, to a query for the conversation. */
  ghost predicate FromServer(conv: Id, page: seq<P.OutboundMessage>) {
    exists table, before, limit: nat, ms ::
      && IsTable(table) && KeyedById(table) && IsPage(table, conv, before, limit, ms)
      && page == FramesFor(conv, ms)
  }

  lemma ServerPageHasDistinctIds(conv: Id, page: seq<P.OutboundMessage>)
    requires FromServer(conv, page)
    ensures UniqueIds(page)
  {
    var table, before, limit: nat, ms :| IsTable(table) && KeyedById(table) && IsPage(table, conv, before, limit, ms)
                                         && page == FramesFor(conv, ms);
    PageProperties(table, conv, before, limit, ms);
    forall i, j | 0 <= i < j < |page|
      ensures page[i].id != page[j].id
    {
      assert ms[i] in ms && ms[j] in ms && ms[i] != ms[j];
    }
  }

  /** The last page of a conversation is one that was fetched for it. */
  lemma {:induction false} LastPageWasFetched(history: seq<StoreEvent>, conv: Id)
    ensures LastPage(history, conv) == [] || Fetched(conv, LastPage(history, conv)) in history
  {
    if history != [] {
      var front, last := history[..|history| - 1], history[|history| - 1];
      LastPageWasFetched(front, conv);
      assert history == front + [last];
    }
  }

  /** In all runs, with frames in any order and number and pages from the server, every list keeps distinct ids. */
  lemma ServedListsKeepDistinctIds(history: seq<StoreEvent>, conv: Id)
    requires forall page :: Fetched(conv, page) in history ==> FromServer(conv, page)
    ensures UniqueIds(ListOf(Fold(history), conv))
  {
    LastPageWasFetched(history, conv);
    if LastPage(history, conv) != [] {
      ServerPageHasDistinctIds(conv, LastPage(history, conv));
    }
    ListsKeepDistinctIds(history, conv);
  }

  lemma EmptyTableHasEmptyPage(conv: Id, before: Time, limit: nat)
    ensures IsPage([], conv, before, limit, [])
  {
    var all: seq<ChatMessage> := [];
    assert IsHistory(all, [], conv, before);
    assert all == all[|all| - Min(limit, |all|)..];
  }

  /** It happens: the server's query misses the message, its frame is shown, and the page takes it away again. */
  lemma FrameCanVanish(m: ChatMessage, before: Time, limit: nat) returns (shown: seq<StoreEvent>, after: seq<StoreEvent>)
    ensures IsPage([], m.conversationId, before, limit, [])
    ensures shown == [Arrived(m.conversationId, P.FrameOf(m.conversationId, m))]
    ensures after == shown + [Fetched(m.conversationId, FramesFor(m.conversationId, []))]
    ensures HasId(ListOf(Fold(shown), m.conversationId), m.id)
    ensures !HasId(ListOf(Fold(after), m.conversationId), m.id)
  {
    var conv := m.conversationId;
    EmptyTableHasEmptyPage(conv, before, limit);
    shown := [Arrived(conv, P.FrameOf(conv, m))];
    after := shown + [Fetched(conv, FramesFor(conv, []))];
    FoldIds(shown, conv);
    assert shown[..0] == [] && ArrivedSince(shown, conv) == [] + [P.FrameOf(conv, m)];
    HasIdSnoc([], P.FrameOf(conv, m), m.id);
    FetchReplaces(shown, conv, FramesFor(conv, []));
    FoldIds(after, conv);
  }
}

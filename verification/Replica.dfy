/** The browser's chat store: a replica folded from frames that may arrive more than once. */
module Replica {
  import opened Entities
  import opened Pipeline
  import opened PipelineOrder

  /** Message lists keyed by conversation; an absent key reads as the empty list. */
  type Lists = map<Id, seq<OutboundMessage>>

  function ListOf(lists: Lists, conv: Id): seq<OutboundMessage> {
    if conv in lists then lists[conv] else []
  }

  predicate HasId(ms: seq<OutboundMessage>, id: Id) {
    exists k :: 0 <= k < |ms| && ms[k].id == id
  }

  /** The state updater of appendMessage. */
  function Append(lists: Lists, conv: Id, m: OutboundMessage): Lists {
    if HasId(ListOf(lists, conv), m.id) then lists else lists[conv := ListOf(lists, conv) + [m]]
  }

  /** Frames as the socket handler feeds them to the store, oldest first. */
  function Replay(lists: Lists, frames: seq<OutboundMessage>): Lists {
    if frames == [] then lists
    else
      var f := frames[|frames| - 1];
      Append(Replay(lists, frames[..|frames| - 1]), f.conversationId, f)
  }

  function Projection(frames: seq<OutboundMessage>, conv: Id): seq<OutboundMessage> {
    if frames == [] then []
    else
      var front := Projection(frames[..|frames| - 1], conv);
      var f := frames[|frames| - 1];
      if f.conversationId == conv then front + [f] else front
  }

  /** Keeps the first message of every id. */
  function FirstOccurrences(ms: seq<OutboundMessage>): seq<OutboundMessage> {
    if ms == [] then []
    else
      var front := FirstOccurrences(ms[..|ms| - 1]);
      if HasId(front, ms[|ms| - 1].id) then front else front + [ms[|ms| - 1]]
  }

  ghost predicate UniqueIds(ms: seq<OutboundMessage>) {
    forall i, j :: 0 <= i < j < |ms| ==> ms[i].id != ms[j].id
  }

  // ---------------------------------------------------------------- what first occurrences are

  lemma FirstOccurrencesSnoc(ms: seq<OutboundMessage>, m: OutboundMessage)
    ensures FirstOccurrences(ms + [m]) ==
            if HasId(FirstOccurrences(ms), m.id) then FirstOccurrences(ms) else FirstOccurrences(ms) + [m]
  {
    assert (ms + [m])[..|ms|] == ms;
  }

  /** No id twice, no id lost, and each survivor is the earliest message with its id. */
  lemma {:induction false} FirstOccurrencesSpec(ms: seq<OutboundMessage>)
    ensures UniqueIds(FirstOccurrences(ms))
    ensures forall id :: HasId(FirstOccurrences(ms), id) <==> HasId(ms, id)
    ensures forall k :: 0 <= k < |FirstOccurrences(ms)| ==>
              exists j :: 0 <= j < |ms| && ms[j] == FirstOccurrences(ms)[k] && !HasId(ms[..j], ms[j].id)
  {
    if ms != [] {
      var front, last := ms[..|ms| - 1], ms[|ms| - 1];
      var kept := FirstOccurrences(front);
      FirstOccurrencesSpec(front);
      forall id
        ensures HasId(ms, id) <==> HasId(front, id) || last.id == id
      {
        if HasId(front, id) {
          var k :| 0 <= k < |front| && front[k].id == id;
          assert ms[k].id == id;
        }
      }
      if !HasId(kept, last.id) {
        assert (kept + [last])[|kept|] == last;
        forall id
          ensures HasId(kept + [last], id) <==> HasId(kept, id) || last.id == id
        {
          if HasId(kept, id) {
            var k :| 0 <= k < |kept| && kept[k].id == id;
            assert (kept + [last])[k].id == id;
          }
        }
      }
      forall k | 0 <= k < |FirstOccurrences(ms)|
        ensures exists j :: 0 <= j < |ms| && ms[j] == FirstOccurrences(ms)[k] && !HasId(ms[..j], ms[j].id)
      {
        if k < |kept| {
          var j :| 0 <= j < |front| && front[j] == kept[k] && !HasId(front[..j], front[j].id);
          assert ms[..j] == front[..j] && ms[j] == front[j];
        } else {
          assert ms[..|ms| - 1] == front;
        }
      }
    }
  }

  lemma {:induction false} UniqueIdsAreFirstOccurrences(ms: seq<OutboundMessage>)
    requires UniqueIds(ms)
    ensures FirstOccurrences(ms) == ms
  {
    if ms != [] {
      var front := ms[..|ms| - 1];
      UniqueIdsAreFirstOccurrences(front);
      assert ms == front + [ms[|ms| - 1]];
    }
  }

  // ---------------------------------------------------------------- the replica

  /**
    Per conversation, replaying frames onto a list gives the first occurrences of the list followed
    by that conversation's frames.
   */
  lemma {:induction false} ReplicaIsFirstOccurrences(lists: Lists, frames: seq<OutboundMessage>, conv: Id)
    requires UniqueIds(ListOf(lists, conv))
    ensures ListOf(Replay(lists, frames), conv) == FirstOccurrences(ListOf(lists, conv) + Projection(frames, conv))
  {
    var start := ListOf(lists, conv);
    if frames == [] {
      assert start + [] == start;
      UniqueIdsAreFirstOccurrences(start);
    } else {
      var front, f := frames[..|frames| - 1], frames[|frames| - 1];
      ReplicaIsFirstOccurrences(lists, front, conv);
      if f.conversationId == conv {
        FirstOccurrencesSnoc(start + Projection(front, conv), f);
        assert start + Projection(frames, conv) == (start + Projection(front, conv)) + [f];
      }
    }
  }

  lemma ReplaySnoc(lists: Lists, frames: seq<OutboundMessage>, f: OutboundMessage)
    ensures Replay(lists, frames + [f]) == Append(Replay(lists, frames), f.conversationId, f)
  {
    assert (frames + [f])[..|frames|] == frames;
  }

  lemma {:induction false} ReplayConcat(lists: Lists, xs: seq<OutboundMessage>, ys: seq<OutboundMessage>)
    ensures Replay(lists, xs + ys) == Replay(Replay(lists, xs), ys)
    decreases |ys|
  {
    if ys == [] {
      assert xs + ys == xs;
    } else {
      var init, last := ys[..|ys| - 1], ys[|ys| - 1];
      ReplayConcat(lists, xs, init);
      ReplaySnoc(lists, xs + init, last);
      assert xs + init + [last] == xs + ys;
    }
  }

  /** A frame that arrives again, at any later time and by any route, changes nothing. */
  lemma RepeatedFrameIsIgnored(lists: Lists, before: seq<OutboundMessage>, again: OutboundMessage, after: seq<OutboundMessage>)
    requires HasId(ListOf(Replay(lists, before), again.conversationId), again.id)
    ensures Replay(lists, before + [again] + after) == Replay(lists, before + after)
  {
    ReplaySnoc(lists, before, again);
    ReplayConcat(lists, before + [again], after);
    ReplayConcat(lists, before, after);
  }

  // ---------------------------------------------------------------- the store

  datatype StoreConversation = StoreConversation(conversationId: Id, isGroup: bool)

  /** What reached the message lists, in the order in which it was applied. */
  datatype StoreEvent =
    | Arrived(conv: Id, message: OutboundMessage)
    | Fetched(conv: Id, page: seq<OutboundMessage>)

  /** The message lists after a history of frames and completed fetches, oldest first. */
  function Fold(history: seq<StoreEvent>): Lists {
    if history == [] then map[]
    else
      var front := Fold(history[..|history| - 1]);
      match history[|history| - 1]
      case Arrived(c, m) => Append(front, c, m)
      case Fetched(c, page) => front[c := page]
  }

  /** The last fetched page of a conversation. */
  function LastPage(history: seq<StoreEvent>, conv: Id): seq<OutboundMessage> {
    if history == [] then []
    else
      match history[|history| - 1]
      case Arrived(_, _) => LastPage(history[..|history| - 1], conv)
      case Fetched(c, page) => if c == conv then page else LastPage(history[..|history| - 1], conv)
  }

  /** What arrived for a conversation since its last fetch. */
  function ArrivedSince(history: seq<StoreEvent>, conv: Id): seq<OutboundMessage> {
    if history == [] then []
    else
      var front := ArrivedSince(history[..|history| - 1], conv);
      match history[|history| - 1]
      case Arrived(c, m) => if c == conv then front + [m] else front
      case Fetched(c, _) => if c == conv then [] else front
  }

  lemma HasIdSnoc(ms: seq<OutboundMessage>, m: OutboundMessage, id: Id)
    ensures HasId(ms + [m], id) <==> HasId(ms, id) || m.id == id
  {
    assert (ms + [m])[|ms|] == m;
    if HasId(ms, id) {
      var k :| 0 <= k < |ms| && ms[k].id == id;
      assert (ms + [m])[k].id == id;
    }
  }

  /** A conversation's list starts with its last page and has just the ids of that page and of what arrived since. */
  lemma {:induction false} FoldIds(history: seq<StoreEvent>, conv: Id)
    ensures LastPage(history, conv) <= ListOf(Fold(history), conv)
    ensures forall id ::
              HasId(ListOf(Fold(history), conv), id)
              <==> HasId(LastPage(history, conv), id) || HasId(ArrivedSince(history, conv), id)
  {
    if history != [] {
      var front, last := history[..|history| - 1], history[|history| - 1];
      FoldIds(front, conv);
      if last.Arrived? && last.conv == conv {
        forall ms, id
          ensures HasId(ms + [last.message], id) <==> HasId(ms, id) || last.message.id == id
        {
          HasIdSnoc(ms, last.message, id);
        }
      }
    }
  }

  /** In all runs: a list is the first occurrences of its last page and of what arrived since, if that page has distinct ids. */
  lemma {:induction false} StoreIsFirstOccurrences(history: seq<StoreEvent>, conv: Id)
    requires UniqueIds(LastPage(history, conv))
    ensures ListOf(Fold(history), conv) == FirstOccurrences(LastPage(history, conv) + ArrivedSince(history, conv))
  {
    var page := LastPage(history, conv);
    if history == [] {
      assert page + [] == [];
    } else {
      var front, last := history[..|history| - 1], history[|history| - 1];
      if last.Fetched? && last.conv == conv {
        UniqueIdsAreFirstOccurrences(page);
        assert page + [] == page;
      } else {
        StoreIsFirstOccurrences(front, conv);
        if last.Arrived? && last.conv == conv {
          FirstOccurrencesSnoc(page + ArrivedSince(front, conv), last.message);
          assert page + ArrivedSince(history, conv) == (page + ArrivedSince(front, conv)) + [last.message];
        }
      }
    }
  }

  /** Exactly when a list has distinct ids, in all runs of frames and fetches: when its last fetched page has. */
  lemma ListsKeepDistinctIds(history: seq<StoreEvent>, conv: Id)
    ensures UniqueIds(ListOf(Fold(history), conv)) <==> UniqueIds(LastPage(history, conv))
  {
    var list, page := ListOf(Fold(history), conv), LastPage(history, conv);
    FoldIds(history, conv);
    if UniqueIds(page) {
      StoreIsFirstOccurrences(history, conv);
      FirstOccurrencesSpec(page + ArrivedSince(history, conv));
    } else {
      var i, j :| 0 <= i < j < |page| && page[i].id == page[j].id;
      assert list[i] == page[i] && list[j] == page[j];
    }
  }

  predicate Listed(convs: seq<StoreConversation>, id: Id) {
    exists k :: 0 <= k < |convs| && convs[k].conversationId == id
  }

  predicate OneEach(convs: seq<StoreConversation>) {
    forall i, j :: 0 <= i < j < |convs| ==> convs[i].conversationId != convs[j].conversationId
  }

  function ConversationsOf(lists: map<Id, seq<StoreConversation>>, buId: Id): seq<StoreConversation> {
    if buId in lists then lists[buId] else []
  }

  /** The group conversation if there is one, and the first conversation otherwise. */
  ghost predicate IsDefaultChoice(convs: seq<StoreConversation>, id: Id) {
    if exists k :: 0 <= k < |convs| && convs[k].isGroup then
      exists k :: 0 <= k < |convs| && convs[k].isGroup && convs[k].conversationId == id
                  && forall j :: 0 <= j < k ==> !convs[j].isGroup
    else convs != [] && id == convs[0].conversationId
  }

  class ChatStore {
    var messages: Lists
    var conversations: map<Id, seq<StoreConversation>>
    var activeConversationId: Option<Id>
    ghost var history: seq<StoreEvent>

    /** The lists are what the history makes of an empty store. */
    ghost predicate Valid()
      reads this
    {
      messages == Fold(history)
    }

    constructor ()
      ensures Valid() && messages == map[] && conversations == map[] && activeConversationId == None && history == []
    {
      messages, conversations, activeConversationId := map[], map[], None;
      history := [];
    }

    method AppendMessage(conv: Id, m: OutboundMessage)
      requires Valid()
      modifies this`messages, this`history
      ensures Valid() && history == old(history) + [Arrived(conv, m)]
      ensures messages == Append(old(messages), conv, m)
    {
      history := history + [Arrived(conv, m)];
      assert history[..|history| - 1] == old(history);
      var existing := if conv in messages then messages[conv] else [];
      if HasId(existing, m.id) {
        return;
      }
      messages := messages[conv := existing + [m]];
    }

    /** After the await: the list is replaced by whatever the page is, and whatever arrived in the meantime. */
    method FetchConversationMessages(conv: Id, page: seq<OutboundMessage>)
      requires Valid()
      modifies this`messages, this`history
      ensures Valid() && history == old(history) + [Fetched(conv, page)]
      ensures messages == old(messages)[conv := page]
    {
      history := history + [Fetched(conv, page)];
      assert history[..|history| - 1] == old(history);
      messages := messages[conv := page];
    }

    method FetchConversations(buId: Id, convs: seq<StoreConversation>)
      modifies this`conversations, this`activeConversationId
      ensures conversations == old(conversations)[buId := convs]
      ensures old(activeConversationId).Some? || convs == [] ==> activeConversationId == old(activeConversationId)
      ensures old(activeConversationId).None? && convs != [] ==>
                activeConversationId.Some? && IsDefaultChoice(convs, activeConversationId.value)
    {
      conversations := conversations[buId := convs];
      if activeConversationId.None? && |convs| > 0 {
        var k := 0;
        while k < |convs| && !convs[k].isGroup
          invariant k <= |convs|
          invariant forall j :: 0 <= j < k ==> !convs[j].isGroup
        {
          k := k + 1;
        }
        activeConversationId := Some(convs[if k < |convs| then k else 0].conversationId);
      }
    }

    /** Adds the conversation unless its id is already listed, and selects it either way. */
    method CreateDM(buId: Id, conv: StoreConversation)
      modifies this`conversations, this`activeConversationId
      ensures activeConversationId == Some(conv.conversationId)
      ensures Listed(ConversationsOf(conversations, buId), conv.conversationId)
      ensures OneEach(old(ConversationsOf(conversations, buId))) ==> OneEach(ConversationsOf(conversations, buId))
      ensures var existing := old(ConversationsOf(conversations, buId));
              ConversationsOf(conversations, buId)
              == if Listed(existing, conv.conversationId) then existing else existing + [conv]
      ensures forall b :: b != buId ==> ConversationsOf(conversations, b) == old(ConversationsOf(conversations, b))
    {
      var existing := ConversationsOf(conversations, buId);
      activeConversationId := Some(conv.conversationId);
      if !Listed(existing, conv.conversationId) {
        conversations := conversations[buId := existing + [conv]];
        assert ConversationsOf(conversations, buId)[|existing|] == conv;
      }
    }
  }

  // ---------------------------------------------------------------- what a list says

  /** The list entry says what the message says, under the conversation. */
  predicate Tells(f: OutboundMessage, conv: Id, m: ChatMessage) {
    && f.id == m.id && f.conversationId == conv && f.personId == m.personId
    && f.senderName == m.senderName && f.content == m.content && f.createdAt == m.createdAt
  }

  /** Entry for entry, the list says what these messages say. */
  ghost predicate TellsAll(list: seq<OutboundMessage>, conv: Id, ms: seq<ChatMessage>) {
    |list| == |ms| && forall k :: 0 <= k < |ms| ==> Tells(list[k], conv, ms[k])
  }

  function FramesFor(conv: Id, ms: seq<ChatMessage>): seq<OutboundMessage> {
    seq(|ms|, k requires 0 <= k < |ms| => FrameOf(conv, ms[k]))
  }

  lemma FramesTell(conv: Id, ms: seq<ChatMessage>)
    ensures TellsAll(FramesFor(conv, ms), conv, ms)
  {
  }

  function FramesOn(log: seq<Written>): seq<OutboundMessage> {
    seq(|log|, k requires 0 <= k < |log| => log[k].frame)
  }

  // ---------------------------------------------------------------- duplicate subscriptions

  /** The subscriptions of a conversation got prefixes of `stream`, the longest of length `n`. */
  ghost predicate LongestIs(log: seq<Written>, convs: seq<Id>, conv: Id, n: nat) {
    && (forall i :: 0 <= i < |convs| && convs[i] == conv ==> |Delivered(log, i)| <= n)
    && (n == 0 || exists i :: 0 <= i < |convs| && convs[i] == conv && |Delivered(log, i)| == n)
  }

  ghost predicate PrefixesOf(log: seq<Written>, convs: seq<Id>, conv: Id, stream: seq<ChatMessage>) {
    forall i :: 0 <= i < |convs| && convs[i] == conv ==> Delivered(log, i) <= stream
  }

  ghost predicate WellFramed(log: seq<Written>, convs: seq<Id>) {
    forall k :: 0 <= k < |log| ==> log[k].sub < |convs| && log[k].frame == FrameOf(convs[log[k].sub], log[k].message)
  }

  lemma FrontOfLog(log: seq<Written>, convs: seq<Id>, conv: Id, stream: seq<ChatMessage>)
    requires log != [] && PrefixesOf(log, convs, conv, stream) && WellFramed(log, convs)
    ensures PrefixesOf(log[..|log| - 1], convs, conv, stream) && WellFramed(log[..|log| - 1], convs)
  {
    forall i | 0 <= i < |convs| && convs[i] == conv
      ensures Delivered(log[..|log| - 1], i) <= stream
    {
      assert Delivered(log, i) <= stream;
    }
  }

  lemma ReplayOneMore(log: seq<Written>)
    requires log != []
    ensures var last := log[|log| - 1].frame;
            Replay(map[], FramesOn(log)) ==
            Append(Replay(map[], FramesOn(log[..|log| - 1])), last.conversationId, last)
  {
    assert FramesOn(log)[..|log| - 1] == FramesOn(log[..|log| - 1]);
  }

  lemma OtherConversationsFrame(front: seq<Written>, convs: seq<Id>, conv: Id, last: Written, n: nat)
    requires LongestIs(front, convs, conv, n) && last.sub < |convs| && convs[last.sub] != conv
    ensures LongestIs(front + [last], convs, conv, n)
  {
    forall i | 0 <= i < |convs| && convs[i] == conv
      ensures Delivered(front + [last], i) == Delivered(front, i)
    {
      DeliveredSnoc(front, last, i);
    }
  }

  ghost predicate UniqueStream(stream: seq<ChatMessage>) {
    forall a, b :: 0 <= a < b < |stream| ==> stream[a].id != stream[b].id
  }

  /** The replica of a conversation is the first `n` messages of the stream. */
  ghost predicate Shows(log: seq<Written>, conv: Id, stream: seq<ChatMessage>, n: nat) {
    n <= |stream| && ListOf(Replay(map[], FramesOn(log)), conv) == FramesFor(conv, stream[..n])
  }

  lemma LongestGrows(front: seq<Written>, convs: seq<Id>, conv: Id, last: Written, n: nat)
    requires last.sub < |convs| && convs[last.sub] == conv && LongestIs(front, convs, conv, n)
    ensures LongestIs(front + [last], convs, conv, if |Delivered(front, last.sub)| < n then n else n + 1)
    ensures |Delivered(front, last.sub)| <= n
  {
    forall j
      ensures Delivered(front + [last], j) == Delivered(front, j) + (if last.sub == j then [last.message] else [])
    {
      DeliveredSnoc(front, last, j);
    }
    assert |Delivered(front + [last], last.sub)| == |Delivered(front, last.sub)| + 1;
  }

  /** The message at `d` repeats what the first `n` already show, or is the next one. */
  lemma NextOfStream(conv: Id, stream: seq<ChatMessage>, n: nat, d: nat)
    requires UniqueStream(stream) && d <= n <= |stream| && d < |stream|
    ensures FramesFor(conv, stream[..if d < n then n else n + 1]) ==
            if HasId(FramesFor(conv, stream[..n]), stream[d].id) then FramesFor(conv, stream[..n])
            else FramesFor(conv, stream[..n]) + [FrameOf(conv, stream[d])]
  {
    if d < n {
      assert FramesFor(conv, stream[..n])[d].id == stream[d].id;
    } else {
      assert stream[..n + 1] == stream[..n] + [stream[n]];
    }
  }

  lemma OneMoreFrame(front: seq<Written>, convs: seq<Id>, conv: Id, stream: seq<ChatMessage>, last: Written, n: nat)
    returns (n': nat)
    requires PrefixesOf(front + [last], convs, conv, stream) && PrefixesOf(front, convs, conv, stream)
    requires last.sub < |convs| && convs[last.sub] == conv && last.frame == FrameOf(conv, last.message)
    requires UniqueStream(stream)
    requires n <= |stream| && LongestIs(front, convs, conv, n)
    ensures n <= n' <= |stream| && LongestIs(front + [last], convs, conv, n')
    ensures FramesFor(conv, stream[..n']) ==
            if HasId(FramesFor(conv, stream[..n]), last.message.id) then FramesFor(conv, stream[..n])
            else FramesFor(conv, stream[..n]) + [last.frame]
  {
    var i := last.sub;
    var d := |Delivered(front, i)|;
    n' := if d < n then n else n + 1;
    DeliveredSnoc(front, last, i);
    assert Delivered(front + [last], i) <= stream;
    assert stream[d] == Delivered(front + [last], i)[d] == last.message;
    LongestGrows(front, convs, conv, last, n);
    NextOfStream(conv, stream, n, d);
  }

  lemma MergeStep(front: seq<Written>, last: Written, convs: seq<Id>, conv: Id, stream: seq<ChatMessage>, n: nat)
    returns (n': nat)
    requires PrefixesOf(front + [last], convs, conv, stream) && PrefixesOf(front, convs, conv, stream)
    requires last.sub < |convs| && last.frame == FrameOf(convs[last.sub], last.message) && UniqueStream(stream)
    requires LongestIs(front, convs, conv, n) && Shows(front, conv, stream, n)
    ensures LongestIs(front + [last], convs, conv, n') && Shows(front + [last], conv, stream, n')
  {
    ReplayOneMore(front + [last]);
    assert (front + [last])[..|front|] == front;
    if convs[last.sub] == conv {
      n' := OneMoreFrame(front, convs, conv, stream, last, n);
    } else {
      OtherConversationsFrame(front, convs, conv, last, n);
      n' := n;
    }
  }

  /**
    Several subscriptions to one conversation on one socket are harmless: if each delivers a prefix
    of the same stream, the replica's list says what the longest of these prefixes says, in stream
    order.
   */
  lemma {:induction false} DuplicateSubscriptionsMerge(log: seq<Written>, convs: seq<Id>, conv: Id, stream: seq<ChatMessage>)
    returns (n: nat)
    requires PrefixesOf(log, convs, conv, stream) && WellFramed(log, convs) && UniqueStream(stream)
    ensures LongestIs(log, convs, conv, n) && Shows(log, conv, stream, n)
    decreases |log|
  {
    if log == [] {
      n := 0;
    } else {
      var front, last := log[..|log| - 1], log[|log| - 1];
      FrontOfLog(log, convs, conv, stream);
      assert front + [last] == log;
      n := DuplicateSubscriptionsMerge(front, convs, conv, stream);
      n := MergeStep(front, last, convs, conv, stream, n);
    }
  }

  /**
    The same on a session of the chat service, in any reachable state: whatever the interleaving and
    however often the listing returned the conversation, the browser shows a prefix of its stream.
   */
  lemma BrowserShowsAPrefix(convs: seq<Id>, actions: seq<Action>, conv: Id, stream: seq<ChatMessage>) returns (n: nat)
    requires IsRun(Open(convs), actions) && UniqueStream(stream)
    requires var t := Run(Open(convs), actions);
             |t.subs| == |convs| &&
             forall i :: 0 <= i < |convs| && convs[i] == conv ==> Decoded(t.subs[i].history) <= stream
    ensures var t := Run(Open(convs), actions);
            && LongestIs(t.log, convs, conv, n) && Shows(t.log, conv, stream, n)
            && TellsAll(ListOf(Replay(map[], FramesOn(t.log)), conv), conv, stream[..n])
  {
    var t := Run(Open(convs), actions);
    SocketMergesSubscriptions(convs, actions);
    forall i | 0 <= i < |convs| && convs[i] == conv
      ensures Delivered(t.log, i) <= stream
    {
      assert Delivered(t.log, i) <= Decoded(t.subs[i].history);
    }
    n := DuplicateSubscriptionsMerge(t.log, convs, conv, stream);
    FramesTell(conv, stream[..n]);
  }
}

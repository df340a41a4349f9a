/**
  The sequential parts of a WebSocket session of the chat service: the loop that subscribes to the
  caller's conversations, and the read pump that turns the browser's frames into sends.
 */
module WsHandler {
  import opened Entities
  import opened Sequences
  import opened Membership
  import opened Messaging
  import opened MessagingServices
  import opened SendConditions
  import P = Pipeline
  import O = PipelineOrder

  /** Who the token says is calling. */
  datatype Claims = Claims(workspaceId: Id, personId: Id, senderName: string)

  /** A frame of the browser as far as it can be parsed. */
  datatype Inbound = Unusable | SendRequested(conversationId: Option<Id>, content: string)

  /** One frame, and how the databases behave while it is handled. */
  datatype Read = Read(inbound: Inbound, memberOk: bool, save: Outcome, now: Time)

  /** The conversations whose subscription succeeded, in the order of the list. */
  function Kept(convs: seq<Id>, subscribes: seq<bool>): seq<Id>
    requires |convs| == |subscribes|
  {
    if convs == [] then []
    else
      var front := Kept(convs[..|convs| - 1], subscribes[..|convs| - 1]);
      if subscribes[|convs| - 1] then front + [convs[|convs| - 1]] else front
  }

  /** A failed subscription is skipped and leaves no goroutine behind that the session would wait for. */
  method SubscribeAll(convs: seq<Id>, subscribes: seq<bool>) returns (session: P.Session, cleanups: seq<Id>)
    requires |convs| == |subscribes|
    ensures session == P.Open(Kept(convs, subscribes))
    ensures cleanups == Kept(convs, subscribes) && session.waitGroup == |cleanups|
    ensures P.Inv(session)
  {
    var subs, waitGroup := [], 0;
    cleanups := [];
    for k := 0 to |convs|
      invariant cleanups == Kept(convs[..k], subscribes[..k])
      invariant |subs| == |cleanups| == waitGroup
      invariant forall i :: 0 <= i < |subs| ==> subs[i] == P.NewSub(cleanups[i])
    {
      assert convs[..k + 1][..k] == convs[..k] && subscribes[..k + 1][..k] == subscribes[..k];
      if subscribes[k] {
        cleanups := cleanups + [convs[k]];
        waitGroup := waitGroup + 1;
        subs := subs + [P.NewSub(convs[k])];
      }
    }
    assert convs[..|convs|] == convs && subscribes[..|convs|] == subscribes;
    session := P.Session(subs, None, [], false, false, waitGroup, 0, P.Reading, 0);
    O.OpenEstablishesInv(Kept(convs, subscribes));
    assert session.subs == P.Open(cleanups).subs;
  }

  /** How many subscriptions succeed. */
  function Successes(subscribes: seq<bool>): nat {
    if subscribes == [] then 0
    else Successes(subscribes[..|subscribes| - 1]) + if subscribes[|subscribes| - 1] then 1 else 0
  }

  lemma {:induction false} KeptIsSubsequence(convs: seq<Id>, subscribes: seq<bool>)
    requires |convs| == |subscribes|
    ensures |Kept(convs, subscribes)| == Successes(subscribes) && IsSubsequence(Kept(convs, subscribes), convs)
    ensures (forall k :: 0 <= k < |convs| ==> subscribes[k]) ==> Kept(convs, subscribes) == convs
  {
    if convs != [] {
      var front, last, before := convs[..|convs| - 1], convs[|convs| - 1], subscribes[..|convs| - 1];
      KeptIsSubsequence(front, before);
      assert front + [last] == convs;
      SubsequenceTakes(Kept(front, before), front, last);
      SubsequenceSkips(Kept(front, before), front, last);
    }
  }

  lemma {:induction false} KeptAt(convs: seq<Id>, subscribes: seq<bool>, k: nat)
    requires |convs| == |subscribes| && k < |convs| && subscribes[k]
    ensures Successes(subscribes[..k]) < |Kept(convs, subscribes)|
    ensures Kept(convs, subscribes)[Successes(subscribes[..k])] == convs[k]
  {
    var front, before := convs[..|convs| - 1], subscribes[..|convs| - 1];
    KeptIsSubsequence(front, before);
    if k < |front| {
      KeptAt(front, before, k);
      assert before[..k] == subscribes[..k];
    }
  }

  /** A conversation is kept exactly if its subscription succeeds, at the place that the earlier successes leave it. */
  lemma KeptInOrder(convs: seq<Id>, subscribes: seq<bool>)
    requires |convs| == |subscribes|
    ensures |Kept(convs, subscribes)| == Successes(subscribes)
    ensures forall k :: 0 <= k < |convs| && subscribes[k] ==>
              Successes(subscribes[..k]) < Successes(subscribes)
              && Kept(convs, subscribes)[Successes(subscribes[..k])] == convs[k]
    ensures IsSubsequence(Kept(convs, subscribes), convs)
    ensures (forall k :: 0 <= k < |convs| ==> subscribes[k]) ==> Kept(convs, subscribes) == convs
  {
    KeptIsSubsequence(convs, subscribes);
    forall k | 0 <= k < |convs| && subscribes[k]
      ensures Successes(subscribes[..k]) < Successes(subscribes)
      ensures Kept(convs, subscribes)[Successes(subscribes[..k])] == convs[k]
    {
      KeptAt(convs, subscribes, k);
    }
  }

  /** The request a frame stands for: workspace and person come from the token, never from the frame. */
  function RequestOf(c: Claims, read: Read): Option<SendRequest> {
    if read.inbound.SendRequested? && read.inbound.conversationId.Some? then
      Some(SendRequest(c.workspaceId, read.inbound.conversationId.value, c.personId, c.senderName, read.inbound.content))
    else None
  }

  predicate IsSaved(s: System, c: Claims, read: Read) {
    var q := RequestOf(c, read);
    q.Some? && Inserts(s, q.value, read.memberOk, read.save)
  }

  /** What one frame leaves in the database. */
  function RowsOf(s: System, c: Claims, read: Read, id: Id): seq<ChatMessage> {
    if IsSaved(s, c, read) then [RowFor(RequestOf(c, read).value, id, read.now)] else []
  }

  /** The messages a session's frames leave in the database, oldest first. */
  function SavedBy(s: System, c: Claims, inputs: seq<Read>): seq<ChatMessage> {
    if inputs == [] then []
    else
      var front := SavedBy(s, c, inputs[..|inputs| - 1]);
      front + RowsOf(s, c, inputs[|inputs| - 1], s.nextId + |front|)
  }

  /** One more frame: answers do not depend on what the session itself has stored. */
  lemma OneMoreFrame(s: System, t: System, c: Claims, inputs: seq<Read>, k: nat)
    requires k < |inputs| && t.members == s.members && t.workspaces == s.workspaces && t.conversations == s.conversations
    requires t.nextId == s.nextId + |SavedBy(s, c, inputs[..k])|
    ensures SavedBy(s, c, inputs[..k + 1]) == SavedBy(s, c, inputs[..k]) + RowsOf(t, c, inputs[k], t.nextId)
  {
    assert inputs[..k + 1][..k] == inputs[..k];
  }

  /** A usable frame by somebody with access, whose insert takes effect. */
  predicate StoresRow(s: System, c: Claims, read: Read) {
    && read.inbound.SendRequested? && read.inbound.conversationId.Some? && read.memberOk
    && RowOf(s.members, c.workspaceId, c.personId).Some? && RowOf(s.members, c.workspaceId, c.personId).value.hasAccess
    && c.workspaceId != NIL && c.personId != NIL && read.inbound.conversationId.value != NIL && read.inbound.content != ""
    && !read.save.Fails? && c.workspaceId in s.workspaces && read.inbound.conversationId.value in s.conversations
  }

  /** The row says what the frame says, in the name of the token. */
  predicate IsRowOf(m: ChatMessage, c: Claims, read: Read) {
    && read.inbound.SendRequested? && Some(m.conversationId) == read.inbound.conversationId
    && m.content == read.inbound.content && m.createdAt == read.now
    && m.workspaceId == c.workspaceId && m.personId == c.personId && m.senderName == c.senderName
  }

  lemma LastRow(s: System, c: Claims, read: Read, id: Id)
    ensures if StoresRow(s, c, read) then |RowsOf(s, c, read, id)| == 1 && IsRowOf(RowsOf(s, c, read, id)[0], c, read)
            else RowsOf(s, c, read, id) == []
  {
  }

  /** One row for each frame that stores one, in the order of the frames. */
  predicate AreRowsOf(s: System, c: Claims, inputs: seq<Read>, ms: seq<ChatMessage>)
    decreases |inputs|
  {
    if inputs == [] then ms == []
    else
      var front, last := inputs[..|inputs| - 1], inputs[|inputs| - 1];
      if StoresRow(s, c, last) then
        ms != [] && IsRowOf(ms[|ms| - 1], c, last) && AreRowsOf(s, c, front, ms[..|ms| - 1])
      else AreRowsOf(s, c, front, ms)
  }

  lemma {:induction false} SavedByFrames(s: System, c: Claims, inputs: seq<Read>)
    ensures AreRowsOf(s, c, inputs, SavedBy(s, c, inputs))
  {
    if inputs != [] {
      var front, last := inputs[..|inputs| - 1], inputs[|inputs| - 1];
      var before := SavedBy(s, c, front);
      SavedByFrames(s, c, front);
      LastRow(s, c, last, s.nextId + |before|);
      if StoresRow(s, c, last) {
        assert SavedBy(s, c, inputs)[..|before|] == before;
      } else {
        assert before + [] == before;
      }
    }
  }

  /** Frames that are no send are ignored, and errors are only logged. */
  method HandleFrame(service: MessagingService, c: Claims, read: Read)
    modifies service
    ensures service.stored == old(service.stored) + RowsOf(old(service.State()), c, read, old(service.nextId))
    ensures service.nextId == old(service.nextId) + |RowsOf(old(service.State()), c, read, old(service.nextId))|
    ensures service.members == old(service.members) && service.workspaces == old(service.workspaces)
    ensures service.conversations == old(service.conversations) && service.published == old(service.published)
  {
    match RequestOf(c, read) {
      case Some(q) => var _ := service.SendMessage(q, read.memberOk, read.save, read.now);
      case None =>
    }
  }

  /** One frame after the other. */
  method HandleFrames(service: MessagingService, c: Claims, inputs: seq<Read>)
    modifies service
    ensures service.stored == old(service.stored) + SavedBy(old(service.State()), c, inputs)
    ensures service.members == old(service.members) && service.published == old(service.published)
  {
    ghost var start := service.State();
    for k := 0 to |inputs|
      invariant service.stored == start.stored + SavedBy(start, c, inputs[..k])
      invariant service.nextId == start.nextId + |SavedBy(start, c, inputs[..k])|
      invariant service.members == start.members && service.workspaces == start.workspaces
      invariant service.conversations == start.conversations && service.published == start.published
    {
      OneMoreFrame(start, service.State(), c, inputs, k);
      HandleFrame(service, c, inputs[k]);
    }
    assert inputs[..|inputs|] == inputs;
  }

  /** The read pump handles frames until reading fails, which cancels the session's streams. */
  method ReadPump(service: MessagingService, c: Claims, inputs: seq<Read>, session: P.Session) returns (ended: P.Session)
    requires session.request.Reading?
    modifies service
    ensures service.stored == old(service.stored) + SavedBy(old(service.State()), c, inputs)
    ensures service.members == old(service.members) && service.published == old(service.published)
    ensures AreRowsOf(old(service.State()), c, inputs, service.stored[|old(service.stored)|..])
    ensures ended == P.Apply(session, P.ReadFails)
  {
    SavedByFrames(service.State(), c, inputs);
    HandleFrames(service, c, inputs);
    assert service.stored[|old(service.stored)|..] == SavedBy(old(service.State()), c, inputs);
    ended := session.(cancelled := true, request := P.AwaitingWriters);
  }

  // ---------------------------------------------------------------- the pump among everything else

  /** The call has returned: what may be left of it is its detached publish. */
  predicate HasReturned(s: System, k: nat) {
    k < |s.sends| && (s.sends[k].Publishing? || s.sends[k].Finished?)
  }

  /** A frame of the session begins a send, in the name of its token. */
  ghost predicate FrameBegins(tr: Trace, c: Claims, b: nat)
    requires IsTrace(tr)
  {
    && b < |tr.events| && tr.events[b].SendBegins?
    && tr.events[b].send.workspaceId == c.workspaceId && tr.events[b].send.personId == c.personId
    && tr.events[b].send.senderName == c.senderName
  }

  /** The call that event `b` begins. */
  function CallOf(tr: Trace, b: nat): nat
    requires |tr.states| == |tr.events| + 1 && b < |tr.events|
  {
    |tr.states[b].sends|
  }

  /**
    The pump of one session in a run of the whole system: its frames begin sends one after the other,
    each when the one before has returned.  Between any two of their steps anything else may happen.
   */
  ghost predicate IsPump(tr: Trace, c: Claims, begins: seq<nat>)
    requires IsTrace(tr)
  {
    && (forall i :: 0 <= i < |begins| ==> FrameBegins(tr, c, begins[i]))
    && (forall i, j :: 0 <= i < j < |begins| ==>
          begins[i] < begins[j] && HasReturned(tr.states[begins[j]], CallOf(tr, begins[i])))
  }

  /** The call stored the message, as event `n`. */
  ghost predicate CallStores(tr: Trace, k: nat, n: nat, m: ChatMessage)
    requires IsTrace(tr)
  {
    SavedAt(tr, n, m) && tr.events[n].k == k
  }

  lemma {:induction false} ReturnedStays(tr: Trace, i: nat, n: nat, k: nat)
    requires IsTrace(tr) && i <= n <= |tr.events| && HasReturned(tr.states[i], k)
    ensures HasReturned(tr.states[n], k)
    decreases n
  {
    if i < n {
      ReturnedStays(tr, i, n - 1, k);
      TracePrevious(tr, n);
    }
  }

  /** A call that has returned stores nothing any more. */
  lemma StoresBeforeReturn(tr: Trace, i: nat, n: nat, k: nat, m: ChatMessage)
    requires IsTrace(tr) && i <= |tr.events| && HasReturned(tr.states[i], k) && CallStores(tr, k, n, m)
    ensures n < i
  {
    if i <= n {
      ReturnedStays(tr, i, n, k);
    }
  }

  lemma StoringReturns(tr: Trace, n: nat, k: nat, m: ChatMessage)
    requires IsTrace(tr) && CallStores(tr, k, n, m)
    ensures HasReturned(tr.states[n + 1], k)
  {
    TraceStep(tr, n);
  }

  lemma CallStoresOnce(tr: Trace, k: nat, n: nat, m: ChatMessage, n': nat, m': ChatMessage)
    requires IsTrace(tr) && CallStores(tr, k, n, m) && CallStores(tr, k, n', m')
    ensures n == n' && m == m'
  {
    StoringReturns(tr, n, k, m);
    StoringReturns(tr, n', k, m');
    StoresBeforeReturn(tr, n + 1, n', k, m');
    StoresBeforeReturn(tr, n' + 1, n, k, m);
  }

  /** A call has one beginning. */
  lemma BeginsOnce(tr: Trace, b: nat, b': nat)
    requires IsTrace(tr) && b < |tr.events| && b' < |tr.events| && tr.events[b].SendBegins? && tr.events[b'].SendBegins?
    requires CallOf(tr, b) == CallOf(tr, b')
    ensures b == b'
  {
    TraceStep(tr, b);
    TraceStep(tr, b');
    if b < b' {
      OnlyGrows(tr, b + 1, b');
    } else if b' < b {
      OnlyGrows(tr, b' + 1, b);
    }
  }

  lemma StoresAfterBeginning(tr: Trace, b: nat, n: nat, m: ChatMessage)
    requires IsTrace(tr) && b < |tr.events| && CallStores(tr, CallOf(tr, b), n, m)
    ensures b < n
  {
    if n <= b {
      OnlyGrows(tr, n, b);
    }
  }

  lemma SavedEarlierIsOlder(tr: Trace, n: nat, m: ChatMessage, n': nat, m': ChatMessage)
    requires IsTrace(tr) && SavedAt(tr, n, m) && SavedAt(tr, n', m') && n < n'
    ensures Older(Last(tr).stored, m, m')
  {
    TraceStep(tr, n);
    TraceStep(tr, n');
    OnlyGrows(tr, n + 1, n');
    OnlyGrows(tr, n' + 1, |tr.events|);
    var i, j, stored := |tr.states[n].stored|, |tr.states[n'].stored|, Last(tr).stored;
    assert tr.states[n + 1].stored == tr.states[n].stored + [m] && tr.states[n' + 1].stored == tr.states[n'].stored + [m'];
    assert stored[i] == tr.states[n' + 1].stored[i] == tr.states[n'].stored[i] == m && stored[j] == m';
  }

  /**
    Whatever other sessions and the membership do meanwhile, a session only speaks for its token: a
    frame stores at most one message, which says what the frame said, in the token's workspace and by
    the token's person, who had access at a check in between.
   */
  lemma SessionsSpeakForTheirToken(tr: Trace, c: Claims, begins: seq<nat>, i: nat, n: nat, m: ChatMessage) returns (checked: nat)
    requires IsTrace(tr) && Initial(tr.states[0]) && IsPump(tr, c, begins)
    requires i < |begins| && CallStores(tr, CallOf(tr, begins[i]), n, m)
    ensures var send := tr.events[begins[i]].send;
            && m.content == send.content && m.conversationId == send.conversationId
            && m.workspaceId == c.workspaceId && m.personId == c.personId && m.senderName == c.senderName
            && m.createdAt == tr.events[n].now
    ensures begins[i] < checked < n && HasAccess(tr.states[checked].members, c.workspaceId, c.personId)
    ensures forall n', m' :: CallStores(tr, CallOf(tr, begins[i]), n', m') ==> n' == n && m' == m
  {
    assert FrameBegins(tr, c, begins[i]);
    var b;
    b, checked := AdmittedSince(tr, n, CallOf(tr, begins[i]));
    BeginsOnce(tr, b, begins[i]);
    forall n', m' | CallStores(tr, CallOf(tr, begins[i]), n', m')
      ensures n' == n && m' == m
    {
      CallStoresOnce(tr, CallOf(tr, begins[i]), n, m, n', m');
    }
  }

  /** And its messages are stored in the order of its frames. */
  lemma FramesStoreInOrder(tr: Trace, c: Claims, begins: seq<nat>, i: nat, j: nat, n: nat, m: ChatMessage, n': nat, m': ChatMessage)
    requires IsTrace(tr) && Initial(tr.states[0]) && IsPump(tr, c, begins) && i < j < |begins|
    requires CallStores(tr, CallOf(tr, begins[i]), n, m) && CallStores(tr, CallOf(tr, begins[j]), n', m')
    ensures Older(Last(tr).stored, m, m')
  {
    assert FrameBegins(tr, c, begins[i]) && FrameBegins(tr, c, begins[j]);
    StoresBeforeReturn(tr, begins[j], n, CallOf(tr, begins[i]), m);
    StoresAfterBeginning(tr, begins[j], n', m');
    SavedEarlierIsOlder(tr, n, m, n', m');
  }
}

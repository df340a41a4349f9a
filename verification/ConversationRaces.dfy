/**
  Concurrent get-or-create calls on the conversation directory.  Every repository call is one atomic
  step of one service call, may fail with or without having taken effect, and may be separated from
  the next by steps of other calls.
 */
module ConversationRaces {
  import opened Entities
  import opened Sequences
  import opened Conversations

  datatype Request =
    | GroupFor(workspaceId: Id)
    | DmFor(workspaceId: Id, a: Id, b: Id)

  /** Where a call stands; `Missed` means that it decided to create. */
  datatype Stage =
    | Starting
    | Missed
    | RowMade(conv: Conversation)
    | FirstJoined(conv: Conversation)
    | Done(result: Result<Conversation>)

  /** `missed`, `made` and `joins` remember that the lookup found nothing, the row the call inserted, and how many people joined it. */
  datatype Call = Call(request: Request, stage: Stage, missed: bool, made: Option<Id>, joins: nat)

  datatype Directory = Directory(tables: Tables, calls: seq<Call>)

  datatype Answer = Row(conv: Conversation) | NoRows | DbFails

  datatype Event =
    | Arrives(request: Request)
    | LooksUp(k: nat, answer: Answer)
    | Creates(k: nat, outcome: Outcome, now: Time)
    | AddsFirst(k: nat, outcome: Outcome)
    | AddsSecond(k: nat, outcome: Outcome)

  predicate Matches(t: Tables, q: Request, c: Conversation) {
    match q
    case GroupFor(w) => c in t.conversations && IsGroupOf(c, w)
    case DmFor(w, a, b) => IsDmOf(t, c, w, a, b)
  }

  predicate HasMatch(t: Tables, q: Request) {
    exists c :: c in t.conversations && Matches(t, q, c)
  }

  function KindOf(q: Request): Kind {
    if q.GroupFor? then Group else Dm
  }

  predicate Enabled(s: Directory, e: Event) {
    match e
    case Arrives(_) => true
    case LooksUp(k, answer) =>
      k < |s.calls| && s.calls[k].stage.Starting? &&
      (match answer
       case Row(c) => Matches(s.tables, s.calls[k].request, c)
       case NoRows => !HasMatch(s.tables, s.calls[k].request)
       case DbFails => true)
    case Creates(k, _, _) => k < |s.calls| && s.calls[k].stage.Missed?
    case AddsFirst(k, _) => k < |s.calls| && s.calls[k].stage.RowMade? && s.calls[k].request.DmFor?
    case AddsSecond(k, _) => k < |s.calls| && s.calls[k].stage.FirstJoined? && s.calls[k].request.DmFor?
  }

  /** Only the group lookup tells "no rows" from other errors; the DM lookup treats both as not found. */
  function AfterLookup(call: Call, answer: Answer): Call {
    match answer
    case Row(c) => call.(stage := Done(Ok(c)))
    case NoRows => call.(stage := Missed, missed := true)
    case DbFails =>
      if call.request.GroupFor? then call.(stage := Done(Err(Unavailable)))
      else call.(stage := Missed, missed := true)
  }

  function Refuse(call: Call, e: Error): Call {
    call.(stage := Done(Err(e)))
  }

  function AfterCreate(s: Directory, k: nat, outcome: Outcome, now: Time): Directory
    requires k < |s.calls| && s.calls[k].stage.Missed?
  {
    var call := s.calls[k];
    var q := call.request;
    var problem := CreateError(s.tables, q.workspaceId, KindOf(q));
    if q.workspaceId == NIL then s.(calls := s.calls[k := Refuse(call, Required("workspaceID"))])
    else if outcome.Fails? then s.(calls := s.calls[k := Refuse(call, Unavailable)])
    else if problem.Some? then s.(calls := s.calls[k := Refuse(call, problem.value)])
    else
      var c := Conversation(s.tables.nextId, q.workspaceId, KindOf(q), now);
      var stage := if outcome.FailsAfterEffect? then Done(Err(Unavailable)) else if q.GroupFor? then Done(Ok(c)) else RowMade(c);
      Directory(Insert(s.tables, q.workspaceId, KindOf(q), now),
                s.calls[k := call.(stage := stage, made := Some(c.id))])
  }

  function AfterJoin(s: Directory, k: nat, conv: Conversation, person: Id, outcome: Outcome, next: Stage): Directory
    requires k < |s.calls|
  {
    var call := s.calls[k];
    if person == NIL then s.(calls := s.calls[k := Refuse(call, Required("personID"))])
    else if outcome.Fails? then s.(calls := s.calls[k := Refuse(call, Unavailable)])
    else
      var stage := if outcome.FailsAfterEffect? then Done(Err(Unavailable)) else next;
      Directory(Join(s.tables, Participant(conv.id, person)), s.calls[k := call.(stage := stage, joins := call.joins + 1)])
  }

  function Apply(s: Directory, e: Event): Directory
    requires Enabled(s, e)
  {
    match e
    case Arrives(q) => s.(calls := s.calls + [Call(q, Starting, false, None, 0)])
    case LooksUp(k, answer) => s.(calls := s.calls[k := AfterLookup(s.calls[k], answer)])
    case Creates(k, outcome, now) => AfterCreate(s, k, outcome, now)
    case AddsFirst(k, outcome) =>
      var c := s.calls[k].stage.conv;
      AfterJoin(s, k, c, s.calls[k].request.a, outcome, FirstJoined(c))
    case AddsSecond(k, outcome) =>
      var c := s.calls[k].stage.conv;
      AfterJoin(s, k, c, s.calls[k].request.b, outcome, Done(Ok(c)))
  }

  /** The service before its first call, on any tables that satisfy their constraints. */
  function Idle(t: Tables): Directory {
    Directory(t, [])
  }

  predicate IsRun(s: Directory, events: seq<Event>)
    decreases |events|
  {
    events == [] || (Enabled(s, events[0]) && IsRun(Apply(s, events[0]), events[1..]))
  }

  function Run(s: Directory, events: seq<Event>): Directory
    requires IsRun(s, events)
    decreases |events|
  {
    if events == [] then s else Run(Apply(s, events[0]), events[1..])
  }

  // ---------------------------------------------------------------- invariant

  /** Rows are never deleted or changed. */
  ghost predicate Grows(t: Tables, t': Tables) {
    && (forall c :: c in t.conversations ==> c in t'.conversations)
    && (forall p :: p in t.participants ==> p in t'.participants)
  }

  ghost predicate IsMade(t: Tables, call: Call)
    requires call.made.Some?
  {
    exists c :: c in t.conversations && c.id == call.made.value && c.kind == KindOf(call.request)
                && c.workspaceId == call.request.workspaceId
  }

  /** A call that holds a row, or answered with one, holds a row that matches its request. */
  ghost predicate AnswerOk(t: Tables, call: Call) {
    && (call.stage.Done? && call.stage.result.Ok? ==> Matches(t, call.request, call.stage.result.value))
    && (call.stage.RowMade? || call.stage.FirstJoined? ==>
          && call.request.DmFor? && call.made == Some(call.stage.conv.id)
          && call.stage.conv in t.conversations
          && call.stage.conv.kind == Dm && call.stage.conv.workspaceId == call.request.workspaceId)
    && (call.made.Some? ==> IsMade(t, call))
  }

  /** The people who joined are in the table, the first before the second. */
  ghost predicate JoinsOk(t: Tables, call: Call) {
    && call.joins <= 2
    && (call.made.None? || call.stage.RowMade? ==> call.joins == 0)
    && (call.stage.FirstJoined? ==> call.joins == 1)
    && (call.stage.Done? && call.stage.result.Ok? && call.made.Some? && call.request.DmFor? ==> call.joins == 2)
    && (call.joins >= 1 ==> call.request.DmFor? && call.request.a != NIL && Participant(call.made.value, call.request.a) in t.participants)
    && (call.joins == 2 ==> call.request.b != NIL && Participant(call.made.value, call.request.b) in t.participants)
  }

  /** Only a call that missed makes a row, only once, and not one of the rows that were there before. */
  ghost predicate MakerOk(t0: Tables, t: Tables, call: Call) {
    && (call.made.Some? ==> call.missed && t0.nextId <= call.made.value < t.nextId)
    && (call.stage.Starting? || call.stage.Missed? ==> call.made.None?)
    && (call.stage.Missed? ==> call.missed)
  }

  /** No row has two makers. */
  ghost predicate MadeOnce(calls: seq<Call>) {
    forall k, l :: 0 <= k < l < |calls| && calls[k].made.Some? ==> calls[k].made != calls[l].made
  }

  ghost predicate MakersOk(t0: Tables, s: Directory) {
    (forall k :: 0 <= k < |s.calls| ==> MakerOk(t0, s.tables, s.calls[k])) && MadeOnce(s.calls)
  }

  ghost predicate BroughtBy(call: Call, p: Participant) {
    && call.made == Some(p.conversationId) && call.request.DmFor?
    && ((p.personId == call.request.a && call.joins >= 1) || (p.personId == call.request.b && call.joins == 2))
  }

  /** A new participant row was put there by the call that made the conversation, for one of its two people. */
  ghost predicate Brought(calls: seq<Call>, p: Participant) {
    exists k :: 0 <= k < |calls| && BroughtBy(calls[k], p)
  }

  /** Rows are either from before the first call or made by some call. */
  ghost predicate RowsOk(t0: Tables, s: Directory) {
    && (forall c :: c in s.tables.conversations && c.id < t0.nextId ==> c in t0.conversations)
    && (forall p :: p in s.tables.participants ==> p in t0.participants || Brought(s.calls, p))
  }

  ghost predicate AnswersOk(s: Directory) {
    forall k :: 0 <= k < |s.calls| ==> AnswerOk(s.tables, s.calls[k]) && JoinsOk(s.tables, s.calls[k])
  }

  ghost predicate Inv(t0: Tables, s: Directory) {
    && Constraints(t0) && Constraints(s.tables)
    && t0.nextId <= s.tables.nextId && Grows(t0, s.tables)
    && AnswersOk(s)
    && MakersOk(t0, s)
    && RowsOk(t0, s)
  }

  // ---------------------------------------------------------------- preservation

  lemma StepGrows(s: Directory, e: Event)
    requires Enabled(s, e)
    ensures Grows(s.tables, Apply(s, e).tables) && s.tables.nextId <= Apply(s, e).tables.nextId
    ensures |s.calls| <= |Apply(s, e).calls|
    ensures forall k :: 0 <= k < |s.calls| ==> Apply(s, e).calls[k].request == s.calls[k].request
  {
  }

  lemma GrowthKeepsAnswer(t: Tables, t': Tables, call: Call)
    requires Grows(t, t') && AnswerOk(t, call)
    ensures AnswerOk(t', call)
  {
    if call.made.Some? {
      var c :| c in t.conversations && c.id == call.made.value && c.kind == KindOf(call.request)
               && c.workspaceId == call.request.workspaceId;
      assert c in t'.conversations;
    }
  }

  lemma CreationKeepsConstraints(s: Directory, k: nat, outcome: Outcome, now: Time)
    requires Constraints(s.tables) && k < |s.calls| && s.calls[k].stage.Missed?
    ensures Constraints(AfterCreate(s, k, outcome, now).tables)
  {
    var q := s.calls[k].request;
    if CreateError(s.tables, q.workspaceId, KindOf(q)).None? {
      InsertKeepsConstraints(s.tables, q.workspaceId, KindOf(q), now);
    }
  }

  lemma HeldRowIsOld(s: Directory, k: nat)
    requires Constraints(s.tables) && AnswersOk(s) && k < |s.calls| && (s.calls[k].stage.RowMade? || s.calls[k].stage.FirstJoined?)
    ensures s.calls[k].stage.conv.id < s.tables.nextId
  {
    assert AnswerOk(s.tables, s.calls[k]);
  }

  lemma JoiningKeepsConstraints(s: Directory, k: nat, conv: Conversation, person: Id, outcome: Outcome, next: Stage)
    requires Constraints(s.tables) && k < |s.calls| && conv.id < s.tables.nextId
    ensures Constraints(AfterJoin(s, k, conv, person, outcome, next).tables)
  {
    JoinKeepsConstraints(s.tables, Participant(conv.id, person));
  }

  lemma StepKeepsConstraints(s: Directory, e: Event)
    requires Constraints(s.tables) && AnswersOk(s) && Enabled(s, e)
    ensures Constraints(Apply(s, e).tables)
  {
    match e
    case Creates(k, outcome, now) => CreationKeepsConstraints(s, k, outcome, now);
    case AddsFirst(k, outcome) =>
      var c := s.calls[k].stage.conv;
      HeldRowIsOld(s, k);
      JoiningKeepsConstraints(s, k, c, s.calls[k].request.a, outcome, FirstJoined(c));
    case AddsSecond(k, outcome) =>
      var c := s.calls[k].stage.conv;
      HeldRowIsOld(s, k);
      JoiningKeepsConstraints(s, k, c, s.calls[k].request.b, outcome, Done(Ok(c)));
    case _ =>
  }

  lemma CreationKeepsAnswer(s: Directory, k: nat, outcome: Outcome, now: Time)
    requires AnswersOk(s) && Enabled(s, Creates(k, outcome, now))
    ensures var t := AfterCreate(s, k, outcome, now); AnswerOk(t.tables, t.calls[k])
  {
    var t := AfterCreate(s, k, outcome, now);
    assert AnswerOk(s.tables, s.calls[k]) && JoinsOk(s.tables, s.calls[k]);
    GrowthKeepsAnswer(s.tables, t.tables, s.calls[k]);
    if t.calls[k].made != s.calls[k].made {
      assert t.tables.conversations[|s.tables.conversations|].id == t.calls[k].made.value;
    }
  }

  function ActorOf(e: Event): Option<nat> {
    match e
    case Arrives(_) => None
    case LooksUp(k, _) => Some(k)
    case Creates(k, _, _) => Some(k)
    case AddsFirst(k, _) => Some(k)
    case AddsSecond(k, _) => Some(k)
  }

  lemma ActorKeepsAnswer(s: Directory, e: Event, k: nat)
    requires AnswersOk(s) && Enabled(s, e) && ActorOf(e) == Some(k)
    ensures AnswerOk(Apply(s, e).tables, Apply(s, e).calls[k])
  {
    assert AnswerOk(s.tables, s.calls[k]) && JoinsOk(s.tables, s.calls[k]);
    StepGrows(s, e);
    GrowthKeepsAnswer(s.tables, Apply(s, e).tables, s.calls[k]);
    if e.Creates? {
      CreationKeepsAnswer(s, k, e.outcome, e.now);
    }
  }

  lemma ActorKeepsJoins(s: Directory, e: Event, k: nat)
    requires AnswersOk(s) && Enabled(s, e) && ActorOf(e) == Some(k)
    requires s.calls[k].stage.Starting? || s.calls[k].stage.Missed? ==> s.calls[k].made.None?
    ensures JoinsOk(Apply(s, e).tables, Apply(s, e).calls[k])
  {
    assert AnswerOk(s.tables, s.calls[k]) && JoinsOk(s.tables, s.calls[k]);
    StepGrows(s, e);
  }

  /** A step is one call's: the others stay as they are, and only an insert makes a row. */
  lemma StepShape(s: Directory, e: Event)
    requires Enabled(s, e)
    ensures var t := Apply(s, e);
            && (forall j :: 0 <= j < |s.calls| && ActorOf(e) != Some(j) ==> t.calls[j] == s.calls[j])
            && (if e.Arrives? then t.calls == s.calls + [Call(e.request, Starting, false, None, 0)]
                else |t.calls| == |s.calls|)
            && s.tables.nextId <= t.tables.nextId
  {
  }

  lemma StepKeepsAnswers(t0: Tables, s: Directory, e: Event)
    requires Inv(t0, s) && Enabled(s, e)
    ensures AnswersOk(Apply(s, e))
  {
    var t := Apply(s, e);
    StepGrows(s, e);
    StepShape(s, e);
    forall k | 0 <= k < |t.calls|
      ensures AnswerOk(t.tables, t.calls[k]) && JoinsOk(t.tables, t.calls[k])
    {
      if ActorOf(e) == Some(k) {
        assert MakerOk(t0, s.tables, s.calls[k]);
        ActorKeepsAnswer(s, e, k);
        ActorKeepsJoins(s, e, k);
      } else if k < |s.calls| {
        assert AnswerOk(s.tables, s.calls[k]) && JoinsOk(s.tables, s.calls[k]);
        GrowthKeepsAnswer(s.tables, t.tables, s.calls[k]);
      }
    }
  }

  lemma ActorStaysMakerOk(t0: Tables, s: Directory, e: Event, k: nat)
    requires t0.nextId <= s.tables.nextId && Enabled(s, e) && ActorOf(e) == Some(k) && MakerOk(t0, s.tables, s.calls[k])
    ensures var t := Apply(s, e);
            && MakerOk(t0, t.tables, t.calls[k])
            && (t.calls[k].made == s.calls[k].made ||
                (t.calls[k].made == Some(s.tables.nextId) && s.tables.nextId < t.tables.nextId))
  {
  }

  lemma StepKeepsMakers(t0: Tables, s: Directory, e: Event)
    requires MakersOk(t0, s) && t0.nextId <= s.tables.nextId && Enabled(s, e)
    ensures MakersOk(t0, Apply(s, e))
  {
    var t := Apply(s, e);
    StepShape(s, e);
    match ActorOf(e) {
      case None =>
      case Some(k) => ActorStaysMakerOk(t0, s, e, k);
    }
    forall j | 0 <= j < |t.calls|
      ensures MakerOk(t0, t.tables, t.calls[j])
    {
      if j < |s.calls| {
        assert MakerOk(t0, s.tables, s.calls[j]);
      }
    }
  }

  lemma MadeRowStays(t0: Tables, s: Directory, e: Event, k: nat)
    requires Inv(t0, s) && Enabled(s, e) && k < |s.calls| && s.calls[k].made.Some?
    ensures var t := Apply(s, e);
            && k < |t.calls| && t.calls[k].made == s.calls[k].made && t.calls[k].request == s.calls[k].request
            && s.calls[k].joins <= t.calls[k].joins <= 2
  {
    StepShape(s, e);
    assert MakerOk(t0, s.tables, s.calls[k]) && AnswerOk(s.tables, s.calls[k]) && JoinsOk(s.tables, s.calls[k]);
  }

  lemma BroughtStays(t0: Tables, s: Directory, e: Event, p: Participant)
    requires Inv(t0, s) && Enabled(s, e) && Brought(s.calls, p)
    ensures Brought(Apply(s, e).calls, p)
  {
    var k :| 0 <= k < |s.calls| && BroughtBy(s.calls[k], p);
    MadeRowStays(t0, s, e, k);
    assert BroughtBy(Apply(s, e).calls[k], p);
  }

  lemma JoinIsBrought(t0: Tables, s: Directory, e: Event, p: Participant)
    requires Inv(t0, s) && Enabled(s, e) && p in Apply(s, e).tables.participants && p !in s.tables.participants
    ensures Brought(Apply(s, e).calls, p)
  {
    assert AnswerOk(s.tables, s.calls[e.k]) && JoinsOk(s.tables, s.calls[e.k]);
    assert BroughtBy(Apply(s, e).calls[e.k], p);
  }

  /** Rows from before the first call are never made again. */
  lemma OldRowsStayOld(t0: Tables, s: Directory, e: Event)
    requires RowsOk(t0, s) && t0.nextId <= s.tables.nextId && Enabled(s, e)
    ensures forall c :: c in Apply(s, e).tables.conversations && c.id < t0.nextId ==> c in t0.conversations
  {
  }

  lemma StepKeepsRows(t0: Tables, s: Directory, e: Event)
    requires Inv(t0, s) && Enabled(s, e)
    ensures RowsOk(t0, Apply(s, e))
  {
    var t := Apply(s, e);
    OldRowsStayOld(t0, s, e);
    forall p | p in t.tables.participants
      ensures p in t0.participants || Brought(t.calls, p)
    {
      if p !in s.tables.participants {
        JoinIsBrought(t0, s, e, p);
      } else if p !in t0.participants {
        BroughtStays(t0, s, e, p);
      }
    }
  }

  lemma StepKeepsInv(t0: Tables, s: Directory, e: Event)
    requires Inv(t0, s) && Enabled(s, e)
    ensures Inv(t0, Apply(s, e))
  {
    StepGrows(s, e);
    StepKeepsConstraints(s, e);
    StepKeepsAnswers(t0, s, e);
    StepKeepsMakers(t0, s, e);
    StepKeepsRows(t0, s, e);
  }

  lemma {:induction false} RunKeepsInv(t0: Tables, s: Directory, events: seq<Event>)
    requires Inv(t0, s) && IsRun(s, events)
    ensures Inv(t0, Run(s, events)) && Grows(s.tables, Run(s, events).tables)
    ensures |s.calls| <= |Run(s, events).calls|
    ensures forall k :: 0 <= k < |s.calls| ==> Run(s, events).calls[k].request == s.calls[k].request
    decreases |events|
  {
    if events != [] {
      StepKeepsInv(t0, s, events[0]);
      StepGrows(s, events[0]);
      RunKeepsInv(t0, Apply(s, events[0]), events[1..]);
    }
  }

  lemma ReachableKeepsInv(t0: Tables, events: seq<Event>)
    requires Constraints(t0) && IsRun(Idle(t0), events)
    ensures Inv(t0, Run(Idle(t0), events))
  {
    RunKeepsInv(t0, Idle(t0), events);
  }

  // ---------------------------------------------------------------- results for groups

  predicate Succeeded(call: Call) {
    call.stage.Done? && call.stage.result.Ok?
  }

  predicate GroupSucceeded(call: Call, w: Id) {
    call.request == GroupFor(w) && Succeeded(call)
  }

  /** In every interleaving, from any tables: one group row per workspace, and all successful calls return it. */
  lemma GroupsNeverDuplicate(t0: Tables, events: seq<Event>, w: Id)
    requires Constraints(t0) && IsRun(Idle(t0), events)
    ensures var t := Run(Idle(t0), events);
            && (forall c, d | c in t.tables.conversations && d in t.tables.conversations ::
                  IsGroupOf(c, w) && IsGroupOf(d, w) ==> c == d)
            && (forall j, k | 0 <= j < |t.calls| && 0 <= k < |t.calls| ::
                  GroupSucceeded(t.calls[j], w) && GroupSucceeded(t.calls[k], w) ==>
                    t.calls[j].stage.result == t.calls[k].stage.result)
  {
    var t := Run(Idle(t0), events);
    ReachableKeepsInv(t0, events);
    forall c, d | c in t.tables.conversations && d in t.tables.conversations && IsGroupOf(c, w) && IsGroupOf(d, w)
      ensures c == d
    {
      GroupIsUnique(t.tables, w, c, d);
    }
    forall j | 0 <= j < |t.calls| && GroupSucceeded(t.calls[j], w)
      ensures t.calls[j].stage.result.value in t.tables.conversations && IsGroupOf(t.calls[j].stage.result.value, w)
    {
      assert AnswerOk(t.tables, t.calls[j]);
    }
  }

  /** A call for an existing group: not arrived, not looked up yet, or answered with it. */
  ghost predicate WillFind(s: Directory, k: nat, c: Conversation) {
    k >= |s.calls| || s.calls[k].stage.Starting? || s.calls[k].stage == Done(Ok(c))
  }

  lemma LookupFindsTheGroup(s: Directory, k: nat, answer: Answer, w: Id, c: Conversation)
    requires Constraints(s.tables) && Enabled(s, LooksUp(k, answer)) && answer != DbFails
    requires s.calls[k].request == GroupFor(w) && c in s.tables.conversations && IsGroupOf(c, w)
    ensures answer == Row(c)
  {
    if answer.Row? {
      GroupIsUnique(s.tables, w, c, answer.conv);
    } else {
      assert Matches(s.tables, GroupFor(w), c);
    }
  }

  lemma StepKeepsWillFind(s: Directory, e: Event, w: Id, c: Conversation, k: nat)
    requires Constraints(s.tables) && Enabled(s, e) && c in s.tables.conversations && IsGroupOf(c, w)
    requires k < |s.calls| ==> s.calls[k].request == GroupFor(w)
    requires WillFind(s, k, c) && e != LooksUp(k, DbFails)
    ensures WillFind(Apply(s, e), k, c)
  {
    StepShape(s, e);
    if e.LooksUp? && e.k == k {
      LookupFindsTheGroup(s, k, e.answer, w, c);
    }
  }

  /** Once a group exists, a call that has not looked it up yet returns it, unless its own lookup fails. */
  lemma {:induction false} LaterGroupCallsSucceed(t0: Tables, s: Directory, events: seq<Event>, w: Id, c: Conversation, k: nat)
    requires Inv(t0, s) && IsRun(s, events)
    requires c in s.tables.conversations && IsGroupOf(c, w)
    requires WillFind(s, k, c)
    requires k < |Run(s, events).calls| && Run(s, events).calls[k].request == GroupFor(w)
    requires LooksUp(k, DbFails) !in events
    ensures WillFind(Run(s, events), k, c)
    decreases |events|
  {
    if events != [] {
      RunKeepsInv(t0, s, events);
      StepKeepsInv(t0, s, events[0]);
      StepGrows(s, events[0]);
      StepKeepsWillFind(s, events[0], w, c, k);
      LaterGroupCallsSucceed(t0, Apply(s, events[0]), events[1..], w, c, k);
    }
  }

  /** A group call that starts after another one succeeded succeeds too, with the same conversation. */
  lemma CallsAfterASuccessSucceed(t0: Tables, before: seq<Event>, after: seq<Event>, w: Id, j: nat, k: nat)
    requires Constraints(t0) && IsRun(Idle(t0), before) && IsRun(Run(Idle(t0), before), after)
    requires var s := Run(Idle(t0), before);
             && j < |s.calls| && GroupSucceeded(s.calls[j], w)
             && k >= |s.calls|
    requires var t := Run(Run(Idle(t0), before), after);
             k < |t.calls| && t.calls[k].request == GroupFor(w) && t.calls[k].stage.Done?
    requires LooksUp(k, DbFails) !in after
    ensures var s := Run(Idle(t0), before);
            Run(s, after).calls[k].stage.result == s.calls[j].stage.result
  {
    var s := Run(Idle(t0), before);
    ReachableKeepsInv(t0, before);
    assert AnswerOk(s.tables, s.calls[j]);
    LaterGroupCallsSucceed(t0, s, after, w, s.calls[j].stage.result.value, k);
  }

  // ---------------------------------------------------------------- calls that must succeed

  lemma DoneIsFinal(s: Directory, e: Event, k: nat)
    requires Enabled(s, e) && k < |s.calls| && s.calls[k].stage.Done?
    ensures k < |Apply(s, e).calls| && Apply(s, e).calls[k] == s.calls[k]
  {
    StepShape(s, e);
  }

  lemma {:induction false} DoneForever(s: Directory, events: seq<Event>, k: nat)
    requires IsRun(s, events) && k < |s.calls| && s.calls[k].stage.Done?
    ensures k < |Run(s, events).calls| && Run(s, events).calls[k] == s.calls[k]
    decreases |events|
  {
    if events != [] {
      DoneIsFinal(s, events[0], k);
      DoneForever(Apply(s, events[0]), events[1..], k);
    }
  }

  lemma {:induction false} RowsStay(s: Directory, events: seq<Event>)
    requires IsRun(s, events)
    ensures Grows(s.tables, Run(s, events).tables)
    decreases |events|
  {
    if events != [] {
      StepGrows(s, events[0]);
      RowsStay(Apply(s, events[0]), events[1..]);
    }
  }

  /** The call that creates a workspace's first group answers with it, then and ever after. */
  lemma CreatorAnswersItsGroup(t0: Tables, before: seq<Event>, k: nat, w: Id, now: Time, after: seq<Event>)
    requires Constraints(t0) && IsRun(Idle(t0), before) && Enabled(Run(Idle(t0), before), Creates(k, Succeeds, now))
    requires var s := Run(Idle(t0), before);
             && s.calls[k].request == GroupFor(w) && w != NIL && w in s.tables.workspaces
             && (forall c :: c in s.tables.conversations ==> !(c.kind == Group && c.workspaceId == w))
    requires IsRun(Apply(Run(Idle(t0), before), Creates(k, Succeeds, now)), after)
    ensures var s := Run(Idle(t0), before);
            var t := Run(Apply(s, Creates(k, Succeeds, now)), after);
            var c := Conversation(s.tables.nextId, w, Group, now);
            k < |t.calls| && t.calls[k].stage == Done(Ok(c)) && c in t.tables.conversations
  {
    var s := Run(Idle(t0), before);
    var s1 := Apply(s, Creates(k, Succeeds, now));
    assert !HasGroup(s.tables, w);
    assert s1.tables.conversations[|s.tables.conversations|] == Conversation(s.tables.nextId, w, Group, now);
    DoneForever(s1, after, k);
    RowsStay(s1, after);
  }

  lemma WorkspacesStay(s: Directory, e: Event)
    requires Enabled(s, e)
    ensures Apply(s, e).tables.workspaces == s.tables.workspaces
  {
  }

  lemma {:induction false} RunKeepsRequests(s: Directory, events: seq<Event>)
    requires IsRun(s, events)
    ensures |s.calls| <= |Run(s, events).calls|
    ensures forall k :: 0 <= k < |s.calls| ==> Run(s, events).calls[k].request == s.calls[k].request
    decreases |events|
  {
    if events != [] {
      StepGrows(s, events[0]);
      RunKeepsRequests(Apply(s, events[0]), events[1..]);
    }
  }

  /** The state before the i-th event. */
  function StateAt(s: Directory, events: seq<Event>, i: nat): Directory
    requires IsRun(s, events) && i <= |events|
    decreases i
  {
    if i == 0 then s else StateAt(Apply(s, events[0]), events[1..], i - 1)
  }

  /** What an event makes of a call is what it stays, once that is an answer. */
  lemma {:induction false} EventDecides(s: Directory, events: seq<Event>, i: nat, k: nat)
    requires IsRun(s, events) && i < |events| && ActorOf(events[i]) == Some(k)
    ensures var u := StateAt(s, events, i);
            && Enabled(u, events[i]) && k < |u.calls| && u.tables.workspaces == s.tables.workspaces
            && k < |Run(s, events).calls| && Run(s, events).calls[k].request == u.calls[k].request
            && (Apply(u, events[i]).calls[k].stage.Done? ==> Run(s, events).calls[k] == Apply(u, events[i]).calls[k])
    decreases i
  {
    var t := Apply(s, events[0]);
    if i == 0 {
      StepShape(s, events[0]);
      StepGrows(s, events[0]);
      RunKeepsRequests(t, events[1..]);
      if t.calls[k].stage.Done? {
        DoneForever(t, events[1..], k);
      }
    } else {
      WorkspacesStay(s, events[0]);
      EventDecides(t, events[1..], i - 1, k);
    }
  }

  /** The insert of a conversation fails for one of these reasons, in this order. */
  ghost predicate CreateFailsAs(q: Request, workspaces: set<Id>, outcome: Outcome, call: Call) {
    && (q.workspaceId == NIL ==> call.stage == Done(Err(Required("workspaceID"))))
    && (q.workspaceId != NIL && outcome.Fails? ==> call.stage == Done(Err(Unavailable)))
    && (q.workspaceId != NIL && !outcome.Fails? && q.workspaceId !in workspaces ==> call.stage == Done(Err(ForeignKeyViolation)))
    && (q.workspaceId != NIL && outcome.FailsAfterEffect? && q.workspaceId in workspaces ==>
          call.stage == Done(Err(Unavailable)) || (q.GroupFor? && call.stage == Done(Err(UniqueViolation)) && call.made.None?))
  }

  lemma CreateStepFailsAs(s: Directory, k: nat, outcome: Outcome, now: Time)
    requires Enabled(s, Creates(k, outcome, now)) && s.calls[k].made.None?
    ensures CreateFailsAs(s.calls[k].request, s.tables.workspaces, outcome, AfterCreate(s, k, outcome, now).calls[k])
  {
  }

  /** A missed call has made nothing yet. */
  lemma {:induction false} NothingMadeYet(s: Directory, events: seq<Event>, i: nat, k: nat)
    requires IsRun(s, events) && i <= |events| && k < |StateAt(s, events, i).calls|
    requires forall j :: 0 <= j < |s.calls| && (s.calls[j].stage.Starting? || s.calls[j].stage.Missed?) ==> s.calls[j].made.None?
    ensures var call := StateAt(s, events, i).calls[k]; call.stage.Starting? || call.stage.Missed? ==> call.made.None?
    decreases i
  {
    if i > 0 {
      StepShape(s, events[0]);
      NothingMadeYet(Apply(s, events[0]), events[1..], i - 1, k);
    }
  }

  /** The insert of a participant fails for one of these reasons. */
  ghost predicate JoinFailsAs(person: Id, outcome: Outcome, call: Call) {
    && (person == NIL ==> call.stage == Done(Err(Required("personID"))))
    && (person != NIL && !outcome.Succeeds? ==> call.stage == Done(Err(Unavailable)))
  }

  /**
    Why calls fail, in every interleaving: a failing statement, a nil id or a violated constraint decides
    the answer for good, except that a DM call passes over a failing lookup.
   */
  lemma FailuresDecide(t0: Tables, events: seq<Event>, i: nat, k: nat)
    requires IsRun(Idle(t0), events) && i < |events| && ActorOf(events[i]) == Some(k)
    ensures var t := Run(Idle(t0), events);
            && k < |t.calls|
            && var q := t.calls[k].request;
               match events[i]
               case LooksUp(_, answer) => answer == DbFails && q.GroupFor? ==> t.calls[k].stage == Done(Err(Unavailable))
               case Creates(_, outcome, _) => CreateFailsAs(q, t0.workspaces, outcome, t.calls[k])
               case AddsFirst(_, outcome) => q.DmFor? && JoinFailsAs(q.a, outcome, t.calls[k])
               case AddsSecond(_, outcome) => q.DmFor? && JoinFailsAs(q.b, outcome, t.calls[k])
               case Arrives(_) => true
  {
    EventDecides(Idle(t0), events, i, k);
    var s := StateAt(Idle(t0), events, i);
    if events[i].Creates? {
      NothingMadeYet(Idle(t0), events, i, k);
      CreateStepFailsAs(s, k, events[i].outcome, events[i].now);
    }
  }

  /** An insert of call `k` is reported as failed. */
  predicate InsertFails(e: Event, k: nat) {
    (e.Creates? || e.AddsFirst? || e.AddsSecond?) && e.k == k && !e.outcome.Succeeds?
  }

  ghost predicate NoInsertFails(events: seq<Event>, k: nat) {
    forall i :: 0 <= i < |events| ==> !InsertFails(events[i], k)
  }

  /** A step that brings a workspace its first group is a group call's insert, and ends that call. */
  lemma GroupStep(s: Directory, e: Event, w: Id)
    requires Enabled(s, e) && !HasGroup(s.tables, w) && HasGroup(Apply(s, e).tables, w)
    ensures e.Creates? && !e.outcome.Fails? && e.k < |s.calls| && s.calls[e.k].request == GroupFor(w)
    ensures var call := Apply(s, e).calls[e.k];
            call.stage.Done? && call.made.Some? && call.request == GroupFor(w) && (e.outcome.Succeeds? ==> call.stage.result.Ok?)
  {
    var c :| c in Apply(s, e).tables.conversations && IsGroupOf(c, w);
    assert c !in s.tables.conversations;
  }

  lemma GroupStays(s: Directory, e: Event, w: Id)
    requires Enabled(s, e) && HasGroup(s.tables, w)
    ensures HasGroup(Apply(s, e).tables, w)
  {
    StepGrows(s, e);
    var c :| c in s.tables.conversations && IsGroupOf(c, w);
    assert c in Apply(s, e).tables.conversations;
  }

  /** Call `k` is for the workspace's group, decided to create it, and will be done without a failing insert. */
  ghost predicate WillCreate(s: Directory, events: seq<Event>, k: nat, w: Id) {
    && IsRun(s, events) && k < |s.calls| && s.calls[k].request == GroupFor(w) && s.calls[k].stage.Missed?
    && w != NIL && w in s.tables.workspaces && NoInsertFails(events, k)
    && k < |Run(s, events).calls| && Run(s, events).calls[k].stage.Done?
  }

  lemma WillCreateSteps(s: Directory, events: seq<Event>, k: nat, w: Id)
    requires WillCreate(s, events, k, w)
    ensures events != []
    ensures ActorOf(events[0]) == Some(k) ==> events[0].Creates? && events[0].outcome.Succeeds?
    ensures ActorOf(events[0]) != Some(k) ==> WillCreate(Apply(s, events[0]), events[1..], k, w)
  {
    StepShape(s, events[0]);
    StepGrows(s, events[0]);
    WorkspacesStay(s, events[0]);
  }

  /** Once the group is there, the insert is refused. */
  lemma {:induction false} TooLate(s: Directory, events: seq<Event>, k: nat, w: Id) returns (create: nat)
    requires WillCreate(s, events, k, w) && HasGroup(s.tables, w)
    ensures create < |events| && events[create].Creates? && events[create].k == k
    ensures Run(s, events).calls[k].stage == Done(Err(UniqueViolation))
    decreases |events|
  {
    WillCreateSteps(s, events, k, w);
    var t := Apply(s, events[0]);
    if ActorOf(events[0]) == Some(k) {
      create := 0;
      DoneForever(t, events[1..], k);
    } else {
      GroupStays(s, events[0], w);
      var rest := TooLate(t, events[1..], k, w);
      create := rest + 1;
    }
  }

  /** Event `other` is another group call's insert, which took effect. */
  ghost predicate InsertsGroup(t: Directory, e: Event, k: nat, w: Id) {
    && e.Creates? && e.k != k && !e.outcome.Fails?
    && e.k < |t.calls| && t.calls[e.k].request == GroupFor(w) && t.calls[e.k].made.Some?
  }

  /** With no group yet, the call makes it unless another one comes first. */
  lemma {:induction false} CreatesOrIsTooLate(s: Directory, events: seq<Event>, k: nat, w: Id) returns (other: nat, create: nat)
    requires WillCreate(s, events, k, w) && !HasGroup(s.tables, w)
    ensures var t := Run(s, events);
            && t.calls[k].stage.Done?
            && (t.calls[k].stage.result.Err? ==>
                  && t.calls[k].stage.result.error == UniqueViolation
                  && other < create < |events| && InsertsGroup(t, events[other], k, w)
                  && events[create].Creates? && events[create].k == k)
    decreases |events|
  {
    other, create := 0, 0;
    WillCreateSteps(s, events, k, w);
    var t := Apply(s, events[0]);
    if ActorOf(events[0]) == Some(k) {
      DoneForever(t, events[1..], k);
    } else if HasGroup(t.tables, w) {
      GroupStep(s, events[0], w);
      DoneForever(t, events[1..], events[0].k);
      var rest := TooLate(t, events[1..], k, w);
      create := rest + 1;
    } else {
      var o, c := CreatesOrIsTooLate(t, events[1..], k, w);
      other, create := o + 1, c + 1;
    }
  }

  /** Call `k` is for the workspace's group, has not looked it up yet, and will be done without a failing statement. */
  ghost predicate WillLookUp(s: Directory, events: seq<Event>, k: nat, w: Id) {
    && IsRun(s, events) && (k < |s.calls| ==> s.calls[k].request == GroupFor(w) && s.calls[k].stage.Starting?)
    && w != NIL && w in s.tables.workspaces && NoInsertFails(events, k) && LooksUp(k, DbFails) !in events
    && k < |Run(s, events).calls| && Run(s, events).calls[k].stage.Done? && Run(s, events).calls[k].request == GroupFor(w)
  }

  lemma NoRowsMeansNoGroup(s: Directory, k: nat, w: Id)
    requires Enabled(s, LooksUp(k, NoRows)) && s.calls[k].request == GroupFor(w)
    ensures !HasGroup(s.tables, w)
  {
    forall c | c in s.tables.conversations && IsGroupOf(c, w)
      ensures Matches(s.tables, GroupFor(w), c)
    {
    }
  }

  lemma LookupThenCreate(s: Directory, events: seq<Event>, k: nat, w: Id)
    requires WillLookUp(s, events, k, w) && events != [] && events[0] == LooksUp(k, NoRows)
    ensures WillCreate(Apply(s, events[0]), events[1..], k, w) && !HasGroup(Apply(s, events[0]).tables, w)
  {
    NoRowsMeansNoGroup(s, k, w);
  }

  /** Its first own step is its lookup, which finds the group or leads on to the insert. */
  lemma LookupOrElsewhere(s: Directory, events: seq<Event>, k: nat, w: Id)
    requires WillLookUp(s, events, k, w)
    ensures events != []
    ensures ActorOf(events[0]) == Some(k) && events[0] != LooksUp(k, NoRows) ==>
              var call := Apply(s, events[0]).calls[k]; call.stage.Done? && call.stage.result.Ok?
  {
    assert events == [events[0]] + events[1..];
  }

  lemma StillToLookUp(s: Directory, events: seq<Event>, k: nat, w: Id)
    requires WillLookUp(s, events, k, w) && events != [] && ActorOf(events[0]) != Some(k)
    ensures WillLookUp(Apply(s, events[0]), events[1..], k, w)
  {
    StepShape(s, events[0]);
    WorkspacesStay(s, events[0]);
    RunKeepsRequests(Apply(s, events[0]), events[1..]);
    assert events == [events[0]] + events[1..];
  }

  /** A group call that fails although none of its statements did looked before and came after another call's insert. */
  lemma {:induction false} SucceedsOrIsTooLate(s: Directory, events: seq<Event>, k: nat, w: Id)
    returns (lookup: nat, other: nat, create: nat)
    requires WillLookUp(s, events, k, w)
    ensures var t := Run(s, events);
            && (t.calls[k].stage.result.Err? ==>
                  && t.calls[k].stage.result.error == UniqueViolation
                  && lookup < other < create < |events|
                  && events[lookup] == LooksUp(k, NoRows) && InsertsGroup(t, events[other], k, w)
                  && events[create].Creates? && events[create].k == k)
    decreases |events|
  {
    lookup, other, create := 0, 0, 0;
    LookupOrElsewhere(s, events, k, w);
    var t := Apply(s, events[0]);
    if events[0] == LooksUp(k, NoRows) {
      LookupThenCreate(s, events, k, w);
      var o, c := CreatesOrIsTooLate(t, events[1..], k, w);
      other, create := o + 1, c + 1;
    } else if ActorOf(events[0]) == Some(k) {
      DoneForever(t, events[1..], k);
    } else {
      StillToLookUp(s, events, k, w);
      var l, o, c := SucceedsOrIsTooLate(t, events[1..], k, w);
      lookup, other, create := l + 1, o + 1, c + 1;
    }
  }

  /**
    A group call for an existing workspace that is done, and none of whose statements failed, answers
    with the workspace's group; the one exception is a unique violation, and then another call's group
    was inserted after the call's lookup and before its own insert.
   */
  lemma GroupCallsSucceedUnlessRaced(t0: Tables, events: seq<Event>, k: nat, w: Id)
    returns (lookup: nat, other: nat, create: nat)
    requires Constraints(t0) && IsRun(Idle(t0), events) && w != NIL && w in t0.workspaces
    requires var t := Run(Idle(t0), events); k < |t.calls| && t.calls[k].request == GroupFor(w) && t.calls[k].stage.Done?
    requires NoInsertFails(events, k) && LooksUp(k, DbFails) !in events
    ensures var t := Run(Idle(t0), events);
            match t.calls[k].stage.result
            case Ok(c) => c in t.tables.conversations && c.kind == Group && c.workspaceId == w
            case Err(e) =>
              && e == UniqueViolation
              && lookup < other < create < |events|
              && events[lookup] == LooksUp(k, NoRows) && InsertsGroup(t, events[other], k, w)
              && events[create].Creates? && events[create].k == k
  {
    lookup, other, create := SucceedsOrIsTooLate(Idle(t0), events, k, w);
    ReachableKeepsInv(t0, events);
    assert AnswerOk(Run(Idle(t0), events).tables, Run(Idle(t0), events).calls[k]);
  }

  /** A DM call for two people that has not failed. */
  ghost predicate OnTrack(s: Directory, k: nat, q: Request) {
    && q.DmFor? && q.workspaceId != NIL && q.workspaceId in s.tables.workspaces && q.a != NIL && q.b != NIL
    && (k < |s.calls| && s.calls[k].request == q ==> !(s.calls[k].stage.Done? && s.calls[k].stage.result.Err?))
  }

  lemma StaysOnTrack(s: Directory, e: Event, k: nat, q: Request)
    requires Enabled(s, e) && OnTrack(s, k, q) && !InsertFails(e, k)
    ensures OnTrack(Apply(s, e), k, q)
  {
    StepShape(s, e);
    StepGrows(s, e);
    WorkspacesStay(s, e);
  }

  lemma {:induction false} OnTrackToTheEnd(s: Directory, events: seq<Event>, k: nat, q: Request)
    requires IsRun(s, events) && OnTrack(s, k, q) && NoInsertFails(events, k)
    ensures OnTrack(Run(s, events), k, q)
    decreases |events|
  {
    if events != [] {
      StaysOnTrack(s, events[0], k, q);
      OnTrackToTheEnd(Apply(s, events[0]), events[1..], k, q);
    }
  }

  /** The call has looked the DM up, and either found none or failed. */
  predicate LookedInVain(events: seq<Event>, k: nat) {
    LooksUp(k, NoRows) in events || LooksUp(k, DbFails) in events
  }

  /** A DM call that looked in vain answers with the row that it made. */
  ghost predicate AnswersItsRow(call: Call) {
    call.request.DmFor? ==>
      && (call.stage.Starting? ==> !call.missed)
      && (call.stage.RowMade? || call.stage.FirstJoined? ==> call.made == Some(call.stage.conv.id))
      && (call.missed && Succeeded(call) ==> call.made == Some(call.stage.result.value.id))
  }

  lemma StepKeepsItsRow(s: Directory, e: Event, k: nat)
    requires Enabled(s, e) && (k < |s.calls| ==> AnswersItsRow(s.calls[k]))
    ensures k < |Apply(s, e).calls| ==> AnswersItsRow(Apply(s, e).calls[k])
    ensures k < |s.calls| && s.calls[k].request.DmFor? ==>
              (Apply(s, e).calls[k].missed <==> s.calls[k].missed || e == LooksUp(k, NoRows) || e == LooksUp(k, DbFails))
    ensures k >= |s.calls| && k < |Apply(s, e).calls| ==> !Apply(s, e).calls[k].missed && ActorOf(e) != Some(k)
  {
    StepShape(s, e);
  }

  lemma {:induction false} MissedIffLookedInVain(s: Directory, events: seq<Event>, k: nat)
    requires IsRun(s, events) && (k < |s.calls| ==> AnswersItsRow(s.calls[k]))
    requires k < |Run(s, events).calls| && Run(s, events).calls[k].request.DmFor?
    ensures AnswersItsRow(Run(s, events).calls[k])
    ensures Run(s, events).calls[k].missed <==> (k < |s.calls| && s.calls[k].missed) || LookedInVain(events, k)
    decreases |events|
  {
    if events != [] {
      var t := Apply(s, events[0]);
      StepKeepsItsRow(s, events[0], k);
      RunKeepsRequests(s, events);
      MissedIffLookedInVain(t, events[1..], k);
      assert events == [events[0]] + events[1..];
      if k >= |s.calls| {
        StepShape(s, events[0]);
      }
    }
  }

  /**
    A DM call for two people in an existing workspace that is done, and none of whose inserts failed,
    answers with a DM of the two.  It made that DM itself exactly if its lookup found none, and also
    if the lookup failed.
   */
  lemma DmCallsSucceed(t0: Tables, events: seq<Event>, k: nat, w: Id, a: Id, b: Id)
    requires Constraints(t0) && IsRun(Idle(t0), events) && w != NIL && w in t0.workspaces && a != NIL && b != NIL
    requires var t := Run(Idle(t0), events); k < |t.calls| && t.calls[k].request == DmFor(w, a, b) && t.calls[k].stage.Done?
    requires NoInsertFails(events, k)
    ensures var t := Run(Idle(t0), events);
            var r := t.calls[k].stage.result;
            && r.Ok? && r.value in t.tables.conversations && r.value.workspaceId == w && r.value.kind == Dm
            && Participant(r.value.id, a) in t.tables.participants && Participant(r.value.id, b) in t.tables.participants
            && (LookedInVain(events, k) ==> t.calls[k].made == Some(r.value.id) && r.value.id >= t0.nextId)
            && (!LookedInVain(events, k) ==> t.calls[k].made.None?)
  {
    var t := Run(Idle(t0), events);
    OnTrackToTheEnd(Idle(t0), events, k, DmFor(w, a, b));
    MissedIffLookedInVain(Idle(t0), events, k);
    ReachableKeepsInv(t0, events);
    assert AnswerOk(t.tables, t.calls[k]) && MakerOk(t0, t.tables, t.calls[k]);
  }

  // ---------------------------------------------------------------- results for DMs

  /** The DMs of a workspace that have both people. */
  ghost function DmIds(t: Tables, w: Id, a: Id, b: Id): set<Id> {
    set c | c in t.conversations && IsDmOf(t, c, w, a, b) :: c.id
  }

  predicate IsForPair(q: Request, w: Id, a: Id, b: Id) {
    q == DmFor(w, a, b) || q == DmFor(w, b, a)
  }

  /** The calls for a pair that did not see an existing DM when they looked. */
  ghost function Missers(s: Directory, w: Id, a: Id, b: Id): set<nat> {
    set k | 0 <= k < |s.calls| && s.calls[k].missed && IsForPair(s.calls[k].request, w, a, b)
  }

  /** Those among them that also made a conversation and brought both people into it. */
  ghost function Completers(s: Directory, w: Id, a: Id, b: Id): set<nat> {
    set k | 0 <= k < |s.calls| && s.calls[k].made.Some? && s.calls[k].joins == 2 && IsForPair(s.calls[k].request, w, a, b)
  }

  ghost function MadeBy(s: Directory, ks: set<nat>): set<Id> {
    set k | k in ks && k < |s.calls| && s.calls[k].made.Some? :: s.calls[k].made.value
  }

  lemma MakerIsUnique(t0: Tables, s: Directory, k: nat, l: nat)
    requires MakersOk(t0, s) && k < |s.calls| && l < |s.calls| && s.calls[k].made.Some? && s.calls[k].made == s.calls[l].made
    ensures k == l
  {
  }

  lemma MadeInItsWorkspace(t0: Tables, s: Directory, k: nat, c: Conversation)
    requires Constraints(s.tables) && AnswersOk(s) && k < |s.calls| && s.calls[k].made == Some(c.id) && c in s.tables.conversations
    ensures c.workspaceId == s.calls[k].request.workspaceId && c.kind == KindOf(s.calls[k].request)
  {
    assert AnswerOk(s.tables, s.calls[k]);
    var d :| d in s.tables.conversations && d.id == c.id && d.kind == KindOf(s.calls[k].request)
             && d.workspaceId == s.calls[k].request.workspaceId;
    ConversationById(s.tables, c, d);
  }

  /** The participants of a new conversation were brought by calls. */
  lemma NewRowsAreBrought(t0: Tables, s: Directory, id: Id)
    requires Constraints(t0) && RowsOk(t0, s) && id >= t0.nextId
    ensures forall p :: p in s.tables.participants && p.conversationId == id ==> Brought(s.calls, p)
  {
  }

  lemma BringerOf(s: Directory, p: Participant) returns (k: nat)
    requires Brought(s.calls, p)
    ensures k < |s.calls| && BroughtBy(s.calls[k], p)
  {
    k :| 0 <= k < |s.calls| && BroughtBy(s.calls[k], p);
  }

  lemma BothBroughtByOne(call: Call, w: Id, a: Id, b: Id, c: Conversation)
    requires a != b && BroughtBy(call, Participant(c.id, a)) && BroughtBy(call, Participant(c.id, b))
    requires call.request.workspaceId == w && call.joins <= 2
    ensures call.joins == 2 && IsForPair(call.request, w, a, b)
  {
  }

  /** A new DM of a pair was completed by one of the pair's calls. */
  lemma NewDmHasCompleter(t0: Tables, s: Directory, w: Id, a: Id, b: Id, c: Conversation) returns (k: nat)
    requires Inv(t0, s) && a != b && IsDmOf(s.tables, c, w, a, b) && c.id >= t0.nextId
    ensures k in Completers(s, w, a, b) && s.calls[k].made == Some(c.id)
  {
    NewRowsAreBrought(t0, s, c.id);
    k := BringerOf(s, Participant(c.id, a));
    var l := BringerOf(s, Participant(c.id, b));
    MakerIsUnique(t0, s, k, l);
    MadeInItsWorkspace(t0, s, k, c);
    assert JoinsOk(s.tables, s.calls[k]);
    BothBroughtByOne(s.calls[k], w, a, b, c);
  }

  /** No call touches the DMs that were there before. */
  lemma OldDmIsOld(t0: Tables, s: Directory, w: Id, a: Id, b: Id, c: Conversation)
    requires Inv(t0, s) && c.id < t0.nextId
    ensures IsDmOf(s.tables, c, w, a, b) <==> IsDmOf(t0, c, w, a, b)
  {
    assert forall k :: 0 <= k < |s.calls| ==> MakerOk(t0, s.tables, s.calls[k]);
    assert forall p :: p in s.tables.participants && p.conversationId == c.id ==> p in t0.participants;
  }

  /** A completed call has made a DM of its pair. */
  lemma CompleterMadeADm(t0: Tables, s: Directory, w: Id, a: Id, b: Id, k: nat) returns (c: Conversation)
    requires Inv(t0, s) && k in Completers(s, w, a, b)
    ensures IsDmOf(s.tables, c, w, a, b) && c.id == s.calls[k].made.value && c.id >= t0.nextId
  {
    assert AnswerOk(s.tables, s.calls[k]) && JoinsOk(s.tables, s.calls[k]) && MakerOk(t0, s.tables, s.calls[k]);
    c :| c in s.tables.conversations && c.id == s.calls[k].made.value && c.kind == KindOf(s.calls[k].request)
         && c.workspaceId == s.calls[k].request.workspaceId;
  }

  /** The DMs of a pair are those from before and those that the pair's calls completed, and no others. */
  lemma DmsAreCompleted(t0: Tables, s: Directory, w: Id, a: Id, b: Id)
    requires Inv(t0, s) && a != b
    ensures DmIds(s.tables, w, a, b) == DmIds(t0, w, a, b) + MadeBy(s, Completers(s, w, a, b))
    ensures DmIds(t0, w, a, b) !! MadeBy(s, Completers(s, w, a, b))
  {
    forall id | id in DmIds(s.tables, w, a, b)
      ensures id in DmIds(t0, w, a, b) + MadeBy(s, Completers(s, w, a, b))
    {
      var c :| c in s.tables.conversations && IsDmOf(s.tables, c, w, a, b) && c.id == id;
      if id < t0.nextId {
        OldDmIsOld(t0, s, w, a, b, c);
      } else {
        var k := NewDmHasCompleter(t0, s, w, a, b, c);
      }
    }
    forall c | c in t0.conversations && IsDmOf(t0, c, w, a, b)
      ensures c.id in DmIds(s.tables, w, a, b) && c.id < t0.nextId
    {
      OldDmIsOld(t0, s, w, a, b, c);
    }
    forall k | k in Completers(s, w, a, b)
      ensures s.calls[k].made.value in DmIds(s.tables, w, a, b) && s.calls[k].made.value >= t0.nextId
    {
      var c := CompleterMadeADm(t0, s, w, a, b, k);
    }
  }

  lemma MadeBySplits(s: Directory, ks: set<nat>, k: nat)
    requires MadeOnce(s.calls) && k in ks && k < |s.calls| && s.calls[k].made.Some?
    ensures MadeBy(s, ks) == MadeBy(s, ks - {k}) + {s.calls[k].made.value}
    ensures s.calls[k].made.value !in MadeBy(s, ks - {k})
  {
    forall l | l in ks && l < |s.calls| && s.calls[l].made.Some?
      ensures s.calls[l].made.value in MadeBy(s, ks - {k}) + {s.calls[k].made.value}
    {
      assert l != k ==> l in ks - {k};
    }
  }

  /** Different calls make different rows. */
  lemma {:induction false} MadeBySize(s: Directory, ks: set<nat>)
    requires MadeOnce(s.calls) && forall k :: k in ks ==> k < |s.calls| && s.calls[k].made.Some?
    ensures |MadeBy(s, ks)| == |ks|
    decreases ks
  {
    if ks != {} {
      var k :| k in ks;
      MadeBySize(s, ks - {k});
      MadeBySplits(s, ks, k);
    }
  }

  /**
    The exact number, in every interleaving and from any tables: a pair has the DMs it had, and one
    more for each of its calls that completed.
   */
  lemma DmCount(t0: Tables, events: seq<Event>, w: Id, a: Id, b: Id)
    requires Constraints(t0) && IsRun(Idle(t0), events) && a != b
    ensures var t := Run(Idle(t0), events);
            && DmIds(t.tables, w, a, b) == DmIds(t0, w, a, b) + MadeBy(t, Completers(t, w, a, b))
            && |DmIds(t.tables, w, a, b)| == |DmIds(t0, w, a, b)| + |Completers(t, w, a, b)|
  {
    var t := Run(Idle(t0), events);
    ReachableKeepsInv(t0, events);
    DmsAreCompleted(t0, t, w, a, b);
    MadeBySize(t, Completers(t, w, a, b));
  }

  /** The second participant's insert of call `k` took effect. */
  predicate CompletedIn(events: seq<Event>, k: nat) {
    exists i :: 0 <= i < |events| && events[i].AddsSecond? && events[i].k == k && !events[i].outcome.Fails?
  }

  lemma CompletedCons(events: seq<Event>, k: nat)
    requires events != []
    ensures CompletedIn(events, k) <==>
            (events[0].AddsSecond? && events[0].k == k && !events[0].outcome.Fails?) || CompletedIn(events[1..], k)
  {
    if CompletedIn(events[1..], k) {
      var i :| 0 <= i < |events[1..]| && events[1..][i].AddsSecond? && events[1..][i].k == k && !events[1..][i].outcome.Fails?;
      assert events[i + 1] == events[1..][i];
    }
  }

  lemma StepCompletes(t0: Tables, s: Directory, e: Event, k: nat)
    requires Inv(t0, s) && Enabled(s, e) && k < |s.calls|
    ensures var t := Apply(s, e);
            t.calls[k].joins == 2 <==>
            s.calls[k].joins == 2 ||
            (e.AddsSecond? && e.k == k && !e.outcome.Fails? && s.calls[k].request.b != NIL)
  {
    StepShape(s, e);
    assert AnswerOk(s.tables, s.calls[k]) && JoinsOk(s.tables, s.calls[k]);
  }

  /** Completing is visible from outside: it is one of the call's own steps. */
  lemma {:induction false} CompletersByEvents(t0: Tables, s: Directory, events: seq<Event>, k: nat)
    requires Inv(t0, s) && IsRun(s, events)
    requires k < |Run(s, events).calls| && Run(s, events).calls[k].request.DmFor?
    requires Run(s, events).calls[k].request.b != NIL
    ensures Run(s, events).calls[k].joins == 2 <==> (k < |s.calls| && s.calls[k].joins == 2) || CompletedIn(events, k)
    decreases |events|
  {
    if events != [] {
      var t := Apply(s, events[0]);
      StepKeepsInv(t0, s, events[0]);
      StepGrows(s, events[0]);
      RunKeepsInv(t0, t, events[1..]);
      CompletersByEvents(t0, t, events[1..], k);
      CompletedCons(events, k);
      if k < |s.calls| {
        StepCompletes(t0, s, events[0], k);
      } else {
        StepShape(s, events[0]);
      }
    }
  }

  lemma CompleterByEvents(t0: Tables, events: seq<Event>, w: Id, a: Id, b: Id, k: nat)
    requires Constraints(t0) && IsRun(Idle(t0), events) && k < |Run(Idle(t0), events).calls|
    ensures var t := Run(Idle(t0), events);
            k in Completers(t, w, a, b) <==>
            a != NIL && b != NIL && IsForPair(t.calls[k].request, w, a, b) && CompletedIn(events, k)
  {
    var t := Run(Idle(t0), events);
    ReachableKeepsInv(t0, events);
    assert JoinsOk(t.tables, t.calls[k]);
    if a != NIL && b != NIL && IsForPair(t.calls[k].request, w, a, b) {
      CompletersByEvents(t0, Idle(t0), events, k);
    }
  }

  lemma TwoElements(ks: set<nat>)
    ensures |ks| >= 2 <==> exists j: nat, k: nat :: j < k && j in ks && k in ks
  {
    if |ks| >= 2 {
      var x :| x in ks;
      assert |ks - {x}| >= 1;
      var y :| y in ks - {x};
      assert x < y || y < x;
    }
    if j: nat, k: nat :| j < k && j in ks && k in ks {
      assert |ks| == |ks - {j, k}| + |{j, k}|;
    }
  }

  /**
    When one DM per pair fails: a pair without a DM ends up with two or more exactly if two different
    calls for it had their second participant's insert take effect.
   */
  lemma PairHasTwoDmsIff(t0: Tables, events: seq<Event>, w: Id, a: Id, b: Id)
    requires Constraints(t0) && IsRun(Idle(t0), events) && a != b
    requires DmIds(t0, w, a, b) == {}
    ensures var t := Run(Idle(t0), events);
            |DmIds(t.tables, w, a, b)| >= 2 <==>
            exists j: nat, k: nat | j < k < |t.calls| ::
              && a != NIL && b != NIL
              && IsForPair(t.calls[j].request, w, a, b) && IsForPair(t.calls[k].request, w, a, b)
              && CompletedIn(events, j) && CompletedIn(events, k)
  {
    var t := Run(Idle(t0), events);
    DmCount(t0, events, w, a, b);
    ReachableKeepsInv(t0, events);
    var ks := Completers(t, w, a, b);
    forall k: nat | k < |t.calls|
      ensures k in ks <==> a != NIL && b != NIL && IsForPair(t.calls[k].request, w, a, b) && CompletedIn(events, k)
    {
      CompleterByEvents(t0, events, w, a, b, k);
    }
    TwoElements(ks);
  }

  ghost function FailedLookups(events: seq<Event>): set<nat> {
    set i | 0 <= i < |events| && events[i].LooksUp? && events[i].answer == DbFails :: events[i].k
  }

  lemma DmStays(s: Directory, e: Event, w: Id, a: Id, b: Id)
    requires Enabled(s, e) && HasDm(s.tables, w, a, b)
    ensures HasDm(Apply(s, e).tables, w, a, b)
  {
    StepGrows(s, e);
    var c :| c in s.tables.conversations && IsDmOf(s.tables, c, w, a, b);
    assert IsDmOf(Apply(s, e).tables, c, w, a, b);
  }

  /** While the pair has a DM, a lookup for it finds a row or fails. */
  lemma LookupForPair(s: Directory, k: nat, answer: Answer, w: Id, a: Id, b: Id)
    requires Enabled(s, LooksUp(k, answer)) && HasDm(s.tables, w, a, b) && IsForPair(s.calls[k].request, w, a, b)
    ensures answer != NoRows
  {
    var c :| c in s.tables.conversations && IsDmOf(s.tables, c, w, a, b);
    assert Matches(s.tables, DmFor(w, a, b), c) && Matches(s.tables, DmFor(w, b, a), c);
  }

  lemma NewMisserFailed(s: Directory, e: Event, w: Id, a: Id, b: Id, k: nat)
    requires Enabled(s, e) && HasDm(s.tables, w, a, b)
    requires k in Missers(Apply(s, e), w, a, b) && k !in Missers(s, w, a, b)
    ensures e == LooksUp(k, DbFails)
  {
    StepShape(s, e);
    if e.LooksUp? && e.k == k {
      LookupForPair(s, k, e.answer, w, a, b);
    }
  }

  lemma FailedLookupsCons(events: seq<Event>)
    requires events != []
    ensures FailedLookups(events[1..]) <= FailedLookups(events)
    ensures forall k :: events[0] == LooksUp(k, DbFails) ==> k in FailedLookups(events)
  {
    forall k | k in FailedLookups(events[1..])
      ensures k in FailedLookups(events)
    {
      var i :| 0 <= i < |events[1..]| && events[1..][i].LooksUp? && events[1..][i].answer == DbFails
               && events[1..][i].k == k;
      assert events[i + 1] == events[1..][i];
    }
  }

  /** Once the pair has a DM, only a failing lookup can make another call create one. */
  lemma {:induction false} MissersStop(t0: Tables, s: Directory, events: seq<Event>, w: Id, a: Id, b: Id)
    requires Inv(t0, s) && IsRun(s, events) && HasDm(s.tables, w, a, b)
    ensures Missers(Run(s, events), w, a, b) <= Missers(s, w, a, b) + FailedLookups(events)
    decreases |events|
  {
    if events != [] {
      StepKeepsInv(t0, s, events[0]);
      DmStays(s, events[0], w, a, b);
      forall k | k in Missers(Apply(s, events[0]), w, a, b) && k !in Missers(s, w, a, b)
        ensures k in FailedLookups(events)
      {
        NewMisserFailed(s, events[0], w, a, b, k);
        FailedLookupsCons(events);
      }
      FailedLookupsCons(events);
      MissersStop(t0, Apply(s, events[0]), events[1..], w, a, b);
    }
  }

  lemma CompletersMissed(t0: Tables, s: Directory, w: Id, a: Id, b: Id)
    requires Inv(t0, s)
    ensures Completers(s, w, a, b) <= Missers(s, w, a, b)
  {
    forall k | k in Completers(s, w, a, b)
      ensures k in Missers(s, w, a, b)
    {
      assert MakerOk(t0, s.tables, s.calls[k]);
    }
  }

  /**
    Who can complete: the calls that ever make a new DM for a pair are among those whose lookup came
    before the pair's first DM, and the calls for the pair whose later lookup failed.
   */
  lemma DmRaceBound(t0: Tables, before: seq<Event>, after: seq<Event>, w: Id, a: Id, b: Id)
    requires Constraints(t0) && IsRun(Idle(t0), before) && IsRun(Run(Idle(t0), before), after)
    requires a != b && HasDm(Run(Idle(t0), before).tables, w, a, b)
    ensures var s := Run(Idle(t0), before);
            var t := Run(s, after);
            && Completers(t, w, a, b) <= Missers(s, w, a, b) + FailedLookups(after) * Missers(t, w, a, b)
            && |DmIds(t.tables, w, a, b)|
               <= |DmIds(t0, w, a, b)| + |Missers(s, w, a, b)| + |FailedLookups(after) * Missers(t, w, a, b)|
  {
    var s := Run(Idle(t0), before);
    var t := Run(s, after);
    ReachableKeepsInv(t0, before);
    RunKeepsInv(t0, s, after);
    MissersStop(t0, s, after, w, a, b);
    CompletersMissed(t0, t, w, a, b);
    DmsAreCompleted(t0, t, w, a, b);
    MadeBySize(t, Completers(t, w, a, b));
    SubsetSize(Completers(t, w, a, b), Missers(s, w, a, b) + FailedLookups(after) * Missers(t, w, a, b));
  }

  /** Interleaved calls never give a group conversation a participant row: only those from before can have some. */
  lemma GroupsStayBare(t0: Tables, events: seq<Event>, c: Conversation, p: Participant)
    requires Constraints(t0) && IsRun(Idle(t0), events)
    requires var t := Run(Idle(t0), events).tables;
             c in t.conversations && c.kind == Group && p in t.participants && p.conversationId == c.id
    ensures c in t0.conversations && p in t0.participants
  {
    var t := Run(Idle(t0), events);
    ReachableKeepsInv(t0, events);
    if p !in t0.participants {
      var k :| 0 <= k < |t.calls| && BroughtBy(t.calls[k], p);
      MadeInItsWorkspace(t0, t, k, c);
    }
  }

  /** From an empty database on, or any other without participants in groups, only DMs have participants. */
  lemma OnlyDmsEverHaveParticipants(t0: Tables, events: seq<Event>)
    requires Constraints(t0) && OnlyDmsHaveParticipants(t0) && IsRun(Idle(t0), events)
    ensures OnlyDmsHaveParticipants(Run(Idle(t0), events).tables)
  {
    var t := Run(Idle(t0), events).tables;
    forall c, p | c in t.conversations && p in t.participants && p.conversationId == c.id
      ensures c.kind == Dm
    {
      if c.kind == Group {
        GroupsStayBare(t0, events, c, p);
      }
    }
  }

  // ---------------------------------------------------------------- the race is real

  lemma RunCons(s: Directory, e: Event, rest: seq<Event>)
    requires Enabled(s, e) && IsRun(Apply(s, e), rest)
    ensures IsRun(s, [e] + rest) && Run(s, [e] + rest) == Run(Apply(s, e), rest)
  {
    assert ([e] + rest)[1..] == rest;
  }

  /** One workspace and no conversations. */
  const NOTHING: Tables := Tables({1}, [], [], 1)

  /** Both calls have looked the pair up, found nothing, and made a conversation each. */
  const BOTH_MISSED: Directory :=
    Directory(Tables({1}, [Conversation(1, 1, Dm, 10), Conversation(2, 1, Dm, 11)], [], 3),
              [Call(DmFor(1, 7, 8), RowMade(Conversation(1, 1, Dm, 10)), true, Some(1), 0),
               Call(DmFor(1, 8, 7), RowMade(Conversation(2, 1, Dm, 11)), true, Some(2), 0)])

  lemma BothCanMiss(rest: seq<Event>) returns (events: seq<Event>)
    requires IsRun(BOTH_MISSED, rest)
    ensures IsRun(Idle(NOTHING), events) && Run(Idle(NOTHING), events) == Run(BOTH_MISSED, rest)
  {
    var s0 := Idle(NOTHING);
    var s1 := Apply(s0, Arrives(DmFor(1, 7, 8)));
    var s2 := Apply(s1, Arrives(DmFor(1, 8, 7)));
    var s3 := Apply(s2, LooksUp(0, NoRows));
    var s4 := Apply(s3, LooksUp(1, NoRows));
    var s5 := Apply(s4, Creates(0, Succeeds, 10));
    var s6 := Apply(s5, Creates(1, Succeeds, 11));
    assert s6 == BOTH_MISSED;
    RunCons(s5, Creates(1, Succeeds, 11), rest);
    var r5 := [Creates(1, Succeeds, 11)] + rest;
    RunCons(s4, Creates(0, Succeeds, 10), r5);
    var r4 := [Creates(0, Succeeds, 10)] + r5;
    RunCons(s3, LooksUp(1, NoRows), r4);
    var r3 := [LooksUp(1, NoRows)] + r4;
    RunCons(s2, LooksUp(0, NoRows), r3);
    var r2 := [LooksUp(0, NoRows)] + r3;
    RunCons(s1, Arrives(DmFor(1, 8, 7)), r2);
    var r1 := [Arrives(DmFor(1, 8, 7))] + r2;
    RunCons(s0, Arrives(DmFor(1, 7, 8)), r1);
    events := [Arrives(DmFor(1, 7, 8))] + r1;
  }

  /** Each conversation has its first participant. */
  const FIRSTS_JOINED: Directory :=
    Directory(Tables({1}, [Conversation(1, 1, Dm, 10), Conversation(2, 1, Dm, 11)], [Participant(1, 7), Participant(2, 8)], 3),
              [Call(DmFor(1, 7, 8), FirstJoined(Conversation(1, 1, Dm, 10)), true, Some(1), 1),
               Call(DmFor(1, 8, 7), FirstJoined(Conversation(2, 1, Dm, 11)), true, Some(2), 1)])

  lemma BothSecondsJoin() returns (events: seq<Event>)
    ensures IsRun(FIRSTS_JOINED, events)
    ensures var t := Run(FIRSTS_JOINED, events);
            && |t.calls| == 2 && Succeeded(t.calls[0]) && Succeeded(t.calls[1])
            && t.calls[0].request == DmFor(1, 7, 8) && t.calls[1].request == DmFor(1, 8, 7)
            && t.calls[0].stage.result.value.id != t.calls[1].stage.result.value.id
            && IsDmOf(t.tables, t.calls[0].stage.result.value, 1, 7, 8)
            && IsDmOf(t.tables, t.calls[1].stage.result.value, 1, 7, 8)
  {
    var s9 := Apply(FIRSTS_JOINED, AddsSecond(0, Succeeds));
    assert s9.tables.participants == [Participant(1, 7), Participant(2, 8), Participant(1, 8)];
    RunCons(s9, AddsSecond(1, Succeeds), []);
    var last := [AddsSecond(1, Succeeds)] + [];
    RunCons(FIRSTS_JOINED, AddsSecond(0, Succeeds), last);
    events := [AddsSecond(0, Succeeds)] + last;
  }

  /** Two overlapping calls for the same two people create two DMs, although every database call succeeds. */
  lemma DmsCanDuplicate() returns (events: seq<Event>)
    ensures IsRun(Idle(NOTHING), events)
    ensures var t := Run(Idle(NOTHING), events);
            && |t.calls| == 2 && Succeeded(t.calls[0]) && Succeeded(t.calls[1])
            && t.calls[0].request == DmFor(1, 7, 8) && t.calls[1].request == DmFor(1, 8, 7)
            && t.calls[0].stage.result.value.id != t.calls[1].stage.result.value.id
            && IsDmOf(t.tables, t.calls[0].stage.result.value, 1, 7, 8)
            && IsDmOf(t.tables, t.calls[1].stage.result.value, 1, 7, 8)
  {
    var second := BothSecondsJoin();
    var s7 := Apply(BOTH_MISSED, AddsFirst(0, Succeeds));
    assert Apply(s7, AddsFirst(1, Succeeds)) == FIRSTS_JOINED;
    RunCons(s7, AddsFirst(1, Succeeds), second);
    var r7 := [AddsFirst(1, Succeeds)] + second;
    RunCons(BOTH_MISSED, AddsFirst(0, Succeeds), r7);
    events := BothCanMiss([AddsFirst(0, Succeeds)] + r7);
  }
}

/**
  Onboarding and business-unit creation across two databases.  The main database runs each request
  in a transaction; the chat database is called inside it and does not roll back.  Requests
  interleave step by step, and any step may fail.
 */
module Provisioning {
  import opened Entities
  import opened Membership

  datatype Unit = Unit(id: Id, companyId: Id, name: string)

  /** The column also holds numbers that name no role: the parser the services use accepts any integer. */
  datatype StaffRole = Owner | Admin | Staff | Undefined(number: int)

  datatype Profile = Profile(id: Id, personId: Id, buId: Id, email: string, role: StaffRole)

  /** The committed rows of the main database that these requests write. */
  datatype MainDb = MainDb(companies: set<Id>, units: seq<Unit>, persons: map<Id, Id>, profiles: seq<Profile>)

  datatype Workspace = Workspace(id: Id, buId: Id, companyId: Id)

  datatype ChatDb = ChatDb(workspaces: seq<Workspace>, members: seq<MemberRow>)

  datatype Request =
    | Onboard(companyName: string, ownerEmail: string)
    | CreateBu(companyId: Id, ownerPersonId: Id, name: string)

  /** What the request does next. */
  datatype Stage =
    | InsertsCompany
    | InsertsUnit
    | InsertsPerson
    | InsertsProfile
    | CallsCreateWorkspace
    | CallsAddMember(workspaceId: Id)
    | Commits(workspaceId: Id)
    | Committed(workspaceId: Id)
    | RolledBack

  /** One request with its uncommitted rows. */
  datatype Tx = Tx(request: Request, stage: Stage, company: Id, unit: Option<Unit>, person: Option<Id>, profile: Option<Profile>)

  datatype System = System(main: MainDb, chat: ChatDb, txs: seq<Tx>, nextId: Id)

  datatype Event =
    | Arrives(request: Request)
    | Advances(k: nat, outcome: Outcome)
    | MembershipChanges(change: Membership.Request)

  predicate Active(tx: Tx) {
    !tx.stage.Committed? && !tx.stage.RolledBack?
  }

  /** The person who becomes chat Admin. */
  function OwnerOf(tx: Tx): Id {
    match tx.request
    case Onboard(_, _) => if tx.person.Some? then tx.person.value else NIL
    case CreateBu(_, owner, _) => owner
  }

  function UnitName(q: Request): string {
    match q
    case Onboard(companyName, _) => companyName + " HQ"
    case CreateBu(_, _, name) => name
  }

  function WorkspaceIds(chat: ChatDb): set<Id> {
    set w | w in chat.workspaces :: w.id
  }

  predicate HasWorkspace(chat: ChatDb, buId: Id) {
    exists w :: w in chat.workspaces && w.buId == buId
  }

  /** The other services look the business unit up in the main database before touching its workspace. */
  predicate Reachable(s: System, workspaceId: Id) {
    exists w, u :: w in s.chat.workspaces && u in s.main.units && w.id == workspaceId && w.buId == u.id
  }

  predicate Enabled(s: System, e: Event) {
    match e
    case Arrives(_) => true
    case Advances(k, _) => k < |s.txs| && Active(s.txs[k])
    case MembershipChanges(q) => Reachable(s, q.workspaceId)
  }

  function Begin(q: Request, nextId: Id): Tx {
    match q
    case Onboard(_, _) => Tx(q, InsertsCompany, NIL, None, None, None)
    case CreateBu(c, _, _) => Tx(q, InsertsUnit, c, None, None, None)
  }

  function Abort(s: System, k: nat): System
    requires k < |s.txs|
  {
    s.(txs := s.txs[k := s.txs[k].(stage := RolledBack)])
  }

  function Become(s: System, k: nat, tx: Tx): System
    requires k < |s.txs|
  {
    s.(txs := s.txs[k := tx])
  }

  /** The inserts into the main database: rows stay in the transaction; ids are generated by the client. */
  function Insert(s: System, k: nat): System
    requires k < |s.txs| && Active(s.txs[k])
  {
    var tx := s.txs[k];
    var id := s.nextId;
    var s1 := s.(nextId := s.nextId + 1);
    match tx.stage
    case InsertsCompany => Become(s1, k, tx.(stage := InsertsUnit, company := id))
    case InsertsUnit =>
      if tx.request.CreateBu? && tx.company !in s.main.companies then Abort(s, k)
      else
        Become(s1, k, tx.(stage := if tx.request.Onboard? then InsertsPerson else CallsCreateWorkspace,
                          unit := Some(Unit(id, tx.company, UnitName(tx.request)))))
    case InsertsPerson => Become(s1, k, tx.(stage := InsertsProfile, person := Some(id)))
    case InsertsProfile =>
      if tx.person.None? || tx.unit.None? || tx.request.CreateBu? then Abort(s, k)
      else
        var profile := Profile(id, tx.person.value, tx.unit.value.id, tx.request.ownerEmail, Owner);
        Become(s1, k, tx.(stage := CallsCreateWorkspace, profile := Some(profile)))
    case _ => s
  }

  function WithWorkspace(s: System, w: Workspace): System {
    s.(chat := s.chat.(workspaces := s.chat.workspaces + [w]), nextId := s.nextId + 1)
  }

  /** CreateWorkspace of the chat service: entity checks, then the unique bu_id. */
  function CreateWorkspace(s: System, k: nat, outcome: Outcome): System
    requires k < |s.txs| && s.txs[k].stage.CallsCreateWorkspace?
  {
    var tx := s.txs[k];
    if outcome.Fails? || tx.unit.None? || tx.company == NIL || UnitName(tx.request) == ""
       || HasWorkspace(s.chat, tx.unit.value.id) then Abort(s, k)
    else
      var w := Workspace(s.nextId, tx.unit.value.id, tx.company);
      var s1 := WithWorkspace(s, w);
      if outcome.FailsAfterEffect? then Abort(s1, k) else Become(s1, k, tx.(stage := CallsAddMember(w.id)))
  }

  function AddOwner(s: System, k: nat, outcome: Outcome): System
    requires k < |s.txs| && s.txs[k].stage.CallsAddMember?
  {
    var tx := s.txs[k];
    var q := AddMember(tx.stage.workspaceId, OwnerOf(tx), ADMIN);
    if outcome.Fails? || !Accepted(WorkspaceIds(s.chat), q) then Abort(s, k)
    else
      var s1 := s.(chat := s.chat.(members := Effect(WorkspaceIds(s.chat), s.chat.members, q)));
      if outcome.FailsAfterEffect? then Abort(s1, k) else Become(s1, k, tx.(stage := Commits(tx.stage.workspaceId)))
  }

  /** The rows of the transaction become visible, all at once. */
  function Merge(main: MainDb, tx: Tx): MainDb {
    MainDb(if tx.request.Onboard? then main.companies + {tx.company} else main.companies,
           main.units + (if tx.unit.Some? then [tx.unit.value] else []),
           if tx.person.Some? then main.persons[tx.person.value := tx.company] else main.persons,
           main.profiles + (if tx.profile.Some? then [tx.profile.value] else []))
  }

  /** A commit whose acknowledgement is lost is durable, and the rollback that follows has nothing left to undo. */
  function Commit(s: System, k: nat, outcome: Outcome): System
    requires k < |s.txs| && s.txs[k].stage.Commits?
  {
    var tx := s.txs[k];
    if outcome.Fails? then Abort(s, k)
    else Become(s.(main := Merge(s.main, tx)), k, tx.(stage := Committed(tx.stage.workspaceId)))
  }

  function Advance(s: System, k: nat, outcome: Outcome): System
    requires k < |s.txs| && Active(s.txs[k])
  {
    match s.txs[k].stage
    case CallsCreateWorkspace => CreateWorkspace(s, k, outcome)
    case CallsAddMember(_) => AddOwner(s, k, outcome)
    case Commits(_) => Commit(s, k, outcome)
    case _ => if outcome.Succeeds? then Insert(s, k) else Abort(s, k)
  }

  function Apply(s: System, e: Event): System
    requires Enabled(s, e)
  {
    match e
    case Arrives(q) => s.(txs := s.txs + [Begin(q, s.nextId)])
    case Advances(k, outcome) => Advance(s, k, outcome)
    case MembershipChanges(q) =>
      s.(chat := s.chat.(members := Effect(WorkspaceIds(s.chat), s.chat.members, q)))
  }

  const EMPTY: System := System(MainDb({}, [], map[], []), ChatDb([], []), [], 1)

  predicate IsRun(s: System, events: seq<Event>)
    decreases |events|, 0
  {
    events == [] ||
    (IsRun(s, events[..|events| - 1]) && Enabled(Run(s, events[..|events| - 1]), events[|events| - 1]))
  }

  function Run(s: System, events: seq<Event>): System
    requires IsRun(s, events)
    decreases |events|, 1
  {
    if events == [] then s else Apply(Run(s, events[..|events| - 1]), events[|events| - 1])
  }

  // ---------------------------------------------------------------- invariant

  /** Workspace ids and bu_ids are unique and were generated before. */
  ghost predicate WorkspacesOk(s: System) {
    && (forall i :: 0 <= i < |s.chat.workspaces| ==>
          s.chat.workspaces[i].id < s.nextId && s.chat.workspaces[i].buId < s.nextId)
    && (forall i, j :: 0 <= i < j < |s.chat.workspaces| ==>
          s.chat.workspaces[i].id != s.chat.workspaces[j].id && s.chat.workspaces[i].buId != s.chat.workspaces[j].buId)
  }

  ghost predicate MembersOk(s: System) {
    && UniqueRows(s.chat.members)
    && forall k :: 0 <= k < |s.chat.members| ==> s.chat.members[k].workspaceId in WorkspaceIds(s.chat)
  }

  /** A committed unit has a workspace. */
  ghost predicate UnitsOk(s: System) {
    && (forall i :: 0 <= i < |s.main.units| ==> s.main.units[i].id < s.nextId && HasWorkspace(s.chat, s.main.units[i].id))
    && (forall i, j :: 0 <= i < j < |s.main.units| ==> s.main.units[i].id != s.main.units[j].id)
  }

  predicate PastUnit(stage: Stage) {
    stage.InsertsPerson? || stage.InsertsProfile? || stage.CallsCreateWorkspace? || stage.CallsAddMember? || stage.Commits?
  }

  /** An active request's unit is its own, is not committed, and has a workspace only if this request made it. */
  ghost predicate TxOk(s: System, tx: Tx) {
    && (PastUnit(tx.stage) ==>
          tx.unit.Some? && tx.unit.value.id < s.nextId
          && forall i :: 0 <= i < |s.main.units| ==> s.main.units[i].id != tx.unit.value.id)
    && (tx.stage.InsertsCompany? || tx.stage.InsertsUnit? ==> tx.unit.None?)
    && (tx.stage.CallsAddMember? || tx.stage.Commits? ==>
          Workspace(tx.stage.workspaceId, tx.unit.value.id, tx.company) in s.chat.workspaces)
    && (tx.stage.CallsAddMember? ==>
          forall k :: 0 <= k < |s.chat.members| ==> s.chat.members[k].workspaceId != tx.stage.workspaceId)
    && (tx.stage.Commits? ==>
          RowOf(s.chat.members, tx.stage.workspaceId, OwnerOf(tx))
            == Some(MemberRow(tx.stage.workspaceId, OwnerOf(tx), ADMIN, true)))
  }

  ghost predicate TxsOk(s: System) {
    && (forall k :: 0 <= k < |s.txs| ==> TxOk(s, s.txs[k]))
    && (forall k, l :: 0 <= k < l < |s.txs| && s.txs[k].unit.Some? && s.txs[l].unit.Some? ==>
          s.txs[k].unit.value.id != s.txs[l].unit.value.id)
    && (forall k :: 0 <= k < |s.txs| && s.txs[k].unit.Some? ==> s.txs[k].unit.value.id < s.nextId)
  }

  ghost predicate Inv(s: System) {
    s.nextId > NIL && WorkspacesOk(s) && MembersOk(s) && UnitsOk(s) && TxsOk(s)
  }

  // ---------------------------------------------------------------- preservation

  /** An Effect only touches rows of its own workspace. */
  lemma EffectStaysInWorkspace(ids: set<Id>, rows: seq<MemberRow>, q: Membership.Request)
    requires UniqueRows(rows)
    ensures UniqueRows(Effect(ids, rows, q))
    ensures forall k :: 0 <= k < |Effect(ids, rows, q)| ==>
              var row := Effect(ids, rows, q)[k];
              (row.workspaceId == q.workspaceId && q.workspaceId in ids)
              || exists j :: 0 <= j < |rows| && rows[j].workspaceId == row.workspaceId
    ensures forall w, p :: w != q.workspaceId ==> RowOf(Effect(ids, rows, q), w, p) == RowOf(rows, w, p)
  {
    var rows' := Effect(ids, rows, q);
    EffectOnRow(ids, rows, q, q.workspaceId, q.personId);
    forall w, p | w != q.workspaceId
      ensures RowOf(rows', w, p) == RowOf(rows, w, p)
    {
      EffectOnRow(ids, rows, q, w, p);
    }
    forall k | 0 <= k < |rows'|
      ensures (rows'[k].workspaceId == q.workspaceId && q.workspaceId in ids)
              || exists j :: 0 <= j < |rows| && rows[j].workspaceId == rows'[k].workspaceId
    {
      if k < |rows| {
        assert rows[k].workspaceId == rows'[k].workspaceId;
      }
    }
  }

  lemma ArrivalKeepsInv(s: System, q: Request)
    requires Inv(s)
    ensures Inv(Apply(s, Arrives(q)))
  {
    var t := Apply(s, Arrives(q));
    forall k | 0 <= k < |t.txs|
      ensures TxOk(t, t.txs[k])
    {
      if k < |s.txs| {
        assert TxOk(s, s.txs[k]);
      }
    }
  }

  function Updated(s: System, k: nat, tx: Tx, nextId: Id): System
    requires k < |s.txs|
  {
    s.(txs := s.txs[k := tx], nextId := nextId)
  }

  /** One request moves on; the others are as they were. */
  lemma UpdateKeepsInv(s: System, k: nat, tx: Tx, nextId: Id)
    requires Inv(s) && k < |s.txs| && s.nextId <= nextId && TxOk(Updated(s, k, tx, nextId), tx)
    requires tx.unit.Some? ==> tx.unit.value.id < nextId && (tx.unit == s.txs[k].unit || tx.unit.value.id >= s.nextId)
    ensures Inv(Updated(s, k, tx, nextId))
  {
    var t := Updated(s, k, tx, nextId);
    forall j | 0 <= j < |t.txs|
      ensures TxOk(t, t.txs[j])
    {
      assert j != k ==> TxOk(s, s.txs[j]);
    }
  }

  /** Aborting a request drops its uncommitted rows and changes nothing else. */
  lemma AbortKeepsInv(s: System, k: nat)
    requires Inv(s) && k < |s.txs|
    ensures Inv(Abort(s, k))
  {
    UpdateKeepsInv(s, k, s.txs[k].(stage := RolledBack), s.nextId);
  }

  /** A new unit is nobody's yet, and not in the main database. */
  lemma UnitInsertKeepsInv(s: System, k: nat)
    requires Inv(s) && k < |s.txs| && s.txs[k].stage.InsertsUnit?
    ensures Inv(Insert(s, k))
  {
    var tx := s.txs[k];
    if tx.request.CreateBu? && tx.company !in s.main.companies {
      AbortKeepsInv(s, k);
    } else {
      var unit := Unit(s.nextId, tx.company, UnitName(tx.request));
      var stage := if tx.request.Onboard? then InsertsPerson else CallsCreateWorkspace;
      UpdateKeepsInv(s, k, tx.(stage := stage, unit := Some(unit)), s.nextId + 1);
    }
  }

  lemma OtherInsertKeepsInv(s: System, k: nat)
    requires Inv(s) && k < |s.txs|
    requires s.txs[k].stage.InsertsCompany? || s.txs[k].stage.InsertsPerson? || s.txs[k].stage.InsertsProfile?
    ensures Inv(Insert(s, k))
  {
    assert TxOk(s, s.txs[k]);
    var t := Insert(s, k);
    if t == Abort(s, k) {
      AbortKeepsInv(s, k);
    } else {
      UpdateKeepsInv(s, k, t.txs[k], s.nextId + 1);
    }
  }

  lemma InsertKeepsInv(s: System, k: nat)
    requires Inv(s) && k < |s.txs| && Active(s.txs[k])
    requires s.txs[k].stage.InsertsCompany? || s.txs[k].stage.InsertsUnit? || s.txs[k].stage.InsertsPerson? || s.txs[k].stage.InsertsProfile?
    ensures Inv(Insert(s, k))
  {
    if s.txs[k].stage.InsertsUnit? {
      UnitInsertKeepsInv(s, k);
    } else {
      OtherInsertKeepsInv(s, k);
    }
  }

  lemma IdsGrow(chat: ChatDb, w: Workspace, id: Id)
    requires id in WorkspaceIds(chat)
    ensures id in WorkspaceIds(chat.(workspaces := chat.workspaces + [w]))
  {
    var v :| v in chat.workspaces && v.id == id;
    assert v in (chat.workspaces + [w]);
  }

  lemma UnitKeepsWorkspace(chat: ChatDb, w: Workspace, buId: Id)
    requires HasWorkspace(chat, buId)
    ensures HasWorkspace(chat.(workspaces := chat.workspaces + [w]), buId)
  {
    var v :| v in chat.workspaces && v.buId == buId;
    assert v in (chat.workspaces + [w]);
  }

  /** A new workspace for the unit of one active request. */
  lemma NewWorkspaceKeepsInv(s: System, w: Workspace)
    requires Inv(s) && w.id == s.nextId && w.buId < s.nextId && !HasWorkspace(s.chat, w.buId)
    ensures Inv(WithWorkspace(s, w))
    ensures forall k :: 0 <= k < |s.chat.members| ==> s.chat.members[k].workspaceId != w.id
  {
    var t := WithWorkspace(s, w);
    forall i | 0 <= i < |s.chat.workspaces|
      ensures s.chat.workspaces[i].buId != w.buId && s.chat.workspaces[i] in t.chat.workspaces
    {
      assert s.chat.workspaces[i] in s.chat.workspaces;
    }
    forall k | 0 <= k < |s.chat.members|
      ensures s.chat.members[k].workspaceId in WorkspaceIds(t.chat) && s.chat.members[k].workspaceId != w.id
    {
      IdsGrow(s.chat, w, s.chat.members[k].workspaceId);
    }
    forall j | 0 <= j < |t.txs|
      ensures TxOk(t, t.txs[j])
    {
      assert TxOk(s, s.txs[j]);
    }
    forall i | 0 <= i < |s.main.units|
      ensures HasWorkspace(t.chat, s.main.units[i].id)
    {
      UnitKeepsWorkspace(s.chat, w, s.main.units[i].id);
    }
  }

  /** With its workspace there, the request goes on to the owner, or is rolled back although the workspace stays. */
  lemma WorkspaceCallMovesOn(s: System, k: nat, outcome: Outcome, w: Workspace)
    requires Inv(s) && k < |s.txs| && s.txs[k].stage.CallsCreateWorkspace? && s.chat.workspaces != []
    requires s.txs[k].unit.Some? && w == s.chat.workspaces[|s.chat.workspaces| - 1]
    requires w.buId == s.txs[k].unit.value.id && w.companyId == s.txs[k].company
    requires forall l :: 0 <= l < |s.chat.members| ==> s.chat.members[l].workspaceId != w.id
    ensures Inv(if outcome.FailsAfterEffect? then Abort(s, k) else Become(s, k, s.txs[k].(stage := CallsAddMember(w.id))))
  {
    if outcome.FailsAfterEffect? {
      AbortKeepsInv(s, k);
    } else {
      assert TxOk(s, s.txs[k]) && w in s.chat.workspaces;
      UpdateKeepsInv(s, k, s.txs[k].(stage := CallsAddMember(w.id)), s.nextId);
    }
  }

  lemma MadeWorkspaceKeepsInv(s: System, k: nat, outcome: Outcome, w: Workspace)
    requires Inv(s) && k < |s.txs| && s.txs[k].stage.CallsCreateWorkspace? && s.txs[k].unit.Some?
    requires w == Workspace(s.nextId, s.txs[k].unit.value.id, s.txs[k].company) && !HasWorkspace(s.chat, w.buId)
    ensures Inv(if outcome.FailsAfterEffect? then Abort(WithWorkspace(s, w), k)
                else Become(WithWorkspace(s, w), k, s.txs[k].(stage := CallsAddMember(w.id))))
  {
    assert TxOk(s, s.txs[k]);
    NewWorkspaceKeepsInv(s, w);
    WorkspaceCallMovesOn(WithWorkspace(s, w), k, outcome, w);
  }

  lemma CreateWorkspaceKeepsInv(s: System, k: nat, outcome: Outcome)
    requires Inv(s) && k < |s.txs| && s.txs[k].stage.CallsCreateWorkspace?
    ensures Inv(CreateWorkspace(s, k, outcome))
  {
    AbortKeepsInv(s, k);
    if CreateWorkspace(s, k, outcome) != Abort(s, k) {
      var tx := s.txs[k];
      MadeWorkspaceKeepsInv(s, k, outcome, Workspace(s.nextId, tx.unit.value.id, tx.company));
    }
  }

  /** Two workspaces with different business units have different ids. */
  lemma WorkspaceOfUnit(s: System, v: Workspace, w: Workspace)
    requires WorkspacesOk(s) && v in s.chat.workspaces && w in s.chat.workspaces && (v.id == w.id || v.buId == w.buId)
    ensures v == w
  {
    var i :| 0 <= i < |s.chat.workspaces| && s.chat.workspaces[i] == v;
    var j :| 0 <= j < |s.chat.workspaces| && s.chat.workspaces[j] == w;
  }

  lemma AddOwnerKeepsTx(s: System, k: nat, j: nat, members': seq<MemberRow>)
    requires Inv(s) && k < |s.txs| && j < |s.txs| && k != j && s.txs[k].stage.CallsAddMember?
    requires members' == Effect(WorkspaceIds(s.chat), s.chat.members, AddMember(s.txs[k].stage.workspaceId, OwnerOf(s.txs[k]), ADMIN))
    ensures TxOk(s.(chat := s.chat.(members := members')), s.txs[j])
  {
    var tx, other := s.txs[k], s.txs[j];
    assert TxOk(s, tx) && TxOk(s, other);
    EffectStaysInWorkspace(WorkspaceIds(s.chat), s.chat.members, AddMember(tx.stage.workspaceId, OwnerOf(tx), ADMIN));
    if other.stage.CallsAddMember? || other.stage.Commits? {
      assert tx.unit.value.id != other.unit.value.id;
      if tx.stage.workspaceId == other.stage.workspaceId {
        WorkspaceOfUnit(s, Workspace(tx.stage.workspaceId, tx.unit.value.id, tx.company),
                        Workspace(other.stage.workspaceId, other.unit.value.id, other.company));
      }
    }
  }

  /** The owner's row is the workspace's first. */
  lemma OwnerRowIsNew(s: System, k: nat)
    requires Inv(s) && k < |s.txs| && s.txs[k].stage.CallsAddMember?
    requires Accepted(WorkspaceIds(s.chat), AddMember(s.txs[k].stage.workspaceId, OwnerOf(s.txs[k]), ADMIN))
    ensures var tx := s.txs[k];
            var members := Effect(WorkspaceIds(s.chat), s.chat.members, AddMember(tx.stage.workspaceId, OwnerOf(tx), ADMIN));
            && RowOf(members, tx.stage.workspaceId, OwnerOf(tx)) == Some(MemberRow(tx.stage.workspaceId, OwnerOf(tx), ADMIN, true))
            && MembersOk(s.(chat := s.chat.(members := members)))
  {
    var tx := s.txs[k];
    var q := AddMember(tx.stage.workspaceId, OwnerOf(tx), ADMIN);
    assert TxOk(s, tx);
    EffectStaysInWorkspace(WorkspaceIds(s.chat), s.chat.members, q);
    EffectOnRow(WorkspaceIds(s.chat), s.chat.members, q, q.workspaceId, q.personId);
    assert RowOf(s.chat.members, q.workspaceId, q.personId).None?;
  }

  /** With the owner's row there, the request goes on to its commit, or is rolled back although the row stays. */
  lemma OwnerCallMovesOn(s: System, k: nat, members: seq<MemberRow>, stage: Stage)
    requires Inv(s) && k < |s.txs| && s.txs[k].stage.CallsAddMember?
    requires members == Effect(WorkspaceIds(s.chat), s.chat.members, AddMember(s.txs[k].stage.workspaceId, OwnerOf(s.txs[k]), ADMIN))
    requires Accepted(WorkspaceIds(s.chat), AddMember(s.txs[k].stage.workspaceId, OwnerOf(s.txs[k]), ADMIN))
    requires stage == RolledBack || stage == Commits(s.txs[k].stage.workspaceId)
    ensures Inv(s.(chat := s.chat.(members := members), txs := s.txs[k := s.txs[k].(stage := stage)]))
  {
    var t := s.(chat := s.chat.(members := members), txs := s.txs[k := s.txs[k].(stage := stage)]);
    OwnerRowIsNew(s, k);
    assert TxOk(s, s.txs[k]);
    forall j | 0 <= j < |t.txs|
      ensures TxOk(t, t.txs[j])
    {
      if j != k {
        AddOwnerKeepsTx(s, k, j, members);
      }
    }
  }

  lemma AddOwnerKeepsInv(s: System, k: nat, outcome: Outcome)
    requires Inv(s) && k < |s.txs| && s.txs[k].stage.CallsAddMember?
    ensures Inv(AddOwner(s, k, outcome))
  {
    var tx := s.txs[k];
    var q := AddMember(tx.stage.workspaceId, OwnerOf(tx), ADMIN);
    if outcome.Fails? || !Accepted(WorkspaceIds(s.chat), q) {
      AbortKeepsInv(s, k);
    } else {
      var members := Effect(WorkspaceIds(s.chat), s.chat.members, q);
      OwnerCallMovesOn(s, k, members, if outcome.FailsAfterEffect? then RolledBack else Commits(tx.stage.workspaceId));
    }
  }

  /** The request's unit enters the main database, together with a workspace that is there. */
  lemma MergedUnitsOk(s: System, k: nat)
    requires Inv(s) && k < |s.txs| && s.txs[k].stage.Commits?
    ensures UnitsOk(s.(main := Merge(s.main, s.txs[k])))
  {
    assert TxOk(s, s.txs[k]);
    assert Merge(s.main, s.txs[k]).units == s.main.units + [s.txs[k].unit.value];
  }

  /** No other active request has the unit that was committed. */
  lemma MergeKeepsTx(s: System, k: nat, j: nat)
    requires Inv(s) && k < |s.txs| && s.txs[k].stage.Commits? && j < |s.txs| && j != k
    ensures TxOk(s.(main := Merge(s.main, s.txs[k])), s.txs[j])
  {
    assert TxOk(s, s.txs[k]) && TxOk(s, s.txs[j]);
    assert Merge(s.main, s.txs[k]).units == s.main.units + [s.txs[k].unit.value];
  }

  lemma CommitKeepsInv(s: System, k: nat, outcome: Outcome)
    requires Inv(s) && k < |s.txs| && s.txs[k].stage.Commits?
    ensures Inv(Commit(s, k, outcome))
  {
    if outcome.Fails? {
      AbortKeepsInv(s, k);
    } else {
      var t := Commit(s, k, outcome);
      MergedUnitsOk(s, k);
      forall j | 0 <= j < |t.txs|
        ensures TxOk(t, t.txs[j])
      {
        if j != k {
          MergeKeepsTx(s, k, j);
        }
      }
    }
  }

  lemma ForeignWorkspace(s: System, workspaceId: Id, tx: Tx)
    requires WorkspacesOk(s) && TxOk(s, tx) && (tx.stage.CallsAddMember? || tx.stage.Commits?) && Reachable(s, workspaceId)
    ensures workspaceId != tx.stage.workspaceId
  {
    var w, u :| w in s.chat.workspaces && u in s.main.units && w.id == workspaceId && w.buId == u.id;
    if w.id == tx.stage.workspaceId {
      WorkspaceOfUnit(s, w, Workspace(tx.stage.workspaceId, tx.unit.value.id, tx.company));
    }
  }

  /** Nobody else can reach the workspace of a unit that is not committed yet. */
  lemma ForeignChangeKeepsTx(s: System, q: Membership.Request, j: nat)
    requires Inv(s) && Reachable(s, q.workspaceId) && j < |s.txs|
    ensures TxOk(Apply(s, MembershipChanges(q)), s.txs[j])
  {
    var tx := s.txs[j];
    assert TxOk(s, tx);
    EffectStaysInWorkspace(WorkspaceIds(s.chat), s.chat.members, q);
    if tx.stage.CallsAddMember? || tx.stage.Commits? {
      ForeignWorkspace(s, q.workspaceId, tx);
    }
  }

  lemma MembershipKeepsInv(s: System, q: Membership.Request)
    requires Inv(s) && Reachable(s, q.workspaceId)
    ensures Inv(Apply(s, MembershipChanges(q)))
  {
    var t := Apply(s, MembershipChanges(q));
    EffectStaysInWorkspace(WorkspaceIds(s.chat), s.chat.members, q);
    forall j | 0 <= j < |t.txs|
      ensures TxOk(t, t.txs[j])
    {
      ForeignChangeKeepsTx(s, q, j);
    }
  }

  lemma StepKeepsInv(s: System, e: Event)
    requires Inv(s) && Enabled(s, e)
    ensures Inv(Apply(s, e))
  {
    match e
    case Arrives(q) => ArrivalKeepsInv(s, q);
    case MembershipChanges(q) => MembershipKeepsInv(s, q);
    case Advances(k, outcome) =>
      match s.txs[k].stage
      case CallsCreateWorkspace => CreateWorkspaceKeepsInv(s, k, outcome);
      case CallsAddMember(_) => AddOwnerKeepsInv(s, k, outcome);
      case Commits(_) => CommitKeepsInv(s, k, outcome);
      case _ =>
        AbortKeepsInv(s, k);
        InsertKeepsInv(s, k);
  }

  lemma {:induction false} RunKeepsInv(events: seq<Event>)
    requires IsRun(EMPTY, events)
    ensures Inv(Run(EMPTY, events))
    decreases |events|
  {
    if events != [] {
      RunKeepsInv(events[..|events| - 1]);
      StepKeepsInv(Run(EMPTY, events[..|events| - 1]), events[|events| - 1]);
    }
  }

  // ---------------------------------------------------------------- results over all runs

  /** A business unit has exactly one chat workspace. */
  ghost predicate HasOneWorkspace(chat: ChatDb, buId: Id) {
    && HasWorkspace(chat, buId)
    && forall v, w :: v in chat.workspaces && w in chat.workspaces && v.buId == buId && w.buId == buId ==> v == w
  }

  /** The person is an Admin member with access in the unit's workspace. */
  ghost predicate IsChatAdmin(chat: ChatDb, buId: Id, person: Id) {
    exists w :: w in chat.workspaces && w.buId == buId
                && RowOf(chat.members, w.id, person) == Some(MemberRow(w.id, person, ADMIN, true))
  }

  /** The n-th event commits the unit, and right after it the request's owner is chat Admin with access. */
  ghost predicate CommittedAt(events: seq<Event>, n: nat, u: Unit)
    requires n < |events| && IsRun(EMPTY, events[..n]) && IsRun(EMPTY, events[..n + 1])
  {
    var s, t := Run(EMPTY, events[..n]), Run(EMPTY, events[..n + 1]);
    && u !in s.main.units && u in t.main.units
    && events[n].Advances? && events[n].k < |s.txs|
    && s.txs[events[n].k].stage.Commits? && s.txs[events[n].k].unit == Some(u)
    && IsChatAdmin(t.chat, u.id, OwnerOf(s.txs[events[n].k]))
  }

  ghost predicate WasCommitted(events: seq<Event>, u: Unit) {
    exists n :: 0 <= n < |events| && IsRun(EMPTY, events[..n]) && IsRun(EMPTY, events[..n + 1]) && CommittedAt(events, n, u)
  }

  lemma OnlyCommitsAddUnits(s: System, e: Event, u: Unit)
    requires Inv(s) && Enabled(s, e) && u !in s.main.units && u in Apply(s, e).main.units
    ensures e.Advances? && s.txs[e.k].stage.Commits? && s.txs[e.k].unit == Some(u)
    ensures Apply(s, e).chat == s.chat
  {
  }

  lemma RunSnoc(events: seq<Event>, e: Event)
    requires IsRun(EMPTY, events) && Enabled(Run(EMPTY, events), e)
    ensures IsRun(EMPTY, events + [e]) && Run(EMPTY, events + [e]) == Apply(Run(EMPTY, events), e)
  {
    assert (events + [e])[..|events|] == events;
  }

  lemma LastEventCommits(front: seq<Event>, e: Event, u: Unit)
    requires IsRun(EMPTY, front) && Enabled(Run(EMPTY, front), e)
    requires u !in Run(EMPTY, front).main.units && u in Apply(Run(EMPTY, front), e).main.units
    ensures WasCommitted(front + [e], u)
  {
    var events, s := front + [e], Run(EMPTY, front);
    RunSnoc(front, e);
    RunKeepsInv(front);
    assert events[..|front|] == front && events[..|front| + 1] == events;
    OnlyCommitsAddUnits(s, e, u);
    var tx := s.txs[e.k];
    assert TxOk(s, tx);
    assert Workspace(tx.stage.workspaceId, u.id, tx.company) in Run(EMPTY, events).chat.workspaces;
    assert CommittedAt(events, |front|, u);
  }

  lemma CommitIsRemembered(front: seq<Event>, e: Event, u: Unit)
    requires WasCommitted(front, u)
    ensures WasCommitted(front + [e], u)
  {
    var events := front + [e];
    var n :| 0 <= n < |front| && IsRun(EMPTY, front[..n]) && IsRun(EMPTY, front[..n + 1]) && CommittedAt(front, n, u);
    assert front[..n] == events[..n] && front[..n + 1] == events[..n + 1] && front[n] == events[n];
    assert CommittedAt(events, n, u);
  }

  lemma {:induction false} UnitsWereCommitted(events: seq<Event>, u: Unit)
    requires IsRun(EMPTY, events) && u in Run(EMPTY, events).main.units
    ensures WasCommitted(events, u)
    decreases |events|
  {
    assert events != [];
    var front, e := events[..|events| - 1], events[|events| - 1];
    assert front + [e] == events;
    if u in Run(EMPTY, front).main.units {
      UnitsWereCommitted(front, u);
      CommitIsRemembered(front, e, u);
    } else {
      LastEventCommits(front, e, u);
    }
  }

  /**
    Over all runs, with any step failing, a remote call or a commit taking effect and still being
    reported as failed, and other requests in between: every committed business unit has exactly one
    chat workspace, and when it was committed its owner was an Admin member with access.
   */
  lemma NoOrphanUnits(events: seq<Event>, u: Unit)
    requires IsRun(EMPTY, events) && u in Run(EMPTY, events).main.units
    ensures HasOneWorkspace(Run(EMPTY, events).chat, u.id)
    ensures WasCommitted(events, u)
  {
    var s := Run(EMPTY, events);
    RunKeepsInv(events);
    UnitsWereCommitted(events, u);
    forall v, w | v in s.chat.workspaces && w in s.chat.workspaces && v.buId == u.id && w.buId == u.id
      ensures v == w
    {
      WorkspaceOfUnit(s, v, w);
    }
  }

  // ---------------------------------------------------------------- which workspaces are orphans

  /** The request for whose business unit the workspace exists. */
  predicate Made(tx: Tx, w: Workspace) {
    tx.unit.Some? && tx.unit.value.id == w.buId
  }

  predicate HasCommitted(tx: Tx, u: Unit) {
    tx.stage.Committed? && tx.unit == Some(u)
  }

  ghost predicate Traced(s: System) {
    && (forall w :: w in s.chat.workspaces ==> exists k :: 0 <= k < |s.txs| && Made(s.txs[k], w))
    && (forall u :: u in s.main.units ==> exists k :: 0 <= k < |s.txs| && HasCommitted(s.txs[k], u))
    && (forall k :: 0 <= k < |s.txs| && s.txs[k].stage.Committed? ==>
          s.txs[k].unit.Some? && s.txs[k].unit.value in s.main.units)
  }

  /** What a step does to the lists that Traced relates. */
  lemma AdvanceShape(s: System, k: nat, outcome: Outcome)
    requires Inv(s) && k < |s.txs| && Active(s.txs[k])
    ensures var t := Advance(s, k, outcome);
            && t.txs == s.txs[k := t.txs[k]]
            && (s.txs[k].unit.Some? ==> t.txs[k].unit == s.txs[k].unit)
            && (t.chat.workspaces == s.chat.workspaces
                || (exists w :: t.chat.workspaces == s.chat.workspaces + [w] && Made(s.txs[k], w)))
            && ((t.main.units == s.main.units && !t.txs[k].stage.Committed?)
                || (exists u :: t.main.units == s.main.units + [u] && HasCommitted(t.txs[k], u)))
  {
    assert TxOk(s, s.txs[k]);
  }

  lemma AdvanceKeepsTraced(s: System, k: nat, outcome: Outcome)
    requires Inv(s) && Traced(s) && k < |s.txs| && Active(s.txs[k])
    ensures Traced(Advance(s, k, outcome))
  {
    var t := Advance(s, k, outcome);
    AdvanceShape(s, k, outcome);
    forall w | w in t.chat.workspaces
      ensures exists j :: 0 <= j < |t.txs| && Made(t.txs[j], w)
    {
      if w in s.chat.workspaces {
        var j :| 0 <= j < |s.txs| && Made(s.txs[j], w);
        assert Made(t.txs[j], w);
      } else {
        assert Made(t.txs[k], w);
      }
    }
    forall u | u in t.main.units
      ensures exists j :: 0 <= j < |t.txs| && HasCommitted(t.txs[j], u)
    {
      if u in s.main.units {
        var j :| 0 <= j < |s.txs| && HasCommitted(s.txs[j], u);
        assert j != k && HasCommitted(t.txs[j], u);
      } else {
        assert HasCommitted(t.txs[k], u);
      }
    }
  }

  lemma {:induction false} RunIsTraced(events: seq<Event>)
    requires IsRun(EMPTY, events)
    ensures Traced(Run(EMPTY, events))
    decreases |events|
  {
    if events != [] {
      var front, e := events[..|events| - 1], events[|events| - 1];
      var s, t := Run(EMPTY, front), Run(EMPTY, events);
      RunIsTraced(front);
      RunKeepsInv(front);
      if e.Advances? {
        AdvanceKeepsTraced(s, e.k, e.outcome);
      } else {
        assert forall j :: 0 <= j < |s.txs| ==> t.txs[j] == s.txs[j];
        assert t.chat.workspaces == s.chat.workspaces && t.main == s.main;
      }
    }
  }

  /**
    Exactly which workspaces are orphans: each workspace was made for the unit of one request, and
    the unit is in the main database if and only if that request committed.
   */
  lemma OrphansAreUncommitted(events: seq<Event>, w: Workspace) returns (k: nat)
    requires IsRun(EMPTY, events) && w in Run(EMPTY, events).chat.workspaces
    ensures var s := Run(EMPTY, events);
            && k < |s.txs| && Made(s.txs[k], w)
            && (forall j :: 0 <= j < |s.txs| && Made(s.txs[j], w) ==> j == k)
            && ((exists u :: u in s.main.units && u.id == w.buId) <==> s.txs[k].stage.Committed?)
  {
    var s := Run(EMPTY, events);
    RunKeepsInv(events);
    RunIsTraced(events);
    k :| 0 <= k < |s.txs| && Made(s.txs[k], w);
    forall u | u in s.main.units && u.id == w.buId
      ensures s.txs[k].stage.Committed?
    {
      var j :| 0 <= j < |s.txs| && HasCommitted(s.txs[j], u);
    }
  }

  const ORPHANED: Tx := Tx(Onboard("Acme", "a@acme"), CallsCreateWorkspace, 1, Some(Unit(2, 1, "Acme HQ")), Some(3),
                           Some(Profile(4, 3, 2, "a@acme", Owner)))

  /** An onboarding that got as far as the chat calls. */
  lemma OnboardingReachesChat() returns (events: seq<Event>)
    ensures IsRun(EMPTY, events)
    ensures Run(EMPTY, events) == System(EMPTY.main, EMPTY.chat, [ORPHANED], 5)
  {
    assert "Acme" + " HQ" == "Acme HQ";
    RunSnoc([], Arrives(Onboard("Acme", "a@acme")));
    var e1 := [] + [Arrives(Onboard("Acme", "a@acme"))];
    RunSnoc(e1, Advances(0, Succeeds));
    var e2 := e1 + [Advances(0, Succeeds)];
    RunSnoc(e2, Advances(0, Succeeds));
    var e3 := e2 + [Advances(0, Succeeds)];
    RunSnoc(e3, Advances(0, Succeeds));
    var e4 := e3 + [Advances(0, Succeeds)];
    RunSnoc(e4, Advances(0, Succeeds));
    events := e4 + [Advances(0, Succeeds)];
    assert Run(EMPTY, events).txs == [ORPHANED];
  }

  /** The other direction fails: a workspace may be left without a business unit. */
  lemma OrphanWorkspaceIsPossible() returns (events: seq<Event>)
    ensures IsRun(EMPTY, events)
    ensures var s := Run(EMPTY, events);
            && |s.chat.workspaces| == 1 && s.main.units == [] && s.main.companies == {}
            && |s.txs| == 1 && s.txs[0].stage.RolledBack?
  {
    var e5 := OnboardingReachesChat();
    RunSnoc(e5, Advances(0, FailsAfterEffect));
    events := e5 + [Advances(0, FailsAfterEffect)];
  }
}

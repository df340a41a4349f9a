/**
  OnboardAsync and CreateAsync as the backend runs them: ordered inserts inside a transaction, then
  the two chat calls, then the commit.  Each statement takes a step of the interleaved machine of
  Provisioning, so what that machine proves of all runs holds of the fields here.
 */
module ProvisioningServices {
  import opened Entities
  import opened Membership
  import opened Provisioning
  import T = Tenancy

  /** What goes wrong in one request: each field is the fate of one statement. */
  datatype Faults = Faults(
    company: bool,
    unit: bool,
    person: bool,
    profile: bool,
    workspace: Outcome,
    member: Outcome,
    commit: Outcome)

  datatype Onboarded = Onboarded(companyId: Id, buId: Id, personId: Id)

  function OutcomeOf(fails: bool): Outcome {
    if fails then Fails else Succeeds
  }

  /** Neither the unit's insert nor a remote call nor the commit fails. */
  predicate NoFault(faults: Faults) {
    !faults.unit && faults.workspace.Succeeds? && faults.member.Succeeds? && faults.commit.Succeeds?
  }

  function OnboardedRows(main: MainDb, companyName: string, ownerEmail: string, made: Onboarded, profileId: Id): MainDb {
    MainDb(main.companies + {made.companyId},
           main.units + [Unit(made.buId, made.companyId, companyName + " HQ")],
           main.persons[made.personId := made.companyId],
           main.profiles + [Profile(profileId, made.personId, made.buId, ownerEmail, Owner)])
  }

  /** The rows that an onboarding makes get the ids after `nextId`. */
  function FreshIds(nextId: Id): Onboarded {
    Onboarded(nextId, nextId + 1, nextId + 2)
  }

  /** What a request may leave in the chat database: nothing, its workspace, or its workspace with the Admin. */
  predicate IsLeftover(before: ChatDb, after: ChatDb, w: Workspace, owner: Id) {
    || after == before
    || after == ChatDb(before.workspaces + [w], before.members)
    || after == ChatDb(before.workspaces + [w], before.members + [MemberRow(w.id, owner, "Admin", true)])
  }

  /** The rows after an onboarding are those that Tenancy expects of one with this fate. */
  predicate HasFate(d: T.Directory, companyName: string, ownerEmail: string, fate: T.Fate, main: MainDb, chat: ChatDb) {
    var after := T.AfterOnboard(d, companyName, ownerEmail, fate);
    main == after.main && chat == after.chat
  }

  lemma OnboardingHasFate(d: T.Directory, companyName: string, ownerEmail: string, main: MainDb, chat: ChatDb) returns (fate: T.Fate)
    requires IsLeftover(d.chat, chat, Workspace(d.nextId + 4, d.nextId + 1, d.nextId), d.nextId + 2)
    requires main == d.main
             || (main == OnboardedRows(d.main, companyName, ownerEmail, FreshIds(d.nextId), d.nextId + 3)
                 && chat == ChatDb(d.chat.workspaces + [Workspace(d.nextId + 4, d.nextId + 1, d.nextId)],
                                   d.chat.members + [MemberRow(d.nextId + 4, d.nextId + 2, "Admin", true)]))
    ensures HasFate(d, companyName, ownerEmail, fate, main, chat) && (main != d.main ==> fate == T.Fate.Commits)
  {
    if main != d.main {
      fate := T.Fate.Commits;
    } else if chat == d.chat {
      fate := T.LeavesNothing;
    } else {
      fate := T.LeavesWorkspace(chat.members != d.chat.members);
    }
  }

  /** The same for the creation of a unit. */
  predicate HasUnitFate(d: T.Directory, companyId: Id, owner: Id, name: string, fate: T.Fate, main: MainDb, chat: ChatDb) {
    var after := T.AfterCreateBu(d, companyId, owner, name, fate);
    main == after.main && chat == after.chat
  }

  lemma CreationHasFate(d: T.Directory, companyId: Id, owner: Id, name: string, main: MainDb, chat: ChatDb) returns (fate: T.Fate)
    requires T.HasPerson(d.main, owner, companyId)
    requires IsLeftover(d.chat, chat, Workspace(d.nextId + 1, d.nextId, companyId), owner)
    requires companyId !in d.main.companies || name == "" ==> main == d.main && chat == d.chat
    requires main == d.main
             || (main == d.main.(units := d.main.units + [Unit(d.nextId, companyId, name)])
                 && chat == ChatDb(d.chat.workspaces + [Workspace(d.nextId + 1, d.nextId, companyId)],
                                   d.chat.members + [MemberRow(d.nextId + 1, owner, "Admin", true)]))
    ensures HasUnitFate(d, companyId, owner, name, fate, main, chat) && (main != d.main ==> fate == T.Fate.Commits)
  {
    if main != d.main {
      fate := T.Fate.Commits;
    } else if chat == d.chat {
      fate := T.LeavesNothing;
    } else {
      fate := T.LeavesWorkspace(chat.members != d.chat.members);
    }
  }

  /** A run with the states that it goes through. */
  ghost predicate StepsAt(events: seq<Event>, states: seq<System>, n: nat)
    requires |states| == |events| + 1 && n < |events|
  {
    Enabled(states[n], events[n]) && states[n + 1] == Apply(states[n], events[n])
  }

  ghost predicate IsTrace(events: seq<Event>, states: seq<System>) {
    |states| == |events| + 1 && states[0] == EMPTY && forall n: nat :: n < |events| ==> StepsAt(events, states, n)
  }

  lemma TraceSnoc(events: seq<Event>, states: seq<System>, e: Event)
    requires IsTrace(events, states) && Enabled(states[|events|], e)
    ensures IsTrace(events + [e], states + [Apply(states[|events|], e)])
  {
    forall n: nat | n < |events + [e]|
      ensures StepsAt(events + [e], states + [Apply(states[|events|], e)], n)
    {
      assert n < |events| ==> StepsAt(events, states, n);
    }
  }

  lemma {:induction false} TraceIsRun(events: seq<Event>, states: seq<System>, n: nat)
    requires IsTrace(events, states) && n <= |events|
    ensures IsRun(EMPTY, events[..n]) && Run(EMPTY, events[..n]) == states[n]
    decreases n
  {
    if n > 0 {
      TraceIsRun(events, states, n - 1);
      assert StepsAt(events, states, n - 1);
      RunSnoc(events[..n - 1], events[n - 1]);
      assert events[..n - 1] + [events[n - 1]] == events[..n];
    }
  }

  lemma ReachedIsOk(events: seq<Event>, states: seq<System>)
    requires IsTrace(events, states)
    ensures Inv(states[|events|])
  {
    TraceIsRun(events, states, |events|);
    RunKeepsInv(events[..|events|]);
  }

  /** A unit that is still to be made has no workspace. */
  lemma FutureUnitsAreBare(events: seq<Event>, states: seq<System>)
    requires IsTrace(events, states)
    ensures var s := states[|events|]; s.nextId > NIL && forall buId: Id :: buId >= s.nextId ==> !HasWorkspace(s.chat, buId)
  {
    var s := states[|events|];
    ReachedIsOk(events, states);
    forall buId: Id | buId >= s.nextId
      ensures !HasWorkspace(s.chat, buId)
    {
    }
  }

  /** The open transaction of a request is the last to have begun. */
  predicate IsLast(s: System, tx: Tx) {
    s.txs != [] && s.txs[|s.txs| - 1] == tx && Active(tx)
  }

  /** The last request moves on to its next stage, with what it left in the chat database. */
  function MovedOn(s: System, chat: ChatDb, nextId: Id, tx: Tx): System
    requires s.txs != []
  {
    System(s.main, chat, s.txs[|s.txs| - 1 := tx], nextId)
  }

  function LastStep(s: System, outcome: Outcome): System
    requires s.txs != [] && Active(s.txs[|s.txs| - 1])
  {
    Advance(s, |s.txs| - 1, outcome)
  }

  lemma CompanyStep(s: System, tx: Tx, fails: bool)
    requires IsLast(s, tx) && tx.stage.InsertsCompany?
    ensures LastStep(s, OutcomeOf(fails))
            == if fails then MovedOn(s, s.chat, s.nextId, tx.(stage := RolledBack))
               else MovedOn(s, s.chat, s.nextId + 1, tx.(stage := InsertsUnit, company := s.nextId))
  {
  }

  lemma UnitStep(s: System, tx: Tx, fails: bool)
    requires IsLast(s, tx) && tx.stage.InsertsUnit?
    ensures LastStep(s, OutcomeOf(fails))
            == if fails || (tx.request.CreateBu? && tx.company !in s.main.companies)
               then MovedOn(s, s.chat, s.nextId, tx.(stage := RolledBack))
               else MovedOn(s, s.chat, s.nextId + 1,
                            tx.(stage := if tx.request.Onboard? then InsertsPerson else CallsCreateWorkspace,
                                unit := Some(Unit(s.nextId, tx.company, UnitName(tx.request)))))
  {
  }

  lemma PersonStep(s: System, tx: Tx, fails: bool)
    requires IsLast(s, tx) && tx.stage.InsertsPerson?
    ensures LastStep(s, OutcomeOf(fails))
            == if fails then MovedOn(s, s.chat, s.nextId, tx.(stage := RolledBack))
               else MovedOn(s, s.chat, s.nextId + 1, tx.(stage := InsertsProfile, person := Some(s.nextId)))
  {
  }

  lemma ProfileStep(s: System, tx: Tx, fails: bool)
    requires IsLast(s, tx) && tx.stage.InsertsProfile? && tx.request.Onboard? && tx.person.Some? && tx.unit.Some?
    ensures var profile := Profile(s.nextId, tx.person.value, tx.unit.value.id, tx.request.ownerEmail, Owner);
            LastStep(s, OutcomeOf(fails))
            == if fails then MovedOn(s, s.chat, s.nextId, tx.(stage := RolledBack))
               else MovedOn(s, s.chat, s.nextId + 1, tx.(stage := CallsCreateWorkspace, profile := Some(profile)))
  {
  }

  lemma WorkspaceStep(s: System, tx: Tx, outcome: Outcome)
    requires IsLast(s, tx) && tx.stage.CallsCreateWorkspace? && tx.unit.Some?
    ensures var w := Workspace(s.nextId, tx.unit.value.id, tx.company);
            var chat := s.chat.(workspaces := s.chat.workspaces + [w]);
            LastStep(s, outcome)
            == if outcome.Fails? || tx.company == NIL || UnitName(tx.request) == "" || HasWorkspace(s.chat, w.buId)
               then MovedOn(s, s.chat, s.nextId, tx.(stage := RolledBack))
               else MovedOn(s, chat, s.nextId + 1,
                            tx.(stage := if outcome.Succeeds? then CallsAddMember(w.id) else RolledBack))
  {
  }

  lemma MemberStep(s: System, tx: Tx, outcome: Outcome)
    requires IsLast(s, tx) && tx.stage.CallsAddMember?
    ensures var q := AddMember(tx.stage.workspaceId, OwnerOf(tx), ADMIN);
            var chat := s.chat.(members := Effect(WorkspaceIds(s.chat), s.chat.members, q));
            LastStep(s, outcome)
            == if outcome.Fails? || !Accepted(WorkspaceIds(s.chat), q)
               then MovedOn(s, s.chat, s.nextId, tx.(stage := RolledBack))
               else MovedOn(s, chat, s.nextId,
                            tx.(stage := if outcome.Succeeds? then Commits(tx.stage.workspaceId) else RolledBack))
  {
  }

  /** The owner's row after an accepted call for the last request. */
  lemma OwnerRow(s: System, tx: Tx)
    requires Inv(s) && IsLast(s, tx) && tx.stage.CallsAddMember?
    requires Accepted(WorkspaceIds(s.chat), AddMember(tx.stage.workspaceId, OwnerOf(tx), ADMIN))
    ensures RowOf(Effect(WorkspaceIds(s.chat), s.chat.members, AddMember(tx.stage.workspaceId, OwnerOf(tx), ADMIN)),
                  tx.stage.workspaceId, OwnerOf(tx))
            == Some(MemberRow(tx.stage.workspaceId, OwnerOf(tx), ADMIN, true))
  {
    OwnerRowIsNew(s, |s.txs| - 1);
  }

  lemma CommitStep(s: System, tx: Tx, outcome: Outcome)
    requires IsLast(s, tx) && tx.stage.Commits?
    ensures LastStep(s, outcome)
            == if outcome.Fails? then MovedOn(s, s.chat, s.nextId, tx.(stage := RolledBack))
               else MovedOn(s, s.chat, s.nextId, tx.(stage := Committed(tx.stage.workspaceId))).(main := Merge(s.main, tx))
  {
  }

  class Backend {
    var main: MainDb
    var pending: MainDb
    var chat: ChatDb
    var nextId: Id

    ghost var txs: seq<Tx>
    ghost var events: seq<Event>
    ghost var states: seq<System>

    ghost function State(): System
      reads this
    {
      System(main, chat, txs, nextId)
    }

    /** The fields are a state that the interleaved machine reaches. */
    ghost predicate Valid()
      reads this
    {
      IsTrace(events, states) && states[|events|] == State()
    }

    /** The open transaction sees the committed rows and its own. */
    ghost predicate InTransaction(tx: Tx)
      reads this
    {
      && Valid() && IsLast(State(), tx)
      && pending == if tx.stage.InsertsCompany? then main else Merge(main, tx)
    }

    constructor ()
      ensures Valid() && State() == EMPTY
    {
      main, pending, chat, nextId := EMPTY.main, EMPTY.main, EMPTY.chat, EMPTY.nextId;
      txs, events, states := [], [], [EMPTY];
    }

    ghost method Record(e: Event, was: System)
      requires IsTrace(events, states) && states[|events|] == was && Enabled(was, e)
      requires Apply(was, e) == System(main, chat, Apply(was, e).txs, nextId)
      modifies this`events, this`states, this`txs
      ensures Valid() && events == old(events) + [e]
      ensures State() == Apply(was, e)
    {
      TraceSnoc(events, states, e);
      events, states := events + [e], states + [Apply(was, e)];
      txs := Apply(was, e).txs;
    }

    /** The last request's statement, whose result is the machine's next state. */
    ghost method Step(outcome: Outcome, was: System, next: System)
      requires IsTrace(events, states) && states[|events|] == was
      requires was.txs != [] && Active(was.txs[|was.txs| - 1]) && next == LastStep(was, outcome)
      requires next.main == main && next.chat == chat && next.nextId == nextId
      modifies this`events, this`states, this`txs
      ensures Valid() && State() == next
    {
      Record(Advances(|was.txs| - 1, outcome), was);
    }

    method BeginTransaction(ghost q: Provisioning.Request)
      requires Valid()
      modifies this
      ensures InTransaction(Begin(q, old(nextId)))
      ensures main == old(main) && chat == old(chat) && nextId == old(nextId)
    {
      ghost var was := State();
      pending := main;
      Record(Arrives(q), was);
    }

    method RollbackTransaction()
      requires Valid()
      modifies this`pending
      ensures Valid() && pending == main
    {
      pending := main;
    }

    method CommitTransaction(commit: Outcome, ghost tx: Tx) returns (acknowledged: bool)
      requires InTransaction(tx) && tx.stage.Commits?
      modifies this
      ensures Valid() && chat == old(chat) && nextId == old(nextId)
      ensures acknowledged == commit.Succeeds?
      ensures main == if commit.Fails? then old(main) else old(pending)
    {
      ghost var was := State();
      CommitStep(was, tx, commit);
      if !commit.Fails? {
        main := pending;
      }
      Step(commit, was, LastStep(was, commit));
      acknowledged := commit.Succeeds?;
    }

    method AddCompany(fails: bool, ghost tx: Tx) returns (ok: bool, id: Id)
      requires InTransaction(tx) && tx.stage.InsertsCompany? && tx.request.Onboard?
      requires tx.unit.None? && tx.person.None? && tx.profile.None?
      modifies this
      ensures main == old(main) && chat == old(chat) && nextId == old(nextId) + (if ok then 1 else 0) && Valid() && ok == !fails
      ensures ok ==> id == old(nextId) && InTransaction(tx.(stage := InsertsUnit, company := id))
    {
      ghost var was := State();
      CompanyStep(was, tx, fails);
      id := nextId;
      ok := !fails;
      if ok {
        nextId := nextId + 1;
        pending := pending.(companies := main.companies + {id});
      }
      Step(OutcomeOf(fails), was, LastStep(was, OutcomeOf(fails)));
    }

    /** The company is a foreign key. */
    method AddUnit(fails: bool, companyId: Id, name: string, ghost tx: Tx) returns (ok: bool, id: Id)
      requires InTransaction(tx) && tx.stage.InsertsUnit? && tx.company == companyId && name == UnitName(tx.request)
      requires tx.unit.None?
      modifies this
      ensures main == old(main) && chat == old(chat) && nextId == old(nextId) + (if ok then 1 else 0) && Valid()
      ensures ok <==> !fails && companyId in old(pending).companies
      ensures ok ==>
                id == old(nextId)
                && InTransaction(tx.(stage := if tx.request.Onboard? then InsertsPerson else CallsCreateWorkspace,
                                     unit := Some(Unit(id, companyId, name))))
    {
      ghost var was := State();
      UnitStep(was, tx, fails);
      id := nextId;
      ok := !fails && companyId in pending.companies;
      if ok {
        nextId := nextId + 1;
        pending := pending.(units := pending.units + [Unit(id, companyId, name)]);
      }
      Step(OutcomeOf(fails), was, LastStep(was, OutcomeOf(fails)));
    }

    method AddPerson(fails: bool, companyId: Id, ghost tx: Tx) returns (ok: bool, id: Id)
      requires InTransaction(tx) && tx.stage.InsertsPerson? && tx.company == companyId && tx.person.None?
      modifies this
      ensures main == old(main) && chat == old(chat) && nextId == old(nextId) + (if ok then 1 else 0) && Valid() && ok == !fails
      ensures ok ==> id == old(nextId) && InTransaction(tx.(stage := InsertsProfile, person := Some(id)))
    {
      ghost var was := State();
      PersonStep(was, tx, fails);
      id := nextId;
      ok := !fails;
      if ok {
        nextId := nextId + 1;
        pending := pending.(persons := pending.persons[id := companyId]);
      }
      Step(OutcomeOf(fails), was, LastStep(was, OutcomeOf(fails)));
    }

    method AddProfile(fails: bool, personId: Id, buId: Id, email: string, ghost tx: Tx) returns (ok: bool, id: Id)
      requires InTransaction(tx) && tx.stage.InsertsProfile? && tx.profile.None? && tx.request.Onboard? && tx.request.ownerEmail == email
      requires tx.person == Some(personId) && tx.unit.Some? && tx.unit.value.id == buId
      modifies this
      ensures main == old(main) && chat == old(chat) && nextId == old(nextId) + (if ok then 1 else 0) && Valid() && ok == !fails
      ensures ok ==>
                id == old(nextId)
                && InTransaction(tx.(stage := CallsCreateWorkspace, profile := Some(Profile(id, personId, buId, email, Owner))))
    {
      ghost var was := State();
      ProfileStep(was, tx, fails);
      id := nextId;
      ok := !fails;
      if ok {
        nextId := nextId + 1;
        pending := pending.(profiles := pending.profiles + [Profile(id, personId, buId, email, Owner)]);
      }
      Step(OutcomeOf(fails), was, LastStep(was, OutcomeOf(fails)));
    }

    /** The remote call that makes the workspace; it is not undone by a rollback. */
    method CreateWorkspace(outcome: Outcome, buId: Id, companyId: Id, name: string, ghost tx: Tx)
      returns (ok: bool, id: Id)
      requires InTransaction(tx) && tx.stage.CallsCreateWorkspace? && name == UnitName(tx.request)
      requires tx.unit.Some? && tx.unit.value.id == buId && tx.company == companyId
      modifies this
      ensures main == old(main) && Valid() && chat.members == old(chat).members
      ensures chat.workspaces == old(chat).workspaces
              || chat.workspaces == old(chat).workspaces + [Workspace(old(nextId), buId, companyId)]
      ensures ok ==>
                id == old(nextId) && InTransaction(tx.(stage := CallsAddMember(id)))
                && chat.workspaces == old(chat).workspaces + [Workspace(id, buId, companyId)] && nextId == old(nextId) + 1
      ensures ok <==> outcome.Succeeds? && companyId != NIL && name != "" && !HasWorkspace(old(chat), buId)
      ensures name == "" ==> chat == old(chat)
    {
      ghost var was := State();
      WorkspaceStep(was, tx, outcome);
      id := nextId;
      var accepted := !outcome.Fails? && companyId != NIL && name != "" && !HasWorkspace(chat, buId);
      if accepted {
        nextId := nextId + 1;
        chat := chat.(workspaces := chat.workspaces + [Workspace(id, buId, companyId)]);
      }
      ok := accepted && outcome.Succeeds?;
      Step(outcome, was, LastStep(was, outcome));
    }

    method AddWorkspaceMember(outcome: Outcome, workspaceId: Id, personId: Id, ghost tx: Tx) returns (ok: bool)
      requires InTransaction(tx) && tx.stage == CallsAddMember(workspaceId) && personId == OwnerOf(tx)
      modifies this
      ensures main == old(main) && Valid() && chat.workspaces == old(chat).workspaces
      ensures ok <==> outcome.Succeeds? && personId != NIL && workspaceId != NIL && workspaceId in WorkspaceIds(old(chat))
      ensures nextId == old(nextId)
      ensures chat.members == old(chat).members || chat.members == old(chat).members + [MemberRow(workspaceId, personId, "Admin", true)]
      ensures ok ==> chat.members == old(chat).members + [MemberRow(workspaceId, personId, "Admin", true)]
      ensures ok ==>
                InTransaction(tx.(stage := Commits(workspaceId)))
                && RowOf(chat.members, workspaceId, personId) == Some(MemberRow(workspaceId, personId, ADMIN, true))
    {
      ghost var was := State();
      MemberStep(was, tx, outcome);
      var q := AddMember(workspaceId, personId, ADMIN);
      var accepted := !outcome.Fails? && Accepted(WorkspaceIds(chat), q);
      if accepted {
        ReachedIsOk(events, states);
        OwnerRow(was, tx);
        chat := chat.(members := Effect(WorkspaceIds(chat), chat.members, q));
      }
      ok := accepted && outcome.Succeeds?;
      Step(outcome, was, LastStep(was, outcome));
    }

    /** The inserts of an onboarding, in order. */
    method InsertOnboardingRows(companyName: string, ownerEmail: string, faults: Faults)
      returns (ok: bool, made: Onboarded, ghost tx: Tx)
      requires InTransaction(Begin(Onboard(companyName, ownerEmail), nextId))
      modifies this
      ensures Valid() && main == old(main) && chat == old(chat)
      ensures ok <==> !faults.company && !faults.unit && !faults.person && !faults.profile
      ensures ok ==> made == FreshIds(old(nextId)) && nextId == old(nextId) + 4
      ensures ok ==>
                && tx == Tx(Onboard(companyName, ownerEmail), CallsCreateWorkspace, made.companyId,
                            Some(Unit(made.buId, made.companyId, companyName + " HQ")),
                            Some(made.personId), Some(Profile(old(nextId) + 3, made.personId, made.buId, ownerEmail, Owner)))
                && InTransaction(tx)
    {
      tx := Begin(Onboard(companyName, ownerEmail), nextId);
      var company, unit, person, profile := NIL, NIL, NIL, NIL;
      ok, company := AddCompany(faults.company, tx);
      if ok {
        tx := tx.(stage := InsertsUnit, company := company);
        ok, unit := AddUnit(faults.unit, company, companyName + " HQ", tx);
      }
      if ok {
        tx := tx.(stage := InsertsPerson, unit := Some(Unit(unit, company, companyName + " HQ")));
        ok, person := AddPerson(faults.person, company, tx);
      }
      if ok {
        tx := tx.(stage := InsertsProfile, person := Some(person));
        ok, profile := AddProfile(faults.profile, person, unit, ownerEmail, tx);
      }
      if ok {
        tx := tx.(stage := CallsCreateWorkspace, profile := Some(Profile(profile, person, unit, ownerEmail, Owner)));
      }
      made := Onboarded(company, unit, person);
    }

    /** The two chat calls that both services make before they commit. */
    method Provision(unit: Unit, ownerId: Id, faults: Faults, ghost tx: Tx) returns (ok: bool, ghost ready: Tx)
      requires InTransaction(tx) && tx.stage.CallsCreateWorkspace? && tx.unit == Some(unit)
      requires unit.companyId == tx.company && unit.name == UnitName(tx.request) && ownerId == OwnerOf(tx)
      modifies this
      ensures Valid() && main == old(main)
      ensures ok <==>
              && faults.workspace.Succeeds? && faults.member.Succeeds?
              && unit.companyId != NIL && unit.name != "" && ownerId != NIL && !HasWorkspace(old(chat), unit.id)
      ensures ok ==>
                && ready.stage.Commits? && ready == tx.(stage := ready.stage) && InTransaction(ready)
                && IsChatAdmin(chat, unit.id, ownerId)
                && nextId == old(nextId) + 1
                && chat == ChatDb(old(chat).workspaces + [Workspace(old(nextId), unit.id, unit.companyId)],
                                  old(chat).members + [MemberRow(old(nextId), ownerId, "Admin", true)])
      ensures IsLeftover(old(chat), chat, Workspace(old(nextId), unit.id, unit.companyId), ownerId)
      ensures unit.name == "" ==> chat == old(chat)
    {
      var workspaceId;
      ready := tx;
      FutureUnitsAreBare(events, states);
      ok, workspaceId := CreateWorkspace(faults.workspace, unit.id, unit.companyId, unit.name, tx);
      if ok {
        ready := tx.(stage := CallsAddMember(workspaceId));
        var w := chat.workspaces[|chat.workspaces| - 1];
        assert w in chat.workspaces && w.buId == unit.id && w.id == workspaceId;
        ok := AddWorkspaceMember(faults.member, workspaceId, ownerId, ready);
        ready := tx.(stage := Commits(workspaceId));
      }
    }

    /** An onboarding up to its commit. */
    method PrepareOnboarding(companyName: string, ownerEmail: string, faults: Faults) returns (ok: bool, made: Onboarded, ghost tx: Tx)
      requires Valid()
      modifies this
      ensures Valid() && main == old(main)
      ensures ok <==> !faults.company && !faults.unit && !faults.person && !faults.profile
                      && faults.workspace.Succeeds? && faults.member.Succeeds?
      ensures ok ==>
                && InTransaction(tx) && tx.stage.Commits? && made == FreshIds(old(nextId))
                && pending == OnboardedRows(old(main), companyName, ownerEmail, made, old(nextId) + 3)
                && chat == ChatDb(old(chat).workspaces + [Workspace(old(nextId) + 4, made.buId, made.companyId)],
                                  old(chat).members + [MemberRow(old(nextId) + 4, made.personId, "Admin", true)])
                && IsChatAdmin(chat, made.buId, made.personId) && nextId == old(nextId) + 5
      ensures IsLeftover(old(chat), chat, Workspace(old(nextId) + 4, old(nextId) + 1, old(nextId)), old(nextId) + 2)
    {
      FutureUnitsAreBare(events, states);
      BeginTransaction(Onboard(companyName, ownerEmail));
      ok, made, tx := InsertOnboardingRows(companyName, ownerEmail, faults);
      if ok {
        ok, tx := Provision(Unit(made.buId, made.companyId, companyName + " HQ"), made.personId, faults, tx);
      }
    }

    /** The creation of a unit up to its commit. */
    method PrepareUnit(companyId: Id, ownerPersonId: Id, name: string, faults: Faults) returns (ok: bool, id: Id, ghost tx: Tx)
      requires Valid()
      modifies this
      ensures Valid() && main == old(main)
      ensures ok <==>
              && !faults.unit && faults.workspace.Succeeds? && faults.member.Succeeds? && companyId in old(main).companies
              && companyId != NIL && name != "" && ownerPersonId != NIL
      ensures ok ==>
                && InTransaction(tx) && tx.stage.Commits? && id == old(nextId)
                && pending == old(main).(units := old(main).units + [Unit(id, companyId, name)])
                && chat == ChatDb(old(chat).workspaces + [Workspace(id + 1, id, companyId)],
                                  old(chat).members + [MemberRow(id + 1, ownerPersonId, "Admin", true)])
                && IsChatAdmin(chat, id, ownerPersonId) && nextId == old(nextId) + 2
      ensures IsLeftover(old(chat), chat, Workspace(old(nextId) + 1, old(nextId), companyId), ownerPersonId)
      ensures companyId !in old(main).companies || name == "" ==> chat == old(chat)
    {
      FutureUnitsAreBare(events, states);
      BeginTransaction(CreateBu(companyId, ownerPersonId, name));
      tx := Begin(CreateBu(companyId, ownerPersonId, name), nextId);
      ok, id := AddUnit(faults.unit, companyId, name, tx);
      if ok {
        ok, tx := Provision(Unit(id, companyId, name), ownerPersonId, faults,
                            tx.(stage := CallsCreateWorkspace, unit := Some(Unit(id, companyId, name))));
      }
    }

    /**
      Everything or nothing in the main database, with the one exception that the acknowledgement of
      the commit was lost.  Whenever the rows are there, so is the workspace with its Admin.
     */
    method OnboardAsync(companyName: string, ownerEmail: string, faults: Faults) returns (r: Result<Onboarded>)
      requires Valid()
      modifies this
      ensures Valid() && pending == main
      ensures r.Ok? <==> NoFault(faults) && !faults.company && !faults.person && !faults.profile
      ensures r.Err? ==> main == old(main) || faults.commit.FailsAfterEffect?
      ensures main == old(main) || main == OnboardedRows(old(main), companyName, ownerEmail, FreshIds(old(nextId)), old(nextId) + 3)
      ensures r.Ok? || main != old(main) ==> IsChatAdmin(chat, old(nextId) + 1, old(nextId) + 2)
      ensures r.Ok? ==>
                && r.value == FreshIds(old(nextId))
                && main == OnboardedRows(old(main), companyName, ownerEmail, r.value, old(nextId) + 3)
      ensures exists fate ::
                && HasFate(T.Directory(old(main), old(chat), old(nextId)), companyName, ownerEmail, fate, main, chat)
                && (r.Ok? ==> fate == T.Fate.Commits)
    {
      r := Err(Unavailable);
      ghost var d := T.Directory(main, chat, nextId);
      var ok, made;
      ghost var tx;
      ok, made, tx := PrepareOnboarding(companyName, ownerEmail, faults);
      if ok {
        ok := CommitTransaction(faults.commit, tx);
        if ok {
          r := Ok(made);
        }
      }
      RollbackTransaction();
      ghost var fate := OnboardingHasFate(d, companyName, ownerEmail, main, chat);
    }

    /** A new business unit of an existing company. */
    method CreateAsync(companyId: Id, ownerPersonId: Id, name: string, faults: Faults) returns (r: Result<Unit>)
      requires Valid()
      modifies this
      ensures Valid() && pending == main
      ensures r.Err? ==> main == old(main) || faults.commit.FailsAfterEffect?
      ensures r.Ok? <==>
              && NoFault(faults) && companyId in old(main).companies
              && companyId != NIL && name != "" && ownerPersonId != NIL
      ensures main == old(main) || main == old(main).(units := old(main).units + [Unit(old(nextId), companyId, name)])
      ensures r.Ok? || main != old(main) ==> IsChatAdmin(chat, old(nextId), ownerPersonId)
      ensures r.Ok? ==> r.value == Unit(old(nextId), companyId, name) && main.units == old(main).units + [r.value]
      ensures T.HasPerson(old(main), ownerPersonId, companyId) ==>
                exists fate ::
                  && HasUnitFate(T.Directory(old(main), old(chat), old(nextId)), companyId, ownerPersonId, name, fate, main, chat)
                  && (r.Ok? ==> fate == T.Fate.Commits)
    {
      r := Err(Unavailable);
      ghost var d := T.Directory(main, chat, nextId);
      var ok, id;
      ghost var tx;
      ok, id, tx := PrepareUnit(companyId, ownerPersonId, name, faults);
      if ok {
        ok := CommitTransaction(faults.commit, tx);
        if ok {
          r := Ok(Unit(id, companyId, name));
        }
      }
      RollbackTransaction();
      if T.HasPerson(d.main, ownerPersonId, companyId) {
        ghost var fate := CreationHasFate(d, companyId, ownerPersonId, name, main, chat);
      }
    }
  }

  /** What the machine proves of all runs holds of the fields between any two requests. */
  lemma BackendHasNoOrphanUnits(b: Backend)
    requires b.Valid()
    ensures forall u :: u in b.main.units ==> HasOneWorkspace(b.chat, u.id) && WasCommitted(b.events, u)
  {
    TraceIsRun(b.events, b.states, |b.events|);
    assert b.events[..|b.events|] == b.events;
    forall u | u in b.main.units
      ensures HasOneWorkspace(b.chat, u.id) && WasCommitted(b.events, u)
    {
      NoOrphanUnits(b.events, u);
    }
  }
}

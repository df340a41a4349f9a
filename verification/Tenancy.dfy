/**
  Tenants: companies, their business units, persons and staff profiles, as onboarding, business-unit
  creation and the staff and chat-access services change them, one request at a time.  Staff
  requests run outside a transaction, so a request that fails half way keeps what it has written.
 */
module Tenancy {
  import opened Entities
  import opened Membership
  import opened Provisioning

  datatype Directory = Directory(main: MainDb, chat: ChatDb, nextId: Id)

  /** How a provisioning request ends; a failed one may leave a workspace without its unit. */
  datatype Fate = Commits | LeavesNothing | LeavesWorkspace(withAdmin: bool)

  /** Which statements of a staff request reach their database. */
  datatype StaffFate = StaffFate(person: bool, profile: bool, lookup: bool, member: Outcome)

  /** `parsed` is what the role parser made of the request's text. */
  datatype Request =
    | Onboard(companyName: string, ownerEmail: string, fate: Fate)
    | CreateBu(companyId: Id, ownerPersonId: Id, name: string, fate: Fate)
    | CreateStaff(companyId: Id, buId: Id, email: string, parsed: Option<StaffRole>, staffFate: StaffFate)
    | Enroll(companyId: Id, buId: Id, personId: Id, email: string, parsed: Option<StaffRole>, staffFate: StaffFate)
    | UpdateRole(personId: Id, buId: Id, companyId: Id, parsed: Option<StaffRole>, saved: bool)
    | UpdateAccess(buId: Id, personId: Id, companyId: Id, hasAccess: bool, reached: bool)

  predicate HasUnit(main: MainDb, buId: Id, companyId: Id) {
    exists k :: 0 <= k < |main.units| && main.units[k].id == buId && main.units[k].companyId == companyId
  }

  predicate HasPerson(main: MainDb, personId: Id, companyId: Id) {
    personId in main.persons && main.persons[personId] == companyId
  }

  function FindProfile(profiles: seq<Profile>, personId: Id, buId: Id): (k: Option<nat>)
    ensures k.Some? ==> k.value < |profiles| && profiles[k.value].personId == personId && profiles[k.value].buId == buId
    ensures k.None? ==> forall j :: 0 <= j < |profiles| ==> !(profiles[j].personId == personId && profiles[j].buId == buId)
  {
    if profiles == [] then None
    else if profiles[0].personId == personId && profiles[0].buId == buId then Some(0)
    else
      match FindProfile(profiles[1..], personId, buId)
      case Some(k) => Some(k + 1)
      case None => None
  }

  function WorkspaceOf(workspaces: seq<Workspace>, buId: Id): (w: Option<Workspace>)
    ensures w.Some? ==> w.value in workspaces && w.value.buId == buId
    ensures w.None? ==> forall v :: v in workspaces ==> v.buId != buId
  {
    if workspaces == [] then None
    else if workspaces[0].buId == buId then Some(workspaces[0])
    else WorkspaceOf(workspaces[1..], buId)
  }

  /** The unique index on (bu_id, email). */
  predicate EmailTaken(profiles: seq<Profile>, buId: Id, email: string) {
    exists k :: 0 <= k < |profiles| && profiles[k].buId == buId && profiles[k].email == email
  }

  predicate Allowed(parsed: Option<StaffRole>) {
    parsed.Some? && parsed.value != Owner
  }

  // ---------------------------------------------------------------- requests

  /** A workspace with, or still without, its Admin. */
  function Provisioned(chat: ChatDb, w: Workspace, owner: Id, withAdmin: bool): ChatDb {
    ChatDb(chat.workspaces + [w], if withAdmin then chat.members + [MemberRow(w.id, owner, ADMIN, true)] else chat.members)
  }

  /** The rows of an onboarding without the profile. */
  function UnitOnboarded(d: Directory, u: Unit, p: Id, w: Id, nextId: Id): Directory {
    var main := d.main;
    Directory(MainDb(main.companies + {u.companyId}, main.units + [u], main.persons[p := u.companyId], main.profiles),
              Provisioned(d.chat, Workspace(w, u.id, u.companyId), p, true), nextId)
  }

  function WithProfile(d: Directory, p: Profile): Directory {
    d.(main := d.main.(profiles := d.main.profiles + [p]))
  }

  function AfterOnboard(d: Directory, companyName: string, ownerEmail: string, fate: Fate): Directory {
    var u := Unit(d.nextId + 1, d.nextId, companyName + " HQ");
    var p := Profile(d.nextId + 3, d.nextId + 2, u.id, ownerEmail, Owner);
    var w := Workspace(d.nextId + 4, u.id, u.companyId);
    match fate
    case Commits => WithProfile(UnitOnboarded(d, u, p.personId, w.id, d.nextId + 5), p)
    case LeavesNothing => d.(nextId := d.nextId + 5)
    case LeavesWorkspace(withAdmin) => d.(chat := Provisioned(d.chat, w, p.personId, withAdmin), nextId := d.nextId + 5)
  }

  /** The caller's token names a person of the company. */
  function AfterCreateBu(d: Directory, companyId: Id, owner: Id, name: string, fate: Fate): Directory {
    var w := Workspace(d.nextId + 1, d.nextId, companyId);
    if companyId !in d.main.companies || !HasPerson(d.main, owner, companyId) || name == "" then d
    else
      match fate
      case Commits =>
        Directory(d.main.(units := d.main.units + [Unit(d.nextId, companyId, name)]),
                  Provisioned(d.chat, w, owner, true), d.nextId + 2)
      case LeavesNothing => d.(nextId := d.nextId + 2)
      case LeavesWorkspace(withAdmin) => d.(chat := Provisioned(d.chat, w, owner, withAdmin), nextId := d.nextId + 2)
  }

  function WithMembership(d: Directory, q: Membership.Request): Directory {
    d.(chat := d.chat.(members := Effect(WorkspaceIds(d.chat), d.chat.members, q)))
  }

  /** A unit's new colleague becomes a plain member of its workspace, if it has one. */
  function JoinChat(d: Directory, personId: Id, buId: Id, fate: StaffFate): Directory {
    var w := WorkspaceOf(d.chat.workspaces, buId);
    if !fate.lookup || w.None? || fate.member.Fails? then d
    else WithMembership(d, AddMember(w.value.id, personId, MEMBER))
  }

  function AddProfile(d: Directory, personId: Id, buId: Id, email: string, role: StaffRole): Directory {
    d.(main := d.main.(profiles := d.main.profiles + [Profile(d.nextId, personId, buId, email, role)]), nextId := d.nextId + 1)
  }

  /** The common end of both ways to add staff. */
  function AddStaff(d: Directory, personId: Id, buId: Id, email: string, role: StaffRole, fate: StaffFate): Directory {
    if !fate.profile || EmailTaken(d.main.profiles, buId, email) then d
    else JoinChat(AddProfile(d, personId, buId, email, role), personId, buId, fate)
  }

  function AddPerson(d: Directory, companyId: Id): Directory {
    d.(main := d.main.(persons := d.main.persons[d.nextId := companyId]), nextId := d.nextId + 1)
  }

  predicate MayEnroll(main: MainDb, companyId: Id, buId: Id, personId: Id, parsed: Option<StaffRole>) {
    && HasUnit(main, buId, companyId) && HasPerson(main, personId, companyId)
    && FindProfile(main.profiles, personId, buId).None? && Allowed(parsed)
  }

  predicate MayUpdateRole(main: MainDb, personId: Id, buId: Id, companyId: Id, parsed: Option<StaffRole>) {
    FindProfile(main.profiles, personId, buId).Some? && HasPerson(main, personId, companyId) && Allowed(parsed)
  }

  function Handle(d: Directory, q: Request): Directory {
    match q
    case Onboard(companyName, ownerEmail, fate) => AfterOnboard(d, companyName, ownerEmail, fate)
    case CreateBu(companyId, owner, name, fate) => AfterCreateBu(d, companyId, owner, name, fate)
    case CreateStaff(companyId, buId, email, parsed, fate) =>
      if !HasUnit(d.main, buId, companyId) || !Allowed(parsed) || !fate.person then d
      else AddStaff(AddPerson(d, companyId), d.nextId, buId, email, parsed.value, fate)
    case Enroll(companyId, buId, personId, email, parsed, fate) =>
      if !MayEnroll(d.main, companyId, buId, personId, parsed) then d
      else AddStaff(d, personId, buId, email, parsed.value, fate)
    case UpdateRole(personId, buId, companyId, parsed, saved) =>
      if !MayUpdateRole(d.main, personId, buId, companyId, parsed) || !saved then d
      else
        var k := FindProfile(d.main.profiles, personId, buId).value;
        d.(main := d.main.(profiles := d.main.profiles[k := d.main.profiles[k].(role := parsed.value)]))
    case UpdateAccess(buId, personId, companyId, hasAccess, reached) =>
      var w := WorkspaceOf(d.chat.workspaces, buId);
      if !HasUnit(d.main, buId, companyId) || !HasPerson(d.main, personId, companyId) || w.None? || !reached then d
      else WithMembership(d, UpdateMemberAccess(w.value.id, personId, hasAccess))
  }

  const FRESH: Directory := Directory(EMPTY.main, EMPTY.chat, EMPTY.nextId)

  /** The rows after a history of requests, oldest first. */
  function After(history: seq<Request>): Directory {
    if history == [] then FRESH else Handle(After(history[..|history| - 1]), history[|history| - 1])
  }

  // ---------------------------------------------------------------- invariant

  ghost predicate IdsOk(d: Directory) {
    && d.nextId > NIL
    && (forall c :: c in d.main.companies ==> c < d.nextId)
    && (forall p :: p in d.main.persons ==> p < d.nextId && d.main.persons[p] in d.main.companies)
    && (forall k :: 0 <= k < |d.main.units| ==> d.main.units[k].id < d.nextId && d.main.units[k].companyId in d.main.companies)
    && (forall j, k :: 0 <= j < k < |d.main.units| ==> d.main.units[j].id != d.main.units[k].id)
    && (forall w :: w in d.chat.workspaces ==> w.id < d.nextId && w.buId < d.nextId)
    && (forall v, w :: v in d.chat.workspaces && w in d.chat.workspaces && v.id == w.id ==> v.buId == w.buId)
  }

  /** A profile joins a person and a business unit of one company. */
  predicate InOneCompany(main: MainDb, p: Profile) {
    p.personId in main.persons && HasUnit(main, p.buId, main.persons[p.personId])
  }

  predicate IsOwnerOf(main: MainDb, p: Profile, companyId: Id) {
    p.role.Owner? && HasPerson(main, p.personId, companyId)
  }

  ghost predicate HasOwner(main: MainDb, companyId: Id) {
    exists k :: 0 <= k < |main.profiles| && IsOwnerOf(main, main.profiles[k], companyId)
  }

  ghost predicate ProfilesOk(main: MainDb) {
    forall k :: 0 <= k < |main.profiles| ==> InOneCompany(main, main.profiles[k])
  }

  ghost predicate OnePerPair(profiles: seq<Profile>) {
    forall j, k :: 0 <= j < k < |profiles| ==>
      !(profiles[j].personId == profiles[k].personId && profiles[j].buId == profiles[k].buId)
  }

  ghost predicate OneOwner(main: MainDb) {
    forall j, k, c :: 0 <= j < k < |main.profiles| && IsOwnerOf(main, main.profiles[j], c) ==>
      !IsOwnerOf(main, main.profiles[k], c)
  }

  /** A member of a business unit's workspace is a person of the unit's company. */
  ghost predicate MemberInTenant(d: Directory, row: MemberRow) {
    forall w, k :: w in d.chat.workspaces && 0 <= k < |d.main.units| && w.id == row.workspaceId && w.buId == d.main.units[k].id ==>
      HasPerson(d.main, row.personId, d.main.units[k].companyId)
  }

  ghost predicate MembersOk(d: Directory) {
    && UniqueRows(d.chat.members)
    && (forall k :: 0 <= k < |d.chat.members| ==>
          d.chat.members[k].workspaceId < d.nextId && MemberInTenant(d, d.chat.members[k]))
  }

  ghost predicate Inv(d: Directory) {
    IdsOk(d) && ProfilesOk(d.main) && OnePerPair(d.main.profiles) && OneOwner(d.main) && MembersOk(d)
  }

  // ---------------------------------------------------------------- preservation

  /** A change of membership inside one tenant. */
  lemma MembershipKeepsInv(d: Directory, q: Membership.Request, w: Workspace, companyId: Id)
    requires Inv(d) && w in d.chat.workspaces && q.workspaceId == w.id
    requires HasUnit(d.main, w.buId, companyId) && HasPerson(d.main, q.personId, companyId)
    ensures Inv(WithMembership(d, q))
  {
    var t := WithMembership(d, q);
    var ids := WorkspaceIds(d.chat);
    EffectOnRow(ids, d.chat.members, q, q.workspaceId, q.personId);
    forall k | 0 <= k < |t.chat.members|
      ensures t.chat.members[k].workspaceId < t.nextId && MemberInTenant(t, t.chat.members[k])
    {
      if k < |d.chat.members| {
        assert MemberInTenant(d, d.chat.members[k]);
        assert IsFor(t.chat.members[k], d.chat.members[k].workspaceId, d.chat.members[k].personId);
      }
    }
  }

  lemma PersonKeepsInv(d: Directory, person: Id, companyId: Id)
    requires Inv(d) && companyId in d.main.companies && person < d.nextId && person !in d.main.persons
    ensures Inv(d.(main := d.main.(persons := d.main.persons[person := companyId])))
  {
    var t := d.(main := d.main.(persons := d.main.persons[person := companyId]));
    forall k | 0 <= k < |d.main.profiles|
      ensures InOneCompany(t.main, d.main.profiles[k])
    {
      assert InOneCompany(d.main, d.main.profiles[k]);
    }
    forall k | 0 <= k < |d.chat.members|
      ensures MemberInTenant(t, d.chat.members[k])
    {
      assert MemberInTenant(d, d.chat.members[k]);
    }
    forall j, k, c | 0 <= j < k < |d.main.profiles| && IsOwnerOf(t.main, d.main.profiles[j], c)
      ensures !IsOwnerOf(t.main, d.main.profiles[k], c)
    {
      assert InOneCompany(d.main, d.main.profiles[j]) && InOneCompany(d.main, d.main.profiles[k]);
      assert IsOwnerOf(d.main, d.main.profiles[j], c);
    }
  }

  lemma ProfileKeepsOneOwner(main: MainDb, p: Profile)
    requires OneOwner(main) && p.personId in main.persons
    requires p.role.Owner? ==> !HasOwner(main, main.persons[p.personId])
    ensures OneOwner(main.(profiles := main.profiles + [p]))
  {
    var main' := main.(profiles := main.profiles + [p]);
    forall j, k, c | 0 <= j < k < |main'.profiles| && IsOwnerOf(main', main'.profiles[j], c)
      ensures !IsOwnerOf(main', main'.profiles[k], c)
    {
      assert IsOwnerOf(main, main.profiles[j], c);
    }
  }

  /** A profile inside one company; an Owner only where there is none. */
  lemma ProfileKeepsInv(d: Directory, p: Profile)
    requires Inv(d) && InOneCompany(d.main, p) && FindProfile(d.main.profiles, p.personId, p.buId).None?
    requires p.role.Owner? ==> !HasOwner(d.main, d.main.persons[p.personId])
    ensures Inv(WithProfile(d, p))
  {
    var t := WithProfile(d, p);
    ProfileKeepsOneOwner(d.main, p);
    forall k | 0 <= k < |t.main.profiles|
      ensures InOneCompany(t.main, t.main.profiles[k])
    {
      assert k < |d.main.profiles| ==> InOneCompany(d.main, d.main.profiles[k]);
    }
    forall k | 0 <= k < |d.chat.members|
      ensures MemberInTenant(t, d.chat.members[k])
    {
      assert MemberInTenant(d, d.chat.members[k]);
    }
  }

  lemma BumpKeepsInv(d: Directory, nextId: Id)
    requires Inv(d) && d.nextId <= nextId
    ensures Inv(d.(nextId := nextId))
  {
    forall k | 0 <= k < |d.chat.members|
      ensures MemberInTenant(d.(nextId := nextId), d.chat.members[k])
    {
      assert MemberInTenant(d, d.chat.members[k]);
    }
  }

  lemma AddProfileKeepsInv(d: Directory, personId: Id, buId: Id, email: string, role: StaffRole, companyId: Id)
    requires Inv(d) && HasUnit(d.main, buId, companyId) && HasPerson(d.main, personId, companyId)
    requires FindProfile(d.main.profiles, personId, buId).None? && !role.Owner?
    ensures Inv(AddProfile(d, personId, buId, email, role))
  {
    BumpKeepsInv(d, d.nextId + 1);
    ProfileKeepsInv(d.(nextId := d.nextId + 1), Profile(d.nextId, personId, buId, email, role));
  }

  lemma JoinChatKeepsInv(d: Directory, personId: Id, buId: Id, fate: StaffFate, companyId: Id)
    requires Inv(d) && HasUnit(d.main, buId, companyId) && HasPerson(d.main, personId, companyId)
    ensures Inv(JoinChat(d, personId, buId, fate))
  {
    var w := WorkspaceOf(d.chat.workspaces, buId);
    if w.Some? {
      MembershipKeepsInv(d, AddMember(w.value.id, personId, MEMBER), w.value, companyId);
    }
  }

  lemma AddStaffKeepsInv(d: Directory, personId: Id, buId: Id, email: string, role: StaffRole, fate: StaffFate, companyId: Id)
    requires Inv(d) && HasUnit(d.main, buId, companyId) && HasPerson(d.main, personId, companyId)
    requires FindProfile(d.main.profiles, personId, buId).None? && !role.Owner?
    ensures Inv(AddStaff(d, personId, buId, email, role, fate))
  {
    if fate.profile && !EmailTaken(d.main.profiles, buId, email) {
      var t := AddProfile(d, personId, buId, email, role);
      AddProfileKeepsInv(d, personId, buId, email, role, companyId);
      JoinChatKeepsInv(t, personId, buId, fate, companyId);
    }
  }

  /** A new person has no profile yet. */
  lemma NewPersonHasNoProfile(d: Directory, buId: Id)
    requires Inv(d)
    ensures FindProfile(d.main.profiles, d.nextId, buId).None?
  {
    assert forall k :: 0 <= k < |d.main.profiles| ==> InOneCompany(d.main, d.main.profiles[k]);
  }

  lemma CompanyOfUnit(d: Directory, buId: Id, companyId: Id)
    requires Inv(d) && HasUnit(d.main, buId, companyId)
    ensures companyId in d.main.companies
  {
  }

  lemma AddPersonKeepsInv(d: Directory, companyId: Id, buId: Id)
    requires Inv(d) && HasUnit(d.main, buId, companyId)
    ensures var t := AddPerson(d, companyId);
            && Inv(t) && HasUnit(t.main, buId, companyId) && HasPerson(t.main, d.nextId, companyId)
            && FindProfile(t.main.profiles, d.nextId, buId).None?
  {
    CompanyOfUnit(d, buId, companyId);
    BumpKeepsInv(d, d.nextId + 1);
    PersonKeepsInv(d.(nextId := d.nextId + 1), d.nextId, companyId);
    NewPersonHasNoProfile(d, buId);
  }

  lemma CreateStaffKeepsInv(d: Directory, q: Request)
    requires Inv(d) && q.CreateStaff?
    ensures Inv(Handle(d, q))
  {
    if HasUnit(d.main, q.buId, q.companyId) && Allowed(q.parsed) && q.staffFate.person {
      var t := AddPerson(d, q.companyId);
      AddPersonKeepsInv(d, q.companyId, q.buId);
      AddStaffKeepsInv(t, d.nextId, q.buId, q.email, q.parsed.value, q.staffFate, q.companyId);
    }
  }

  lemma UpdateRoleKeepsInv(d: Directory, q: Request)
    requires Inv(d) && q.UpdateRole?
    ensures Inv(Handle(d, q))
  {
    var t := Handle(d, q);
    if t != d {
      var k := FindProfile(d.main.profiles, q.personId, q.buId).value;
      forall j | 0 <= j < |t.main.profiles|
        ensures InOneCompany(t.main, t.main.profiles[j])
      {
        assert InOneCompany(d.main, d.main.profiles[j]);
      }
      forall j, l, c | 0 <= j < l < |t.main.profiles| && IsOwnerOf(t.main, t.main.profiles[j], c)
        ensures !IsOwnerOf(t.main, t.main.profiles[l], c)
      {
        assert IsOwnerOf(d.main, d.main.profiles[j], c);
        assert !IsOwnerOf(d.main, d.main.profiles[l], c);
      }
      forall j | 0 <= j < |d.chat.members|
        ensures MemberInTenant(t, d.chat.members[j])
      {
        assert MemberInTenant(d, d.chat.members[j]);
      }
    }
  }

  /** A workspace for a unit that is not, or not yet, in the main database. */
  lemma ProvisionedKeepsInv(d: Directory, w: Workspace, owner: Id, withAdmin: bool, nextId: Id)
    requires Inv(d) && d.nextId <= w.id < nextId && d.nextId <= w.buId < nextId
    ensures Inv(Directory(d.main, Provisioned(d.chat, w, owner, withAdmin), nextId))
  {
    var t := Directory(d.main, Provisioned(d.chat, w, owner, withAdmin), nextId);
    forall k | 0 <= k < |t.chat.members|
      ensures t.chat.members[k].workspaceId < nextId && MemberInTenant(t, t.chat.members[k])
    {
      assert k < |d.chat.members| ==> MemberInTenant(d, d.chat.members[k]);
    }
  }

  /** No row of units, workspaces or members mentions the id. */
  ghost predicate FreshIn(d: Directory, id: Id) {
    && (forall k :: 0 <= k < |d.main.units| ==> d.main.units[k].id != id)
    && (forall w :: w in d.chat.workspaces ==> w.id != id && w.buId != id)
    && (forall k :: 0 <= k < |d.chat.members| ==> d.chat.members[k].workspaceId != id)
  }

  lemma UnitStays(main: MainDb, u: Unit, p: Profile)
    requires InOneCompany(main, p)
    ensures InOneCompany(main.(units := main.units + [u]), p)
  {
    var k :| 0 <= k < |main.units| && main.units[k].id == p.buId && main.units[k].companyId == main.persons[p.personId];
    assert (main.units + [u])[k] == main.units[k];
  }

  /** A new unit of an existing company, with the workspace made for it. */
  lemma ProvisionedUnitKeepsInv(d: Directory, w: Workspace, u: Unit, owner: Id, nextId: Id)
    requires Inv(d) && u.companyId in d.main.companies && HasPerson(d.main, owner, u.companyId)
    requires u.id == w.buId && FreshIn(d, u.id) && FreshIn(d, w.id) && u.id < nextId && w.id < nextId && d.nextId <= nextId
    ensures Inv(Directory(d.main.(units := d.main.units + [u]), Provisioned(d.chat, w, owner, true), nextId))
  {
    var t := Directory(d.main.(units := d.main.units + [u]), Provisioned(d.chat, w, owner, true), nextId);
    forall k | 0 <= k < |d.main.profiles|
      ensures InOneCompany(t.main, d.main.profiles[k])
    {
      UnitStays(d.main, u, d.main.profiles[k]);
    }
    forall k | 0 <= k < |t.chat.members|
      ensures t.chat.members[k].workspaceId < nextId && MemberInTenant(t, t.chat.members[k])
    {
      assert k < |d.chat.members| ==> MemberInTenant(d, d.chat.members[k]);
    }
    forall j, k, c | 0 <= j < k < |t.main.profiles| && IsOwnerOf(t.main, t.main.profiles[j], c)
      ensures !IsOwnerOf(t.main, t.main.profiles[k], c)
    {
      assert IsOwnerOf(d.main, d.main.profiles[j], c);
      assert !IsOwnerOf(d.main, d.main.profiles[k], c);
    }
  }

  lemma CreateBuCommitKeepsInv(d: Directory, companyId: Id, owner: Id, name: string)
    requires Inv(d) && companyId in d.main.companies && HasPerson(d.main, owner, companyId) && name != ""
    ensures Inv(AfterCreateBu(d, companyId, owner, name, Fate.Commits))
  {
    ProvisionedUnitKeepsInv(d, Workspace(d.nextId + 1, d.nextId, companyId), Unit(d.nextId, companyId, name), owner, d.nextId + 2);
  }

  lemma CreateBuFailureKeepsInv(d: Directory, companyId: Id, owner: Id, name: string, fate: Fate)
    requires Inv(d) && !fate.Commits?
    ensures Inv(AfterCreateBu(d, companyId, owner, name, fate))
  {
    if fate.LeavesWorkspace? {
      ProvisionedKeepsInv(d, Workspace(d.nextId + 1, d.nextId, companyId), owner, fate.withAdmin, d.nextId + 2);
    } else {
      BumpKeepsInv(d, d.nextId + 2);
    }
  }

  lemma CreateBuKeepsInv(d: Directory, q: Request)
    requires Inv(d) && q.CreateBu?
    ensures Inv(Handle(d, q))
  {
    if !q.fate.Commits? {
      CreateBuFailureKeepsInv(d, q.companyId, q.ownerPersonId, q.name, q.fate);
    } else if q.companyId in d.main.companies && HasPerson(d.main, q.ownerPersonId, q.companyId) && q.name != "" {
      CreateBuCommitKeepsInv(d, q.companyId, q.ownerPersonId, q.name);
    }
  }

  /** The company of an onboarding, before it has a unit or a person. */
  lemma AddCompanyKeepsInv(d: Directory, c: Id)
    requires Inv(d) && c < d.nextId
    ensures Inv(d.(main := d.main.(companies := d.main.companies + {c})))
  {
    var t := d.(main := d.main.(companies := d.main.companies + {c}));
    forall k | 0 <= k < |d.main.profiles|
      ensures InOneCompany(t.main, d.main.profiles[k])
    {
      assert InOneCompany(d.main, d.main.profiles[k]);
    }
    forall k | 0 <= k < |d.chat.members|
      ensures MemberInTenant(t, d.chat.members[k])
    {
      assert MemberInTenant(d, d.chat.members[k]);
    }
    forall j, k, e | 0 <= j < k < |t.main.profiles| && IsOwnerOf(t.main, t.main.profiles[j], e)
      ensures !IsOwnerOf(t.main, t.main.profiles[k], e)
    {
      assert IsOwnerOf(d.main, d.main.profiles[j], e);
      assert !IsOwnerOf(d.main, d.main.profiles[k], e);
    }
  }

  lemma UnitOnboardedKeepsInv(d: Directory, u: Unit, p: Id, w: Id, nextId: Id)
    requires Inv(d) && d.nextId <= u.companyId < nextId && d.nextId <= u.id < nextId && d.nextId <= p < nextId && d.nextId <= w < nextId
    ensures Inv(UnitOnboarded(d, u, p, w, nextId))
  {
    var d1 := d.(nextId := nextId);
    BumpKeepsInv(d, nextId);
    AddCompanyKeepsInv(d1, u.companyId);
    var d2 := d1.(main := d1.main.(companies := d1.main.companies + {u.companyId}));
    PersonKeepsInv(d2, p, u.companyId);
    var d3 := d2.(main := d2.main.(persons := d2.main.persons[p := u.companyId]));
    ProvisionedUnitKeepsInv(d3, Workspace(w, u.id, u.companyId), u, p, nextId);
  }

  lemma NewCompanyHasNoOwner(d: Directory, c: Id, p: Id, b: Id)
    requires Inv(d) && c >= d.nextId && p >= d.nextId
    ensures forall k :: 0 <= k < |d.main.profiles| ==>
              d.main.profiles[k].personId != p
              && d.main.profiles[k].personId in d.main.persons && d.main.persons[d.main.profiles[k].personId] != c
    ensures FindProfile(d.main.profiles, p, b).None?
  {
    forall k | 0 <= k < |d.main.profiles|
      ensures d.main.profiles[k].personId in d.main.persons
    {
      assert InOneCompany(d.main, d.main.profiles[k]);
    }
  }

  lemma UnitOnboardedAwaitsOwner(d: Directory, u: Unit, p: Id, w: Id, nextId: Id)
    requires Inv(d) && u.companyId >= d.nextId && p >= d.nextId
    ensures var main := UnitOnboarded(d, u, p, w, nextId).main;
            && HasUnit(main, u.id, u.companyId) && HasPerson(main, p, u.companyId) && !HasOwner(main, u.companyId)
            && FindProfile(main.profiles, p, u.id).None?
  {
    NewCompanyHasNoOwner(d, u.companyId, p, u.id);
    assert UnitOnboarded(d, u, p, w, nextId).main.units[|d.main.units|] == u;
  }

  lemma OwnerKeepsInv(d: Directory, u: Unit, p: Profile, w: Id, nextId: Id, t: Directory)
    requires Inv(d) && t == WithProfile(UnitOnboarded(d, u, p.personId, w, nextId), p)
    requires d.nextId <= u.companyId < nextId && d.nextId <= u.id < nextId && d.nextId <= w < nextId
    requires d.nextId <= p.personId < nextId && p.buId == u.id
    ensures Inv(t)
  {
    UnitOnboardedKeepsInv(d, u, p.personId, w, nextId);
    UnitOnboardedAwaitsOwner(d, u, p.personId, w, nextId);
    ProfileKeepsInv(UnitOnboarded(d, u, p.personId, w, nextId), p);
  }

  lemma OnboardingKeepsInv(d: Directory, companyName: string, ownerEmail: string)
    requires Inv(d)
    ensures Inv(AfterOnboard(d, companyName, ownerEmail, Fate.Commits))
  {
    var u, p := Unit(d.nextId + 1, d.nextId, companyName + " HQ"), Profile(d.nextId + 3, d.nextId + 2, d.nextId + 1, ownerEmail, Owner);
    OwnerKeepsInv(d, u, p, d.nextId + 4, d.nextId + 5, AfterOnboard(d, companyName, ownerEmail, Fate.Commits));
  }

  lemma OnboardFailureKeepsInv(d: Directory, companyName: string, ownerEmail: string, fate: Fate)
    requires Inv(d) && !fate.Commits?
    ensures Inv(AfterOnboard(d, companyName, ownerEmail, fate))
  {
    if fate.LeavesWorkspace? {
      ProvisionedKeepsInv(d, Workspace(d.nextId + 4, d.nextId + 1, d.nextId), d.nextId + 2, fate.withAdmin, d.nextId + 5);
    } else {
      BumpKeepsInv(d, d.nextId + 5);
    }
  }

  lemma OnboardKeepsInv(d: Directory, q: Request)
    requires Inv(d) && q.Onboard?
    ensures Inv(Handle(d, q))
  {
    if q.fate.Commits? {
      OnboardingKeepsInv(d, q.companyName, q.ownerEmail);
    } else {
      OnboardFailureKeepsInv(d, q.companyName, q.ownerEmail, q.fate);
    }
  }

  lemma StepKeepsInv(d: Directory, q: Request)
    requires Inv(d)
    ensures Inv(Handle(d, q))
  {
    match q
    case Onboard(_, _, _) => OnboardKeepsInv(d, q);
    case CreateBu(_, _, _, _) => CreateBuKeepsInv(d, q);
    case CreateStaff(_, _, _, _, _) => CreateStaffKeepsInv(d, q);
    case Enroll(companyId, buId, personId, email, parsed, fate) =>
      if MayEnroll(d.main, companyId, buId, personId, parsed) {
        AddStaffKeepsInv(d, personId, buId, email, parsed.value, fate, companyId);
      }
    case UpdateRole(_, _, _, _, _) => UpdateRoleKeepsInv(d, q);
    case UpdateAccess(buId, personId, companyId, hasAccess, _) =>
      var w := WorkspaceOf(d.chat.workspaces, buId);
      if HasUnit(d.main, buId, companyId) && HasPerson(d.main, personId, companyId) && w.Some? {
        MembershipKeepsInv(d, UpdateMemberAccess(w.value.id, personId, hasAccess), w.value, companyId);
      }
  }

  lemma {:induction false} AfterKeepsInv(history: seq<Request>)
    ensures Inv(After(history))
  {
    if history != [] {
      AfterKeepsInv(history[..|history| - 1]);
      StepKeepsInv(After(history[..|history| - 1]), history[|history| - 1]);
    }
  }

  // ---------------------------------------------------------------- results over all histories

  /**
    Tenants stay closed: a profile's person and unit belong to one company, a person has at most one
    profile in a unit, and a company has at most one Owner profile.
   */
  lemma TenantsStayClosed(history: seq<Request>, j: nat, k: nat)
    requires j < |After(history).main.profiles| && k < |After(history).main.profiles|
    ensures var main := After(history).main;
            var p, q := main.profiles[j], main.profiles[k];
            && InOneCompany(main, p)
            && (p.personId == q.personId && p.buId == q.buId ==> j == k)
            && (forall c :: IsOwnerOf(main, p, c) && IsOwnerOf(main, q, c) ==> j == k)
  {
    AfterKeepsInv(history);
    var main := After(history).main;
    assert InOneCompany(main, main.profiles[j]);
  }

  /**
    An access request for a unit, a person of its company and a unit that has a workspace sets just
    that person's access in that workspace, and makes a plain member of who was none; any other access
    request changes nothing.
   */
  lemma AccessRequestSetsAccess(history: seq<Request>, buId: Id, personId: Id, companyId: Id, hasAccess: bool, reached: bool)
    ensures var d, t := After(history), After(history + [UpdateAccess(buId, personId, companyId, hasAccess, reached)]);
            var w := WorkspaceOf(d.chat.workspaces, buId);
            && t.main == d.main && t.chat.workspaces == d.chat.workspaces
            && if HasUnit(d.main, buId, companyId) && HasPerson(d.main, personId, companyId) && w.Some? && reached then
                 && RowOf(t.chat.members, w.value.id, personId)
                    == (match RowOf(d.chat.members, w.value.id, personId)
                        case Some(row) => Some(MemberRow(row.workspaceId, row.personId, row.role, hasAccess))
                        case None => Some(MemberRow(w.value.id, personId, "Member", hasAccess)))
                 && forall v, p :: !(v == w.value.id && p == personId) ==> RowOf(t.chat.members, v, p) == RowOf(d.chat.members, v, p)
               else t == d
  {
    var d, q := After(history), UpdateAccess(buId, personId, companyId, hasAccess, reached);
    AfterKeepsInv(history);
    assert (history + [q])[..|history|] == history;
    var w := WorkspaceOf(d.chat.workspaces, buId);
    if w.Some? {
      var ids, change := WorkspaceIds(d.chat), UpdateMemberAccess(w.value.id, personId, hasAccess);
      assert w.value.id in ids;
      forall v, p
        ensures !(v == w.value.id && p == personId) ==> RowOf(Effect(ids, d.chat.members, change), v, p) == RowOf(d.chat.members, v, p)
      {
        EffectOnRow(ids, d.chat.members, change, v, p);
      }
      EffectOnRow(ids, d.chat.members, change, w.value.id, personId);
    }
  }

  /** The closure extends to the other database: only a company's own persons are members of its workspaces. */
  lemma WorkspacesStayInTheirTenant(history: seq<Request>, row: MemberRow, w: Workspace, u: Unit)
    requires var d := After(history);
             row in d.chat.members && w in d.chat.workspaces && u in d.main.units && row.workspaceId == w.id && w.buId == u.id
    ensures HasPerson(After(history).main, row.personId, u.companyId)
  {
    AfterKeepsInv(history);
    var d := After(history);
    var k :| 0 <= k < |d.chat.members| && d.chat.members[k] == row;
    assert MemberInTenant(d, row);
  }

  /** The request lowers the company's Owner to another role. */
  ghost predicate Demotes(d: Directory, q: Request, companyId: Id) {
    && q.UpdateRole? && q.saved && q.companyId == companyId
    && MayUpdateRole(d.main, q.personId, q.buId, companyId, q.parsed)
    && d.main.profiles[FindProfile(d.main.profiles, q.personId, q.buId).value].role.Owner?
  }

  lemma OwnersAfterUpdateRole(d: Directory, q: Request, c: Id)
    requires Inv(d) && q.UpdateRole?
    ensures HasOwner(Handle(d, q).main, c) <==> HasOwner(d.main, c) && !Demotes(d, q, c)
  {
    var t := Handle(d, q);
    if t.main != d.main {
      var k := FindProfile(d.main.profiles, q.personId, q.buId).value;
      assert forall j :: 0 <= j < |d.main.profiles| && j != k ==> t.main.profiles[j] == d.main.profiles[j];
      assert !IsOwnerOf(t.main, t.main.profiles[k], c);
      if HasOwner(d.main, c) {
        var o :| 0 <= o < |d.main.profiles| && IsOwnerOf(d.main, d.main.profiles[o], c);
        assert o != k ==> IsOwnerOf(t.main, t.main.profiles[o], c);
        assert forall j :: 0 <= j < |d.main.profiles| && j != o ==> !IsOwnerOf(d.main, d.main.profiles[j], c);
      }
    }
  }

  /** The company's Owner profiles do not change when other profiles and persons are added. */
  lemma OwnersAfterAppend(main: MainDb, main': MainDb, c: Id)
    requires ProfilesOk(main) && main.profiles <= main'.profiles
    requires forall p :: p in main.persons ==> p in main'.persons && main'.persons[p] == main.persons[p]
    requires forall k :: |main.profiles| <= k < |main'.profiles| ==> !IsOwnerOf(main', main'.profiles[k], c)
    ensures HasOwner(main', c) <==> HasOwner(main, c)
  {
    forall k | 0 <= k < |main.profiles|
      ensures main'.profiles[k] == main.profiles[k]
      ensures IsOwnerOf(main', main'.profiles[k], c) <==> IsOwnerOf(main, main.profiles[k], c)
    {
      assert InOneCompany(main, main.profiles[k]);
    }
  }

  /** Requests other than role updates add profiles and persons; only an onboarding adds an Owner, to its own company. */
  lemma OtherRequestsAppend(d: Directory, q: Request, c: Id)
    requires Inv(d) && c in d.main.companies && !q.UpdateRole?
    ensures var main' := Handle(d, q).main;
            && d.main.profiles <= main'.profiles
            && (forall p :: p in d.main.persons ==> p in main'.persons && main'.persons[p] == d.main.persons[p])
            && (forall k :: |d.main.profiles| <= k < |main'.profiles| ==> !IsOwnerOf(main', main'.profiles[k], c))
  {
  }

  lemma OwnersAfterStep(d: Directory, q: Request, c: Id)
    requires Inv(d) && c in d.main.companies
    ensures HasOwner(Handle(d, q).main, c) <==> HasOwner(d.main, c) && !Demotes(d, q, c)
  {
    if q.UpdateRole? {
      OwnersAfterUpdateRole(d, q, c);
    } else {
      OtherRequestsAppend(d, q, c);
      OwnersAfterAppend(d.main, Handle(d, q).main, c);
    }
  }

  lemma NewCompanyHasOwner(d: Directory, q: Request, c: Id)
    requires Inv(d) && c !in d.main.companies && c in Handle(d, q).main.companies
    ensures HasOwner(Handle(d, q).main, c)
  {
    var t := Handle(d, q);
    assert IsOwnerOf(t.main, t.main.profiles[|d.main.profiles|], c);
  }

  lemma StepKeepsCompanies(d: Directory, q: Request)
    ensures d.main.companies <= Handle(d, q).main.companies
  {
  }

  lemma {:induction false} CompaniesStay(history: seq<Request>, i: nat)
    requires i <= |history|
    ensures After(history[..i]).main.companies <= After(history).main.companies
    decreases |history|
  {
    if i == |history| {
      assert history[..i] == history;
    } else {
      var front := history[..|history| - 1];
      CompaniesStay(front, i);
      StepKeepsCompanies(After(front), history[|history| - 1]);
      assert front[..i] == history[..i];
    }
  }

  ghost predicate NeverDemoted(history: seq<Request>, c: Id) {
    forall i: nat :: i < |history| ==> !Demotes(After(history[..i]), history[i], c)
  }

  lemma NeverDemotedSnoc(front: seq<Request>, q: Request, c: Id)
    ensures NeverDemoted(front + [q], c) <==> NeverDemoted(front, c) && !Demotes(After(front), q, c)
  {
    var history := front + [q];
    assert history[..|front|] == front && history[|front|] == q;
    assert forall i: nat :: i < |front| ==> history[..i] == front[..i] && history[i] == front[i];
    if NeverDemoted(front, c) && !Demotes(After(front), q, c) {
      forall i: nat | i < |history|
        ensures !Demotes(After(history[..i]), history[i], c)
      {
        assert i < |front| ==> !Demotes(After(front[..i]), front[i], c);
      }
    }
    if NeverDemoted(history, c) {
      forall i: nat | i < |front|
        ensures !Demotes(After(front[..i]), front[i], c)
      {
        assert !Demotes(After(history[..i]), history[i], c);
      }
      assert !Demotes(After(history[..|front|]), history[|front|], c);
    }
  }

  lemma FutureCompanyIsNotDemoted(front: seq<Request>, c: Id)
    requires c !in After(front).main.companies
    ensures NeverDemoted(front, c)
  {
    forall i: nat | i < |front|
      ensures !Demotes(After(front[..i]), front[i], c)
    {
      AfterKeepsInv(front[..i]);
      CompaniesStay(front, i);
    }
  }

  /** A company keeps its Owner exactly as long as no role update has hit the Owner's own profile. */
  lemma {:induction false} OwnerUntilDemoted(history: seq<Request>, c: Id)
    requires c in After(history).main.companies
    ensures HasOwner(After(history).main, c) <==> NeverDemoted(history, c)
    decreases |history|
  {
    var front, q := history[..|history| - 1], history[|history| - 1];
    assert front + [q] == history;
    AfterKeepsInv(front);
    NeverDemotedSnoc(front, q, c);
    if c in After(front).main.companies {
      OwnerUntilDemoted(front, c);
      OwnersAfterStep(After(front), q, c);
    } else {
      NewCompanyHasOwner(After(front), q, c);
      FutureCompanyIsNotDemoted(front, c);
    }
  }

  predicate MayChat(rows: seq<MemberRow>, w: Id, p: Id) {
    RowOf(rows, w, p).Some? && RowOf(rows, w, p).value.hasAccess
  }

  /** Adding staff and changing roles never gives or takes chat access. */
  lemma StaffRequestsKeepAccess(d: Directory, q: Request, w: Id, p: Id)
    requires Inv(d) && (q.CreateStaff? || q.Enroll? || q.UpdateRole?)
    ensures MayChat(Handle(d, q).chat.members, w, p) <==> MayChat(d.chat.members, w, p)
  {
    if !q.UpdateRole? {
      var v := WorkspaceOf(d.chat.workspaces, q.buId);
      if v.Some? {
        var ids := WorkspaceIds(d.chat);
        var person := if q.CreateStaff? then d.nextId else q.personId;
        EffectOnRow(ids, d.chat.members, AddMember(v.value.id, person, MEMBER), w, p);
      }
    }
  }

  /** An Owner can lose the role, and the role that replaces it may be a number that names none. */
  lemma OwnerCanBecomeUndefined() returns (history: seq<Request>)
    ensures var main := After(history).main;
            main.companies == {1} && !HasOwner(main, 1) && |main.profiles| == 1 && main.profiles[0].role == Undefined(7)
  {
    var q1, q2 := Request.Onboard("Acme", "a@acme", Fate.Commits), Request.UpdateRole(3, 2, 1, Some(Undefined(7)), true);
    history := [q1, q2];
    assert history[..1] == [q1] && [q1][..0] == [];
    assert After([q1]) == Handle(FRESH, q1);
    var d := After([q1]);
    assert d.main.profiles == [Profile(4, 3, 2, "a@acme", Owner)];
    assert FindProfile(d.main.profiles, 3, 2) == Some(0);
    assert After(history) == Handle(d, q2);
  }
}

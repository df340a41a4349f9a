/**
  The staff service as the backend runs it: look-ups and checks in order, then saves one after the
  other.  Each method takes exactly the step of Tenancy that its request stands for.
 */
module StaffServices {
  import opened Entities
  import opened Membership
  import opened Provisioning
  import opened Tenancy

  datatype Refusal = UnitNotFound | PersonNotFound | ProfileExists | InvalidRole | ProfileNotFound | AccessDenied | StatementFailed

  datatype Reply<T> = Done(value: T) | Refused(reason: Refusal)

  /** No profile of the unit has the email. */
  ghost predicate IsFree(profiles: seq<Profile>, buId: Id, email: string) {
    forall p :: p in profiles ==> !(p.buId == buId && p.email == email)
  }

  lemma FreeMeansNotTaken(profiles: seq<Profile>, buId: Id, email: string)
    ensures IsFree(profiles, buId, email) <==> !EmailTaken(profiles, buId, email)
  {
    if !EmailTaken(profiles, buId, email) {
      forall p | p in profiles
        ensures !(p.buId == buId && p.email == email)
      {
        var k :| 0 <= k < |profiles| && profiles[k] == p;
      }
    }
  }

  /** All statements after the checks succeed, and the chat service takes the new member. */
  ghost predicate Completes(d: Directory, personId: Id, buId: Id, email: string, fate: StaffFate) {
    var w := WorkspaceOf(d.chat.workspaces, buId);
    && fate.profile && IsFree(d.main.profiles, buId, email) && fate.lookup
    && (w.None? || (fate.member.Succeeds? && w.value.id != NIL && personId != NIL))
  }

  /** One more profile, if its insert took effect, and nothing else. */
  ghost predicate AddsProfile(before: MainDb, after: MainDb, p: Profile, saved: bool) {
    && after.companies == before.companies && after.units == before.units && after.persons == before.persons
    && after.profiles == before.profiles + if saved then [p] else []
  }

  /** The unit's new colleague becomes a plain member of the unit's workspace; nobody else's membership changes. */
  ghost predicate JoinsAsMember(before: ChatDb, after: ChatDb, personId: Id, buId: Id) {
    && after.workspaces == before.workspaces
    && match WorkspaceOf(before.workspaces, buId)
       case None => after.members == before.members
       case Some(w) =>
         && RowOf(after.members, w.id, personId)
            == (match RowOf(before.members, w.id, personId)
                case Some(row) => Some(row.(role := "Member"))
                case None => Some(MemberRow(w.id, personId, "Member", false)))
         && forall v, p :: !(v == w.id && p == personId) ==> RowOf(after.members, v, p) == RowOf(before.members, v, p)
  }

  lemma JoiningJoins(d: Directory, personId: Id, buId: Id, fate: StaffFate)
    requires UniqueRows(d.chat.members) && fate.lookup
    requires var w := WorkspaceOf(d.chat.workspaces, buId); w.Some? ==> fate.member.Succeeds? && w.value.id != NIL && personId != NIL
    ensures JoinsAsMember(d.chat, JoinChat(d, personId, buId, fate).chat, personId, buId)
  {
    match WorkspaceOf(d.chat.workspaces, buId)
    case None =>
    case Some(w) =>
      var q, ids := AddMember(w.id, personId, MEMBER), WorkspaceIds(d.chat);
      assert w.id in ids;
      forall v, p
        ensures RowOf(Effect(ids, d.chat.members, q), v, p)
                == if v == w.id && p == personId then
                     (match RowOf(d.chat.members, v, p)
                      case Some(row) => Some(row.(role := "Member"))
                      case None => Some(MemberRow(v, p, "Member", false)))
                   else RowOf(d.chat.members, v, p)
      {
        EffectOnRow(ids, d.chat.members, q, v, p);
      }
  }

  class StaffService {
    var main: MainDb
    var chat: ChatDb
    var nextId: Id

    ghost function State(): Directory
      reads this
    {
      Directory(main, chat, nextId)
    }

    constructor ()
      ensures State() == FRESH
    {
      main, chat, nextId := FRESH.main, FRESH.chat, FRESH.nextId;
    }

    method GetUnit(buId: Id, companyId: Id) returns (found: bool)
      ensures found == HasUnit(main, buId, companyId)
    {
      var k := 0;
      while k < |main.units|
        invariant k <= |main.units|
        invariant forall j :: 0 <= j < k ==> !(main.units[j].id == buId && main.units[j].companyId == companyId)
      {
        if main.units[k].id == buId && main.units[k].companyId == companyId {
          return true;
        }
        k := k + 1;
      }
      found := false;
    }

    /** Saves the profile and then joins the chat; a failure in between leaves the profile. */
    method SaveProfileAndJoin(personId: Id, buId: Id, email: string, role: StaffRole, fate: StaffFate) returns (ok: bool)
      modifies this
      ensures State() == AddStaff(old(State()), personId, buId, email, role, fate)
      ensures ok <==> Completes(old(State()), personId, buId, email, fate)
      ensures AddsProfile(old(main), main, Profile(old(nextId), personId, buId, email, role),
                          fate.profile && IsFree(old(main).profiles, buId, email))
      ensures ok && UniqueRows(old(chat).members) ==> JoinsAsMember(old(chat), chat, personId, buId)
    {
      ghost var d := State();
      FreeMeansNotTaken(main.profiles, buId, email);
      if Completes(d, personId, buId, email, fate) && UniqueRows(chat.members) {
        JoiningJoins(AddProfile(d, personId, buId, email, role), personId, buId, fate);
      }
      if !fate.profile || EmailTaken(main.profiles, buId, email) {
        return false;
      }
      main := main.(profiles := main.profiles + [Profile(nextId, personId, buId, email, role)]);
      nextId := nextId + 1;
      if !fate.lookup {
        return false;
      }
      var w := WorkspaceOf(chat.workspaces, buId);
      if w.Some? && !fate.member.Fails? {
        chat := chat.(members := Effect(WorkspaceIds(chat), chat.members, AddMember(w.value.id, personId, MEMBER)));
      }
      ok := w.None? || (fate.member.Succeeds? && Accepted(WorkspaceIds(chat), AddMember(w.value.id, personId, MEMBER)));
    }

    method CreateAsync(companyId: Id, buId: Id, email: string, parsed: Option<StaffRole>, fate: StaffFate)
      returns (r: Reply<Id>)
      modifies this
      ensures State() == Handle(old(State()), Tenancy.Request.CreateStaff(companyId, buId, email, parsed, fate))
      ensures r == Refused(UnitNotFound) <==> !HasUnit(old(main), buId, companyId)
      ensures r == Refused(InvalidRole) <==> HasUnit(old(main), buId, companyId) && (parsed.None? || parsed.value == Owner)
      ensures r.Done? <==>
              && HasUnit(old(main), buId, companyId) && parsed.Some? && parsed.value != Owner && fate.person
              && Completes(old(State()), old(nextId), buId, email, fate)
      ensures r.Done? ==> r.value == old(nextId)
      ensures r.Refused? ==> r.reason == UnitNotFound || r.reason == InvalidRole || r.reason == StatementFailed
      ensures if r == Refused(UnitNotFound) || r == Refused(InvalidRole) || !fate.person then State() == old(State())
              else AddsProfile(old(main).(persons := old(main).persons[old(nextId) := companyId]), main,
                               Profile(old(nextId) + 1, old(nextId), buId, email, parsed.value),
                               fate.profile && IsFree(old(main).profiles, buId, email))
      ensures r.Done? && UniqueRows(old(chat).members) ==> JoinsAsMember(old(chat), chat, r.value, buId)
    {
      var found := GetUnit(buId, companyId);
      if !found {
        return Refused(UnitNotFound);
      }
      if !Allowed(parsed) {
        return Refused(InvalidRole);
      }
      if !fate.person {
        return Refused(StatementFailed);
      }
      var personId := nextId;
      main := main.(persons := main.persons[personId := companyId]);
      nextId := nextId + 1;
      var ok := SaveProfileAndJoin(personId, buId, email, parsed.value, fate);
      r := if ok then Done(personId) else Refused(StatementFailed);
    }

    method EnrollExistingAsync(companyId: Id, buId: Id, personId: Id, email: string, parsed: Option<StaffRole>, fate: StaffFate)
      returns (r: Reply<Id>)
      modifies this
      ensures State() == Handle(old(State()), Tenancy.Request.Enroll(companyId, buId, personId, email, parsed, fate))
      ensures r == Refused(UnitNotFound) <==> !HasUnit(old(main), buId, companyId)
      ensures r == Refused(PersonNotFound) <==> HasUnit(old(main), buId, companyId) && !HasPerson(old(main), personId, companyId)
      ensures r == Refused(ProfileExists) <==>
              && HasUnit(old(main), buId, companyId) && HasPerson(old(main), personId, companyId)
              && FindProfile(old(main).profiles, personId, buId).Some?
      ensures r == Refused(InvalidRole) <==>
              && HasUnit(old(main), buId, companyId) && HasPerson(old(main), personId, companyId)
              && FindProfile(old(main).profiles, personId, buId).None? && (parsed.None? || parsed.value == Owner)
      ensures r.Refused? ==> r.reason != ProfileNotFound && r.reason != Refusal.AccessDenied
      ensures r.Done? ==> r.value == personId && Completes(old(State()), personId, buId, email, fate)
      ensures if r.Refused? && r.reason != StatementFailed then State() == old(State())
              else
                && (r.Done? <==> Completes(old(State()), personId, buId, email, fate))
                && AddsProfile(old(main), main, Profile(old(nextId), personId, buId, email, parsed.value),
                               fate.profile && IsFree(old(main).profiles, buId, email))
      ensures r.Done? && UniqueRows(old(chat).members) ==> JoinsAsMember(old(chat), chat, personId, buId)
    {
      var found := GetUnit(buId, companyId);
      if !found {
        return Refused(UnitNotFound);
      }
      if !HasPerson(main, personId, companyId) {
        return Refused(PersonNotFound);
      }
      if FindProfile(main.profiles, personId, buId).Some? {
        return Refused(ProfileExists);
      }
      if !Allowed(parsed) {
        return Refused(InvalidRole);
      }
      var ok := SaveProfileAndJoin(personId, buId, email, parsed.value, fate);
      r := if ok then Done(personId) else Refused(StatementFailed);
    }

    method UpdateRoleAsync(personId: Id, buId: Id, companyId: Id, parsed: Option<StaffRole>, saved: bool)
      returns (r: Reply<()>)
      modifies this`main
      ensures State() == Handle(old(State()), Tenancy.Request.UpdateRole(personId, buId, companyId, parsed, saved))
      ensures r == match FindProfile(old(main).profiles, personId, buId)
                   case None => Refused(ProfileNotFound)
                   case Some(_) =>
                     if !HasPerson(old(main), personId, companyId) then Refused(Refusal.AccessDenied)
                     else if parsed.None? || parsed.value == Owner then Refused(InvalidRole)
                     else if !saved then Refused(StatementFailed)
                     else Done(())
      ensures r.Refused? ==> main == old(main)
      ensures r.Done? ==>
                var k := FindProfile(old(main).profiles, personId, buId).value;
                var p := old(main).profiles[k];
                && main.profiles == old(main).profiles[k := Profile(p.id, p.personId, p.buId, p.email, parsed.value)]
                && main.companies == old(main).companies && main.units == old(main).units && main.persons == old(main).persons
    {
      match FindProfile(main.profiles, personId, buId) {
        case None => return Refused(ProfileNotFound);
        case Some(k) =>
          if !HasPerson(main, personId, companyId) {
            return Refused(Refusal.AccessDenied);
          }
          if !Allowed(parsed) {
            return Refused(InvalidRole);
          }
          if !saved {
            return Refused(StatementFailed);
          }
          main := main.(profiles := main.profiles[k := main.profiles[k].(role := parsed.value)]);
          r := Done(());
      }
    }
  }
}

/**
  Workspace membership: the two upserts on chat_workspace_members, and what a row says about the
  history of requests that produced it.
 */
module Membership {
  import opened Entities

  const ADMIN := "Admin"
  const MEMBER := "Member"

  datatype MemberRow = MemberRow(workspaceId: Id, personId: Id, role: string, hasAccess: bool)

  /** The requests that reach the table, as the service methods receive them. */
  datatype Request =
    | AddMember(workspaceId: Id, personId: Id, role: string)
    | UpdateMemberAccess(workspaceId: Id, personId: Id, hasAccess: bool)

  /** The entity constructor, with its rule that Admins get chat access by default. */
  function NewMember(workspaceId: Id, personId: Id, role: string): Result<MemberRow> {
    if workspaceId == NIL then Err(Required("workspaceID"))
    else if personId == NIL then Err(Required("personID"))
    else if role == "" then Err(Required("role"))
    else Ok(MemberRow(workspaceId, personId, role, role == ADMIN))
  }

  predicate IsFor(row: MemberRow, workspaceId: Id, personId: Id) {
    row.workspaceId == workspaceId && row.personId == personId
  }

  /** The position of a pair's first row, if it has one. */
  function Find(rows: seq<MemberRow>, workspaceId: Id, personId: Id): (k: Option<nat>)
    ensures k.Some? ==> k.value < |rows| && IsFor(rows[k.value], workspaceId, personId)
    ensures k.None? ==> forall j :: 0 <= j < |rows| ==> !IsFor(rows[j], workspaceId, personId)
  {
    if rows == [] then None
    else if IsFor(rows[0], workspaceId, personId) then Some(0)
    else
      match Find(rows[1..], workspaceId, personId)
      case Some(k) => Some(k + 1)
      case None => None
  }

  /** The UNIQUE (workspace_id, person_id) constraint. */
  ghost predicate UniqueRows(rows: seq<MemberRow>) {
    forall j, k :: 0 <= j < k < |rows| ==> !IsFor(rows[k], rows[j].workspaceId, rows[j].personId)
  }

  /** The table constraints that a new row is checked against before conflicts are resolved. */
  function Violation(workspaces: set<Id>, row: MemberRow): Option<Error> {
    if row.role != ADMIN && row.role != MEMBER then Some(CheckViolation)
    else if row.workspaceId !in workspaces then Some(ForeignKeyViolation)
    else None
  }

  /** A request that passes validation and the table constraints. */
  predicate Accepted(workspaces: set<Id>, q: Request) {
    match q
    case AddMember(w, p, role) => w != NIL && p != NIL && (role == ADMIN || role == MEMBER) && w in workspaces
    case UpdateMemberAccess(w, p, _) => w in workspaces
  }

  /** The effect of one request on the table; a rejected one leaves it alone. */
  function Effect(workspaces: set<Id>, rows: seq<MemberRow>, q: Request): seq<MemberRow> {
    if !Accepted(workspaces, q) then rows
    else
      match Find(rows, q.workspaceId, q.personId)
      case Some(k) =>
        (match q
         case AddMember(_, _, role) => rows[k := rows[k].(role := role)]
         case UpdateMemberAccess(_, _, hasAccess) => rows[k := rows[k].(hasAccess := hasAccess)])
      case None =>
        (match q
         case AddMember(w, p, role) => rows + [MemberRow(w, p, role, role == ADMIN)]
         case UpdateMemberAccess(w, p, hasAccess) => rows + [MemberRow(w, p, MEMBER, hasAccess)])
  }

  // ---------------------------------------------------------------- rows as a function of history

  /** The table after a history of requests, oldest first. */
  function Replay(workspaces: set<Id>, history: seq<Request>): seq<MemberRow> {
    if history == [] then []
    else Effect(workspaces, Replay(workspaces, history[..|history| - 1]), history[|history| - 1])
  }

  predicate Concerns(workspaces: set<Id>, q: Request, w: Id, p: Id) {
    Accepted(workspaces, q) && q.workspaceId == w && q.personId == p
  }

  function LastAccessUpdate(workspaces: set<Id>, history: seq<Request>, w: Id, p: Id): Option<bool> {
    if history == [] then None
    else
      var q := history[|history| - 1];
      if Concerns(workspaces, q, w, p) && q.UpdateMemberAccess? then Some(q.hasAccess)
      else LastAccessUpdate(workspaces, history[..|history| - 1], w, p)
  }

  function LastRole(workspaces: set<Id>, history: seq<Request>, w: Id, p: Id): Option<string> {
    if history == [] then None
    else
      var q := history[|history| - 1];
      if Concerns(workspaces, q, w, p) && q.AddMember? then Some(q.role)
      else LastRole(workspaces, history[..|history| - 1], w, p)
  }

  function FirstRole(workspaces: set<Id>, history: seq<Request>, w: Id, p: Id): Option<string> {
    if history == [] then None
    else if FirstRole(workspaces, history[..|history| - 1], w, p).Some? then
      FirstRole(workspaces, history[..|history| - 1], w, p)
    else
      var q := history[|history| - 1];
      if Concerns(workspaces, q, w, p) && q.AddMember? then Some(q.role) else None
  }

  /** What the history says about a pair, without replaying it. */
  function Recalled(workspaces: set<Id>, history: seq<Request>, w: Id, p: Id): Option<MemberRow> {
    var access := LastAccessUpdate(workspaces, history, w, p);
    var role := LastRole(workspaces, history, w, p);
    if access.None? && role.None? then None
    else
      Some(MemberRow(w, p,
                     if role.Some? then role.value else MEMBER,
                     if access.Some? then access.value else FirstRole(workspaces, history, w, p) == Some(ADMIN)))
  }

  function RowOf(rows: seq<MemberRow>, w: Id, p: Id): Option<MemberRow> {
    match Find(rows, w, p)
    case Some(k) => Some(rows[k])
    case None => None
  }

  lemma {:induction false} FindAfterUpdate(rows: seq<MemberRow>, k: nat, row: MemberRow, w: Id, p: Id)
    requires k < |rows| && IsFor(row, rows[k].workspaceId, rows[k].personId)
    ensures Find(rows[k := row], w, p) == Find(rows, w, p)
  {
    if k > 0 {
      assert rows[k := row][1..] == rows[1..][k - 1 := row];
      FindAfterUpdate(rows[1..], k - 1, row, w, p);
    } else {
      assert rows[k := row][1..] == rows[1..];
    }
  }

  lemma {:induction false} FindAfterAppend(rows: seq<MemberRow>, row: MemberRow, w: Id, p: Id)
    ensures Find(rows + [row], w, p) ==
            if Find(rows, w, p).Some? then Find(rows, w, p)
            else if IsFor(row, w, p) then Some(|rows|) else None
  {
    if rows == [] {
      assert [row][1..] == [];
    } else {
      assert (rows + [row])[1..] == rows[1..] + [row];
      FindAfterAppend(rows[1..], row, w, p);
    }
  }

  /** One request touches one pair's row, and keeps the rows unique. */
  lemma EffectOnRow(workspaces: set<Id>, rows: seq<MemberRow>, q: Request, w: Id, p: Id)
    requires UniqueRows(rows)
    ensures UniqueRows(Effect(workspaces, rows, q))
    ensures !Concerns(workspaces, q, w, p) ==> RowOf(Effect(workspaces, rows, q), w, p) == RowOf(rows, w, p)
    ensures Concerns(workspaces, q, w, p) ==>
              RowOf(Effect(workspaces, rows, q), w, p) ==
              match RowOf(rows, w, p)
              case Some(row) =>
                Some(if q.AddMember? then row.(role := q.role) else row.(hasAccess := q.hasAccess))
              case None =>
                Some(if q.AddMember? then MemberRow(w, p, q.role, q.role == "Admin")
                     else MemberRow(w, p, "Member", q.hasAccess))
  {
    if Accepted(workspaces, q) {
      match Find(rows, q.workspaceId, q.personId) {
        case Some(k) =>
          FindAfterUpdate(rows, k, Effect(workspaces, rows, q)[k], w, p);
        case None =>
          var row := Effect(workspaces, rows, q)[|rows|];
          FindAfterAppend(rows, row, w, p);
      }
    }
  }

  lemma {:induction false} RolesAgree(workspaces: set<Id>, history: seq<Request>, w: Id, p: Id)
    ensures FirstRole(workspaces, history, w, p).Some? <==> LastRole(workspaces, history, w, p).Some?
  {
    if history != [] {
      RolesAgree(workspaces, history[..|history| - 1], w, p);
    }
  }

  /**
    A row is a function of the requests about its pair: at most one row exists; its access is the
    last UpdateMemberAccess, or else whether the first AddMember was for an Admin; its role is the
    last AddMember role, or else Member.
   */
  lemma {:induction false} RowsRecallHistory(workspaces: set<Id>, history: seq<Request>, w: Id, p: Id)
    ensures UniqueRows(Replay(workspaces, history))
    ensures RowOf(Replay(workspaces, history), w, p) == Recalled(workspaces, history, w, p)
  {
    if history != [] {
      var front, q := history[..|history| - 1], history[|history| - 1];
      RowsRecallHistory(workspaces, front, w, p);
      EffectOnRow(workspaces, Replay(workspaces, front), q, w, p);
      RolesAgree(workspaces, front, w, p);
    }
  }

  // ---------------------------------------------------------------- the operations as they run

  /** The chat service's membership operations over its table. */
  class WorkspaceService {
    var workspaces: set<Id>
    var rows: seq<MemberRow>

    ghost var history: seq<Request>

    /** The rows are what the requests so far make of an empty table. */
    ghost predicate Valid()
      reads this
    {
      rows == Replay(workspaces, history)
    }

    constructor (workspaces: set<Id>)
      ensures Valid() && this.workspaces == workspaces && history == []
    {
      this.workspaces := workspaces;
      rows, history := [], [];
    }

    /** What the table knows about a pair is what its history says. */
    method GetByWorkspaceAndPerson(workspaceId: Id, personId: Id) returns (r: Result<MemberRow>)
      requires Valid()
      ensures r == match Recalled(workspaces, history, workspaceId, personId)
                   case Some(row) => Ok(row)
                   case None => Err(NotFound)
    {
      RowsRecallHistory(workspaces, history, workspaceId, personId);
      match Find(rows, workspaceId, personId) {
        case Some(k) => r := Ok(rows[k]);
        case None => r := Err(NotFound);
      }
    }

    method AddMember(workspaceId: Id, personId: Id, role: string) returns (r: Result<MemberRow>)
      requires Valid()
      modifies this`rows, this`history
      ensures Valid() && history == old(history) + [Request.AddMember(workspaceId, personId, role)]
      ensures rows == Effect(workspaces, old(rows), Request.AddMember(workspaceId, personId, role))
      ensures r.Err? ==>
                r.error == if workspaceId == NIL then Required("workspaceID")
                           else if personId == NIL then Required("personID")
                           else if role == "" then Required("role")
                           else if role != "Admin" && role != "Member" then CheckViolation else ForeignKeyViolation
      ensures r.Ok? <==> workspaceId != NIL && personId != NIL && (role == "Admin" || role == "Member") && workspaceId in workspaces
      ensures r.Ok? ==> r.value in rows && IsFor(r.value, workspaceId, personId) && r.value.role == role
      ensures r.Ok? ==> r.value.hasAccess == match RowOf(old(rows), workspaceId, personId)
                                             case Some(row) => row.hasAccess
                                             case None => role == "Admin"
    {
      ghost var was := history;
      history := history + [Request.AddMember(workspaceId, personId, role)];
      assert history[..|history| - 1] == was;
      match NewMember(workspaceId, personId, role) {
        case Err(e) => return Err(e);
        case Ok(m) => r := Upsert(m);
      }
    }

    /** On conflict only the role is taken from the new row. */
    method Upsert(m: MemberRow) returns (r: Result<MemberRow>)
      modifies this`rows
      ensures r.Ok? <==> (m.role == "Admin" || m.role == "Member") && m.workspaceId in workspaces
      ensures r.Err? ==>
                rows == old(rows) && r.error == if m.role == "Admin" || m.role == "Member" then ForeignKeyViolation else CheckViolation
      ensures r.Ok? ==> r.value.hasAccess == match Find(old(rows), m.workspaceId, m.personId)
                                             case Some(k) => old(rows)[k].hasAccess
                                             case None => m.hasAccess
      ensures r.Ok? ==> r.value in rows && IsFor(r.value, m.workspaceId, m.personId) && r.value.role == m.role
      ensures r.Ok? ==>
                match Find(old(rows), m.workspaceId, m.personId)
                case Some(k) => rows == old(rows)[k := old(rows)[k].(role := m.role)]
                case None => rows == old(rows) + [m]
    {
      match Violation(workspaces, m) {
        case Some(e) => return Err(e);
        case None =>
      }
      match Find(rows, m.workspaceId, m.personId) {
        case Some(k) =>
          rows := rows[k := rows[k].(role := m.role)];
          r := Ok(rows[k]);
        case None =>
          rows := rows + [m];
          r := Ok(m);
          assert rows[|rows| - 1] == m;
      }
    }

    /** On conflict only the access flag is taken from the new row; a new row is a plain Member. */
    method UpdateMemberAccess(workspaceId: Id, personId: Id, hasAccess: bool) returns (r: Result<MemberRow>)
      requires Valid()
      modifies this`rows, this`history
      ensures Valid() && history == old(history) + [Request.UpdateMemberAccess(workspaceId, personId, hasAccess)]
      ensures rows == Effect(workspaces, old(rows), Request.UpdateMemberAccess(workspaceId, personId, hasAccess))
      ensures r.Ok? <==> workspaceId in workspaces
      ensures r.Err? ==> r.error == ForeignKeyViolation
      ensures r.Ok? ==> r.value in rows && IsFor(r.value, workspaceId, personId) && r.value.hasAccess == hasAccess
      ensures r.Ok? ==> r.value.role == match RowOf(old(rows), workspaceId, personId)
                                        case Some(row) => row.role
                                        case None => "Member"
    {
      ghost var was := history;
      history := history + [Request.UpdateMemberAccess(workspaceId, personId, hasAccess)];
      assert history[..|history| - 1] == was;
      var m := MemberRow(workspaceId, personId, MEMBER, hasAccess);
      match Violation(workspaces, m) {
        case Some(e) => return Err(e);
        case None =>
      }
      match Find(rows, workspaceId, personId) {
        case Some(k) =>
          rows := rows[k := rows[k].(hasAccess := hasAccess)];
          r := Ok(rows[k]);
        case None =>
          rows := rows + [m];
          r := Ok(m);
          assert rows[|rows| - 1] == m;
      }
    }
  }
}

/** The first-admin grant (app/api/admin/bootstrap/route.ts, `POST`): a
    signed-in caller becomes admin when, and only when, no admin role exists
    yet. The role table is a class whose one method is the route. */
module AdminBootstrap {
  import opened JsValues
  import opened Tables
  import opened Http

  /** The `app_role` enumeration. */
  datatype AppRole = AdminRole | AuthorRole | UserRole

  /** A row of `user_roles`. */
  datatype RoleRow = RoleRow(id: string, userId: string, role: AppRole)

  /** The caller (from the session), whether the admin lookup errs, the id
      given to a new row, and whether the insert errs. */
  datatype BootstrapEnv = BootstrapEnv(user: Option<string>, lookupFails: bool, newId: string, insertFails: bool)

  predicate HasAdmin(rows: seq<RoleRow>) {
    exists i :: 0 <= i < |rows| && rows[i].role == AdminRole
  }

  predicate HasRoleId(rows: seq<RoleRow>, id: string) {
    exists i :: 0 <= i < |rows| && rows[i].id == id
  }

  function Message(text: string): JsValue {
    Obj([("ok", Bool(true)), ("message", Str(text))])
  }

  datatype Result = Result(rows: seq<RoleRow>, reply: Reply)

  /** The route as a function of the table before the call. */
  function Bootstrap(rows: seq<RoleRow>, env: BootstrapEnv): Result {
    if env.user.None? then Result(rows, Json(401, ErrorBody("Unauthorized")))
    else if env.lookupFails then Result(rows, DbFailed(500))
    else if HasAdmin(rows) then Result(rows, Json(200, Message("Admin already present")))
    else if env.insertFails || HasRoleId(rows, env.newId) then Result(rows, DbFailed(500))
    else Result(rows + [RoleRow(env.newId, env.user.value, AdminRole)],
                Json(200, Message("Admin role granted to current user")))
  }

  /** Number of admin rows. */
  function AdminCount(rows: seq<RoleRow>): nat {
    if |rows| == 0 then 0
    else AdminCount(rows[..|rows| - 1]) + (if rows[|rows| - 1].role == AdminRole then 1 else 0)
  }

  /** Calls one after another. */
  function Replay(rows: seq<RoleRow>, calls: seq<BootstrapEnv>): seq<RoleRow>
    decreases |calls|
  {
    if |calls| == 0 then rows else Replay(Bootstrap(rows, calls[0]).rows, calls[1..])
  }

  class RoleTable {
    var rows: seq<RoleRow>

    constructor(initial: seq<RoleRow>)
      ensures rows == initial
    {
      rows := initial;
    }

    /** The route: read for one admin row (`.eq("role", "admin").limit(1)`),
        then at most one insert. */
    method Grant(env: BootstrapEnv) returns (reply: Reply)
      modifies this
      ensures Result(rows, reply) == Bootstrap(old(rows), env)
    {
      if env.user.None? {
        return Json(401, ErrorBody("Unauthorized"));
      }
      if env.lookupFails {
        return DbFailed(500);
      }
      var admins: seq<RoleRow> := [];
      var clash := false;
      var i := 0;
      while i < |rows|
        invariant 0 <= i <= |rows| && rows == old(rows)
        invariant |admins| <= 1
        invariant |admins| == 0 <==> forall j :: 0 <= j < i ==> rows[j].role != AdminRole
        invariant clash <==> exists j :: 0 <= j < i && rows[j].id == env.newId
      {
        if rows[i].role == AdminRole && |admins| == 0 {
          admins := admins + [rows[i]];
        }
        if rows[i].id == env.newId {
          clash := true;
        }
        i := i + 1;
      }
      if |admins| > 0 {
        return Json(200, Message("Admin already present"));
      }
      if env.insertFails || clash {
        return DbFailed(500);
      }
      rows := rows + [RoleRow(env.newId, env.user.value, AdminRole)];
      reply := Json(200, Message("Admin role granted to current user"));
    }
  }

  // ---------------------------------------------------------------------
  // Properties

  /** Existing rows are never changed or removed; at most one row is added,
      and only as an admin row for the caller. */
  lemma PrefixKept(rows: seq<RoleRow>, env: BootstrapEnv)
    ensures var r := Bootstrap(rows, env).rows;
      || r == rows
      || (env.user.Some? && r == rows + [RoleRow(env.newId, env.user.value, AdminRole)])
  {
  }

  /** No caller: 401, and the table is not even read. */
  lemma NoUserRejected(rows: seq<RoleRow>, env: BootstrapEnv)
    requires env.user.None?
    ensures Bootstrap(rows, env) == Result(rows, Json(401, ErrorBody("Unauthorized")))
  {
  }

  /** The grant happens exactly when there is a caller, no error, no admin
      yet; otherwise the table is as it was. */
  lemma GrantIff(rows: seq<RoleRow>, env: BootstrapEnv)
    ensures var r := Bootstrap(rows, env);
      (r.rows != rows) <==>
        (env.user.Some? && !env.lookupFails && !HasAdmin(rows) && !env.insertFails && !HasRoleId(rows, env.newId))
  {
    var r := Bootstrap(rows, env);
    if env.user.Some? && !env.lookupFails && !HasAdmin(rows) && !env.insertFails && !HasRoleId(rows, env.newId) {
      assert |r.rows| == |rows| + 1;
    }
  }

  lemma {:induction false} AdminCountAppend(rows: seq<RoleRow>, row: RoleRow)
    ensures AdminCount(rows + [row]) == AdminCount(rows) + (if row.role == AdminRole then 1 else 0)
  {
    assert (rows + [row])[..|rows|] == rows;
  }

  lemma {:induction false} AdminCountZero(rows: seq<RoleRow>)
    ensures AdminCount(rows) == 0 <==> !HasAdmin(rows)
  {
    if |rows| > 0 {
      var n := |rows| - 1;
      AdminCountZero(rows[..n]);
      if HasAdmin(rows[..n]) {
        var i :| 0 <= i < n && rows[..n][i].role == AdminRole;
        assert rows[i].role == AdminRole;
      }
      if HasAdmin(rows) && rows[n].role != AdminRole {
        var i :| 0 <= i < |rows| && rows[i].role == AdminRole;
        assert rows[..n][i].role == AdminRole;
      }
    }
  }

  /** Once an admin exists, every later call leaves the table as it is. */
  lemma {:induction false} OnceAdminAlwaysNoop(rows: seq<RoleRow>, calls: seq<BootstrapEnv>)
    requires HasAdmin(rows)
    ensures Replay(rows, calls) == rows
    decreases |calls|
  {
    if |calls| > 0 {
      OnceAdminAlwaysNoop(rows, calls[1..]);
    }
  }

  /** However many callers bootstrap one after another, at most one admin
      row is ever added. */
  lemma {:induction false} AtMostOneGrant(rows: seq<RoleRow>, calls: seq<BootstrapEnv>)
    ensures AdminCount(Replay(rows, calls)) <= AdminCount(rows) + 1
    ensures HasAdmin(rows) ==> AdminCount(Replay(rows, calls)) == AdminCount(rows)
    decreases |calls|
  {
    if HasAdmin(rows) {
      OnceAdminAlwaysNoop(rows, calls);
    } else if |calls| > 0 {
      var next := Bootstrap(rows, calls[0]).rows;
      AdminCountZero(rows);
      if next == rows {
        AtMostOneGrant(rows, calls[1..]);
      } else {
        var row := RoleRow(calls[0].newId, calls[0].user.value, AdminRole);
        assert next == rows + [row];
        AdminCountAppend(rows, row);
        assert HasAdmin(next) by { assert next[|rows|].role == AdminRole; }
        OnceAdminAlwaysNoop(next, calls[1..]);
      }
    }
  }
}

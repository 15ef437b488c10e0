/** The decision of PermissionsGuard.canActivate. The permissions a route
    requires, the user the JWT guard attached and that user's role rows (each
    role given by the names of its permissions) are inputs; reading them from
    the decorator metadata and the database is not part of this model. */
module Permissions {
  import opened Wrappers

  /** The user attached to the request; only its global role is consulted. */
  datatype User = User(id: int, role: string)

  /** Why a request is refused (all three are ForbiddenException). */
  datatype DenyReason = NoUser | NoRoles | MissingPermission

  datatype Decision = Allow | Deny(reason: DenyReason)

  const AdminRole := "admin"

  /** The permission names of one role, as a set. */
  function NameSet(names: seq<string>): (s: set<string>)
    ensures forall p :: p in s <==> p in names
  {
    set i | 0 <= i < |names| :: names[i]
  }

  /** The set of permission names across all the user's roles. */
  function Granted(roles: seq<seq<string>>): (g: set<string>)
  {
    if roles == [] then {} else Granted(roles[..|roles| - 1]) + NameSet(roles[|roles| - 1])
  }

  /** `requiredPermissions.every(p => userPermissions.has(p))`. */
  predicate HasAll(required: seq<string>, granted: set<string>) {
    forall p | p in required :: p in granted
  }

  /** The whole guard, early returns in the order the source takes them. */
  function Decide(required: Option<seq<string>>, user: Option<User>, roles: seq<seq<string>>): (d: Decision)
    ensures (required.None? || required.value == []) ==> d == Allow
    ensures required.Some? && required.value != [] && user.None? ==> d == Deny(NoUser)
    ensures required.Some? && user.Some? && user.value.role == AdminRole ==> d == Allow
    ensures required.Some? && required.value != [] && user.Some? && user.value.role != AdminRole && roles == [] ==> d == Deny(NoRoles)
    ensures required.Some? && user.Some? && user.value.role != AdminRole && roles != [] ==>
              (d == Allow <==> HasAll(required.value, Granted(roles)))
    ensures d.Deny? && d.reason == MissingPermission ==> roles != []
  {
    if required.None? || required.value == [] then Allow
    else if user.None? then Deny(NoUser)
    else if user.value.role == AdminRole then Allow
    else if roles == [] then Deny(NoRoles)
    else if HasAll(required.value, Granted(roles)) then Allow
    else Deny(MissingPermission)
  }

  /** A permission is granted iff some role row lists it. */
  lemma {:induction false} GrantedMembership(roles: seq<seq<string>>, p: string)
    ensures p in Granted(roles) <==> exists i | 0 <= i < |roles| :: p in roles[i]
  {
    if roles != [] {
      var init := roles[..|roles| - 1];
      GrantedMembership(init, p);
      if p in Granted(init) {
        var i :| 0 <= i < |init| && p in init[i];
        assert roles[i] == init[i];
      }
      if exists i | 0 <= i < |roles| :: p in roles[i] {
        var i :| 0 <= i < |roles| && p in roles[i];
        if i < |init| {
          assert init[i] == roles[i];
        }
      }
    }
  }

  /** A permission set that covers more cannot lose an Allow. */
  lemma MoreGrantedKeepsAllow(required: Option<seq<string>>, user: Option<User>, roles: seq<seq<string>>, roles': seq<seq<string>>)
    requires Granted(roles) <= Granted(roles')
    requires roles != [] ==> roles' != []
    requires Decide(required, user, roles) == Allow
    ensures Decide(required, user, roles') == Allow
  {
  }

  /** Adding a role never turns an allow into a deny. */
  lemma AddRoleKeepsAllow(required: Option<seq<string>>, user: Option<User>, roles: seq<seq<string>>, role: seq<string>)
    requires Decide(required, user, roles) == Allow
    ensures Decide(required, user, roles + [role]) == Allow
  {
    assert (roles + [role])[..|roles|] == roles;
    MoreGrantedKeepsAllow(required, user, roles, roles + [role]);
  }

  /** Adding a permission to one of the roles never turns an allow into a deny. */
  lemma AddRolePermissionKeepsAllow(required: Option<seq<string>>, user: Option<User>, roles: seq<seq<string>>, i: int, name: string)
    requires 0 <= i < |roles|
    requires Decide(required, user, roles) == Allow
    ensures Decide(required, user, roles[i := roles[i] + [name]]) == Allow
  {
    var roles' := roles[i := roles[i] + [name]];
    forall p | p in Granted(roles)
      ensures p in Granted(roles')
    {
      GrantedMembership(roles, p);
      GrantedMembership(roles', p);
      var j :| 0 <= j < |roles| && p in roles[j];
      assert p in roles'[j];
    }
    MoreGrantedKeepsAllow(required, user, roles, roles');
  }

  /** canActivate: the early returns, then the nested loops that fill the
      permission set, then `every`. */
  method CanActivate(required: Option<seq<string>>, user: Option<User>, roles: seq<seq<string>>) returns (d: Decision)
    ensures d == Decide(required, user, roles)
  {
    if required.None? || |required.value| == 0 {
      return Allow;
    }
    if user.None? {
      return Deny(NoUser);
    }
    if user.value.role == AdminRole {
      return Allow;
    }
    if |roles| == 0 {
      return Deny(NoRoles);
    }
    var userPermissions: set<string> := {};
    for i := 0 to |roles|
      invariant userPermissions == Granted(roles[..i])
    {
      var names := roles[i];
      for j := 0 to |names|
        invariant userPermissions == Granted(roles[..i]) + NameSet(names[..j])
      {
        userPermissions := userPermissions + {names[j]};
      }
      assert names[..|names|] == names;
      assert roles[..i + 1][..i] == roles[..i];
    }
    assert roles[..|roles|] == roles;
    if !(forall p | p in required.value :: p in userPermissions) {
      return Deny(MissingPermission);
    }
    d := Allow;
  }
}

/**
 * WordPress roles derived from the profiles configuration: one role per
 * profile, named like the profile's member type, created with the two
 * default capabilities, removed together, and assigned to a user by
 * profile.
 */
module RoleCreator {
  import opened Php
  import opened WordPress
  import ProfileResolver
  import MemberTypeSeeder

  /** The role a profile maps to (`getRoleName`, `getRoleNameForProfile`). */
  function RoleName(profileId: string): string
  {
    MemberTypeSeeder.MemberTypeForProfile(profileId)
  }

  /** `getDefaultCapabilities`: every granted capability of a new profile role. */
  const DefaultCapabilities: set<string> := {"read", "view_fpse_registrations"}

  /** The role `add_role` registers for a profile. */
  function NewRole(profileId: string, profile: ProfileResolver.Profile): Role
  {
    Role(MemberTypeSeeder.LabelOf(profileId, profile), DefaultCapabilities)
  }

  datatype RoleReport = RoleReport(created: seq<string>, updated: seq<string>)

  /**
   * The roles and the report after `createRolesFromProfiles` has visited
   * `profiles`: an absent role is added and reported as created, an
   * existing one is reported as updated and left as it is (the loop only
   * renames the in-memory role object, which is never saved).
   */
  function CreateRoles(roles: map<string, Role>, profiles: ProfileResolver.Profiles): (map<string, Role>, RoleReport)
  {
    if profiles == [] then (roles, RoleReport([], []))
    else
      var last := profiles[|profiles| - 1];
      var (before, report) := CreateRoles(roles, profiles[..|profiles| - 1]);
      var name := RoleName(last.0);
      if name !in before then (before[name := NewRole(last.0, last.1)], RoleReport(report.created + [name], report.updated))
      else (before, RoleReport(report.created, report.updated + [name]))
  }

  /** `createRolesFromProfiles`. */
  method CreateRolesFromProfiles(registry: RoleRegistry, profiles: ProfileResolver.Profiles) returns (report: RoleReport)
    modifies registry
    ensures (registry.roles, report) == CreateRoles(old(registry.roles), profiles)
    ensures registry.userRoles == old(registry.userRoles)
  {
    var created: seq<string> := [];
    var updated: seq<string> := [];
    var i := 0;
    while i < |profiles|
      invariant 0 <= i <= |profiles|
      invariant (registry.roles, RoleReport(created, updated)) == CreateRoles(old(registry.roles), profiles[..i])
      invariant registry.userRoles == old(registry.userRoles)
    {
      assert profiles[..i + 1][..i] == profiles[..i];
      var (profileId, profileData) := profiles[i];
      var roleName := RoleName(profileId);
      if roleName !in registry.roles {
        registry.roles := registry.roles[roleName := NewRole(profileId, profileData)];
        created := created + [roleName];
      } else {
        updated := updated + [roleName];
      }
      i := i + 1;
    }
    assert profiles[..i] == profiles;
    report := RoleReport(created, updated);
  }

  /**
   * Each profile's role name goes to exactly one of the two lists: to
   * created when the role was absent, to updated when it existed.
   * Afterwards every profile's role exists, roles that existed are
   * unchanged, and every new role grants exactly the default capabilities.
   */
  lemma {:induction false} CreateRolesFacts(roles: map<string, Role>, profiles: ProfileResolver.Profiles)
    ensures var (after, report) := CreateRoles(roles, profiles);
      |report.created| + |report.updated| == |profiles|
    ensures var (after, report) := CreateRoles(roles, profiles);
      forall id :: id in Keys(profiles) ==> RoleName(id) in after
    ensures var (after, report) := CreateRoles(roles, profiles);
      forall n :: n in roles ==> n in after && after[n] == roles[n]
    ensures var (after, report) := CreateRoles(roles, profiles);
      forall n :: n in after && n !in roles ==> after[n].caps == DefaultCapabilities && n in report.created
    ensures var (after, report) := CreateRoles(roles, profiles);
      forall n :: n in report.created ==> n !in roles
    ensures var (after, report) := CreateRoles(roles, profiles);
      forall n :: n in report.updated ==> n in after
  {
    if profiles != [] {
      var init := profiles[..|profiles| - 1];
      var last := profiles[|profiles| - 1];
      CreateRolesFacts(roles, init);
      SplitLast(profiles);
      KeysAppend(init, [last]);
      assert Keys([last]) == [last.0];
    }
  }

  /**
   * Every profile's role name is reported, and one whose role already
   * existed is reported as updated and never as created.
   */
  lemma {:induction false} CreateRolesReportsEveryProfile(roles: map<string, Role>, profiles: ProfileResolver.Profiles)
    ensures forall id :: id in Keys(profiles) ==>
      RoleName(id) in CreateRoles(roles, profiles).1.created + CreateRoles(roles, profiles).1.updated
    ensures forall id :: id in Keys(profiles) && RoleName(id) in roles ==>
      RoleName(id) in CreateRoles(roles, profiles).1.updated && RoleName(id) !in CreateRoles(roles, profiles).1.created
  {
    if profiles != [] {
      var init := profiles[..|profiles| - 1];
      var last := profiles[|profiles| - 1];
      CreateRolesReportsEveryProfile(roles, init);
      CreateRolesFacts(roles, init);
      CreateRolesFacts(roles, profiles);
      SplitLast(profiles);
      KeysAppend(init, [last]);
      assert Keys([last]) == [last.0];
    }
  }

  /** The roles and the removed list after `removeAllRoles` has visited `profiles`. */
  function RemoveRoles(roles: map<string, Role>, profiles: ProfileResolver.Profiles): (map<string, Role>, seq<string>)
  {
    if profiles == [] then (roles, [])
    else
      var last := profiles[|profiles| - 1];
      var (before, removed) := RemoveRoles(roles, profiles[..|profiles| - 1]);
      var name := RoleName(last.0);
      if name in before then (before - {name}, removed + [name]) else (before, removed)
  }

  /** `removeAllRoles`. */
  method RemoveAllRoles(registry: RoleRegistry, profiles: ProfileResolver.Profiles) returns (removed: seq<string>)
    modifies registry
    ensures (registry.roles, removed) == RemoveRoles(old(registry.roles), profiles)
    ensures registry.userRoles == old(registry.userRoles)
  {
    removed := [];
    var i := 0;
    while i < |profiles|
      invariant 0 <= i <= |profiles|
      invariant (registry.roles, removed) == RemoveRoles(old(registry.roles), profiles[..i])
      invariant registry.userRoles == old(registry.userRoles)
    {
      assert profiles[..i + 1][..i] == profiles[..i];
      var roleName := RoleName(profiles[i].0);
      if roleName in registry.roles {
        registry.roles := registry.roles - {roleName};
        removed := removed + [roleName];
      }
      i := i + 1;
    }
    assert profiles[..i] == profiles;
  }

  /**
   * `removeAllRoles` reports exactly the profile roles that existed, each
   * once; afterwards no profile role exists and every other role is
   * unchanged.
   */
  lemma {:induction false} RemoveRolesFacts(roles: map<string, Role>, profiles: ProfileResolver.Profiles)
    ensures var (after, removed) := RemoveRoles(roles, profiles);
      forall n :: n in removed <==> n in roles && exists id :: id in Keys(profiles) && RoleName(id) == n
    ensures var (after, removed) := RemoveRoles(roles, profiles);
      forall i, j :: 0 <= i < j < |removed| ==> removed[i] != removed[j]
    ensures var (after, removed) := RemoveRoles(roles, profiles);
      forall id :: id in Keys(profiles) ==> RoleName(id) !in after
    ensures var (after, removed) := RemoveRoles(roles, profiles);
      forall n :: n in roles && n !in removed ==> n in after && after[n] == roles[n]
    ensures var (after, removed) := RemoveRoles(roles, profiles);
      forall n :: n in after ==> n in roles
  {
    RemoveRolesFrame(roles, profiles);
    RemoveRolesDistinct(roles, profiles);
    RemoveRolesGone(roles, profiles);
    RemoveRolesMembership(roles, profiles);
  }

  lemma {:induction false} RemoveRolesFrame(roles: map<string, Role>, profiles: ProfileResolver.Profiles)
    ensures var r := RemoveRoles(roles, profiles);
      forall n :: n in roles && n !in r.1 ==> n in r.0 && r.0[n] == roles[n]
    ensures var r := RemoveRoles(roles, profiles);
      forall n :: n in r.0 ==> n in roles
    ensures var r := RemoveRoles(roles, profiles);
      forall n :: n in r.1 ==> n in roles && n !in r.0
  {
    if profiles != [] {
      RemoveRolesFrame(roles, profiles[..|profiles| - 1]);
    }
  }

  lemma {:induction false} RemoveRolesDistinct(roles: map<string, Role>, profiles: ProfileResolver.Profiles)
    ensures var (after, removed) := RemoveRoles(roles, profiles);
      forall i, j :: 0 <= i < j < |removed| ==> removed[i] != removed[j]
  {
    if profiles != [] {
      var init := profiles[..|profiles| - 1];
      RemoveRolesDistinct(roles, init);
      RemoveRolesFrame(roles, init);
      var r := RemoveRoles(roles, init);
      assert forall n :: n in r.1 ==> n !in r.0;
    }
  }

  lemma {:induction false} RemoveRolesGone(roles: map<string, Role>, profiles: ProfileResolver.Profiles)
    ensures var (after, removed) := RemoveRoles(roles, profiles);
      forall id :: id in Keys(profiles) ==> RoleName(id) !in after
  {
    if profiles != [] {
      var init := profiles[..|profiles| - 1];
      var last := profiles[|profiles| - 1];
      RemoveRolesGone(roles, init);
      KeysSnoc(profiles);
    }
  }

  lemma {:induction false} RemoveRolesMembership(roles: map<string, Role>, profiles: ProfileResolver.Profiles)
    ensures var (after, removed) := RemoveRoles(roles, profiles);
      forall n :: n in removed <==> n in roles && exists id :: id in Keys(profiles) && RoleName(id) == n
  {
    if profiles != [] {
      var init := profiles[..|profiles| - 1];
      var last := profiles[|profiles| - 1];
      RemoveRolesMembership(roles, init);
      RemoveRolesFrame(roles, init);
      KeysSnoc(profiles);
    }
  }

  datatype Assignment = Assignment(succeeded: bool, roles: map<string, Role>, userRoles: map<int, string>)

  /**
   * `assignRoleByProfile`: a missing role is first created from the
   * profile's configuration (and the call fails when the profile is not
   * configured either); then the user's role is set to it.
   */
  function AssignRole(roles: map<string, Role>, userRoles: map<int, string>, profiles: ProfileResolver.Profiles,
                      userId: int, profileId: string): Assignment
  {
    var name := RoleName(profileId);
    if name in roles then Assignment(true, roles, userRoles[userId := name])
    else match Lookup(profiles, profileId)
      case None => Assignment(false, roles, userRoles)
      case Some(p) => Assignment(true, roles[name := NewRole(profileId, p)], userRoles[userId := name])
  }

  method AssignRoleByProfile(registry: RoleRegistry, profiles: ProfileResolver.Profiles, userId: int, profileId: string)
    returns (succeeded: bool)
    modifies registry
    ensures Assignment(succeeded, registry.roles, registry.userRoles)
      == AssignRole(old(registry.roles), old(registry.userRoles), profiles, userId, profileId)
  {
    var roleName := RoleName(profileId);
    if roleName !in registry.roles {
      var profileData := Lookup(profiles, profileId);
      if profileData.None? {
        return false;
      }
      registry.roles := registry.roles[roleName := NewRole(profileId, profileData.value)];
    }
    registry.userRoles := registry.userRoles[userId := roleName];
    succeeded := true;
  }

  /** `roleExistsForProfile`. */
  predicate RoleExistsForProfile(registry: RoleRegistry, profileId: string)
    reads registry
  {
    registry.HasRole(RoleName(profileId))
  }

  /**
   * Assignment fails, changing nothing, exactly when the role is missing
   * and the profile is not configured; otherwise the role exists
   * afterwards, the user holds it, no other user changes, and a role is
   * added only when it was missing, with the default capabilities.
   */
  lemma AssignRoleFacts(roles: map<string, Role>, userRoles: map<int, string>, profiles: ProfileResolver.Profiles,
                        userId: int, profileId: string)
    ensures var a := AssignRole(roles, userRoles, profiles, userId, profileId);
      !a.succeeded <==> RoleName(profileId) !in roles && profileId !in Keys(profiles)
    ensures var a := AssignRole(roles, userRoles, profiles, userId, profileId);
      !a.succeeded ==> a.roles == roles && a.userRoles == userRoles
    ensures var a := AssignRole(roles, userRoles, profiles, userId, profileId);
      a.succeeded ==> RoleName(profileId) in a.roles && userId in a.userRoles && a.userRoles[userId] == RoleName(profileId)
    ensures var a := AssignRole(roles, userRoles, profiles, userId, profileId);
      forall u :: u != userId ==> (u in a.userRoles <==> u in userRoles) && (u in userRoles ==> a.userRoles[u] == userRoles[u])
    ensures var a := AssignRole(roles, userRoles, profiles, userId, profileId);
      forall n :: n in roles ==> n in a.roles && a.roles[n] == roles[n]
    ensures var a := AssignRole(roles, userRoles, profiles, userId, profileId);
      forall n :: n in a.roles && n !in roles ==> n == RoleName(profileId) && a.roles[n].caps == DefaultCapabilities
  {
  }

  /** After a successful assignment the profile's role exists for `roleExistsForProfile`. */
  lemma RoleExistsAfterAssignment(registry: RoleRegistry, profiles: ProfileResolver.Profiles, userId: int, profileId: string)
    requires AssignRole(registry.roles, registry.userRoles, profiles, userId, profileId).succeeded
    ensures RoleName(profileId) in AssignRole(registry.roles, registry.userRoles, profiles, userId, profileId).roles
    ensures RoleExistsForProfile(registry, profileId) || profileId in Keys(profiles)
  {
  }
}

/**
 * Access decisions read from the permissions configuration, and the
 * granting and revoking of the plugin's capabilities on a role. Login
 * state, `current_user_can` and `sanitize_text_field` are parameters.
 */
module PermissionService {
  import opened Php
  import opened WordPress

  /**
   * The permissions configuration; `None` is a section that is not
   * configured, and a key missing from a section's map is an entry that
   * is absent or null.
   */
  datatype Permissions = Permissions(
    capabilities: Option<seq<string>>,
    adminRoles: Option<seq<string>>,
    endpointPermissions: Option<map<string, string>>,
    rateLimits: Option<map<string, int>>)

  /** The shipped configuration; the register limit depends on WP_DEBUG. */
  function ConfiguredPermissions(debug: bool): Permissions
  {
    Permissions(
      Some(["manage_fpse_registrations", "view_fpse_registrations", "view_fpse_reports", "export_fpse_reports"]),
      Some(["administrator", "fpse_admin"]),
      Some(map["register" := "public", "nonce" := "public", "registration" := "manage_fpse_registrations"]),
      Some(map["register" := if debug then 1000 else 10, "default" := 100]))
  }

  /** `$permissions['endpoint_permissions'][$endpoint] ?? null`. */
  function EndpointRule(perms: Permissions, endpoint: string): (r: Option<string>)
    ensures r.Some? <==> perms.endpointPermissions.Some? && endpoint in perms.endpointPermissions.value
  {
    match perms.endpointPermissions
    case Some(m) => if endpoint in m then Some(m[endpoint]) else None
    case None => None
  }

  /** `canRegister`: the register rule, 'public' when unset, must be 'public'. */
  predicate CanRegister(perms: Permissions)
  {
    (match EndpointRule(perms, "register") case Some(rule) => rule case None => "public") == "public"
  }

  lemma CanRegisterExactly(perms: Permissions)
    ensures CanRegister(perms) <==> EndpointRule(perms, "register") == None || EndpointRule(perms, "register") == Some("public")
  {
  }

  /** `canAccessEndpoint`. */
  function CanAccessEndpoint(perms: Permissions, sanitize: string -> string, loggedIn: bool, userCan: string -> bool,
                             endpoint: string): (allowed: bool)
    ensures EndpointRule(perms, sanitize(endpoint)).None? ==> !allowed
    ensures EndpointRule(perms, sanitize(endpoint)) == Some("public") ==> allowed
    ensures EndpointRule(perms, sanitize(endpoint)) == Some("logged_in") ==> (allowed <==> loggedIn)
  {
    match EndpointRule(perms, sanitize(endpoint))
    case None => false
    case Some(rule) =>
      if rule == "public" then true
      else if rule == "logged_in" then loggedIn
      else userCan(rule)
  }

  /** `getEndpointCapability`: the capability an endpoint demands, or none. */
  function GetEndpointCapability(perms: Permissions, sanitize: string -> string, endpoint: string): (cap: Option<string>)
    ensures cap.None? <==> EndpointRule(perms, sanitize(endpoint)) in {None, Some("public"), Some("logged_in")}
    ensures cap.Some? ==> EndpointRule(perms, sanitize(endpoint)) == cap
  {
    var rule := EndpointRule(perms, sanitize(endpoint));
    if rule == Some("public") || rule == Some("logged_in") then None else rule
  }

  /**
   * The two readings of an endpoint rule agree: an endpoint that demands a
   * capability is open exactly to users holding it, and one that demands
   * none is open to everybody, to logged-in users only, or to nobody.
   */
  lemma AccessFollowsCapability(perms: Permissions, sanitize: string -> string, loggedIn: bool, userCan: string -> bool,
                                endpoint: string)
    ensures var cap := GetEndpointCapability(perms, sanitize, endpoint);
      cap.Some? ==> (CanAccessEndpoint(perms, sanitize, loggedIn, userCan, endpoint) <==> userCan(cap.value))
    ensures GetEndpointCapability(perms, sanitize, endpoint).None? ==>
      CanAccessEndpoint(perms, sanitize, loggedIn, userCan, endpoint) == (EndpointRule(perms, sanitize(endpoint)) == Some("public")
        || (EndpointRule(perms, sanitize(endpoint)) == Some("logged_in") && loggedIn))
  {
  }

  /** `getRateLimit`: the endpoint's limit, else the default entry, else 100. */
  function GetRateLimit(perms: Permissions, sanitize: string -> string, endpoint: string): (limit: int)
    ensures perms.rateLimits.None? ==> limit == 100
    ensures perms.rateLimits.Some? && sanitize(endpoint) in perms.rateLimits.value ==> limit == perms.rateLimits.value[sanitize(endpoint)]
    ensures perms.rateLimits.Some? && sanitize(endpoint) !in perms.rateLimits.value && "default" in perms.rateLimits.value
      ==> limit == perms.rateLimits.value["default"]
    ensures perms.rateLimits.Some? && sanitize(endpoint) !in perms.rateLimits.value && "default" !in perms.rateLimits.value
      ==> limit == 100
  {
    var limits := match perms.rateLimits case Some(m) => m case None => map[];
    if sanitize(endpoint) in limits then limits[sanitize(endpoint)]
    else if "default" in limits then limits["default"]
    else 100
  }

  /**
   * Endpoints without a limit of their own all share one limit, and that
   * limit does not depend on which other endpoints are listed.
   */
  lemma UnlistedEndpointsShareLimit(perms: Permissions, sanitize: string -> string, a: string, b: string, extra: string, n: int)
    requires perms.rateLimits.Some?
    requires sanitize(a) !in perms.rateLimits.value && sanitize(b) !in perms.rateLimits.value
    requires extra != "default" && extra != sanitize(a)
    ensures GetRateLimit(perms, sanitize, a) == GetRateLimit(perms, sanitize, b)
    ensures GetRateLimit(perms.(rateLimits := Some(perms.rateLimits.value[extra := n])), sanitize, a) == GetRateLimit(perms, sanitize, a)
  {
  }

  /** `getCapabilities`: the configured list, or none. */
  function GetCapabilities(perms: Permissions): (caps: seq<string>)
    ensures perms.capabilities.None? ==> caps == []
    ensures perms.capabilities.Some? ==> caps == perms.capabilities.value
  {
    match perms.capabilities case Some(cs) => cs case None => []
  }

  /** `getAdminRoles`: the configured list, or just 'administrator'. */
  function GetAdminRoles(perms: Permissions): (roles: seq<string>)
    ensures perms.adminRoles.None? ==> roles == ["administrator"]
    ensures perms.adminRoles.Some? ==> roles == perms.adminRoles.value
  {
    match perms.adminRoles case Some(rs) => rs case None => ["administrator"]
  }

  /** The shipped configuration's rules, read through the functions above. */
  lemma ConfiguredDecisions(debug: bool, sanitize: string -> string, loggedIn: bool, userCan: string -> bool)
    requires sanitize("register") == "register" && sanitize("registration") == "registration" && sanitize("stats") == "stats"
    ensures CanRegister(ConfiguredPermissions(debug))
    ensures CanAccessEndpoint(ConfiguredPermissions(debug), sanitize, loggedIn, userCan, "register")
    ensures CanAccessEndpoint(ConfiguredPermissions(debug), sanitize, loggedIn, userCan, "registration") == userCan("manage_fpse_registrations")
    ensures !CanAccessEndpoint(ConfiguredPermissions(debug), sanitize, loggedIn, userCan, "stats")
    ensures GetRateLimit(ConfiguredPermissions(debug), sanitize, "register") == if debug then 1000 else 10
    ensures GetRateLimit(ConfiguredPermissions(debug), sanitize, "stats") == 100
    ensures GetAdminRoles(ConfiguredPermissions(debug)) == ["administrator", "fpse_admin"]
    ensures GetCapabilities(ConfiguredPermissions(debug))
      == ["manage_fpse_registrations", "view_fpse_registrations", "view_fpse_reports", "export_fpse_reports"]
  {
    var m := ConfiguredPermissions(debug).endpointPermissions.value;
    assert "stats" !in m;
    assert "stats" !in ConfiguredPermissions(debug).rateLimits.value;
  }

  /** `canAccessState`: logged in, and the state code is configured. */
  function CanAccessState(loggedIn: bool, states: map<string, string>, sanitize: string -> string, estado: string): (allowed: bool)
    ensures allowed <==> loggedIn && sanitize(estado) in states
  {
    if !loggedIn then false else sanitize(estado) in states
  }

  /** `getAccessibleStates`: every configured state for a logged-in user, none otherwise. */
  function GetAccessibleStates(loggedIn: bool, states: map<string, string>): (r: map<string, string>)
    ensures !loggedIn ==> r == map[]
    ensures loggedIn ==> r == states
  {
    if !loggedIn then map[] else states
  }

  /** `getAccessibleStates` and `canAccessState` agree on every sanitised code. */
  lemma AccessibleStatesAgree(loggedIn: bool, states: map<string, string>, sanitize: string -> string, estado: string)
    ensures CanAccessState(loggedIn, states, sanitize, estado) <==> sanitize(estado) in GetAccessibleStates(loggedIn, states)
  {
  }

  /** The capabilities of `role` after `add_cap` of each of `caps` in turn. */
  function Granted(role: Role, caps: seq<string>): (r: Role)
    ensures r.displayName == role.displayName
    ensures r.caps == role.caps + set c | c in caps
  {
    if caps == [] then role
    else
      var before := Granted(role, caps[..|caps| - 1]);
      assert caps == caps[..|caps| - 1] + [caps[|caps| - 1]];
      Role(before.displayName, before.caps + {caps[|caps| - 1]})
  }

  /** The capabilities of `role` after `remove_cap` of each of `caps` in turn. */
  function Revoked(role: Role, caps: seq<string>): (r: Role)
    ensures r.displayName == role.displayName
    ensures r.caps == role.caps - set c | c in caps
  {
    if caps == [] then role
    else
      var before := Revoked(role, caps[..|caps| - 1]);
      assert caps == caps[..|caps| - 1] + [caps[|caps| - 1]];
      Role(before.displayName, before.caps - {caps[|caps| - 1]})
  }

  /**
   * `grantCapabilitiesToRole`: false with nothing changed for a missing
   * role; otherwise every configured capability is added to that role and
   * no other role changes.
   */
  method GrantCapabilitiesToRole(registry: RoleRegistry, perms: Permissions, sanitize: string -> string, roleName: string)
    returns (ok: bool)
    modifies registry
    ensures ok <==> sanitize(roleName) in old(registry.roles)
    ensures !ok ==> registry.roles == old(registry.roles)
    ensures ok ==> registry.roles == old(registry.roles)[sanitize(roleName) := Granted(old(registry.roles)[sanitize(roleName)], GetCapabilities(perms))]
    ensures registry.userRoles == old(registry.userRoles)
  {
    var name := sanitize(roleName);
    if name !in registry.roles {
      return false;
    }
    var capabilities := GetCapabilities(perms);
    var i := 0;
    while i < |capabilities|
      invariant 0 <= i <= |capabilities|
      invariant registry.roles == old(registry.roles)[name := Granted(old(registry.roles)[name], capabilities[..i])]
      invariant registry.userRoles == old(registry.userRoles)
    {
      assert capabilities[..i + 1][..i] == capabilities[..i];
      var role := registry.roles[name];
      registry.roles := registry.roles[name := Role(role.displayName, role.caps + {capabilities[i]})];
      i := i + 1;
    }
    assert capabilities[..i] == capabilities;
    ok := true;
  }

  /**
   * `revokeCapabilitiesFromRole`: false with nothing changed for a
   * missing role; otherwise exactly the configured capabilities are taken
   * from that role and no other role changes.
   */
  method RevokeCapabilitiesFromRole(registry: RoleRegistry, perms: Permissions, sanitize: string -> string, roleName: string)
    returns (ok: bool)
    modifies registry
    ensures ok <==> sanitize(roleName) in old(registry.roles)
    ensures !ok ==> registry.roles == old(registry.roles)
    ensures ok ==> registry.roles == old(registry.roles)[sanitize(roleName) := Revoked(old(registry.roles)[sanitize(roleName)], GetCapabilities(perms))]
    ensures registry.userRoles == old(registry.userRoles)
  {
    var name := sanitize(roleName);
    if name !in registry.roles {
      return false;
    }
    var capabilities := GetCapabilities(perms);
    var i := 0;
    while i < |capabilities|
      invariant 0 <= i <= |capabilities|
      invariant registry.roles == old(registry.roles)[name := Revoked(old(registry.roles)[name], capabilities[..i])]
      invariant registry.userRoles == old(registry.userRoles)
    {
      assert capabilities[..i + 1][..i] == capabilities[..i];
      var role := registry.roles[name];
      registry.roles := registry.roles[name := Role(role.displayName, role.caps - {capabilities[i]})];
      i := i + 1;
    }
    assert capabilities[..i] == capabilities;
    ok := true;
  }

  /**
   * Granting then revoking the configured capabilities leaves the role
   * with its own capabilities outside that list; the list itself ends up
   * absent.
   */
  lemma RevokeUndoesGrant(role: Role, caps: seq<string>)
    ensures Revoked(Granted(role, caps), caps).caps == role.caps - set c | c in caps
    ensures forall c :: c in caps ==> c in Granted(role, caps).caps && c !in Revoked(role, caps).caps
  {
  }
}

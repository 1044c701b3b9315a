/**
 * The parts of WordPress state the plugin changes, kept abstract: the
 * registered roles with their capabilities, and the role each user holds.
 */
module WordPress {
  /** A registered role: its display name and the capabilities it grants. */
  datatype Role = Role(displayName: string, caps: set<string>)

  /** The roles option (`get_role`, `add_role`, `remove_role`) and each user's role. */
  class RoleRegistry {
    var roles: map<string, Role>
    var userRoles: map<int, string>

    constructor(roles: map<string, Role>, userRoles: map<int, string>)
      ensures this.roles == roles && this.userRoles == userRoles
    {
      this.roles := roles;
      this.userRoles := userRoles;
    }

    /** `get_role($name) !== null`. */
    predicate HasRole(name: string)
      reads this
    {
      name in roles
    }
  }
}

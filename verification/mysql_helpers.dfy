/** The helpers of the MySQLRole resource and of the MySQL connection configuration:
    the Vault role name, validation, and the defaults filled into a configuration. */
module MySQLHelpers {
  import opened Wrappers
  import opened Meta
  import opened Store
  import opened Naming
  import opened EngineRoles

  /** The Vault database plugin used when a configuration names none. */
  const DefaultMySQLDatabasePlugin: string := "mysql-database-plugin"

  /** The role pattern that allows every database role. */
  const AllowAllRoles: seq<string> := ["*"]

  type MySQLRole = Object<DatabaseRoleSpec, RoleStatus>

  /** How Vault connects to a MySQL database. A nil and an empty list of allowed roles
      behave the same everywhere, so both are the empty sequence here. Only `pluginName`
      and `allowedRoles` are read or written by the helpers; the other fields stand for
      the rest of the API type, which is not part of this model, and are carried through
      unchanged. */
  datatype MySQLConfiguration = MySQLConfiguration(
    databaseRef: string,
    pluginName: string,
    allowedRoles: seq<string>,
    maxOpenConnections: int,
    maxIdleConnections: int,
    maxConnectionLifetime: string)

  /** The name of the role in Vault: the Vault name of the object in its own cluster. */
  function RoleName(r: MySQLRole): (name: string)
    ensures |name| == |ClusterOrDash(r.meta.clusterName)| + |r.meta.namespace| + |r.meta.name| + 6
    ensures name[..4] == "k8s."
  {
    VaultName(r.meta.clusterName, r.meta.namespace, r.meta.name)
  }

  /** The role's cluster (or "-"), namespace and name can be read back from its Vault
      role name. */
  lemma RoleNameRoundTrip(r: MySQLRole)
    requires '.' !in r.meta.clusterName && '.' !in r.meta.namespace
    ensures ParseVaultName(RoleName(r)) == Some(VaultNameParts(ClusterOrDash(r.meta.clusterName), r.meta.namespace, r.meta.name))
  {
    ParseVaultNameRoundTrip(r.meta.clusterName, r.meta.namespace, r.meta.name);
  }

  /** Two roles of one cluster share a Vault role name only when they are the same
      object: same namespace and same name. */
  lemma RoleNameInjective(r1: MySQLRole, r2: MySQLRole)
    requires r1.meta.clusterName == r2.meta.clusterName
    requires '.' !in r1.meta.clusterName && '.' !in r1.meta.namespace && '.' !in r2.meta.namespace
    ensures RoleName(r1) == RoleName(r2) <==> r1.meta.namespace == r2.meta.namespace && r1.meta.name == r2.meta.name
  {
    if RoleName(r1) == RoleName(r2) {
      VaultNameInjective(r1.meta.clusterName, r1.meta.namespace, r1.meta.name,
                         r2.meta.clusterName, r2.meta.namespace, r2.meta.name);
    }
  }

  /** Validation accepts every role. */
  function IsValid(r: MySQLRole): (err: Option<string>)
    ensures err.None?
  {
    None
  }

  /** Fills in the allowed roles (allow all) and the plugin name of a configuration;
      a nil configuration (`None`) is left alone. */
  function SetDefaults(m: Option<MySQLConfiguration>): (r: Option<MySQLConfiguration>)
    ensures r.Some? <==> m.Some?
    ensures m.Some? ==>
      && r.value.allowedRoles != [] && r.value.pluginName != ""
      && (m.value.allowedRoles != [] ==> r.value.allowedRoles == m.value.allowedRoles)
      && (m.value.allowedRoles == [] ==> r.value.allowedRoles == AllowAllRoles)
      && (m.value.pluginName != "" ==> r.value.pluginName == m.value.pluginName)
      && (m.value.pluginName == "" ==> r.value.pluginName == DefaultMySQLDatabasePlugin)
      && r.value.databaseRef == m.value.databaseRef
      && r.value.maxOpenConnections == m.value.maxOpenConnections
      && r.value.maxIdleConnections == m.value.maxIdleConnections
      && r.value.maxConnectionLifetime == m.value.maxConnectionLifetime
  {
    match m
    case None => None
    case Some(c) =>
      var roles := if |c.allowedRoles| == 0 then AllowAllRoles else c.allowedRoles;
      var plugin := if c.pluginName == "" then DefaultMySQLDatabasePlugin else c.pluginName;
      Some(c.(allowedRoles := roles, pluginName := plugin))
  }

  /** A configuration that already has allowed roles and a plugin name is left as it is. */
  lemma SetDefaultsKeepsComplete(m: MySQLConfiguration)
    requires m.allowedRoles != [] && m.pluginName != ""
    ensures SetDefaults(Some(m)) == Some(m)
  {
  }

  /** Defaulting is idempotent. */
  lemma SetDefaultsIdempotent(m: Option<MySQLConfiguration>)
    ensures SetDefaults(SetDefaults(m)) == SetDefaults(m)
  {
    if m.Some? {
      SetDefaultsKeepsComplete(SetDefaults(m).value);
    }
  }
}

/** The Kubernetes side of the database credential manager: the secret that holds an
    issued credential, the role that may read that secret, and the binding that grants
    the role to the requesting subjects. Each is an upsert into the namespaced objects
    of the cluster, so it succeeds whether or not the object already exists and can be
    run again after a crash. */
module DatabaseAccess {
  import opened Meta
  import opened Store
  import opened Rbac
  import opened DatabaseLeases

  /** A namespaced object's identity. */
  datatype Key = Key(namespace: string, name: string)

  /** The namespaced objects the credential manager reads and writes. */
  datatype Cluster = Cluster(secrets: map<Key, Secret>, roles: map<Key, Role>, bindings: map<Key, RoleBinding>)

  /** The cluster after a write, and whether that write created, changed or kept the object. */
  datatype Upserted = Upserted(cluster: Cluster, verb: Verb)

  /** `m'` differs from `m` at most at `k`. */
  ghost predicate OnlyAt<V>(m: map<Key, V>, m': map<Key, V>, k: Key) {
    forall k' :: k' != k ==> (k' in m <==> k' in m') && (k' in m ==> m[k'] == m'[k'])
  }

  /** The verb of writing `v` at `k`. */
  function VerbOf<V(==)>(m: map<Key, V>, k: Key, v: V): Verb {
    if k !in m then Created else if m[k] == v then Unchanged else Patched
  }

  /** The bytes a secret stores for a credential: each field as the bytes of its string. */
  function CredentialData(cred: VaultSecret): (d: map<string, Bytes>)
    ensures d.Keys == cred.data.Keys
    ensures forall f :: f in d ==> d[f] == ToBytes(cred.data[f])
  {
    map f | f in cred.data :: ToBytes(cred.data[f])
  }

  /** The secret `namespace/name` after storing `cred` in it: the credential's fields are
      written over any fields of the same name, and other fields are kept. */
  function CreateSecret(c: Cluster, name: string, namespace: string, cred: VaultSecret): (r: Upserted)
    ensures Key(namespace, name) in r.cluster.secrets
    ensures var s := r.cluster.secrets[Key(namespace, name)];
      && s.meta.namespace == namespace && s.meta.name == name
      && (forall f :: f in cred.data ==> f in s.data && s.data[f] == ToBytes(cred.data[f]))
      && (Key(namespace, name) in c.secrets ==>
            && s.data.Keys == c.secrets[Key(namespace, name)].data.Keys + cred.data.Keys
            && forall f :: f in c.secrets[Key(namespace, name)].data && f !in cred.data
                 ==> s.data[f] == c.secrets[Key(namespace, name)].data[f])
      && (Key(namespace, name) !in c.secrets ==> s.data.Keys == cred.data.Keys)
    ensures OnlyAt(c.secrets, r.cluster.secrets, Key(namespace, name))
    ensures r.cluster.roles == c.roles && r.cluster.bindings == c.bindings
    ensures r.verb == Created <==> Key(namespace, name) !in c.secrets
    ensures r.verb == Unchanged <==> Key(namespace, name) in c.secrets && r.cluster == c
  {
    var k := Key(namespace, name);
    var prior := if k in c.secrets then c.secrets[k] else Secret(NamedMeta(namespace, name), map[]);
    var s := prior.(meta := prior.meta.(namespace := namespace, name := name), data := prior.data + CredentialData(cred));
    var verb := VerbOf(c.secrets, k, s);
    assert verb == Unchanged ==> c.secrets[k := s] == c.secrets;
    Upserted(c.(secrets := c.secrets[k := s]), verb)
  }

  /** The one rule of a credential reader role: `get` on the named secret, nothing else. */
  function SecretReaderRule(secretName: string): (rule: PolicyRule)
    ensures rule.apiGroups == [CoreGroupName] && rule.resources == ["secrets"]
    ensures rule.resourceNames == [secretName] && rule.verbs == ["get"]
  {
    PolicyRule([CoreGroupName], ["secrets"], [secretName], ["get"])
  }

  /** The role `namespace/name` after making it a reader of `secretName`: its rules are
      replaced, its metadata kept. */
  function CreateRole(c: Cluster, name: string, namespace: string, secretName: string): (r: Upserted)
    ensures Key(namespace, name) in r.cluster.roles
    ensures var role := r.cluster.roles[Key(namespace, name)];
      && role.meta.namespace == namespace && role.meta.name == name
      && role.rules == [SecretReaderRule(secretName)]
    ensures OnlyAt(c.roles, r.cluster.roles, Key(namespace, name))
    ensures r.cluster.secrets == c.secrets && r.cluster.bindings == c.bindings
    ensures r.verb == Created <==> Key(namespace, name) !in c.roles
    ensures r.verb == Unchanged <==> Key(namespace, name) in c.roles && r.cluster == c
  {
    var k := Key(namespace, name);
    var meta := if k in c.roles then c.roles[k].meta.(namespace := namespace, name := name) else NamedMeta(namespace, name);
    var role := Role(meta, [SecretReaderRule(secretName)]);
    var verb := VerbOf(c.roles, k, role);
    assert verb == Unchanged ==> c.roles[k := role] == c.roles;
    Upserted(c.(roles := c.roles[k := role]), verb)
  }

  /** The reference from a binding to the namespaced role `roleName`. */
  function RoleRefTo(roleName: string): (ref: RoleRef)
    ensures ref.apiGroup == RbacGroupName && ref.kind == "Role" && ref.name == roleName
  {
    RoleRef(RbacGroupName, "Role", roleName)
  }

  /** The binding `namespace/name` after pointing it at the role `roleName` for
      `subjects`: its role reference and subjects are replaced, its metadata kept. */
  function CreateRoleBinding(c: Cluster, name: string, namespace: string, roleName: string, subjects: seq<Subject>): (r: Upserted)
    ensures Key(namespace, name) in r.cluster.bindings
    ensures var b := r.cluster.bindings[Key(namespace, name)];
      && b.meta.namespace == namespace && b.meta.name == name
      && b.roleRef == RoleRefTo(roleName) && b.subjects == subjects
    ensures OnlyAt(c.bindings, r.cluster.bindings, Key(namespace, name))
    ensures r.cluster.secrets == c.secrets && r.cluster.roles == c.roles
    ensures r.verb == Created <==> Key(namespace, name) !in c.bindings
    ensures r.verb == Unchanged <==> Key(namespace, name) in c.bindings && r.cluster == c
  {
    var k := Key(namespace, name);
    var meta := if k in c.bindings then c.bindings[k].meta.(namespace := namespace, name := name) else NamedMeta(namespace, name);
    var b := RoleBinding(meta, RoleRefTo(roleName), subjects);
    var verb := VerbOf(c.bindings, k, b);
    assert verb == Unchanged ==> c.bindings[k := b] == c.bindings;
    Upserted(c.(bindings := c.bindings[k := b]), verb)
  }

  /** The reader role allows exactly one request: `get` on that one secret. */
  lemma ReaderRoleAllowsOnlyGet(c: Cluster, name: string, namespace: string, secretName: string,
                                group: string, resource: string, target: string, verb: string)
    ensures var role := CreateRole(c, name, namespace, secretName).cluster.roles[Key(namespace, name)];
      (Allows(role.rules, group, resource, target, verb)
       <==> group == CoreGroupName && resource == "secrets" && target == secretName && verb == "get")
  {
    SingleRuleAllows(SecretReaderRule(secretName), group, resource, target, verb);
  }

  /** Storing the same credential again changes nothing. */
  lemma CreateSecretIdempotent(c: Cluster, name: string, namespace: string, cred: VaultSecret)
    ensures var once := CreateSecret(c, name, namespace, cred);
      CreateSecret(once.cluster, name, namespace, cred) == Upserted(once.cluster, Unchanged)
  {
    var k := Key(namespace, name);
    var once := CreateSecret(c, name, namespace, cred).cluster;
    var s := once.secrets[k];
    assert s.data + CredentialData(cred) == s.data;
  }

  /** Making the same role a reader of the same secret again changes nothing. */
  lemma CreateRoleIdempotent(c: Cluster, name: string, namespace: string, secretName: string)
    ensures var once := CreateRole(c, name, namespace, secretName);
      CreateRole(once.cluster, name, namespace, secretName) == Upserted(once.cluster, Unchanged)
  {
  }

  /** Binding the same role to the same subjects again changes nothing. */
  lemma CreateRoleBindingIdempotent(c: Cluster, name: string, namespace: string, roleName: string, subjects: seq<Subject>)
    ensures var once := CreateRoleBinding(c, name, namespace, roleName, subjects);
      CreateRoleBinding(once.cluster, name, namespace, roleName, subjects) == Upserted(once.cluster, Unchanged)
  {
  }

  /** `subject` may `get` the secret `namespace/secretName`: some binding of the namespace
      names it and refers to a role of the namespace that allows the read. */
  ghost predicate MayRead(c: Cluster, namespace: string, subject: Subject, secretName: string) {
    exists bk, rk :: bk in c.bindings && rk in c.roles
      && bk.namespace == namespace && rk.namespace == namespace
      && subject in c.bindings[bk].subjects
      && c.bindings[bk].roleRef == RoleRefTo(rk.name)
      && Allows(c.roles[rk].rules, CoreGroupName, "secrets", secretName, "get")
  }

  /** Exposing a credential (secret, then reader role, then binding) leaves the
      credential in the secret and every subject of the binding able to read it, whatever
      existed before. */
  lemma ExposeGrantsRead(c: Cluster, namespace: string, secretName: string, roleName: string, bindingName: string,
                         subjects: seq<Subject>, cred: VaultSecret, subject: Subject)
    requires subject in subjects
    ensures var c1 := CreateSecret(c, secretName, namespace, cred).cluster;
      var c2 := CreateRole(c1, roleName, namespace, secretName).cluster;
      var c3 := CreateRoleBinding(c2, bindingName, namespace, roleName, subjects).cluster;
      && Key(namespace, secretName) in c3.secrets
      && (forall f :: f in cred.data ==>
            f in c3.secrets[Key(namespace, secretName)].data && c3.secrets[Key(namespace, secretName)].data[f] == ToBytes(cred.data[f]))
      && MayRead(c3, namespace, subject, secretName)
  {
    var c1 := CreateSecret(c, secretName, namespace, cred).cluster;
    var c2 := CreateRole(c1, roleName, namespace, secretName).cluster;
    var c3 := CreateRoleBinding(c2, bindingName, namespace, roleName, subjects).cluster;
    var bk, rk := Key(namespace, bindingName), Key(namespace, roleName);
    assert RuleAllows(c3.roles[rk].rules[0], CoreGroupName, "secrets", secretName, "get");
    assert bk in c3.bindings && rk in c3.roles && subject in c3.bindings[bk].subjects;
  }
}

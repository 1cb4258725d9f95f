/** The helpers of the VaultPolicyBinding resource: its cache key, the name of the Vault
    role it binds, the selector labels of the objects it owns, validation and defaulting.
    The cluster name, which the source reads from a process-wide flag, is a parameter. */
module PolicyBinding {
  import opened Wrappers
  import opened Meta
  import opened Naming

  /** The singular resource name that prefixes every cache key. */
  const ResourceVaultPolicyBinding: string := "vaultpolicybinding"

  /** The default path of the Kubernetes auth method in Vault. */
  const DefaultKubernetesPath: string := "kubernetes"

  /** The Kubernetes service accounts a binding applies to, and the path of the
      Kubernetes auth method they log in through. */
  datatype KubernetesSubjectRef = KubernetesSubjectRef(
    path: string,
    serviceAccountNames: seq<string>,
    serviceAccountNamespaces: seq<string>)

  datatype SubjectRef = SubjectRef(kubernetes: Option<KubernetesSubjectRef>)

  datatype VaultPolicyBindingSpec = VaultPolicyBindingSpec(
    vaultRef: string,
    vaultRoleName: string,
    policies: seq<string>,
    subjectRef: SubjectRef)

  datatype VaultPolicyBinding = VaultPolicyBinding(meta: ObjectMeta, spec: VaultPolicyBindingSpec)

  /** The key a binding is cached and queued under: "vaultpolicybinding/<namespace>/<name>". */
  function GetKey(v: VaultPolicyBinding): (k: string)
    ensures |k| == |ResourceVaultPolicyBinding| + |v.meta.namespace| + |v.meta.name| + 2
  {
    ResourceVaultPolicyBinding + "/" + v.meta.namespace + "/" + v.meta.name
  }

  /** Reads a cache key back into a namespace and a name. */
  function ParseKey(k: string): (r: Option<(string, string)>)
    ensures r.Some? ==> k == ResourceVaultPolicyBinding + "/" + r.value.0 + "/" + r.value.1
  {
    var prefix := ResourceVaultPolicyBinding + "/";
    if |k| < |prefix| || k[..|prefix|] != prefix then None
    else
      match Cut(k[|prefix|..], '/')
      case None => None
      case Some((namespace, name)) =>
        assert k == prefix + k[|prefix|..];
        Some((namespace, name))
  }

  /** A key reads back into the binding's namespace and name: namespaces never contain
      a slash. */
  lemma ParseKeyRoundTrip(v: VaultPolicyBinding)
    requires '/' !in v.meta.namespace
    ensures ParseKey(GetKey(v)) == Some((v.meta.namespace, v.meta.name))
  {
    var prefix := ResourceVaultPolicyBinding + "/";
    var k := GetKey(v);
    assert k[..|prefix|] == prefix && k[|prefix|..] == v.meta.namespace + "/" + v.meta.name;
    CutFirst(v.meta.namespace, v.meta.name, '/');
  }

  /** Two bindings share a key exactly when they share namespace and name. */
  lemma GetKeyInjective(v1: VaultPolicyBinding, v2: VaultPolicyBinding)
    requires '/' !in v1.meta.namespace && '/' !in v2.meta.namespace
    ensures GetKey(v1) == GetKey(v2) <==> v1.meta.namespace == v2.meta.namespace && v1.meta.name == v2.meta.name
  {
    if GetKey(v1) == GetKey(v2) {
      ParseKeyRoundTrip(v1);
      ParseKeyRoundTrip(v2);
    }
  }

  /** The Vault role the binding manages: the spec's role name when one is given,
      otherwise the binding's derived Vault name in `cluster`. */
  function PolicyBindingName(v: VaultPolicyBinding, cluster: string): (name: string)
    ensures name != ""
    ensures v.spec.vaultRoleName != "" ==> name == v.spec.vaultRoleName
    ensures v.spec.vaultRoleName == "" ==> name == VaultName(cluster, v.meta.namespace, v.meta.name)
  {
    if v.spec.vaultRoleName != "" then v.spec.vaultRoleName
    else VaultName(cluster, v.meta.namespace, v.meta.name)
  }

  /** Without an explicit role name, the binding's namespace and name can be read back
      from the Vault role's name. */
  lemma PolicyBindingNameIdentifies(v: VaultPolicyBinding, cluster: string)
    requires v.spec.vaultRoleName == "" && '.' !in cluster && '.' !in v.meta.namespace
    ensures ParseVaultName(PolicyBindingName(v, cluster))
         == Some(VaultNameParts(ClusterOrDash(cluster), v.meta.namespace, v.meta.name))
  {
    ParseVaultNameRoundTrip(cluster, v.meta.namespace, v.meta.name);
  }

  /** The labels selecting the objects a binding owns. */
  function OffshootSelectors(v: VaultPolicyBinding): (m: map<string, string>)
    ensures m.Keys == {"app", "vault_policy_binding"}
    ensures m["app"] == "vault" && m["vault_policy_binding"] == v.meta.name
  {
    map["app" := "vault", "vault_policy_binding" := v.meta.name]
  }

  /** Selectors tell bindings apart by name alone: two bindings select the same objects
      exactly when they have the same name, whatever their namespaces. */
  lemma OffshootSelectorsByName(v1: VaultPolicyBinding, v2: VaultPolicyBinding)
    ensures OffshootSelectors(v1) == OffshootSelectors(v2) <==> v1.meta.name == v2.meta.name
  {
    if OffshootSelectors(v1) == OffshootSelectors(v2) {
      assert OffshootSelectors(v1)["vault_policy_binding"] == OffshootSelectors(v2)["vault_policy_binding"];
    }
  }

  /** Validation accepts every binding. */
  function IsValid(v: VaultPolicyBinding): (err: Option<string>)
    ensures err.None?
  {
    None
  }

  /** Fills in the role name and the Kubernetes auth path. A nil binding (`None`) is
      left alone. */
  function SetDefaults(v: Option<VaultPolicyBinding>, cluster: string): (r: Option<VaultPolicyBinding>)
    ensures r.Some? <==> v.Some?
    ensures v.Some? ==>
      && r.value.meta == v.value.meta
      && r.value.spec.vaultRef == v.value.spec.vaultRef
      && r.value.spec.policies == v.value.spec.policies
      && r.value.spec.vaultRoleName != ""
      && (v.value.spec.vaultRoleName != "" ==> r.value.spec.vaultRoleName == v.value.spec.vaultRoleName)
      && r.value.spec.vaultRoleName == PolicyBindingName(v.value, cluster)
      && (r.value.spec.subjectRef.kubernetes.Some? <==> v.value.spec.subjectRef.kubernetes.Some?)
  {
    match v
    case None => None
    case Some(b) =>
      var roleName := if b.spec.vaultRoleName == "" then PolicyBindingName(b, cluster) else b.spec.vaultRoleName;
      var kubernetes :=
        match b.spec.subjectRef.kubernetes
        case Some(k) => if k.path == "" then Some(k.(path := DefaultKubernetesPath)) else Some(k)
        case None => None;
      Some(VaultPolicyBinding(b.meta, b.spec.(vaultRoleName := roleName, subjectRef := SubjectRef(kubernetes))))
  }

  /** The Kubernetes auth path becomes "kubernetes" exactly when the Kubernetes subject
      is present with an empty path; everything else about the subject is kept. */
  lemma SetDefaultsKubernetesPath(v: VaultPolicyBinding, cluster: string)
    ensures var r := SetDefaults(Some(v), cluster).value;
      match v.spec.subjectRef.kubernetes
      case None => r.spec.subjectRef.kubernetes.None?
      case Some(k) =>
        && r.spec.subjectRef.kubernetes.Some?
        && r.spec.subjectRef.kubernetes.value.path == (if k.path == "" then DefaultKubernetesPath else k.path)
        && r.spec.subjectRef.kubernetes.value.serviceAccountNames == k.serviceAccountNames
        && r.spec.subjectRef.kubernetes.value.serviceAccountNamespaces == k.serviceAccountNamespaces
  {
  }

  /** Defaulting twice gives what defaulting once gives, even in another cluster: the
      first pass fixes the role name, and the second one no longer looks at the cluster. */
  lemma SetDefaultsIdempotent(v: Option<VaultPolicyBinding>, cluster: string, cluster': string)
    ensures SetDefaults(SetDefaults(v, cluster), cluster') == SetDefaults(v, cluster)
  {
    if v.Some? {
      var once := SetDefaults(v, cluster).value;
      assert once.spec.vaultRoleName != "";
      assert once.spec.subjectRef.kubernetes.Some? ==> once.spec.subjectRef.kubernetes.value.path != "";
    }
  }
}

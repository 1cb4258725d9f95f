/** The deterministic Vault-side name the operator derives from a Kubernetes object,
    `k8s.<cluster>.<namespace>.<name>`, where a missing cluster name is written "-".
    The same format names a MySQL role in Vault and a Vault policy binding's role, so
    re-issuing after a restart targets the same Vault object. */
module Naming {
  import opened Wrappers

  /** The cluster component of a Vault name: the cluster's name, or "-" when it is empty. */
  function ClusterOrDash(cluster: string): (c: string)
    ensures c != ""
    ensures cluster != "" ==> c == cluster
    ensures cluster == "" ==> c == "-"
  {
    if cluster != "" then cluster else "-"
  }

  /** `fmt.Sprintf("k8s.%s.%s.%s", cluster, namespace, name)` with the "-" fallback. */
  function VaultName(cluster: string, namespace: string, name: string): (s: string)
    ensures |s| == |ClusterOrDash(cluster)| + |namespace| + |name| + 6
    ensures s[..4] == "k8s."
  {
    "k8s." + ClusterOrDash(cluster) + "." + namespace + "." + name
  }

  /** The three components of a Vault name. */
  datatype VaultNameParts = VaultNameParts(cluster: string, namespace: string, name: string)

  /** The position of the first `c` in `s`, if any. */
  function IndexOf(s: string, c: char): (r: Option<nat>)
    ensures r.Some? ==> r.value < |s| && s[r.value] == c && c !in s[..r.value]
    ensures r.None? ==> c !in s
  {
    if s == [] then None
    else if s[0] == c then Some(0)
    else
      match IndexOf(s[1..], c)
      case None => None
      case Some(i) =>
        assert s[..i + 1] == [s[0]] + s[1..][..i];
        Some(i + 1)
  }

  /** Splits `s` at its first `c`. */
  function Cut(s: string, c: char): (r: Option<(string, string)>)
    ensures r.Some? ==> s == r.value.0 + [c] + r.value.1 && c !in r.value.0
    ensures r.None? ==> c !in s
  {
    match IndexOf(s, c)
    case None => None
    case Some(i) =>
      assert s == s[..i] + [c] + s[i + 1..];
      Some((s[..i], s[i + 1..]))
  }

  /** Reads a Vault name back into its components: the cluster and the namespace end at
      the first two dots after the "k8s." prefix, and the name is the rest. */
  function ParseVaultName(s: string): (r: Option<VaultNameParts>)
    ensures r.Some? ==>
      && s == "k8s." + r.value.cluster + "." + r.value.namespace + "." + r.value.name
      && '.' !in r.value.cluster && '.' !in r.value.namespace
  {
    if |s| < 4 || s[..4] != "k8s." then None
    else
      match Cut(s[4..], '.')
      case None => None
      case Some((cluster, rest)) =>
        match Cut(rest, '.')
        case None => None
        case Some((namespace, name)) =>
          assert s == s[..4] + s[4..];
          Some(VaultNameParts(cluster, namespace, name))
  }

  lemma {:induction false} IndexOfFirst(a: string, b: string, c: char)
    requires c !in a
    ensures IndexOf(a + [c] + b, c) == Some(|a|)
    decreases |a|
  {
    var s := a + [c] + b;
    if a == [] {
      assert s[0] == c;
    } else {
      assert s[0] == a[0] && s[1..] == a[1..] + [c] + b;
      IndexOfFirst(a[1..], b, c);
    }
  }

  /** Cutting at `c` finds the first `c`. */
  lemma CutFirst(a: string, b: string, c: char)
    requires c !in a
    ensures Cut(a + [c] + b, c) == Some((a, b))
  {
    var s := a + [c] + b;
    IndexOfFirst(a, b, c);
    assert s[..|a|] == a && s[|a| + 1..] == b;
  }

  /** A Vault name reads back into the components it was built from, as long as the
      cluster and namespace contain no dot (a namespace, a DNS label, never does); the
      name itself may contain dots. */
  lemma ParseVaultNameRoundTrip(cluster: string, namespace: string, name: string)
    requires '.' !in cluster && '.' !in namespace
    ensures ParseVaultName(VaultName(cluster, namespace, name)) == Some(VaultNameParts(ClusterOrDash(cluster), namespace, name))
  {
    var c := ClusterOrDash(cluster);
    var s := VaultName(cluster, namespace, name);
    assert s[4..] == c + "." + (namespace + "." + name);
    CutFirst(c, namespace + "." + name, '.');
    CutFirst(namespace, name, '.');
  }

  /** Objects in different namespaces, or with different names, of the same cluster get
      different Vault names; two clusters collide only when one is unnamed and the other
      is literally called "-". */
  lemma VaultNameInjective(c1: string, ns1: string, n1: string, c2: string, ns2: string, n2: string)
    requires '.' !in c1 && '.' !in ns1 && '.' !in c2 && '.' !in ns2
    requires VaultName(c1, ns1, n1) == VaultName(c2, ns2, n2)
    ensures ClusterOrDash(c1) == ClusterOrDash(c2) && ns1 == ns2 && n1 == n2
  {
    ParseVaultNameRoundTrip(c1, ns1, n1);
    ParseVaultNameRoundTrip(c2, ns2, n2);
  }
}

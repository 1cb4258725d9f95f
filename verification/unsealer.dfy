/** The Kubernetes-secret mode of the Vault unsealer: how it configures the unsealer
    container of the Vault pod template, and the role the unsealer needs to keep the
    unseal keys and root token in a secret. */
module Unsealer {
  import opened Wrappers
  import opened Meta
  import opened Rbac

  const ModeKubernetesSecret: string := "kubernetes-secret"

  /** The name of the unsealer container in the Vault pod. */
  const VaultUnsealerContainerName: string := "vault-unsealer"

  datatype Container = Container(name: string, image: string, args: seq<string>)

  /** A Go zero-value container: no name, no image, no arguments. */
  const ZeroContainer: Container := Container("", "", [])

  datatype PodTemplate = PodTemplate(meta: ObjectMeta, containers: seq<Container>)

  /** The position of the last container called `name`. */
  function LastNamed(cs: seq<Container>, name: string): (r: Option<nat>)
    ensures r.Some? ==>
      && r.value < |cs| && cs[r.value].name == name
      && forall j :: r.value < j < |cs| ==> cs[j].name != name
    ensures r.None? ==> forall j :: 0 <= j < |cs| ==> cs[j].name != name
  {
    if cs == [] then None
    else if cs[|cs| - 1].name == name then Some(|cs| - 1)
    else LastNamed(cs[..|cs| - 1], name)
  }

  /** The position of the first container called `name`. */
  function FirstNamed(cs: seq<Container>, name: string): (r: Option<nat>)
    ensures r.Some? ==>
      && r.value < |cs| && cs[r.value].name == name
      && forall j :: 0 <= j < r.value ==> cs[j].name != name
    ensures r.None? ==> forall j :: 0 <= j < |cs| ==> cs[j].name != name
  {
    if cs == [] then None
    else if cs[0].name == name then Some(0)
    else match FirstNamed(cs[1..], name)
      case None => None
      case Some(i) => Some(i + 1)
  }

  /** Puts `c` in place of the first container with its name, or at the end when there
      is none. (The library function the source calls is not part of this model; this is
      the behaviour it is assumed to have.) */
  function UpsertContainer(cs: seq<Container>, c: Container): (r: seq<Container>)
    ensures exists i :: 0 <= i < |r| && r[i] == c
    ensures (exists i :: 0 <= i < |cs| && cs[i].name == c.name) ==> |r| == |cs|
    ensures (forall i :: 0 <= i < |cs| ==> cs[i].name != c.name) ==> r == cs + [c]
    ensures forall i :: 0 <= i < |cs| && cs[i].name != c.name ==> r[i] == cs[i]
  {
    match FirstNamed(cs, c.name)
    case None =>
      assert (cs + [c])[|cs|] == c;
      cs + [c]
    case Some(i) =>
      assert cs[i := c][i] == c;
      cs[i := c]
  }

  /** The flags that select the Kubernetes-secret mode, and the secret when one is named. */
  function ModeArgs(secretName: string): (args: seq<string>)
    ensures |args| >= 1 && args[0] == "--mode=" + ModeKubernetesSecret
    ensures secretName == "" ==> |args| == 1
    ensures secretName != "" ==> |args| == 2 && args[1] == "--k8s.secret-name=" + secretName
  {
    ["--mode=" + ModeKubernetesSecret] + (if secretName != "" then ["--k8s.secret-name=" + secretName] else [])
  }

  /** The container `Apply` starts from: the last unsealer container (the loop that
      picks it never stops early), or a zero-value container when the template has none. */
  function UnsealerBase(cs: seq<Container>): (c: Container)
    ensures (exists i :: 0 <= i < |cs| && cs[i].name == VaultUnsealerContainerName) ==> c.name == VaultUnsealerContainerName
    ensures forall i ::
      (0 <= i < |cs| && cs[i].name == VaultUnsealerContainerName
       && forall j :: i < j < |cs| ==> cs[j].name != VaultUnsealerContainerName)
      ==> c == cs[i]
    ensures (forall i :: 0 <= i < |cs| ==> cs[i].name != VaultUnsealerContainerName) ==> c == ZeroContainer
  {
    match LastNamed(cs, VaultUnsealerContainerName)
    case Some(i) => cs[i]
    case None => ZeroContainer
  }

  /** Configures the unsealer container of `pt` for the Kubernetes-secret mode: the
      mode flags are appended to its arguments and it is written back into the template.
      A nil template (`None`) is an error. */
  function Apply(pt: Option<PodTemplate>, secretName: string): (r: Result<PodTemplate, string>)
    ensures pt.None? <==> r.Failure?
    ensures pt.None? ==> r.error == "podTempleSpec is nil"
    ensures pt.Some? ==>
      && r.value.meta == pt.value.meta
      && var base := UnsealerBase(pt.value.containers);
         r.value.containers == UpsertContainer(pt.value.containers, base.(args := base.args + ModeArgs(secretName)))
  {
    match pt
    case None => Failure("podTempleSpec is nil")
    case Some(p) =>
      var cont := UnsealerBase(p.containers);
      var cont' := cont.(args := cont.args + ModeArgs(secretName));
      Success(p.(containers := UpsertContainer(p.containers, cont')))
  }

  /** With unsealer containers at `first` and `last` (and none before `first` or after
      `last`), `Apply` writes the LAST one's arguments, followed by the mode flags, into
      the FIRST one's slot; every other container, the last unsealer included, is left
      as it was. */
  lemma ApplyCopiesLastUnsealerIntoFirst(pt: PodTemplate, secretName: string, first: nat, last: nat)
    requires first <= last < |pt.containers|
    requires pt.containers[first].name == VaultUnsealerContainerName && pt.containers[last].name == VaultUnsealerContainerName
    requires forall j :: 0 <= j < first ==> pt.containers[j].name != VaultUnsealerContainerName
    requires forall j :: last < j < |pt.containers| ==> pt.containers[j].name != VaultUnsealerContainerName
    ensures var r := Apply(Some(pt), secretName).value;
      && |r.containers| == |pt.containers|
      && r.containers[first] == pt.containers[last].(args := pt.containers[last].args + ModeArgs(secretName))
      && forall j :: 0 <= j < |pt.containers| && j != first ==> r.containers[j] == pt.containers[j]
  {
    var cs := pt.containers;
    assert UnsealerBase(cs) == cs[last];
    assert FirstNamed(cs, VaultUnsealerContainerName) == Some(first);
  }

  /** When the template has exactly one unsealer container, `Apply` keeps it where it
      is and extends its arguments with the mode flags; every other container is left
      as it was. */
  lemma ApplyExtendsUnsealerArgs(pt: PodTemplate, secretName: string, i: nat)
    requires i < |pt.containers| && pt.containers[i].name == VaultUnsealerContainerName
    requires forall j :: 0 <= j < |pt.containers| && j != i ==> pt.containers[j].name != VaultUnsealerContainerName
    ensures var r := Apply(Some(pt), secretName).value;
      && |r.containers| == |pt.containers|
      && r.containers[i] == pt.containers[i].(args := pt.containers[i].args + ModeArgs(secretName))
      && forall j :: 0 <= j < |pt.containers| && j != i ==> r.containers[j] == pt.containers[j]
  {
    ApplyCopiesLastUnsealerIntoFirst(pt, secretName, i, i);
  }

  /** Without an unsealer container, `Apply` upserts a nameless container that carries
      only the mode flags. */
  lemma ApplyWithoutUnsealer(pt: PodTemplate, secretName: string)
    requires forall j :: 0 <= j < |pt.containers| ==> pt.containers[j].name != VaultUnsealerContainerName
    ensures var r := Apply(Some(pt), secretName).value;
      r.containers == UpsertContainer(pt.containers, Container("", "", ModeArgs(secretName)))
  {
    assert UnsealerBase(pt.containers) == ZeroContainer;
    assert ZeroContainer.args + ModeArgs(secretName) == ModeArgs(secretName);
  }

  /** `Apply` is not idempotent: applying it again to its own output appends the mode
      flags a second time. */
  lemma ApplyTwiceRepeatsFlags(pt: PodTemplate, secretName: string, i: nat)
    requires i < |pt.containers| && pt.containers[i].name == VaultUnsealerContainerName
    requires forall j :: 0 <= j < |pt.containers| && j != i ==> pt.containers[j].name != VaultUnsealerContainerName
    ensures var twice := Apply(Apply(Some(pt), secretName).ToOption(), secretName).value;
      twice.containers[i].args == pt.containers[i].args + ModeArgs(secretName) + ModeArgs(secretName)
  {
    ApplyExtendsUnsealerArgs(pt, secretName, i);
    var once := Apply(Some(pt), secretName).value;
    ApplyExtendsUnsealerArgs(once, secretName, i);
  }

  /** The roles the unsealer needs in `namespace`: one role, `<prefix>-unsealer-secret-reader`,
      that may create, read and patch secrets. */
  function GetRBAC(prefix: string, namespace: string): (roles: seq<Role>)
    ensures |roles| == 1
    ensures roles[0].meta.name == prefix + "-unsealer-secret-reader" && roles[0].meta.namespace == namespace
    ensures roles[0].rules == [PolicyRule([CoreGroupName], ["secrets"], [], ["create", "get", "patch"])]
  {
    var role := Role(NamedMeta(namespace, prefix + "-unsealer-secret-reader"),
                     [PolicyRule([CoreGroupName], ["secrets"], [], ["create", "get", "patch"])]);
    [role]
  }

  /** The unsealer role allows exactly creating, reading and patching any secret of
      the namespace, and nothing else. */
  lemma UnsealerRoleAllows(prefix: string, namespace: string, group: string, resource: string, name: string, verb: string)
    ensures Allows(GetRBAC(prefix, namespace)[0].rules, group, resource, name, verb)
        <==> group == CoreGroupName && resource == "secrets" && verb in ["create", "get", "patch"]
  {
    var rules := GetRBAC(prefix, namespace)[0].rules;
    SingleRuleAllows(rules[0], group, resource, name, verb);
    assert rules == [rules[0]];
  }
}

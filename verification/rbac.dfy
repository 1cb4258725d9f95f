/** The Kubernetes RBAC objects the operator writes (roles, role bindings) and what a
    set of policy rules permits, read the way the API server's authorizer reads them:
    "*" in the groups, resources or verbs of a rule matches anything, and an empty list
    of resource names matches every name. */
module Rbac {
  import opened Meta

  /** The API group of the core objects (secrets, config maps, ...). */
  const CoreGroupName: string := ""

  /** The API group of the RBAC objects themselves. */
  const RbacGroupName: string := "rbac.authorization.k8s.io"

  const ServiceAccountKind: string := "ServiceAccount"

  datatype PolicyRule = PolicyRule(apiGroups: seq<string>, resources: seq<string>, resourceNames: seq<string>, verbs: seq<string>)

  datatype Role = Role(meta: ObjectMeta, rules: seq<PolicyRule>)

  datatype RoleRef = RoleRef(apiGroup: string, kind: string, name: string)

  datatype Subject = Subject(kind: string, namespace: string, name: string)

  datatype RoleBinding = RoleBinding(meta: ObjectMeta, roleRef: RoleRef, subjects: seq<Subject>)

  /** `x` is listed, or the list holds the "*" wildcard. */
  predicate Covers(list: seq<string>, x: string) {
    x in list || "*" in list
  }

  /** The request `verb` on the object `name` of `resource` in `group` is allowed by `rule`. */
  predicate RuleAllows(rule: PolicyRule, group: string, resource: string, name: string, verb: string) {
    && Covers(rule.apiGroups, group)
    && Covers(rule.resources, resource)
    && (rule.resourceNames == [] || name in rule.resourceNames)
    && Covers(rule.verbs, verb)
  }

  /** Some rule of `rules` allows the request. */
  predicate Allows(rules: seq<PolicyRule>, group: string, resource: string, name: string, verb: string) {
    exists i :: 0 <= i < |rules| && RuleAllows(rules[i], group, resource, name, verb)
  }

  /** A single rule without wildcards allows exactly the requests it lists; when it
      lists no resource names, it allows them on every object of its resources. */
  lemma SingleRuleAllows(rule: PolicyRule, group: string, resource: string, name: string, verb: string)
    requires "*" !in rule.apiGroups && "*" !in rule.resources && "*" !in rule.verbs
    ensures Allows([rule], group, resource, name, verb)
        <==> && group in rule.apiGroups && resource in rule.resources && verb in rule.verbs
             && (rule.resourceNames == [] || name in rule.resourceNames)
  {
    if && group in rule.apiGroups && resource in rule.resources && verb in rule.verbs
       && (rule.resourceNames == [] || name in rule.resourceNames) {
      assert RuleAllows([rule][0], group, resource, name, verb);
    }
  }
}

# A model of the KubeVault operator's core logic

KubeVault is a Kubernetes operator that manages HashiCorp Vault: Vault servers, their
unsealing, auth methods, policies and secret engines. This project models the parts of
the operator that can be stated as sequential, deterministic logic once the Kubernetes
API server, the Vault server and the clock are made into parameters. It proves
properties of each part in Dafny.

- **The optimistic-concurrency synchronizer** (`Synchronizer`, instantiated per kind in
  `EngineRoles`). The engine client's `util` package repeats the same code for MongoDBRole,
  MySQLRole and AWSRole:
  - `CreateOrPatch` fetches the object, then creates it or sends a JSON merge patch.
  - `PatchObject` suppresses empty patches.
  - `TryUpdate` is a get-and-update loop that gives up on NotFound.
  - `UpdateStatus` is a status-write loop that re-fetches after each conflict.

  The API server is a scripted oracle `answers: nat -> Reply` indexed by call number.
  Every operation returns the trace of `(call, reply)` exchanges it made. The poll loop
  (`wait.PollImmediate`) becomes a recursion on `fuel`: the condition runs once at once,
  then at most `fuel` more times.
- **The database credential manager** (`DatabaseLeases`, `DatabaseAccess`):
  - issuing a credential from a database secret engine role, looking up a lease and
    revoking it, over a Vault server modelled as a lease set and a table of responses;
  - storing the credential in a secret, a reader role for that secret, and a binding that
    grants the role. These are upserts into the namespaced objects of the cluster.
- **Naming and defaulting** (`Naming`, `PolicyBinding`, `MySQLHelpers`): cache keys,
  Vault role names of the form `k8s.<cluster>.<namespace>.<name>`, selectors, and the
  `SetDefaults` of VaultPolicyBinding and MySQLConfiguration.
- **The userpass authenticator** (`Userpass`): checking the basic-auth secret, choosing
  the mount path, and building the login request.
- **The Kubernetes-secret unsealer** (`Unsealer`): the arguments of the unsealer
  container, and the role it needs.
- **AWS credential parsing** (`AwsCredential`): Vault's JSON answer becomes secret bytes.

Shared types live in `Wrappers` (`Option`, `Result`), `Meta` (object metadata, secrets,
bytes), `Store` (calls, replies, traces, generic objects, errors) and `Rbac` (roles,
bindings, and what a set of rules allows).

## Model

| member | source | states |
|---|---|---|
| Meta.NamedMeta | pkg/vault/unsealer/kubernetes/kubernetes.go:75-78 | The metadata of an object the operator builds from scratch has the given namespace and name, and no labels or annotations. |
| Store.Empty | client/clientset/versioned/typed/engine/v1alpha1/util/mongodbrole.go:39-45 | The object created on NotFound carries the kind's Kind and APIVersion and exactly the given metadata. |
| Store.ErrorOf | client/clientset/versioned/typed/engine/v1alpha1/util/mongodbrole.go:76-77 | The error returned with a reply is nil exactly when the call succeeded, and otherwise is the store's own error. |
| Synchronizer.PatchObject | client/clientset/versioned/typed/engine/v1alpha1/util/mongodbrole.go:57-78 | A patch is sent exactly when both objects encode and their encodings differ. It is one merge patch to cur's own namespace and name, and the verb is Patched exactly when it is sent. An empty patch returns cur, Unchanged and no error. An encoding failure writes nothing and returns no object. |
| Synchronizer.Patch | client/clientset/versioned/typed/engine/v1alpha1/util/mongodbrole.go:53-55 | The patch is computed from cur's own encoding, and cur is never changed. The verb is Patched exactly when a patch is sent. The result is cur, Unchanged, with no error exactly when the transform leaves the encoding as it is. An encoding failure sends nothing and returns no object. |
| Synchronizer.CreateOrPatch | client/clientset/versioned/typed/engine/v1alpha1/util/mongodbrole.go:35-51 | The first call is a get of meta's name. The verb is Created exactly when that get says NotFound. Then exactly one create of transform(empty object) is sent, and its reply is returned even when it failed. Any other get error writes nothing and returns nil, Unchanged and that error. Otherwise a patch is sent exactly when the transform changes the encoding, and the verb is Patched exactly then. With no patch, the result is either the fetched object, Unchanged, with no error, or no object with the encoding failure. At most one write is made. |
| Synchronizer.CreateOrPatchNoChange | client/clientset/versioned/typed/engine/v1alpha1/util/mysqlrole.go:72-74 | A transform that leaves the fetched object alone costs one call: the fetched object is returned, Unchanged, with no error. |
| Synchronizer.CreateOrPatchSendsChange | client/clientset/versioned/typed/engine/v1alpha1/util/awsrole.go:75-77 | A transform that changes the encoding sends exactly one patch, with verb Patched; the result and error are the patch reply's. |
| Synchronizer.TryUpdateAttempt | client/clientset/versioned/typed/engine/v1alpha1/util/mongodbrole.go:84-92 | One attempt fetches meta's name and, only when the fetch succeeds, updates transform(fetched) in the fetched object's namespace. |
| Synchronizer.TryUpdateAttemptFacts | client/clientset/versioned/typed/engine/v1alpha1/util/mongodbrole.go:83-92 | One attempt consumes the script's replies in order, makes exactly one fetch, and ends the poll only on its last exchange. |
| Synchronizer.TryUpdateLoop | client/clientset/versioned/typed/engine/v1alpha1/util/mongodbrole.go:82-93 | The poll runs between 1 and fuel+1 attempts. Its error is WaitTimeout only after fuel+1 attempts. It is NotFound when the last call was a fetch that found nothing, and nil when the last call was a successful update. |
| Synchronizer.TryUpdateCheck | client/clientset/versioned/typed/engine/v1alpha1/util/mongodbrole.go:82-93 | After an attempt, the poll stops when that attempt ended it or time is up, and otherwise retries. The contract is the same as TryUpdateLoop's. |
| Synchronizer.TryUpdateLoopTrace | client/clientset/versioned/typed/engine/v1alpha1/util/mongodbrole.go:82-93 | The poll's trace uses the script's replies in order and counts one attempt per fetch. Each update sends transform of the object fetched just before it, and every successful fetch is followed by its update. |
| Synchronizer.TryUpdate | client/clientset/versioned/typed/engine/v1alpha1/util/mongodbrole.go:80-99 | At least 1 and at most fuel+1 attempts, one per fetch. Success exactly when the last call is an update that succeeded, returning that update's object. Every error names the kind, namespace, name and attempt count. The cause is NotFound exactly when the last fetch found nothing, and WaitTimeout exactly when nothing ended the poll. |
| Synchronizer.TryUpdateTrace | client/clientset/versioned/typed/engine/v1alpha1/util/mongodbrole.go:82-93 | Every reply acted on is the script's. Every update carries transform of the object fetched just before it, every successful fetch is followed by its update, and only the last exchange can end the poll. |
| Synchronizer.TryUpdateFirstAttempt | client/clientset/versioned/typed/engine/v1alpha1/util/mongodbrole.go:84-89 | When the first fetch and update succeed, TryUpdate makes exactly those two calls, with one attempt, and returns the update's object. |
| Synchronizer.TryUpdateGone | client/clientset/versioned/typed/engine/v1alpha1/util/mysqlrole.go:85-97 | A fetch that finds nothing ends TryUpdate at once, with one call and no update. The error is NotFound, wrapped with kind, namespace, name and 1 attempt. |
| Synchronizer.TryUpdateRetriesFetches | client/clientset/versioned/typed/engine/v1alpha1/util/mongodbrole.go:91-92 | Fetch failures other than NotFound never end the poll. When every fetch fails so, it times out after fuel+1 attempts, having sent no update. |
| Synchronizer.TryUpdateRetriesFailedUpdate | client/clientset/versioned/typed/engine/v1alpha1/util/awsrole.go:87-89 | A failed update is not returned: while time remains, the next call fetches the object again, and the attempt count exceeds one. |
| Synchronizer.WithStatus | client/clientset/versioned/typed/engine/v1alpha1/util/mongodbrole.go:106-113 | The object a status write sends keeps the latest TypeMeta, ObjectMeta and Spec and carries the given status. |
| Synchronizer.UpdateStatusAttempt | client/clientset/versioned/typed/engine/v1alpha1/util/mongodbrole.go:120-122 | One attempt writes the status onto the current object in the input's namespace. It re-fetches the input's name exactly when that write conflicted. |
| Synchronizer.UpdateStatusAttemptFacts | client/clientset/versioned/typed/engine/v1alpha1/util/mongodbrole.go:118-131 | One attempt consumes the script's replies in order and makes exactly one status write. |
| Synchronizer.UpdateStatusLoop | client/clientset/versioned/typed/engine/v1alpha1/util/mongodbrole.go:117-136 | The poll runs between 1 and fuel+1 attempts and returns a result exactly when it has no error, namely the last write's object. WaitTimeout comes only after fuel+1 attempts. |
| Synchronizer.UpdateStatusCheck | client/clientset/versioned/typed/engine/v1alpha1/util/mongodbrole.go:121-135 | After an attempt, the poll stops when that attempt ended it or time is up. Otherwise it retries on the re-fetched object, or on the current one. The contract is the same as UpdateStatusLoop's. |
| Synchronizer.UpdateStatusLoopReplies | client/clientset/versioned/typed/engine/v1alpha1/util/mongodbrole.go:117-136 | The poll uses the script's replies in order and counts one attempt per status write. |
| Synchronizer.UpdateStatusLoopShape | client/clientset/versioned/typed/engine/v1alpha1/util/mongodbrole.go:120-131 | The trace starts with a write of the current object. A re-fetch follows exactly the writes that conflicted, so a conflicted write is never the last call, and each later write resends the re-fetched object, or the previous one when the re-fetch failed. |
| Synchronizer.UpdateStatus | client/clientset/versioned/typed/engine/v1alpha1/util/mongodbrole.go:101-142 | The first write is the input's status transformed, onto the input. Success comes exactly when the last call is a successful status write. Every error names the kind, the input's namespace and name, and the attempt count. The cause is WaitTimeout exactly when nothing ended the poll, and otherwise is the last call's error. |
| Synchronizer.UpdateStatusTrace | client/clientset/versioned/typed/engine/v1alpha1/util/mongodbrole.go:106-131 | Every write carries transform of the INPUT's status, never of a re-fetched object's, and goes to the input's namespace. After a conflict it carries the re-fetched object. |
| Synchronizer.UpdateStatusFirstAttempt | client/clientset/versioned/typed/engine/v1alpha1/util/mongodbrole.go:117-135 | When the first write succeeds, UpdateStatus makes exactly that one call and returns its object, under either guard. |
| Synchronizer.UpdateStatusConflictRefetch | client/clientset/versioned/typed/engine/v1alpha1/util/awsrole.go:121-126 | After a conflict, the second call re-fetches the input's name. When that succeeds, the third call writes the same new status onto the re-fetched object, with its fresh metadata and resource version. |
| Synchronizer.AsWrittenRetriesFailedWrites | client/clientset/versioned/typed/engine/v1alpha1/util/mongodbrole.go:132-135 | As written, a status write failing with anything but a conflict never ends the poll, which times out after fuel+1 writes. |
| Synchronizer.IntendedStopsOnFailedWrite | client/clientset/versioned/typed/engine/v1alpha1/util/mongodbrole.go:132-134 | With the corrected guard, a write failing with an error that is neither a conflict nor retryable ends UpdateStatus at once, after 1 attempt, with that error. |
| Synchronizer.ForbiddenStatusWrite | client/clientset/versioned/typed/engine/v1alpha1/util/mongodbrole.go:132-140 | A forbidden write with fuel 2: as written, 3 attempts and a timeout; corrected, 1 attempt and the forbidden error. |
| Synchronizer.GuardsAgree | client/clientset/versioned/typed/engine/v1alpha1/util/mongodbrole.go:121-135 | When no status write of the as-written run fails with an error that is neither a conflict nor retryable, the corrected guard makes the same calls with the same result. Failed re-fetches are allowed. |
| EngineRoles.TryUpdateRoleErrorsNameKind | client/clientset/versioned/typed/engine/v1alpha1/util/mysqlrole.go:95-97 | Failures of TryUpdate for two different kinds are different errors, whatever the scripts, objects and bounds: the message names the kind. |
| EngineRoles.KindOf | apis/engine/v1alpha1/mongodb_types.go:25 | A kind carries its Kind string and the engine group/version. |
| EngineRoles.CreateOrPatchRole | client/clientset/versioned/typed/engine/v1alpha1/util/mysqlrole.go:35-51 | Per kind, 1 or 2 calls, the first a get of meta's name; Created exactly on NotFound. |
| EngineRoles.CreateStampsKind | client/clientset/versioned/typed/engine/v1alpha1/util/awsrole.go:37-46 | On NotFound, exactly one create is sent, of transform applied to an empty object with the kind's Kind, the scheme group/version and meta. The verb is Created even when the create fails, and then the create's error is returned. |
| EngineRoles.TryUpdateRole | client/clientset/versioned/typed/engine/v1alpha1/util/mysqlrole.go:80-99 | Per kind, every failure is wrapped with that kind's name, the namespace, the name and the attempt count. |
| EngineRoles.UpdateRoleStatus | client/clientset/versioned/typed/engine/v1alpha1/util/mysqlrole.go:138-140 | Per kind, under the guard as written or the corrected one: no error exactly when the last call is a successful status write. A failure names the kind, namespace, name and attempt count. |
| EngineRoles.UpdateRoleStatusSucceedsOnOkWrite | client/clientset/versioned/typed/engine/v1alpha1/util/mysqlrole.go:117-136 | Under either guard, status updates succeed exactly when some status write in the trace succeeded. |
| Naming.ClusterOrDash | apis/engine/v1alpha1/mysql_helpers.go:28-31 | The cluster part is "-" for an empty cluster name and the name itself otherwise. |
| Naming.VaultName | apis/policy/v1alpha1/vaultpolicybinding_helpers.go:38-42 | The name starts with "k8s." and its length is that of cluster-or-dash, namespace and name plus the prefix and two dots; ParseVaultNameRoundTrip reads the parts back. |
| Naming.ParseVaultName | apis/engine/v1alpha1/mysql_helpers.go:27-33 | A successful read gives a dot-free cluster and namespace and a name that rebuild the input string exactly. |
| Naming.ParseVaultNameRoundTrip | apis/engine/v1alpha1/mysql_helpers.go:27-33 | A Vault name reads back into its components when the cluster and namespace contain no dot. |
| Naming.VaultNameInjective | apis/policy/v1alpha1/vaultpolicybinding_helpers.go:38-42 | In one cluster, different (namespace, name) pairs get different Vault names. |
| PolicyBinding.GetKey | apis/policy/v1alpha1/vaultpolicybinding_helpers.go:29-31 | The key is "vaultpolicybinding/" + namespace + "/" + name. |
| PolicyBinding.ParseKeyRoundTrip | apis/policy/v1alpha1/vaultpolicybinding_helpers.go:29-31 | A key reads back into the binding's namespace and name. |
| PolicyBinding.GetKeyInjective | apis/policy/v1alpha1/vaultpolicybinding_helpers.go:29-31 | Two bindings share a key exactly when they share namespace and name. |
| PolicyBinding.PolicyBindingName | apis/policy/v1alpha1/vaultpolicybinding_helpers.go:33-43 | A non-empty spec role name is used verbatim. Otherwise the name is the binding's Vault name in the cluster. |
| PolicyBinding.PolicyBindingNameIdentifies | apis/policy/v1alpha1/vaultpolicybinding_helpers.go:38-42 | Without a spec role name, the binding's namespace and name can be read back from the role name. |
| PolicyBinding.OffshootSelectors | apis/policy/v1alpha1/vaultpolicybinding_helpers.go:45-50 | The selectors are exactly {app: vault, vault_policy_binding: name}. |
| PolicyBinding.OffshootSelectorsByName | apis/policy/v1alpha1/vaultpolicybinding_helpers.go:45-50 | Two bindings have the same selectors exactly when they have the same name, whatever their namespaces. |
| PolicyBinding.IsValid | apis/policy/v1alpha1/vaultpolicybinding_helpers.go:94-96 | Every binding is valid. |
| PolicyBinding.SetDefaults | apis/policy/v1alpha1/vaultpolicybinding_helpers.go:98-110 | A nil binding stays nil. Afterwards the role name is non-empty and a set one is kept. The Kubernetes path is defaulted. Nothing else changes. |
| PolicyBinding.SetDefaultsKubernetesPath | apis/policy/v1alpha1/vaultpolicybinding_helpers.go:107-109 | The path becomes "kubernetes" exactly when the Kubernetes subject is present with an empty path; the rest of the subject is kept. |
| PolicyBinding.SetDefaultsIdempotent | apis/policy/v1alpha1/vaultpolicybinding_helpers.go:98-110 | Defaulting twice, even in another cluster, gives what defaulting once gives. |
| MySQLHelpers.RoleName | apis/engine/v1alpha1/mysql_helpers.go:27-33 | The role name starts with "k8s." and is the role's Vault name in its own cluster. |
| MySQLHelpers.RoleNameRoundTrip | apis/engine/v1alpha1/mysql_helpers.go:27-33 | The cluster (or "-"), namespace and name read back from the role name. |
| MySQLHelpers.RoleNameInjective | apis/engine/v1alpha1/mysql_helpers.go:27-33 | Two roles of one cluster share a role name only when they share namespace and name. |
| MySQLHelpers.IsValid | apis/engine/v1alpha1/mysql_helpers.go:60-62 | Every role is valid. |
| MySQLHelpers.SetDefaults | apis/engine/v1alpha1/mysql_helpers.go:64-78 | A nil configuration stays nil. Empty allowed roles become ["*"] and an empty plugin name becomes "mysql-database-plugin". Values already set are kept, and no other field changes. |
| MySQLHelpers.SetDefaultsKeepsComplete | apis/engine/v1alpha1/mysql_helpers.go:71-77 | A configuration with allowed roles and a plugin name is left as it is. |
| MySQLHelpers.SetDefaultsIdempotent | apis/engine/v1alpha1/mysql_helpers.go:64-78 | Defaulting twice equals defaulting once. |
| DatabaseLeases.CredsPath | pkg/vault/database/database_credential_manager_test.go:36-47 | The credential path starts with "/v1/" and ends with the role name. |
| DatabaseLeases.CredsPathInjective | pkg/vault/database/database_credential_manager_test.go:36-47 | Different roles of one mount are read from different paths. |
| DatabaseLeases.GetCredential | pkg/vault/database/database_credential_manager_test.go:413-492 | Success exactly when the server is reachable and answers a success status with a JSON secret. The credential is then that payload, and the backend's lease set then holds its lease. An unreachable server and an error status are reported as such, and a failure changes nothing. |
| DatabaseLeases.IsLeaseExpired | pkg/vault/database/database_credential_manager_test.go:362-411 | An answer comes exactly when the server is reachable. A lease is expired exactly when the server does not hold it. |
| DatabaseLeases.RevokeLease | pkg/vault/database/database_credential_manager_test.go:305-360 | Success exactly when the server is reachable and holds the lease, which is then removed. An unknown lease gives a 404 error, and a failure changes nothing. |
| DatabaseLeases.LeaseLifecycle | pkg/vault/database/database_credential_manager_test.go:305-411 | A property of the abstract lease-holding backend that the revoke and lookup tests exercise one case at a time: an issued lease is live. Revoking it succeeds, it then reads as expired, and revoking it again is an error. |
| DatabaseLeases.OtherLeasesUnaffected | pkg/vault/database/database_credential_manager_test.go:48-74 | Issuing or revoking one lease leaves the answer for every other lease unchanged. |
| DatabaseLeases.GetCredentialReturnsPayload | pkg/vault/database/database_credential_manager_test.go:447-488 | A 200 JSON answer is returned exactly: lease id, duration and data. |
| DatabaseLeases.GetCredentialFailures | pkg/vault/database/database_credential_manager_test.go:457-476 | A role without a route gives a 404 error. A 200 answer whose body is not a secret is an error too. |
| DatabaseAccess.CredentialData | pkg/vault/database/database_credential_manager_test.go:79-154 | The secret stores each credential field as the bytes of its string, and nothing else. |
| DatabaseAccess.CreateSecret | pkg/vault/database/database_credential_manager_test.go:104-153 | Afterwards the secret exists and holds every credential field. Existing unrelated fields are kept and only that secret changes. Created exactly when it was absent, Unchanged exactly when nothing changed. |
| DatabaseAccess.SecretReaderRule | pkg/vault/database/database_credential_manager_test.go:212-220 | The rule is core group, resource secrets, resource name the secret, verb get. |
| DatabaseAccess.CreateRole | pkg/vault/database/database_credential_manager_test.go:172-220 | Afterwards the role exists with exactly the reader rule, whether or not it existed before. Only that role changes. |
| DatabaseAccess.RoleRefTo | pkg/vault/database/database_credential_manager_test.go:292-299 | The reference names the role, kind "Role" and the RBAC API group. |
| DatabaseAccess.CreateRoleBinding | pkg/vault/database/database_credential_manager_test.go:251-299 | Afterwards the binding exists, refers to the role and names the subjects, whether created or patched. Only that binding changes. |
| DatabaseAccess.ReaderRoleAllowsOnlyGet | pkg/vault/database/database_credential_manager_test.go:212-220 | The reader role allows exactly one request: get on that one secret. |
| DatabaseAccess.CreateSecretIdempotent | pkg/vault/database/database_credential_manager_test.go:133-151 | Storing the same credential again changes nothing and reports Unchanged. |
| DatabaseAccess.CreateRoleIdempotent | pkg/vault/database/database_credential_manager_test.go:172-220 | Creating the same reader role again changes nothing. |
| DatabaseAccess.CreateRoleBindingIdempotent | pkg/vault/database/database_credential_manager_test.go:251-299 | Binding the same role to the same subjects again changes nothing. |
| DatabaseAccess.ExposeGrantsRead | pkg/vault/database/database_credential_manager_test.go:79-303 | After secret, role and binding, the secret holds the credential and every bound subject may read it, whatever existed before. |
| Rbac.SingleRuleAllows | pkg/vault/database/database_credential_manager_test.go:212-220 | A single rule without wildcards allows exactly its listed groups, resources and verbs, on the listed resource names or, when it lists none, on every name. |
| Userpass.Wrap | pkg/vault/auth/userpass/login.go:43 | A wrapped error starts with the message and ends with the cause. |
| Userpass.AuthPath | pkg/vault/auth/userpass/login.go:60-63 | The path is the annotation's value when present and non-empty, "userpass" otherwise; never empty. |
| Userpass.New | pkg/vault/auth/userpass/login.go:40-71 | Config and client failures come first, wrapped. Then "username is missing", then "password is missing". Success exactly when all four are present. The user and password are the secret's bytes as strings, and the path is AuthPath. |
| Userpass.NewReadsOnlyCredentials | pkg/vault/auth/userpass/login.go:51-63 | Two secrets that agree on username, password and mount path give the same result. |
| Userpass.LoginRequest | pkg/vault/auth/userpass/login.go:75-82 | A POST to "/v1/auth/<path>/login/<user>" whose body is exactly {"password": pass}. |
| Userpass.Login | pkg/vault/auth/userpass/login.go:74-96 | A transport or decode error is returned as is. Otherwise the result is the decoded client token. |
| Userpass.LoginUsesSecret | pkg/vault/auth/userpass/login.go:40-82 | An authenticator built from a secret logs in as the secret's user, with its password, under its mount path. |
| Userpass.LoginPathIdentifies | pkg/vault/auth/userpass/login.go:75 | For mount paths without a slash, the login path determines the mount path and the user. |
| Unsealer.ModeArgs | pkg/vault/unsealer/kubernetes/kubernetes.go:59-63 | The flags are "--mode=kubernetes-secret", then "--k8s.secret-name=<name>" only when the name is non-empty. |
| Unsealer.UnsealerBase | pkg/vault/unsealer/kubernetes/kubernetes.go:50-57 | The starting container is the LAST unsealer container of the template, or the zero container when there is none. |
| Unsealer.LastNamed | pkg/vault/unsealer/kubernetes/kubernetes.go:53-57 | The loop keeps the LAST container with the name: no later container has it. |
| Unsealer.UpsertContainer | pkg/vault/unsealer/kubernetes/kubernetes.go:66 | The container ends up in the list, replacing one with its name or appended. Containers with other names are kept. |
| Unsealer.Apply | pkg/vault/unsealer/kubernetes/kubernetes.go:45-68 | A nil template is exactly the error case. Otherwise the metadata is kept and the unsealer container's arguments are extended by the mode flags and upserted. |
| Unsealer.ApplyCopiesLastUnsealerIntoFirst | pkg/vault/unsealer/kubernetes/kubernetes.go:53-66 | With several unsealer containers, the FIRST one's slot receives the LAST one's arguments followed by the flags. Every other container, the last unsealer included, is unchanged. |
| Unsealer.ApplyExtendsUnsealerArgs | pkg/vault/unsealer/kubernetes/kubernetes.go:53-67 | With exactly one unsealer container, it stays in place with its arguments followed by the flags, and every other container is unchanged. |
| Unsealer.ApplyWithoutUnsealer | pkg/vault/unsealer/kubernetes/kubernetes.go:50-66 | Without an unsealer container, a nameless container carrying only the flags is upserted. |
| Unsealer.ApplyTwiceRepeatsFlags | pkg/vault/unsealer/kubernetes/kubernetes.go:59-66 | Apply is not idempotent: applying it twice appends the flags twice. |
| Unsealer.GetRBAC | pkg/vault/unsealer/kubernetes/kubernetes.go:71-90 | Exactly one role, "<prefix>-unsealer-secret-reader" in the namespace, with one rule: core group, secrets, create/get/patch. |
| Unsealer.UnsealerRoleAllows | pkg/vault/unsealer/kubernetes/kubernetes.go:79-85 | The role allows exactly create, get and patch on any secret, and nothing else. |
| AwsCredential.ParseCredential | pkg/vault/credential/aws/aws_test.go:33-80 | Success exactly when no value is neither null nor a string. String values become their bytes, null values are left out, and no other key appears. |
| AwsCredential.Render | pkg/vault/credential/aws/aws_test.go:43-49 | Secret data rendered as an answer has the same keys, each a string. |
| AwsCredential.ParseRenderRoundTrip | pkg/vault/credential/aws/aws_test.go:72-77 | Rendering secret data and parsing it again gives the same data. |
| AwsCredential.NullFieldsIgnored | pkg/vault/credential/aws/aws_test.go:34-41 | Dropping null fields does not change the result. |
| AwsCredential.SecurityKeyCases | pkg/vault/credential/aws/aws_test.go:33-80 | The three test inputs (a null, a string and a struct security key) give the two expected maps and the error. |

## Left out

- JSON encoding and the merge-patch diff (`json.Marshal`, `jsonpatch.CreateMergePatch`, JSON Merge Patch of RFC 7396) are an encoder parameter. The patch is empty exactly when the two encodings are equal. A failure to compute the diff itself is not modelled; an encoding failure is.
- Wall-clock polling: `wait.PollImmediate` with `RetryInterval` and `RetryTimeout` is a `fuel` bound on attempts. No sleeps or timers are modelled.
- Synchronizer.TryUpdate: on timeout the error cause is `WaitTimeout` (the poll's `ErrWaitTimeout`), never the last store error. This follows the code, which never returns the store error to the poll.
- Concurrent writers appear only as Conflict replies of the scripted store.
- HTTP, the Vault API client, the Kubernetes clientsets and glog logging are abstracted. The store replies, the Vault server value and the `send`/`decode` parameters of `Userpass.Login` stand in for them.
- A typed-client call that fails returns an empty object in Go. Here it returns no object.
- `VaultConfigFromAppBinding` and `vaultapi.NewClient` are parameters of `Userpass.New`, given as their outcomes.
- Userpass.Login: a failure of `SetJSONBody` cannot happen for a map of strings and is not modelled. Error statuses and transport errors are one failure of `send`.
- Unsealer.UpsertContainer: the library function's body is not part of this model. It is assumed to replace the first container with the same name, else append.
- `clusterid.ClusterName` is a `cluster` parameter.
- CRD and OpenAPI builders (`CustomResourceDefinition`, `SetNameSchema`), `OffshootLabels` and `meta_util.FilterKeys` are not modelled. They only build schemas or call library code.
- The AWSRole spec type is not part of this model. Its zero spec is a parameter of `EngineRoles.KindOf`.
- Owner references and the other `ObjectMeta` fields the modelled code never reads or writes are not represented. Role conditions and phases are carried but not interpreted.
- Secret bytes are kept as the string they convert to and from: byte lengths and data that is not valid UTF-8 are not represented.
- The DBCredManager implementation is not part of this model. `DatabaseLeases` and `DatabaseAccess` are consistent with the results its unit test expects in each case, but they promise more than the test shows; the lines below say where. The Vault server behind them is an abstract backend that holds a set of leases, not the test's fake server. That fake server answers each route independently and keeps no state.
- DatabaseLeases.GetCredential / LeaseLifecycle: the shared lease set links issuing, lookup and revocation. This models Vault's lease behaviour, not the test's canned routes. Those routes issue lease "1204", but lookup accepts only "1234" and revoke only "success" or "error". "The server holds its lease" and the issue-live-revoke-expired lifecycle are therefore properties of the model's backend, not of the test.
- DatabaseAccess.CreateSecret: the test does not say whether an existing secret's other fields survive. It only expects no error and the secret to exist. The model merges the credential fields into the existing data and keeps the others.
- DatabaseAccess.CreateSecret / CreateRole / CreateRoleBinding: the Go functions return only an error. The Created/Unchanged verb these members report is the model's own observation of the write, not a result of the program. Replacing an existing role's rules with exactly the reader rule, and setting the binding's subjects, are assumptions beyond the test, which checks only the first rule and the role reference. These writes never fail in the model, so the error a clientset call can return is not modelled.
- DatabaseLeases.RevokeLease: revoking a lease the server does not hold is an error, as the test's 404 case asserts, not an idempotent success.
- DatabaseLeases.IsLeaseExpired: the server is reduced to the set of leases it holds. A lease it rejects is expired, and only an unreachable server is an error.
- AwsCredential.ParseCredential: the AWSCredManager implementation is not part of this model. The contract comes from its test. The error is one constant, without the source's message text.
- The azure key-vault unsealer test and the Vault-config test are not modelled. The first is one example without its implementation; the second compares a constant string.

## Findings

| source | as written | input that shows it | evidently intended | confidence | as-written member | corrected member |
|---|---|---|---|---|---|---|
| client/clientset/versioned/typed/engine/v1alpha1/util/mongodbrole.go:132 (the same line in mysqlrole.go and awsrole.go) | The non-conflict branch tests the enclosing function's `err`, which is always nil while the poll runs. So a status write that fails with an error that is not retryable never stops the poll. | Every status write is answered "forbidden": as written UpdateStatus retries until the timeout and reports the timeout after fuel+1 attempts (`Synchronizer.ForbiddenStatusWrite`). | Test the write's own error `e2`: stop at once with that error when it is neither a conflict nor retryable. | not executed | Synchronizer.AsWrittenRetriesFailedWrites | Synchronizer.IntendedStopsOnFailedWrite |

`Synchronizer.UpdateStatus` takes the guard as a parameter (`AsWritten` or `Intended`).
`Synchronizer.GuardsAgree` proves that the corrected guard changes nothing on a run where no status write fails that way.
The per-kind `EngineRoles.UpdateRoleStatus` takes the guard as a parameter. With `AsWritten` it is the code as it stands.

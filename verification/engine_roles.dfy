/** The engine roles (MongoDBRole, MySQLRole, AWSRole) as objects of the synchronizer:
    their shared spec and status shapes, their kinds, and the synchronizer instantiated
    for each of them. */
module EngineRoles {
  import opened Wrappers
  import opened Meta
  import opened Store
  import opened Synchronizer

  /** The group/version every engine role is stamped with. */
  const SchemeGroupVersion: string := "engine.kubevault.com/v1alpha1"

  const ResourceKindMongoDBRole: string := "MongoDBRole"
  const ResourceKindMySQLRole: string := "MySQLRole"
  const ResourceKindAWSRole: string := "AWSRole"

  /** The spec of a database role: the Vault server, the database, where the secret
      engine is mounted, lease durations and the SQL run to create and revoke users. */
  datatype DatabaseRoleSpec = DatabaseRoleSpec(
    vaultRef: string,
    databaseRef: Option<string>,
    databaseName: string,
    path: string,
    defaultTTL: string,
    maxTTL: string,
    creationStatements: seq<string>,
    revocationStatements: seq<string>)

  /** One observation of a role's state. */
  datatype RoleCondition = RoleCondition(conditionType: string, status: string, reason: string, message: string)

  /** The status every engine role carries. */
  datatype RoleStatus = RoleStatus(phase: string, observedGeneration: int, conditions: seq<RoleCondition>)

  /** The zero status a freshly created role starts from. */
  const EmptyStatus: RoleStatus := RoleStatus("", 0, [])

  /** The zero spec a freshly created database role starts from. */
  const EmptyDatabaseRoleSpec: DatabaseRoleSpec := DatabaseRoleSpec("", None, "", "", "", "", [], [])

  datatype RoleKind = MongoDBRole | MySQLRole | AWSRole

  /** The `Kind` string a role of kind `k` is stamped and reported with. */
  function KindName(k: RoleKind): (name: string) {
    match k
    case MongoDBRole => ResourceKindMongoDBRole
    case MySQLRole => ResourceKindMySQLRole
    case AWSRole => ResourceKindAWSRole
  }

  /** What the synchronizer needs to know about kind `k`; the AWSRole spec is not part of
      this model, so its zero spec is a parameter. */
  function KindOf<S>(k: RoleKind, emptySpec: S): (kind: Kind<S, RoleStatus>)
    ensures kind.name == KindName(k) && kind.apiVersion == SchemeGroupVersion
    ensures kind.emptySpec == emptySpec && kind.emptyStatus == EmptyStatus
  {
    Kind(KindName(k), SchemeGroupVersion, emptySpec, EmptyStatus)
  }

  /** `CreateOrPatchMongoDBRole`, `CreateOrPatchMySQLRole`, `CreateOrPatchAWSRole`. */
  function CreateOrPatchRole<S>(k: RoleKind, emptySpec: S, answers: nat -> Reply<Object<S, RoleStatus>>,
                                encode: Encoder<S, RoleStatus>, meta: ObjectMeta,
                                transform: Object<S, RoleStatus> -> Object<S, RoleStatus>): (r: Outcome<Object<S, RoleStatus>>)
    ensures 1 <= |r.trace| <= 2 && r.trace[0].call == GetCall(meta.namespace, meta.name)
    ensures r.verb == Created <==> answers(0) == Fail(NotFound)
  {
    CreateOrPatch(KindOf(k, emptySpec), answers, encode, meta, transform)
  }

  /** When the role is absent, exactly one create is sent, of `transform` applied to an
      empty role carrying the given metadata and stamped with the kind's name and the
      engine group/version; the verb is Created even when the create itself fails, and
      the create's error is returned. */
  lemma CreateStampsKind<S>(k: RoleKind, emptySpec: S, answers: nat -> Reply<Object<S, RoleStatus>>,
                            encode: Encoder<S, RoleStatus>, meta: ObjectMeta,
                            transform: Object<S, RoleStatus> -> Object<S, RoleStatus>)
    requires answers(0) == Fail(NotFound)
    ensures var r := CreateOrPatchRole(k, emptySpec, answers, encode, meta, transform);
      && r.verb == Created && |r.trace| == 2 && Writes(r.trace) == 1
      && r.trace[1].call.CreateCall? && r.trace[1].call.namespace == meta.namespace
      && (exists empty: Object<S, RoleStatus> ::
            && empty.typeMeta == TypeMeta(KindName(k), SchemeGroupVersion)
            && empty.meta == meta && empty.status == EmptyStatus
            && r.trace[1].call.obj == transform(empty))
      && (answers(1).Fail? ==> r.err == Some(ApiFailure(answers(1).reason)) && r.obj.None?)
  {
    var kind := KindOf(k, emptySpec);
    var empty := Empty(kind, meta);
    assert CreateOrPatchRole(k, emptySpec, answers, encode, meta, transform).trace[1].call.obj == transform(empty);
  }

  /** `TryUpdateMongoDBRole`, `TryUpdateMySQLRole`, `TryUpdateAWSRole`: a failure names the
      kind, the namespace, the name and the number of attempts. */
  function TryUpdateRole<S>(k: RoleKind, emptySpec: S, answers: nat -> Reply<Object<S, RoleStatus>>, meta: ObjectMeta,
                            transform: Object<S, RoleStatus> -> Object<S, RoleStatus>, fuel: nat): (r: Poll<Object<S, RoleStatus>>)
    ensures r.err.Some? ==>
      && r.err.value.UpdateFailed? && r.err.value.kind == KindName(k)
      && r.err.value.namespace == meta.namespace && r.err.value.name == meta.name
      && 1 <= r.err.value.attempts == r.attempts <= fuel + 1
  {
    TryUpdate(KindOf(k, emptySpec), answers, meta, transform, fuel)
  }

  /** A failed update names the kind that failed: failures of TryUpdate for two
      different kinds are different errors, whatever the scripts, objects and bounds. */
  lemma TryUpdateRoleErrorsNameKind<S>(k1: RoleKind, k2: RoleKind, emptySpec: S,
                                       answers1: nat -> Reply<Object<S, RoleStatus>>, answers2: nat -> Reply<Object<S, RoleStatus>>,
                                       meta1: ObjectMeta, meta2: ObjectMeta,
                                       transform1: Object<S, RoleStatus> -> Object<S, RoleStatus>,
                                       transform2: Object<S, RoleStatus> -> Object<S, RoleStatus>, fuel1: nat, fuel2: nat)
    requires k1 != k2
    ensures var r1 := TryUpdateRole(k1, emptySpec, answers1, meta1, transform1, fuel1);
      var r2 := TryUpdateRole(k2, emptySpec, answers2, meta2, transform2, fuel2);
      r1.err.Some? && r2.err.Some? ==> r1.err != r2.err
  {
  }

  /** `UpdateMongoDBRoleStatus`, `UpdateMySQLRoleStatus`, `UpdateAWSRoleStatus`. With
      `AsWritten` this is the code as it stands; with `Intended`, the corrected guard, a
      status write that fails with an error that is neither a conflict nor retryable
      ends the update. */
  function UpdateRoleStatus<S>(guard: Guard, k: RoleKind, emptySpec: S, answers: nat -> Reply<Object<S, RoleStatus>>,
                               input: Object<S, RoleStatus>, transform: RoleStatus -> RoleStatus, fuel: nat): (r: Poll<Object<S, RoleStatus>>)
    ensures r.trace != []
    ensures r.err.None? <==> Last(r.trace).call.UpdateStatusCall? && Last(r.trace).reply.Ok?
    ensures r.err.Some? ==>
      && r.err.value.StatusUpdateFailed? && r.err.value.kind == KindName(k)
      && r.err.value.namespace == input.meta.namespace && r.err.value.name == input.meta.name
      && 1 <= r.err.value.attempts == r.attempts <= fuel + 1
  {
    UpdateStatus(guard, KindOf(k, emptySpec), answers, input, transform, fuel)
  }

  /** Under either guard, status updates succeed exactly when some status write in the
      trace succeeded, and that write is the last call. */
  lemma UpdateRoleStatusSucceedsOnOkWrite<S>(guard: Guard, k: RoleKind, emptySpec: S, answers: nat -> Reply<Object<S, RoleStatus>>,
                                             input: Object<S, RoleStatus>, transform: RoleStatus -> RoleStatus, fuel: nat)
    ensures var r := UpdateRoleStatus(guard, k, emptySpec, answers, input, transform, fuel);
      r.err.None? <==> exists i :: 0 <= i < |r.trace| && r.trace[i].call.UpdateStatusCall? && r.trace[i].reply.Ok?
  {
    var r := UpdateRoleStatus(guard, k, emptySpec, answers, input, transform, fuel);
    UpdateStatusTrace(guard, KindOf(k, emptySpec), answers, input, transform, fuel);
    if exists i :: 0 <= i < |r.trace| && r.trace[i].call.UpdateStatusCall? && r.trace[i].reply.Ok? {
      var i :| 0 <= i < |r.trace| && r.trace[i].call.UpdateStatusCall? && r.trace[i].reply.Ok?;
      assert EndsUpdateStatus(guard, r.trace[i]);
      assert i == |r.trace| - 1;
    }
  }
}

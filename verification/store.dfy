/** The declarative object store as the synchronizer sees it.

    The store is not simulated: whatever it does (including other writers racing
    with us) is visible only through the replies it gives, so it is modelled as a
    script `answers` where `answers(i)` is the reply to the i-th call an operation
    makes. Every operation returns the trace of calls it made together with the
    replies it received. */
module Store {
  import opened Wrappers
  import opened Meta

  /** Store errors, classified the way the synchronizer branches on them. */
  datatype ApiError =
    | NotFound               // kerr.IsNotFound
    | Conflict               // kerr.IsConflict: the write carried a stale resourceVersion
    | Retryable(msg: string) // kutil.IsRequestRetryable: timeouts, throttling, unavailability
    | Other(msg: string)     // anything else (forbidden, invalid, already exists, ...)

  datatype Reply<O> = Ok(obj: O) | Fail(reason: ApiError) {
    /** The object a typed client hands back: nil when the call failed. */
    function Returned(): Option<O> {
      if Ok? then Some(obj) else None
    }
  }

  /** A JSON merge patch (RFC 7396) between two encodings. Only whether it is empty
      matters to the model: it is `{}` exactly when the encodings are equal. */
  datatype MergePatch = MergePatch(from: string, to: string) {
    predicate IsEmpty() { from == to }
  }

  datatype Call<O> =
    | GetCall(namespace: string, name: string)
    | CreateCall(namespace: string, obj: O)
    | UpdateCall(namespace: string, obj: O)
    | UpdateStatusCall(namespace: string, obj: O)
    | PatchCall(namespace: string, name: string, patch: MergePatch)
  {
    predicate IsWrite() { !GetCall? }
  }

  /** One round trip to the store. */
  datatype Exchange<O> = Exchange(call: Call<O>, reply: Reply<O>)

  /** The replies in `trace` are the script's answers, read from position `at` on. */
  ghost predicate Answered<O>(trace: seq<Exchange<O>>, answers: nat -> Reply<O>, at: nat)
    decreases |trace|
  {
    trace == [] || (trace[0].reply == answers(at) && Answered(trace[1..], answers, at + 1))
  }

  /** Answered, read position by position: the i-th reply is the script's answer number
      `at + i`. */
  lemma {:induction false} AnsweredAt<O>(trace: seq<Exchange<O>>, answers: nat -> Reply<O>, at: nat, i: nat)
    requires Answered(trace, answers, at) && i < |trace|
    ensures trace[i].reply == answers(at + i)
    decreases i
  {
    if i > 0 {
      AnsweredAt(trace[1..], answers, at + 1, i - 1);
    }
  }

  lemma {:induction false} AnsweredAppend<O>(xs: seq<Exchange<O>>, ys: seq<Exchange<O>>, answers: nat -> Reply<O>, at: nat)
    requires Answered(xs, answers, at) && Answered(ys, answers, at + |xs|)
    ensures Answered(xs + ys, answers, at)
    decreases |xs|
  {
    if xs == [] {
      assert xs + ys == ys;
    } else {
      assert (xs + ys)[0] == xs[0];
      assert (xs + ys)[1..] == xs[1..] + ys;
      AnsweredAppend(xs[1..], ys, answers, at + 1);
    }
  }

  /** Number of writes in a trace. */
  function Writes<O>(trace: seq<Exchange<O>>): nat {
    if trace == [] then 0
    else (if trace[0].call.IsWrite() then 1 else 0) + Writes(trace[1..])
  }

  /** Number of reads in a trace. */
  function Reads<O>(trace: seq<Exchange<O>>): nat {
    if trace == [] then 0
    else (if trace[0].call.GetCall? then 1 else 0) + Reads(trace[1..])
  }

  lemma CountsAppend<O>(a: seq<Exchange<O>>, b: seq<Exchange<O>>)
    ensures Writes(a + b) == Writes(a) + Writes(b)
    ensures Reads(a + b) == Reads(a) + Reads(b)
  {
    if a != [] {
      assert (a + b)[0] == a[0];
      assert (a + b)[1..] == a[1..] + b;
      CountsAppend(a[1..], b);
    } else {
      assert a + b == b;
    }
  }

  /** An API object with type metadata, object metadata, a spec and a status. */
  datatype Object<S, T> = Object(typeMeta: TypeMeta, meta: ObjectMeta, spec: S, status: T)

  /** What the per-kind copies of the source differ in: the kind name, the group/version
      and the zero values a freshly created object starts from. */
  datatype Kind<S, T> = Kind(name: string, apiVersion: string, emptySpec: S, emptyStatus: T)

  /** The empty object `&api.X{TypeMeta: ..., ObjectMeta: meta}` handed to a create transform. */
  function Empty<S, T>(kind: Kind<S, T>, meta: ObjectMeta): (o: Object<S, T>)
    ensures o.typeMeta.kind == kind.name && o.typeMeta.apiVersion == kind.apiVersion
    ensures o.meta == meta
  {
    Object(TypeMeta(kind.name, kind.apiVersion), meta, kind.emptySpec, kind.emptyStatus)
  }

  /** `kutil.VerbType` as far as the synchronizer reports it. */
  datatype Verb = Created | Patched | Unchanged

  /** The errors the synchronizer returns. */
  datatype SyncError =
    | ApiFailure(reason: ApiError)
    | EncodeFailure(msg: string)            // json.Marshal failed
    | WaitTimeout                           // wait.ErrWaitTimeout: the poll ran out of time
    | UpdateFailed(kind: string, namespace: string, name: string, attempts: nat, cause: SyncError)
    | StatusUpdateFailed(kind: string, namespace: string, name: string, attempts: nat, cause: SyncError)

  /** The error a failed reply turns into, or none. */
  function ErrorOf<O>(reply: Reply<O>): (e: Option<SyncError>)
    ensures e.None? <==> reply.Ok?
    ensures reply.Fail? ==> e == Some(ApiFailure(reply.reason))
  {
    match reply
    case Ok(_) => None
    case Fail(reason) => Some(ApiFailure(reason))
  }
}

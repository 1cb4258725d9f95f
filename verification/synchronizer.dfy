/** The optimistic-concurrency synchronizer that the source repeats once per resource
    kind (`CreateOrPatchX`, `PatchX`, `PatchXObject`, `TryUpdateX`, `UpdateXStatus` in
    the engine client's `util` package), written once over a generic object.

    `wait.PollImmediate(RetryInterval, RetryTimeout, condition)` becomes a recursion on
    `fuel`: the condition runs once immediately and then at most `fuel` more times. */
module Synchronizer {
  import opened Wrappers
  import opened Meta
  import opened Store

  /** `(object, verb, error)` as CreateOrPatch and Patch return them, with the calls made. */
  datatype Outcome<O> = Outcome(obj: Option<O>, verb: Verb, err: Option<SyncError>, trace: seq<Exchange<O>>)

  /** `(result, error)` as TryUpdate and UpdateStatus return them, with the attempt
      counter and the calls made. */
  datatype Poll<O> = Poll(attempts: nat, result: Option<O>, err: Option<SyncError>, trace: seq<Exchange<O>>)

  /** `json.Marshal`, which may fail. */
  type Encoder<!S, !T> = Object<S, T> -> Result<string, string>

  function Last<O>(trace: seq<Exchange<O>>): Exchange<O>
    requires trace != []
  {
    trace[|trace| - 1]
  }

  /** Both objects encode and their encodings differ: the merge patch is not empty. */
  predicate Differ<S, T>(encode: Encoder<S, T>, cur: Object<S, T>, mod: Object<S, T>) {
    encode(cur).Success? && encode(mod).Success? && encode(cur).value != encode(mod).value
  }

  // ---------------------------------------------------------------------------
  // CreateOrPatch, Patch, PatchObject

  /** Sends the merge patch from `cur` to `mod`, unless it is empty. */
  function PatchObject<S, T>(answers: nat -> Reply<Object<S, T>>, at: nat, encode: Encoder<S, T>,
                             cur: Object<S, T>, mod: Object<S, T>): (r: Outcome<Object<S, T>>)
    ensures Answered(r.trace, answers, at)
    ensures |r.trace| <= 1
    ensures r.trace != [] <==> Differ(encode, cur, mod)
    ensures r.verb == Patched <==> r.trace != []
    ensures r.verb == Unchanged && r.err.None? <==> r.obj == Some(cur) && !Differ(encode, cur, mod)
    ensures r.trace != [] ==>
      && r.trace[0].call == PatchCall(cur.meta.namespace, cur.meta.name,
                                      MergePatch(encode(cur).value, encode(mod).value))
      && r.obj == r.trace[0].reply.Returned()
      && r.err == ErrorOf(r.trace[0].reply)
    ensures r.trace == [] && r.err.Some? ==> r.obj.None? && r.err.value.EncodeFailure?
  {
    match encode(cur)
    case Failure(e) => Outcome(None, Unchanged, Some(EncodeFailure(e)), [])
    case Success(curJson) =>
      match encode(mod)
      case Failure(e) => Outcome(None, Unchanged, Some(EncodeFailure(e)), [])
      case Success(modJson) =>
        var patch := MergePatch(curJson, modJson);
        if patch.IsEmpty() then
          Outcome(Some(cur), Unchanged, None, [])
        else
          var reply := answers(at);
          Outcome(reply.Returned(), Patched, ErrorOf(reply),
                  [Exchange(PatchCall(cur.meta.namespace, cur.meta.name, patch), reply)])
  }

  /** Applies `transform` to a copy of `cur` (values are never shared, so `cur` itself
      cannot change) and patches `cur` towards the result. */
  function Patch<S, T>(answers: nat -> Reply<Object<S, T>>, at: nat, encode: Encoder<S, T>,
                       cur: Object<S, T>, transform: Object<S, T> -> Object<S, T>): (r: Outcome<Object<S, T>>)
    ensures Answered(r.trace, answers, at)
    ensures |r.trace| <= 1
    ensures r.trace != [] <==> Differ(encode, cur, transform(cur))
    ensures r.trace != [] ==> r.trace[0].call.PatchCall? && r.trace[0].call.patch.from == encode(cur).value
    ensures r.verb == Patched <==> r.trace != []
    ensures r.verb == Unchanged && r.err.None? <==> r.obj == Some(cur) && !Differ(encode, cur, transform(cur))
    ensures r.trace == [] && r.err.Some? ==> r.obj.None? && r.err.value.EncodeFailure?
  {
    PatchObject(answers, at, encode, cur, transform(cur))
  }

  /** Fetches the object named by `meta`; creates `transform(empty)` if it is absent,
      patches it towards `transform(current)` if it is present. */
  function CreateOrPatch<S, T>(kind: Kind<S, T>, answers: nat -> Reply<Object<S, T>>, encode: Encoder<S, T>,
                               meta: ObjectMeta, transform: Object<S, T> -> Object<S, T>): (r: Outcome<Object<S, T>>)
    ensures Answered(r.trace, answers, 0)
    ensures 1 <= |r.trace| <= 2 && Writes(r.trace) == |r.trace| - 1
    ensures r.trace[0].call == GetCall(meta.namespace, meta.name)
    ensures r.verb == Created <==> answers(0) == Fail(NotFound)
    ensures answers(0) == Fail(NotFound) ==>
      && |r.trace| == 2
      && r.trace[1].call == CreateCall(meta.namespace, transform(Empty(kind, meta)))
      && r.obj == answers(1).Returned() && r.err == ErrorOf(answers(1))
    ensures answers(0).Fail? && answers(0) != Fail(NotFound) ==>
      r == Outcome(None, Unchanged, Some(ApiFailure(answers(0).reason)), r.trace) && |r.trace| == 1
    ensures answers(0).Ok? ==>
      && r.verb != Created
      && (|r.trace| == 2 <==> Differ(encode, answers(0).obj, transform(answers(0).obj)))
      && (r.verb == Patched <==> |r.trace| == 2)
      && (r.verb == Unchanged && r.err.None? <==> r.obj == Some(answers(0).obj) && |r.trace| == 1)
      && (|r.trace| == 1 && r.err.Some? ==> r.obj.None? && r.err.value.EncodeFailure?)
  {
    var get := answers(0);
    var getX := Exchange(GetCall(meta.namespace, meta.name), get);
    match get
    case Fail(NotFound) =>
      var created := answers(1);
      var createX := Exchange(CreateCall(meta.namespace, transform(Empty(kind, meta))), created);
      assert [getX, createX][1..] == [createX] && [createX][1..] == [];
      Outcome(created.Returned(), Created, ErrorOf(created), [getX, createX])
    case Fail(e) =>
      Outcome(None, Unchanged, Some(ApiFailure(e)), [getX])
    case Ok(cur) =>
      var p := Patch(answers, 1, encode, cur, transform);
      assert p.trace != [] ==> p.trace[1..] == [] && Writes(p.trace) == 1;
      CountsAppend([getX], p.trace);
      p.(trace := [getX] + p.trace)
  }

  /** A transform that leaves the fetched object as it is costs one call: CreateOrPatch
      sends no patch and hands the fetched object back unchanged. */
  lemma CreateOrPatchNoChange<S, T>(kind: Kind<S, T>, answers: nat -> Reply<Object<S, T>>, encode: Encoder<S, T>,
                                    meta: ObjectMeta, transform: Object<S, T> -> Object<S, T>)
    requires answers(0).Ok? && transform(answers(0).obj) == answers(0).obj
    requires encode(answers(0).obj).Success?
    ensures var r := CreateOrPatch(kind, answers, encode, meta, transform);
      r == Outcome(Some(answers(0).obj), Unchanged, None, [Exchange(GetCall(meta.namespace, meta.name), answers(0))])
  {
  }

  /** Patching towards an object whose encoding differs always sends exactly one patch,
      and its outcome is the store's reply. */
  lemma CreateOrPatchSendsChange<S, T>(kind: Kind<S, T>, answers: nat -> Reply<Object<S, T>>, encode: Encoder<S, T>,
                                       meta: ObjectMeta, transform: Object<S, T> -> Object<S, T>)
    requires answers(0).Ok? && Differ(encode, answers(0).obj, transform(answers(0).obj))
    ensures var r := CreateOrPatch(kind, answers, encode, meta, transform);
      && r.verb == Patched && |r.trace| == 2 && Writes(r.trace) == 1
      && r.trace[1].call.PatchCall? && r.trace[1].reply == answers(1)
      && r.obj == answers(1).Returned() && r.err == ErrorOf(answers(1))
  {
    var r := CreateOrPatch(kind, answers, encode, meta, transform);
    AnsweredAt(r.trace, answers, 0, 1);
  }

  // ---------------------------------------------------------------------------
  // TryUpdate

  /** The exchange that ends TryUpdate's poll early: a fetch that finds the object gone,
      or an update that succeeds. */
  predicate EndsTryUpdate<O>(x: Exchange<O>) {
    || (x.call.GetCall? && x.reply.Fail? && x.reply.reason.NotFound?)
    || (x.call.UpdateCall? && x.reply.Ok?)
  }

  /** The calls of one TryUpdate attempt: the fetch and, when it returned an object, the
      update of `transform` of that object sent to the object's own namespace. */
  function TryUpdateAttempt<S, T>(answers: nat -> Reply<Object<S, T>>, at: nat, meta: ObjectMeta,
                                  transform: Object<S, T> -> Object<S, T>): (xs: seq<Exchange<Object<S, T>>>)
    ensures 1 <= |xs| <= 2
    ensures xs[0].call == GetCall(meta.namespace, meta.name)
    ensures |xs| == 2 <==> answers(at).Ok?
    ensures |xs| == 2 ==> xs[1].call == UpdateCall(answers(at).obj.meta.namespace, transform(answers(at).obj))
  {
    var get := answers(at);
    var getX := Exchange(GetCall(meta.namespace, meta.name), get);
    if get.Ok? then
      var updX := Exchange(UpdateCall(get.obj.meta.namespace, transform(get.obj)), answers(at + 1));
      [getX, updX]
    else
      [getX]
  }

  /** One TryUpdate attempt reads its replies from the script in order, fetches once and
      has the shape of a TryUpdate trace. */
  lemma TryUpdateAttemptFacts<S, T>(answers: nat -> Reply<Object<S, T>>, at: nat, meta: ObjectMeta,
                                    transform: Object<S, T> -> Object<S, T>)
    ensures var xs := TryUpdateAttempt(answers, at, meta, transform);
      && Answered(xs, answers, at) && Reads(xs) == 1 && TryUpdateShape(xs, meta, transform)
  {
    var xs := TryUpdateAttempt(answers, at, meta, transform);
    if |xs| == 2 {
      assert xs[1..][1..] == [];
      assert Reads(xs[1..]) == 0;
    } else {
      assert xs[1..] == [];
    }
  }

  /** What ended TryUpdate's poll, judged from the trace: the last exchange ended it
      (success, or NotFound) or the poll ran out of time. */
  function TryUpdateVerdict<O>(trace: seq<Exchange<O>>): Option<SyncError>
    requires trace != []
  {
    if !EndsTryUpdate(Last(trace)) then Some(WaitTimeout)
    else if Last(trace).call.GetCall? then Some(ApiFailure(NotFound))
    else None
  }

  /** The condition of TryUpdate's poll, run at most `fuel + 1` times. `result` is the
      object the last update returned, which a failed fetch leaves as it was. */
  function TryUpdateLoop<S, T>(answers: nat -> Reply<Object<S, T>>, at: nat, meta: ObjectMeta,
                               transform: Object<S, T> -> Object<S, T>, fuel: nat,
                               result: Option<Object<S, T>>): (r: Poll<Object<S, T>>)
    decreases fuel, 1
    ensures 1 <= r.attempts <= fuel + 1
    ensures r.trace != [] && r.err == TryUpdateVerdict(r.trace)
    ensures r.err == Some(WaitTimeout) ==> r.attempts == fuel + 1
    ensures r.err.None? ==> r.result == Some(Last(r.trace).reply.obj)
  {
    TryUpdateCheck(answers, at, meta, transform, fuel, result, TryUpdateAttempt(answers, at, meta, transform))
  }

  /** What the poll does after the attempt `xs`: stop when `xs` ended it or time is up,
      otherwise run the condition again. */
  function TryUpdateCheck<S, T>(answers: nat -> Reply<Object<S, T>>, at: nat, meta: ObjectMeta,
                                transform: Object<S, T> -> Object<S, T>, fuel: nat,
                                result: Option<Object<S, T>>, xs: seq<Exchange<Object<S, T>>>): (r: Poll<Object<S, T>>)
    requires xs != []
    decreases fuel, 0
    ensures 1 <= r.attempts <= fuel + 1
    ensures r.trace != [] && r.err == TryUpdateVerdict(r.trace)
    ensures r.err == Some(WaitTimeout) ==> r.attempts == fuel + 1
    ensures r.err.None? ==> r.result == Some(Last(r.trace).reply.obj)
  {
    var result' := if Last(xs).call.UpdateCall? then Last(xs).reply.Returned() else result;
    if EndsTryUpdate(Last(xs)) || fuel == 0 then
      Poll(1, result', TryUpdateVerdict(xs), xs)
    else
      var rest := TryUpdateLoop(answers, at + |xs|, meta, transform, fuel - 1, result');
      assert Last(xs + rest.trace) == Last(rest.trace);
      Poll(rest.attempts + 1, rest.result, rest.err, xs + rest.trace)
  }

  /** The shape of a TryUpdate trace: every exchange that is not an update is a fetch of
      `meta`, every update sends `transform` of the object fetched just before it, every
      successful fetch is followed by its update, and nothing but the last exchange ends
      the poll. */
  ghost predicate TryUpdateShape<S, T>(trace: seq<Exchange<Object<S, T>>>, meta: ObjectMeta,
                                       transform: Object<S, T> -> Object<S, T>) {
    && (forall i :: 0 <= i < |trace| && !trace[i].call.UpdateCall? ==>
          trace[i].call == GetCall(meta.namespace, meta.name))
    && (trace != [] ==> trace[0].call.GetCall?)
    && (forall i, j :: 0 <= i && j == i + 1 && j < |trace| && trace[j].call.UpdateCall? ==>
          UpdatesFetched(trace[i], trace[j], transform))
    && (forall i :: 0 <= i < |trace| && trace[i].call.GetCall? && trace[i].reply.Ok? ==>
          i + 1 < |trace| && trace[i + 1].call.UpdateCall?)
    && (forall i :: 0 <= i < |trace| - 1 ==> !EndsTryUpdate(trace[i]))
  }

  /** `upd` sends `transform` of the object the fetch `get` returned, to that object's
      namespace. */
  ghost predicate UpdatesFetched<S, T>(get: Exchange<Object<S, T>>, upd: Exchange<Object<S, T>>,
                                       transform: Object<S, T> -> Object<S, T>) {
    && get.call.GetCall? && get.reply.Ok?
    && upd.call == UpdateCall(get.reply.obj.meta.namespace, transform(get.reply.obj))
  }

  lemma TryUpdateShapeAppend<S, T>(xs: seq<Exchange<Object<S, T>>>, ys: seq<Exchange<Object<S, T>>>,
                                   meta: ObjectMeta, transform: Object<S, T> -> Object<S, T>)
    requires TryUpdateShape(xs, meta, transform) && TryUpdateShape(ys, meta, transform)
    requires xs != [] && !EndsTryUpdate(Last(xs))
    requires ys != [] && ys[0].call.GetCall?
    ensures TryUpdateShape(xs + ys, meta, transform)
  {
    var t := xs + ys;
    forall i | |xs| <= i < |t|
      ensures t[i] == ys[i - |xs|]
    {}
  }

  /** TryUpdate's poll takes its replies from the script in order, counts one attempt per
      fetch, and leaves a trace of TryUpdate's shape. */
  lemma {:induction false} TryUpdateLoopTrace<S, T>(answers: nat -> Reply<Object<S, T>>, at: nat, meta: ObjectMeta,
                                                    transform: Object<S, T> -> Object<S, T>, fuel: nat,
                                                    result: Option<Object<S, T>>)
    decreases fuel, 1
    ensures var r := TryUpdateLoop(answers, at, meta, transform, fuel, result);
      && Answered(r.trace, answers, at) && r.attempts == Reads(r.trace)
      && TryUpdateShape(r.trace, meta, transform)
  {
    TryUpdateAttemptFacts(answers, at, meta, transform);
    TryUpdateCheckTrace(answers, at, meta, transform, fuel, result, TryUpdateAttempt(answers, at, meta, transform));
  }

  lemma {:induction false} TryUpdateCheckTrace<S, T>(answers: nat -> Reply<Object<S, T>>, at: nat, meta: ObjectMeta,
                                                     transform: Object<S, T> -> Object<S, T>, fuel: nat,
                                                     result: Option<Object<S, T>>, xs: seq<Exchange<Object<S, T>>>)
    requires xs != [] && Answered(xs, answers, at) && Reads(xs) == 1 && TryUpdateShape(xs, meta, transform)
    decreases fuel, 0
    ensures var r := TryUpdateCheck(answers, at, meta, transform, fuel, result, xs);
      && Answered(r.trace, answers, at) && r.attempts == Reads(r.trace)
      && TryUpdateShape(r.trace, meta, transform)
  {
    var r := TryUpdateCheck(answers, at, meta, transform, fuel, result, xs);
    var result' := if Last(xs).call.UpdateCall? then Last(xs).reply.Returned() else result;
    if !EndsTryUpdate(Last(xs)) && fuel > 0 {
      var rest := TryUpdateLoop(answers, at + |xs|, meta, transform, fuel - 1, result');
      TryUpdateLoopTrace(answers, at + |xs|, meta, transform, fuel - 1, result');
      assert r == Poll(rest.attempts + 1, rest.result, rest.err, xs + rest.trace);
      AnsweredAppend(xs, rest.trace, answers, at);
      CountsAppend(xs, rest.trace);
      TryUpdateShapeAppend(xs, rest.trace, meta, transform);
    } else {
      assert r == Poll(1, result', TryUpdateVerdict(xs), xs);
    }
  }

  /** Fetches the object named by `meta` and submits `transform` of a copy of it, until an
      update succeeds (nil error), the object is gone (NotFound, not retried), or the poll
      times out; every other fetch or update failure is retried. Failures are wrapped with
      the kind, namespace, name and number of attempts. */
  function TryUpdate<S, T>(kind: Kind<S, T>, answers: nat -> Reply<Object<S, T>>, meta: ObjectMeta,
                           transform: Object<S, T> -> Object<S, T>, fuel: nat): (r: Poll<Object<S, T>>)
    ensures 1 <= r.attempts <= fuel + 1 && r.attempts == Reads(r.trace)
    ensures r.trace != [] && r.trace[0].call == GetCall(meta.namespace, meta.name)
    ensures r.err.None? <==> Last(r.trace).call.UpdateCall? && Last(r.trace).reply.Ok?
    ensures r.err.None? ==> r.result == Some(Last(r.trace).reply.obj)
    ensures r.err.Some? ==>
      && r.err.value.UpdateFailed?
      && r.err.value == UpdateFailed(kind.name, meta.namespace, meta.name, r.attempts, r.err.value.cause)
      && (r.err.value.cause == ApiFailure(NotFound) <==> Last(r.trace).call.GetCall? && Last(r.trace).reply == Fail(NotFound))
      && (r.err.value.cause == WaitTimeout <==> !EndsTryUpdate(Last(r.trace)))
      && (r.err.value.cause == WaitTimeout ==> r.attempts == fuel + 1)
  {
    var p := TryUpdateLoop(answers, 0, meta, transform, fuel, None);
    TryUpdateLoopTrace(answers, 0, meta, transform, fuel, None);
    if p.err.None? then p
    else p.(err := Some(UpdateFailed(kind.name, meta.namespace, meta.name, p.attempts, p.err.value)))
  }

  /** Every reply TryUpdate acts on is the script's, every update it sends is `transform`
      of the object fetched just before it, and it stops at the first update that succeeds
      or the first fetch that finds the object gone. */
  lemma TryUpdateTrace<S, T>(kind: Kind<S, T>, answers: nat -> Reply<Object<S, T>>, meta: ObjectMeta,
                             transform: Object<S, T> -> Object<S, T>, fuel: nat)
    ensures var r := TryUpdate(kind, answers, meta, transform, fuel);
      Answered(r.trace, answers, 0) && TryUpdateShape(r.trace, meta, transform)
  {
    TryUpdateLoopTrace(answers, 0, meta, transform, fuel, None);
  }

  /** When the first fetch and the first update both succeed, TryUpdate makes exactly those
      two calls and returns what the update returned. */
  lemma TryUpdateFirstAttempt<S, T>(kind: Kind<S, T>, answers: nat -> Reply<Object<S, T>>, meta: ObjectMeta,
                                    transform: Object<S, T> -> Object<S, T>, fuel: nat)
    requires answers(0).Ok? && answers(1).Ok?
    ensures var r := TryUpdate(kind, answers, meta, transform, fuel);
      && r.attempts == 1 && r.err.None? && r.result == Some(answers(1).obj)
      && r.trace == [Exchange(GetCall(meta.namespace, meta.name), answers(0)),
                     Exchange(UpdateCall(answers(0).obj.meta.namespace, transform(answers(0).obj)), answers(1))]
  {
    var xs := TryUpdateAttempt(answers, 0, meta, transform);
    assert TryUpdateLoop(answers, 0, meta, transform, fuel, None) == TryUpdateCheck(answers, 0, meta, transform, fuel, None, xs);
  }

  /** A first fetch that finds the object gone ends TryUpdate at once, without an update. */
  lemma TryUpdateGone<S, T>(kind: Kind<S, T>, answers: nat -> Reply<Object<S, T>>, meta: ObjectMeta,
                            transform: Object<S, T> -> Object<S, T>, fuel: nat)
    requires answers(0) == Fail(NotFound)
    ensures var r := TryUpdate(kind, answers, meta, transform, fuel);
      && r.trace == [Exchange(GetCall(meta.namespace, meta.name), Fail(NotFound))]
      && r.err == Some(UpdateFailed(kind.name, meta.namespace, meta.name, 1, ApiFailure(NotFound)))
  {
    var xs := TryUpdateAttempt(answers, 0, meta, transform);
    assert TryUpdateLoop(answers, 0, meta, transform, fuel, None) == TryUpdateCheck(answers, 0, meta, transform, fuel, None, xs);
  }

  /** A fetch failure other than NotFound never ends TryUpdate: when every fetch fails
      that way, the poll times out after `fuel + 1` attempts without sending an update. */
  lemma {:induction false} TryUpdateRetriesFetches<S, T>(answers: nat -> Reply<Object<S, T>>, at: nat, meta: ObjectMeta,
                                                         transform: Object<S, T> -> Object<S, T>, fuel: nat,
                                                         result: Option<Object<S, T>>)
    requires forall i :: at <= i ==> answers(i).Fail? && answers(i).reason != NotFound
    decreases fuel
    ensures var r := TryUpdateLoop(answers, at, meta, transform, fuel, result);
      r.err == Some(WaitTimeout) && r.attempts == fuel + 1 && r.result == result && |r.trace| == fuel + 1
  {
    var xs := TryUpdateAttempt(answers, at, meta, transform);
    var r := TryUpdateLoop(answers, at, meta, transform, fuel, result);
    assert answers(at).Fail? && answers(at).reason != NotFound;
    assert |xs| == 1 && Last(xs) == xs[0];
    if fuel > 0 {
      TryUpdateRetriesFetches(answers, at + 1, meta, transform, fuel - 1, result);
      assert r == TryUpdateCheck(answers, at, meta, transform, fuel, result, xs);
    } else {
      assert r == TryUpdateCheck(answers, at, meta, transform, fuel, result, xs);
    }
  }

  /** An update that fails does not end TryUpdate: while time remains, the next call
      fetches the object again. */
  lemma TryUpdateRetriesFailedUpdate<S, T>(kind: Kind<S, T>, answers: nat -> Reply<Object<S, T>>, meta: ObjectMeta,
                                           transform: Object<S, T> -> Object<S, T>, fuel: nat)
    requires answers(0).Ok? && answers(1).Fail? && fuel > 0
    ensures var r := TryUpdate(kind, answers, meta, transform, fuel);
      && |r.trace| >= 3 && r.attempts >= 2
      && r.trace[1] == Exchange(UpdateCall(answers(0).obj.meta.namespace, transform(answers(0).obj)), answers(1))
      && r.trace[2] == Exchange(GetCall(meta.namespace, meta.name), answers(2))
  {
    var xs := TryUpdateAttempt(answers, 0, meta, transform);
    TryUpdateAttemptFacts(answers, 0, meta, transform);
    AnsweredAt(xs, answers, 0, 1);
    assert !EndsTryUpdate(Last(xs));
    var rest := TryUpdateLoop(answers, 2, meta, transform, fuel - 1, None);
    TryUpdateLoopTrace(answers, 2, meta, transform, fuel - 1, None);
    AnsweredAt(rest.trace, answers, 2, 0);
    var p := TryUpdateLoop(answers, 0, meta, transform, fuel, None);
    assert p == TryUpdateCheck(answers, 0, meta, transform, fuel, None, xs);
    assert p.trace == xs + rest.trace && p.attempts == rest.attempts + 1;
  }

  // ---------------------------------------------------------------------------
  // UpdateStatus

  /** Which guard the non-conflict branch of UpdateStatus's poll uses: `AsWritten` tests
      the enclosing function's `err`, which is still nil while the poll runs, so the
      branch never fires; `Intended` tests the status write's own error. */
  datatype Guard = AsWritten | Intended

  /** The object a status write sends: the latest observed type metadata, object
      metadata and spec, with the given status. */
  function WithStatus<S, T>(x: Object<S, T>, status: T): (o: Object<S, T>)
    ensures o.typeMeta == x.typeMeta && o.meta == x.meta && o.spec == x.spec && o.status == status
  {
    Object(x.typeMeta, x.meta, x.spec, status)
  }

  /** The exchange that ends UpdateStatus's poll before it times out: a status write that
      succeeds, a re-fetch that fails with an error that is not retryable, or (with the
      intended guard) a status write that fails with an error that is neither a conflict
      nor retryable. */
  predicate EndsUpdateStatus<O>(guard: Guard, x: Exchange<O>) {
    || (x.call.UpdateStatusCall? && x.reply.Ok?)
    || (x.call.GetCall? && x.reply.Fail? && !x.reply.reason.Retryable?)
    || (guard.Intended? && x.call.UpdateStatusCall? && x.reply.Fail?
        && !x.reply.reason.Conflict? && !x.reply.reason.Retryable?)
  }

  /** What ended UpdateStatus's poll, judged from the trace. */
  function UpdateStatusVerdict<O>(guard: Guard, trace: seq<Exchange<O>>): Option<SyncError>
    requires trace != []
  {
    var x := Last(trace);
    if !EndsUpdateStatus(guard, x) then Some(WaitTimeout)
    else if x.reply.Ok? then None
    else Some(ApiFailure(x.reply.reason))
  }

  /** `xs` is one UpdateStatus attempt that starts from the object `cur`: the status write
      and, when it conflicted, the re-fetch of the input's namespace and name. */
  ghost predicate IsStatusAttempt<S, T>(xs: seq<Exchange<Object<S, T>>>, input: Object<S, T>, status: T, cur: Object<S, T>) {
    && 1 <= |xs| <= 2
    && xs[0].call == UpdateStatusCall(input.meta.namespace, WithStatus(cur, status))
    && (|xs| == 2 <==> xs[0].reply == Fail(Conflict))
    && (|xs| == 2 ==> xs[1].call == GetCall(input.meta.namespace, input.meta.name))
  }

  /** The calls of one UpdateStatus attempt. */
  function UpdateStatusAttempt<S, T>(answers: nat -> Reply<Object<S, T>>, at: nat, input: Object<S, T>,
                                     status: T, cur: Object<S, T>): (xs: seq<Exchange<Object<S, T>>>)
    ensures IsStatusAttempt(xs, input, status, cur)
    ensures |xs| == 2 <==> answers(at) == Fail(Conflict)
  {
    var write := Exchange(UpdateStatusCall(input.meta.namespace, WithStatus(cur, status)), answers(at));
    if write.reply == Fail(Conflict) then
      [write, Exchange(GetCall(input.meta.namespace, input.meta.name), answers(at + 1))]
    else
      [write]
  }

  /** One UpdateStatus attempt reads its replies from the script in order, writes once
      and has the shape of an UpdateStatus trace. */
  lemma UpdateStatusAttemptFacts<S, T>(guard: Guard, answers: nat -> Reply<Object<S, T>>, at: nat, input: Object<S, T>,
                                       status: T, cur: Object<S, T>)
    ensures var xs := UpdateStatusAttempt(answers, at, input, status, cur);
      && Answered(xs, answers, at) && Writes(xs) == 1 && UpdateStatusShape(guard, xs, input, status)
  {
    var xs := UpdateStatusAttempt(answers, at, input, status, cur);
    if |xs| == 2 {
      assert xs[1..][1..] == [];
      assert Writes(xs[1..]) == 0;
    } else {
      assert xs[1..] == [];
    }
  }

  /** The object the next attempt writes: the re-fetched one when the attempt re-fetched
      successfully, otherwise the one this attempt wrote. */
  function NextCur<S, T>(xs: seq<Exchange<Object<S, T>>>, cur: Object<S, T>): Object<S, T>
    requires xs != []
  {
    if Last(xs).call.GetCall? && Last(xs).reply.Ok? then Last(xs).reply.obj else cur
  }

  /** The object the attempt's status write returned: none when it failed, and so none
      when it conflicted and was followed by a re-fetch. */
  function WriteResult<O>(xs: seq<Exchange<O>>): Option<O>
    requires xs != []
  {
    if Last(xs).call.UpdateStatusCall? then Last(xs).reply.Returned() else None
  }

  /** The condition of UpdateStatus's poll, run at most `fuel + 1` times; `cur` is the
      latest object observed and `status` the transformed status of the original input. */
  function UpdateStatusLoop<S, T>(guard: Guard, answers: nat -> Reply<Object<S, T>>, at: nat,
                                  input: Object<S, T>, status: T, cur: Object<S, T>, fuel: nat): (r: Poll<Object<S, T>>)
    decreases fuel, 1
    ensures 1 <= r.attempts <= fuel + 1
    ensures r.trace != [] && r.err == UpdateStatusVerdict(guard, r.trace)
    ensures r.err == Some(WaitTimeout) ==> r.attempts == fuel + 1
    ensures r.result.Some? <==> r.err.None?
    ensures r.err.None? ==> r.result == Some(Last(r.trace).reply.obj)
  {
    UpdateStatusCheck(guard, answers, at, input, status, cur, fuel, UpdateStatusAttempt(answers, at, input, status, cur))
  }

  /** What the poll does after the attempt `xs`: stop when `xs` ended it or time is up,
      otherwise run the condition again on the latest object. */
  function UpdateStatusCheck<S, T>(guard: Guard, answers: nat -> Reply<Object<S, T>>, at: nat,
                                   input: Object<S, T>, status: T, cur: Object<S, T>, fuel: nat,
                                   xs: seq<Exchange<Object<S, T>>>): (r: Poll<Object<S, T>>)
    requires xs != []
    decreases fuel, 0
    ensures 1 <= r.attempts <= fuel + 1
    ensures r.trace != [] && r.err == UpdateStatusVerdict(guard, r.trace)
    ensures r.err == Some(WaitTimeout) ==> r.attempts == fuel + 1
    ensures r.result.Some? <==> r.err.None?
    ensures r.err.None? ==> r.result == Some(Last(r.trace).reply.obj)
  {
    if EndsUpdateStatus(guard, Last(xs)) || fuel == 0 then
      Poll(1, WriteResult(xs), UpdateStatusVerdict(guard, xs), xs)
    else
      var rest := UpdateStatusLoop(guard, answers, at + |xs|, input, status, NextCur(xs, cur), fuel - 1);
      assert Last(xs + rest.trace) == Last(rest.trace);
      Poll(rest.attempts + 1, rest.result, rest.err, xs + rest.trace)
  }

  /** The status write at position `j` (not the first) sends the object the re-fetch just
      before it returned or, when there was no successful re-fetch, the object the previous
      write sent. */
  ghost predicate Resends<S, T>(trace: seq<Exchange<Object<S, T>>>, j: nat, status: T)
    requires 0 < j < |trace| && trace[j].call.UpdateStatusCall?
  {
    var prev := trace[j - 1];
    if prev.call.GetCall? && prev.reply.Ok? then trace[j].call.obj == WithStatus(prev.reply.obj, status)
    else if prev.call.GetCall? then 2 <= j && trace[j - 2].call.UpdateStatusCall? && trace[j].call.obj == trace[j - 2].call.obj
    else prev.call.UpdateStatusCall? && trace[j].call.obj == prev.call.obj
  }

  /** The shape of an UpdateStatus trace: every write is a status write to the input's
      namespace carrying `status`; a re-fetch of the input's name follows exactly the
      writes that conflicted, and a conflicted write is never the last exchange; each later write resends the re-fetched object or the
      previous one; and nothing but the last exchange ends the poll. */
  ghost predicate UpdateStatusShape<S, T>(guard: Guard, trace: seq<Exchange<Object<S, T>>>, input: Object<S, T>, status: T) {
    && (forall i :: 0 <= i < |trace| && !trace[i].call.GetCall? ==>
          trace[i].call.UpdateStatusCall? && trace[i].call.namespace == input.meta.namespace
          && trace[i].call.obj.status == status)
    && (forall i :: 0 <= i < |trace| && trace[i].call.GetCall? ==>
          trace[i].call == GetCall(input.meta.namespace, input.meta.name))
    && (trace != [] ==> trace[0].call.UpdateStatusCall?)
    && (forall i, j :: 0 <= i && j == i + 1 && j < |trace| ==>
          (trace[j].call.GetCall? <==> trace[i].call.UpdateStatusCall? && trace[i].reply == Fail(Conflict)))
    && (forall i :: 0 <= i < |trace| && trace[i].call.UpdateStatusCall? && trace[i].reply == Fail(Conflict) ==>
          i + 1 < |trace|)
    && (forall j :: 0 < j < |trace| && trace[j].call.UpdateStatusCall? ==> Resends(trace, j, status))
    && (forall i :: 0 <= i < |trace| - 1 ==> !EndsUpdateStatus(guard, trace[i]))
  }

  lemma UpdateStatusShapeAppend<S, T>(guard: Guard, xs: seq<Exchange<Object<S, T>>>, ys: seq<Exchange<Object<S, T>>>,
                                      input: Object<S, T>, status: T, cur: Object<S, T>)
    requires IsStatusAttempt(xs, input, status, cur) && !EndsUpdateStatus(guard, Last(xs))
    requires UpdateStatusShape(guard, xs, input, status) && UpdateStatusShape(guard, ys, input, status)
    requires ys != [] && ys[0].call == UpdateStatusCall(input.meta.namespace, WithStatus(NextCur(xs, cur), status))
    ensures UpdateStatusShape(guard, xs + ys, input, status)
  {
    var t := xs + ys;
    forall i | |xs| <= i < |t|
      ensures t[i] == ys[i - |xs|]
    {}
    forall j | |xs| < j < |t| && t[j].call.UpdateStatusCall?
      ensures Resends(t, j, status)
    {
      var k := j - |xs|;
      assert t[j] == ys[k] && t[j - 1] == ys[k - 1];
      assert Resends(ys, k, status);
      if 2 <= k {
        assert t[j - 2] == ys[k - 2];
      }
    }
  }

  /** UpdateStatus's poll takes its replies from the script in order and counts one
      attempt per status write. */
  lemma {:induction false} UpdateStatusLoopReplies<S, T>(guard: Guard, answers: nat -> Reply<Object<S, T>>, at: nat,
                                                         input: Object<S, T>, status: T, cur: Object<S, T>, fuel: nat)
    decreases fuel, 1
    ensures var r := UpdateStatusLoop(guard, answers, at, input, status, cur, fuel);
      Answered(r.trace, answers, at) && r.attempts == Writes(r.trace)
  {
    UpdateStatusAttemptFacts(guard, answers, at, input, status, cur);
    UpdateStatusCheckReplies(guard, answers, at, input, status, cur, fuel, UpdateStatusAttempt(answers, at, input, status, cur));
  }

  lemma {:induction false} UpdateStatusCheckReplies<S, T>(guard: Guard, answers: nat -> Reply<Object<S, T>>, at: nat,
                                                          input: Object<S, T>, status: T, cur: Object<S, T>, fuel: nat,
                                                          xs: seq<Exchange<Object<S, T>>>)
    requires xs != [] && Answered(xs, answers, at) && Writes(xs) == 1
    decreases fuel, 0
    ensures var r := UpdateStatusCheck(guard, answers, at, input, status, cur, fuel, xs);
      Answered(r.trace, answers, at) && r.attempts == Writes(r.trace)
  {
    var r := UpdateStatusCheck(guard, answers, at, input, status, cur, fuel, xs);
    if !EndsUpdateStatus(guard, Last(xs)) && fuel > 0 {
      var next := NextCur(xs, cur);
      var rest := UpdateStatusLoop(guard, answers, at + |xs|, input, status, next, fuel - 1);
      UpdateStatusLoopReplies(guard, answers, at + |xs|, input, status, next, fuel - 1);
      assert r == Poll(rest.attempts + 1, rest.result, rest.err, xs + rest.trace);
      AnsweredAppend(xs, rest.trace, answers, at);
      CountsAppend(xs, rest.trace);
    } else {
      assert r == Poll(1, WriteResult(xs), UpdateStatusVerdict(guard, xs), xs);
    }
  }

  /** UpdateStatus's poll leaves a trace of UpdateStatus's shape that starts with a write
      of `cur`. */
  lemma {:induction false} UpdateStatusLoopShape<S, T>(guard: Guard, answers: nat -> Reply<Object<S, T>>, at: nat,
                                                       input: Object<S, T>, status: T, cur: Object<S, T>, fuel: nat)
    decreases fuel, 1
    ensures var r := UpdateStatusLoop(guard, answers, at, input, status, cur, fuel);
      && UpdateStatusShape(guard, r.trace, input, status)
      && r.trace[0].call == UpdateStatusCall(input.meta.namespace, WithStatus(cur, status))
  {
    UpdateStatusAttemptFacts(guard, answers, at, input, status, cur);
    UpdateStatusCheckShape(guard, answers, at, input, status, cur, fuel, UpdateStatusAttempt(answers, at, input, status, cur));
  }

  lemma {:induction false} UpdateStatusCheckShape<S, T>(guard: Guard, answers: nat -> Reply<Object<S, T>>, at: nat,
                                                        input: Object<S, T>, status: T, cur: Object<S, T>, fuel: nat,
                                                        xs: seq<Exchange<Object<S, T>>>)
    requires IsStatusAttempt(xs, input, status, cur) && UpdateStatusShape(guard, xs, input, status)
    decreases fuel, 0
    ensures var r := UpdateStatusCheck(guard, answers, at, input, status, cur, fuel, xs);
      UpdateStatusShape(guard, r.trace, input, status) && r.trace[0] == xs[0]
  {
    var r := UpdateStatusCheck(guard, answers, at, input, status, cur, fuel, xs);
    if !EndsUpdateStatus(guard, Last(xs)) && fuel > 0 {
      var next := NextCur(xs, cur);
      var rest := UpdateStatusLoop(guard, answers, at + |xs|, input, status, next, fuel - 1);
      UpdateStatusLoopShape(guard, answers, at + |xs|, input, status, next, fuel - 1);
      assert r.trace == xs + rest.trace;
      UpdateStatusShapeAppend(guard, xs, rest.trace, input, status, cur);
    } else {
      assert r.trace == xs;
    }
  }

  /** Writes `transform` of the input's status onto the input and, after each conflict,
      onto the re-fetched object, until a write succeeds, a re-fetch fails with an error
      that is not retryable, or the poll times out. Failures are wrapped with the kind,
      the input's namespace and name and the number of attempts. */
  function UpdateStatus<S, T>(guard: Guard, kind: Kind<S, T>, answers: nat -> Reply<Object<S, T>>,
                              input: Object<S, T>, transform: T -> T, fuel: nat): (r: Poll<Object<S, T>>)
    ensures 1 <= r.attempts <= fuel + 1 && r.attempts == Writes(r.trace)
    ensures r.trace != []
    ensures r.trace[0].call == UpdateStatusCall(input.meta.namespace, WithStatus(input, transform(input.status)))
    ensures r.err.None? <==> Last(r.trace).call.UpdateStatusCall? && Last(r.trace).reply.Ok?
    ensures r.result.Some? <==> r.err.None?
    ensures r.err.None? ==> r.result == Some(Last(r.trace).reply.obj)
    ensures r.err.Some? ==>
      && r.err.value.StatusUpdateFailed?
      && r.err.value == StatusUpdateFailed(kind.name, input.meta.namespace, input.meta.name, r.attempts, r.err.value.cause)
      && (r.err.value.cause == WaitTimeout <==> !EndsUpdateStatus(guard, Last(r.trace)))
      && (r.err.value.cause == WaitTimeout ==> r.attempts == fuel + 1)
      && (r.err.value.cause != WaitTimeout ==> r.err.value.cause == ApiFailure(Last(r.trace).reply.reason))
  {
    var status := transform(input.status);
    var p := UpdateStatusLoop(guard, answers, 0, input, status, input, fuel);
    UpdateStatusLoopReplies(guard, answers, 0, input, status, input, fuel);
    UpdateStatusLoopShape(guard, answers, 0, input, status, input, fuel);
    if p.err.None? then p
    else p.(err := Some(StatusUpdateFailed(kind.name, input.meta.namespace, input.meta.name, p.attempts, p.err.value)))
  }

  /** Every reply UpdateStatus acts on is the script's; every write carries `transform` of
      the INPUT's status (never of a re-fetched object's), goes to the input's namespace,
      and after a conflict carries the re-fetched object. */
  lemma UpdateStatusTrace<S, T>(guard: Guard, kind: Kind<S, T>, answers: nat -> Reply<Object<S, T>>,
                                input: Object<S, T>, transform: T -> T, fuel: nat)
    ensures var r := UpdateStatus(guard, kind, answers, input, transform, fuel);
      Answered(r.trace, answers, 0) && UpdateStatusShape(guard, r.trace, input, transform(input.status))
  {
    UpdateStatusLoopReplies(guard, answers, 0, input, transform(input.status), input, fuel);
    UpdateStatusLoopShape(guard, answers, 0, input, transform(input.status), input, fuel);
  }

  /** When the first status write succeeds, UpdateStatus makes exactly that one call,
      writing `transform` of the input's status onto the input, whichever guard it uses. */
  lemma UpdateStatusFirstAttempt<S, T>(guard: Guard, kind: Kind<S, T>, answers: nat -> Reply<Object<S, T>>,
                                       input: Object<S, T>, transform: T -> T, fuel: nat)
    requires answers(0).Ok?
    ensures var r := UpdateStatus(guard, kind, answers, input, transform, fuel);
      && r.attempts == 1 && r.err.None? && r.result == Some(answers(0).obj)
      && r.trace == [Exchange(UpdateStatusCall(input.meta.namespace, WithStatus(input, transform(input.status))), answers(0))]
  {
    var status := transform(input.status);
    var xs := UpdateStatusAttempt(answers, 0, input, status, input);
    assert UpdateStatusLoop(guard, answers, 0, input, status, input, fuel)
        == UpdateStatusCheck(guard, answers, 0, input, status, input, fuel, xs);
  }

  /** After a conflict, UpdateStatus re-fetches the input's namespace and name and, when
      that succeeds, writes the same new status onto the re-fetched object. */
  lemma UpdateStatusConflictRefetch<S, T>(guard: Guard, kind: Kind<S, T>, answers: nat -> Reply<Object<S, T>>,
                                          input: Object<S, T>, transform: T -> T, fuel: nat)
    requires answers(0) == Fail(Conflict) && answers(1).Ok? && fuel > 0
    ensures var r := UpdateStatus(guard, kind, answers, input, transform, fuel);
      && |r.trace| >= 3 && r.attempts >= 2
      && r.trace[1] == Exchange(GetCall(input.meta.namespace, input.meta.name), answers(1))
      && r.trace[2] == Exchange(UpdateStatusCall(input.meta.namespace, WithStatus(answers(1).obj, transform(input.status))), answers(2))
  {
    var status := transform(input.status);
    var xs := UpdateStatusAttempt(answers, 0, input, status, input);
    UpdateStatusAttemptFacts(guard, answers, 0, input, status, input);
    AnsweredAt(xs, answers, 0, 1);
    assert !EndsUpdateStatus(guard, Last(xs));
    var ys := UpdateStatusAttempt(answers, 2, input, status, answers(1).obj);
    var rest := UpdateStatusLoop(guard, answers, 2, input, status, answers(1).obj, fuel - 1);
    assert rest == UpdateStatusCheck(guard, answers, 2, input, status, answers(1).obj, fuel - 1, ys);
    assert rest.trace[0] == ys[0];
    var p := UpdateStatusLoop(guard, answers, 0, input, status, input, fuel);
    assert p == UpdateStatusCheck(guard, answers, 0, input, status, input, fuel, xs);
    assert p.trace == xs + rest.trace && p.attempts == rest.attempts + 1;
  }

  /** With the guard as written, a status write that fails with anything but a conflict
      never ends the poll: when every write from `at` on fails that way, the poll times
      out after `fuel + 1` writes and makes no other call. */
  lemma {:induction false} AsWrittenRetriesFailedWrites<S, T>(answers: nat -> Reply<Object<S, T>>, at: nat,
                                                               input: Object<S, T>, status: T, cur: Object<S, T>, fuel: nat)
    requires forall i :: at <= i ==> answers(i).Fail? && answers(i).reason != Conflict
    decreases fuel
    ensures var r := UpdateStatusLoop(AsWritten, answers, at, input, status, cur, fuel);
      r.err == Some(WaitTimeout) && r.attempts == fuel + 1 && |r.trace| == fuel + 1
  {
    var xs := UpdateStatusAttempt(answers, at, input, status, cur);
    var r := UpdateStatusLoop(AsWritten, answers, at, input, status, cur, fuel);
    assert answers(at).Fail? && answers(at).reason != Conflict;
    assert |xs| == 1 && Last(xs) == xs[0];
    assert r == UpdateStatusCheck(AsWritten, answers, at, input, status, cur, fuel, xs);
    if fuel > 0 {
      AsWrittenRetriesFailedWrites(answers, at + 1, input, status, cur, fuel - 1);
    }
  }

  /** With the intended guard, a status write that fails with an error that is neither a
      conflict nor retryable ends UpdateStatus at once with that error. */
  lemma IntendedStopsOnFailedWrite<S, T>(kind: Kind<S, T>, answers: nat -> Reply<Object<S, T>>,
                                         input: Object<S, T>, transform: T -> T, fuel: nat)
    requires answers(0).Fail? && !answers(0).reason.Conflict? && !answers(0).reason.Retryable?
    ensures var r := UpdateStatus(Intended, kind, answers, input, transform, fuel);
      && r.attempts == 1 && |r.trace| == 1
      && r.err == Some(StatusUpdateFailed(kind.name, input.meta.namespace, input.meta.name, 1, ApiFailure(answers(0).reason)))
  {
    var status := transform(input.status);
    var xs := UpdateStatusAttempt(answers, 0, input, status, input);
    assert UpdateStatusLoop(Intended, answers, 0, input, status, input, fuel)
        == UpdateStatusCheck(Intended, answers, 0, input, status, input, fuel, xs);
  }

  /** A status write rejected for good (here: forbidden) is retried until the poll times
      out as written, where the intended guard gives up after the first write and reports
      the rejection. */
  lemma ForbiddenStatusWrite<S, T>(kind: Kind<S, T>, input: Object<S, T>, transform: T -> T)
    ensures var answers: nat -> Reply<Object<S, T>> := (_: nat) => Fail(Other("forbidden"));
      && UpdateStatus(AsWritten, kind, answers, input, transform, 2).attempts == 3
      && UpdateStatus(AsWritten, kind, answers, input, transform, 2).err
         == Some(StatusUpdateFailed(kind.name, input.meta.namespace, input.meta.name, 3, WaitTimeout))
      && UpdateStatus(Intended, kind, answers, input, transform, 2).attempts == 1
      && UpdateStatus(Intended, kind, answers, input, transform, 2).err
         == Some(StatusUpdateFailed(kind.name, input.meta.namespace, input.meta.name, 1, ApiFailure(Other("forbidden"))))
  {
    var answers: nat -> Reply<Object<S, T>> := (_: nat) => Fail(Other("forbidden"));
    AsWrittenRetriesFailedWrites(answers, 0, input, transform(input.status), input, 2);
    IntendedStopsOnFailedWrite(kind, answers, input, transform, 2);
  }

  /** A failed status write of `trace` that the intended guard stops on: one that is
      neither a conflict nor retryable. */
  ghost predicate HardWriteFailure<O>(trace: seq<Exchange<O>>, i: int)
    requires 0 <= i < |trace|
  {
    trace[i].call.UpdateStatusCall? && trace[i].reply.Fail?
    && !trace[i].reply.reason.Conflict? && !trace[i].reply.reason.Retryable?
  }

  /** No status write of `trace` failed in a way the intended guard stops on. */
  ghost predicate NoHardWriteFailure<O>(trace: seq<Exchange<O>>) {
    forall i :: 0 <= i < |trace| ==> !HardWriteFailure(trace, i)
  }

  /** The two guards differ only on status writes that fail with an error that is neither
      a conflict nor retryable: when the poll as written sees no such write, the intended
      guard makes the same calls and returns the same result. */
  lemma {:induction false} GuardsAgree<S, T>(answers: nat -> Reply<Object<S, T>>, at: nat,
                                             input: Object<S, T>, status: T, cur: Object<S, T>, fuel: nat)
    requires NoHardWriteFailure(UpdateStatusLoop(AsWritten, answers, at, input, status, cur, fuel).trace)
    decreases fuel
    ensures UpdateStatusLoop(AsWritten, answers, at, input, status, cur, fuel)
         == UpdateStatusLoop(Intended, answers, at, input, status, cur, fuel)
  {
    var xs := UpdateStatusAttempt(answers, at, input, status, cur);
    var r := UpdateStatusLoop(AsWritten, answers, at, input, status, cur, fuel);
    assert r == UpdateStatusCheck(AsWritten, answers, at, input, status, cur, fuel, xs);
    assert r.trace[..|xs|] == xs by {
      if !EndsUpdateStatus(AsWritten, Last(xs)) && fuel > 0 {
        var rest := UpdateStatusLoop(AsWritten, answers, at + |xs|, input, status, NextCur(xs, cur), fuel - 1);
        assert r.trace == xs + rest.trace;
      }
    }
    assert !HardWriteFailure(r.trace, 0);
    assert xs[0] == r.trace[0];
    assert EndsUpdateStatus(AsWritten, Last(xs)) == EndsUpdateStatus(Intended, Last(xs));
    assert UpdateStatusVerdict(AsWritten, xs) == UpdateStatusVerdict(Intended, xs);
    if !EndsUpdateStatus(AsWritten, Last(xs)) && fuel > 0 {
      var rest := UpdateStatusLoop(AsWritten, answers, at + |xs|, input, status, NextCur(xs, cur), fuel - 1);
      assert r.trace == xs + rest.trace;
      forall i | 0 <= i < |rest.trace|
        ensures !HardWriteFailure(rest.trace, i)
      {
        assert rest.trace[i] == r.trace[|xs| + i];
        assert !HardWriteFailure(r.trace, |xs| + i);
      }
      GuardsAgree(answers, at + |xs|, input, status, NextCur(xs, cur), fuel - 1);
    }
    assert UpdateStatusLoop(Intended, answers, at, input, status, cur, fuel)
        == UpdateStatusCheck(Intended, answers, at, input, status, cur, fuel, xs);
  }
}

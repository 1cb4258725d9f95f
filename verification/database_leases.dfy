/** The Vault side of the database credential manager: issuing a credential from a
    role of the database secret engine, looking a lease up, and revoking it.

    The Vault server is a value: whether it can be reached at all, the set of leases it
    holds, and the response it gives to a credential request on each path. A path it
    has no route for answers 404. Following the Vault API client, a response whose
    status is below 200 or at least 400 is an error. */
module DatabaseLeases {
  import opened Wrappers

  /** What Vault returns for a credential: the lease and the credential fields
      (for a database role, "username" and "password"). */
  datatype VaultSecret = VaultSecret(leaseId: string, leaseDuration: int, data: map<string, string>)

  /** A response body: a secret in JSON, or anything that does not decode as one. */
  datatype Body = Json(secret: VaultSecret) | Text(text: string)

  datatype Response = Response(status: int, body: Body)

  datatype Backend = Backend(reachable: bool, leases: set<string>, creds: map<string, Response>)

  datatype LeaseError =
    | Unreachable           // the request never got a response
    | ErrorStatus(status: int)
    | Undecodable           // a success status whose body is not a secret

  /** The answer to a path the server has no route for. */
  const NoRoute: Response := Response(404, Text("404 page not found"))

  /** The path a credential of `role` of the engine mounted at `mount` is read from. */
  function CredsPath(mount: string, role: string): (path: string)
    ensures |path| == |mount| + |role| + 11
    ensures path[..4] == "/v1/" && path[|path| - |role|..] == role
  {
    "/v1/" + mount + "/creds/" + role
  }

  /** Different roles of one engine are read from different paths. */
  lemma CredsPathInjective(mount: string, role1: string, role2: string)
    ensures CredsPath(mount, role1) == CredsPath(mount, role2) <==> role1 == role2
  {
    var p1, p2 := CredsPath(mount, role1), CredsPath(mount, role2);
    if p1 == p2 {
      assert role1 == p1[|p1| - |role1|..] == p2[|p2| - |role2|..] == role2;
    }
  }

  /** The Vault client's test for a failed request. */
  predicate IsErrorStatus(status: int) {
    status < 200 || 400 <= status
  }

  /** The response the server gives on `path`. */
  function Respond(b: Backend, path: string): Response {
    if path in b.creds then b.creds[path] else NoRoute
  }

  datatype Issued = Issued(backend: Backend, cred: Result<VaultSecret, LeaseError>)

  /** Reads a credential of `role`. On success the server now holds its lease. */
  function GetCredential(b: Backend, mount: string, role: string): (r: Issued)
    ensures r.cred.Success? <==>
      b.reachable && !IsErrorStatus(Respond(b, CredsPath(mount, role)).status) && Respond(b, CredsPath(mount, role)).body.Json?
    ensures r.cred.Success? ==>
      && r.cred.value == Respond(b, CredsPath(mount, role)).body.secret
      && r.backend == b.(leases := b.leases + {r.cred.value.leaseId})
    ensures r.cred.Failure? ==> r.backend == b
    ensures !b.reachable ==> r.cred == Failure(Unreachable)
    ensures b.reachable && IsErrorStatus(Respond(b, CredsPath(mount, role)).status)
      ==> r.cred == Failure(ErrorStatus(Respond(b, CredsPath(mount, role)).status))
  {
    if !b.reachable then Issued(b, Failure(Unreachable))
    else
      var resp := Respond(b, CredsPath(mount, role));
      if IsErrorStatus(resp.status) then Issued(b, Failure(ErrorStatus(resp.status)))
      else match resp.body
        case Text(_) => Issued(b, Failure(Undecodable))
        case Json(s) => Issued(b.(leases := b.leases + {s.leaseId}), Success(s))
  }

  /** Whether the lease is gone: a lease the server does not know is expired, and that
      is an answer, not an error; only an unreachable server is an error. */
  function IsLeaseExpired(b: Backend, leaseId: string): (r: Result<bool, LeaseError>)
    ensures r.Success? <==> b.reachable
    ensures r.Success? ==> (r.value <==> leaseId !in b.leases)
  {
    if !b.reachable then Failure(Unreachable)
    else Success(leaseId !in b.leases)
  }

  datatype Revoked = Revoked(backend: Backend, err: Option<LeaseError>)

  /** Revokes a lease. The server answers 404 for a lease it does not hold, and that is
      reported as an error. */
  function RevokeLease(b: Backend, leaseId: string): (r: Revoked)
    ensures r.err.None? <==> b.reachable && leaseId in b.leases
    ensures r.err.None? ==> r.backend == b.(leases := b.leases - {leaseId})
    ensures r.err.Some? ==> r.backend == b
    ensures b.reachable && leaseId !in b.leases ==> r.err == Some(ErrorStatus(404))
  {
    if !b.reachable then Revoked(b, Some(Unreachable))
    else if leaseId !in b.leases then Revoked(b, Some(ErrorStatus(404)))
    else Revoked(b.(leases := b.leases - {leaseId}), None)
  }

  /** The life of one lease: once issued it is live, revoking it succeeds, afterwards it
      reads as expired, and revoking it again is an error. */
  lemma LeaseLifecycle(b: Backend, mount: string, role: string)
    requires GetCredential(b, mount, role).cred.Success?
    ensures var issued := GetCredential(b, mount, role);
      var id := issued.cred.value.leaseId;
      var revoked := RevokeLease(issued.backend, id);
      && IsLeaseExpired(issued.backend, id) == Success(false)
      && revoked.err.None?
      && IsLeaseExpired(revoked.backend, id) == Success(true)
      && RevokeLease(revoked.backend, id).err == Some(ErrorStatus(404))
  {
  }

  /** Issuing or revoking one lease leaves the answer for every other lease as it was. */
  lemma OtherLeasesUnaffected(b: Backend, mount: string, role: string, leaseId: string, other: string)
    requires other != leaseId
    ensures IsLeaseExpired(RevokeLease(b, leaseId).backend, other) == IsLeaseExpired(b, other)
    ensures GetCredential(b, mount, role).cred.Success? && GetCredential(b, mount, role).cred.value.leaseId != other
      ==> IsLeaseExpired(GetCredential(b, mount, role).backend, other) == IsLeaseExpired(b, other)
  {
  }

  /** The credential handed back is exactly the payload the server sent: lease id,
      duration and every field. */
  lemma GetCredentialReturnsPayload(b: Backend, mount: string, role: string, s: VaultSecret)
    requires b.reachable && CredsPath(mount, role) in b.creds
    requires b.creds[CredsPath(mount, role)] == Response(200, Json(s))
    ensures GetCredential(b, mount, role).cred == Success(s)
  {
  }

  /** A role the server has no route for, and a success status with a body that is not
      a secret, are both errors. */
  lemma GetCredentialFailures(b: Backend, mount: string, role: string)
    requires b.reachable
    ensures CredsPath(mount, role) !in b.creds ==> GetCredential(b, mount, role).cred == Failure(ErrorStatus(404))
    ensures CredsPath(mount, role) in b.creds && b.creds[CredsPath(mount, role)].status == 200
         && b.creds[CredsPath(mount, role)].body.Text?
      ==> GetCredential(b, mount, role).cred == Failure(Undecodable)
  {
  }
}

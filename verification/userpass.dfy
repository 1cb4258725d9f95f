/** The userpass authenticator: building it from an AppBinding and a basic-auth secret,
    and logging in to Vault with it.

    Building the Vault configuration from the AppBinding and creating the client are
    calls into code outside this model, so their outcomes are parameters; so is the
    exchange with Vault during login and the decoding of its answer. */
module Userpass {
  import opened Wrappers
  import opened Meta
  import opened Naming

  /** The auth method's default mount path in Vault. */
  const AuthTypeUserPass: string := "userpass"

  /** The secret annotation that overrides the mount path. */
  const AuthPathKey: string := "kubevault.com/auth-path"

  /** The keys of a basic-auth secret. */
  const BasicAuthUsernameKey: string := "username"
  const BasicAuthPasswordKey: string := "password"

  /** A ready authenticator: the Vault client and what it logs in with. */
  datatype Auth<C> = Auth(client: C, user: string, pass: string, path: string)

  /** `errors.Wrap(err, msg)` renders as "msg: err". */
  function Wrap(msg: string, err: string): (s: string)
    ensures |s| == |msg| + |err| + 2
    ensures s[..|msg|] == msg && s[|s| - |err|..] == err
  {
    msg + ": " + err
  }

  /** The mount path: the annotation's value when it is present and non-empty, the
      default otherwise. */
  function AuthPath(annotations: map<string, string>): (path: string)
    ensures path != ""
    ensures AuthPathKey in annotations && annotations[AuthPathKey] != "" ==> path == annotations[AuthPathKey]
    ensures AuthPathKey !in annotations || annotations[AuthPathKey] == "" ==> path == AuthTypeUserPass
  {
    if AuthPathKey in annotations && |annotations[AuthPathKey]| > 0 then annotations[AuthPathKey] else AuthTypeUserPass
  }

  /** Builds the authenticator. `config` is the outcome of deriving the Vault
      configuration from the AppBinding and `newClient` creates a client from it; their
      failures come first, then the secret's username, then its password. */
  function New<Cfg, C>(config: Result<Cfg, string>, newClient: Cfg -> Result<C, string>, secret: Secret): (r: Result<Auth<C>, string>)
    ensures config.Failure? ==> r == Failure(Wrap("failed to create vault config from AppBinding", config.error))
    ensures config.Success? && newClient(config.value).Failure? ==>
      r == Failure(Wrap("failed to create vault client", newClient(config.value).error))
    ensures config.Success? && newClient(config.value).Success? ==>
      && (BasicAuthUsernameKey !in secret.data ==> r == Failure("username is missing"))
      && (BasicAuthUsernameKey in secret.data && BasicAuthPasswordKey !in secret.data ==> r == Failure("password is missing"))
    ensures r.Success? <==>
      config.Success? && newClient(config.value).Success?
      && BasicAuthUsernameKey in secret.data && BasicAuthPasswordKey in secret.data
    ensures r.Success? ==>
      && r.value.client == newClient(config.value).value
      && r.value.user == FromBytes(secret.data[BasicAuthUsernameKey])
      && r.value.pass == FromBytes(secret.data[BasicAuthPasswordKey])
      && r.value.path == AuthPath(secret.meta.annotations)
  {
    match config
    case Failure(e) => Failure(Wrap("failed to create vault config from AppBinding", e))
    case Success(cfg) =>
      match newClient(cfg)
      case Failure(e) => Failure(Wrap("failed to create vault client", e))
      case Success(vc) =>
        if BasicAuthUsernameKey !in secret.data then Failure("username is missing")
        else if BasicAuthPasswordKey !in secret.data then Failure("password is missing")
        else
          var user := secret.data[BasicAuthUsernameKey];
          var pass := secret.data[BasicAuthPasswordKey];
          Success(Auth(vc, FromBytes(user), FromBytes(pass), AuthPath(secret.meta.annotations)))
  }

  /** Only the username, the password and the mount-path annotation of the secret
      matter: two secrets that agree on them give the same authenticator. */
  lemma NewReadsOnlyCredentials<Cfg, C>(config: Result<Cfg, string>, newClient: Cfg -> Result<C, string>, s1: Secret, s2: Secret)
    requires BasicAuthUsernameKey in s1.data <==> BasicAuthUsernameKey in s2.data
    requires BasicAuthUsernameKey in s1.data ==> s1.data[BasicAuthUsernameKey] == s2.data[BasicAuthUsernameKey]
    requires BasicAuthPasswordKey in s1.data <==> BasicAuthPasswordKey in s2.data
    requires BasicAuthPasswordKey in s1.data ==> s1.data[BasicAuthPasswordKey] == s2.data[BasicAuthPasswordKey]
    requires AuthPath(s1.meta.annotations) == AuthPath(s2.meta.annotations)
    ensures New(config, newClient, s1) == New(config, newClient, s2)
  {
  }

  /** A plain HTTP request to Vault with a JSON object of strings as its body. */
  datatype Request = Request(verb: string, path: string, body: map<string, string>)

  /** The part of Vault's login answer the authenticator reads. */
  datatype LoginResponse = LoginResponse(clientToken: string)

  /** The login request: a POST to the user's login endpoint under the mount path,
      carrying the password. */
  function LoginRequest<C>(a: Auth<C>): (req: Request)
    ensures req.verb == "POST"
    ensures req.path == "/v1/auth/" + a.path + "/login/" + a.user
    ensures req.body.Keys == {"password"} && req.body["password"] == a.pass
  {
    Request("POST", "/v1/auth/" + a.path + "/login/" + a.user, map["password" := a.pass])
  }

  /** Logs in and returns the client token. `send` is the exchange with Vault (its
      failure covers both transport errors and error statuses) and `decode` reads the
      answer's body. */
  function Login<C, B>(a: Auth<C>, send: Request -> Result<B, string>, decode: B -> Result<LoginResponse, string>): (r: Result<string, string>)
    ensures send(LoginRequest(a)).Failure? ==> r == Failure(send(LoginRequest(a)).error)
    ensures send(LoginRequest(a)).Success? && decode(send(LoginRequest(a)).value).Failure? ==>
      r == Failure(decode(send(LoginRequest(a)).value).error)
    ensures r.Success? <==> send(LoginRequest(a)).Success? && decode(send(LoginRequest(a)).value).Success?
    ensures r.Success? ==> r.value == decode(send(LoginRequest(a)).value).value.clientToken
  {
    match send(LoginRequest(a))
    case Failure(e) => Failure(e)
    case Success(body) =>
      match decode(body)
      case Failure(e) => Failure(e)
      case Success(resp) => Success(resp.clientToken)
  }

  /** An authenticator built from a secret logs in as the secret's user, with the
      secret's password, under the annotated (or default) mount path. */
  lemma LoginUsesSecret<Cfg, C>(config: Result<Cfg, string>, newClient: Cfg -> Result<C, string>, secret: Secret)
    requires New(config, newClient, secret).Success?
    ensures var req := LoginRequest(New(config, newClient, secret).value);
      && req.path == "/v1/auth/" + AuthPath(secret.meta.annotations) + "/login/" + FromBytes(secret.data[BasicAuthUsernameKey])
      && req.body["password"] == FromBytes(secret.data[BasicAuthPasswordKey])
  {
  }

  /** When the mount path has no slash, the path of the login request names the mount
      path and the user unambiguously. */
  lemma LoginPathIdentifies<C>(a1: Auth<C>, a2: Auth<C>)
    requires '/' !in a1.path && '/' !in a2.path
    requires LoginRequest(a1).path == LoginRequest(a2).path
    ensures a1.path == a2.path && a1.user == a2.user
  {
    var n := |"/v1/auth/"|;
    var p1, p2 := LoginRequest(a1).path, LoginRequest(a2).path;
    assert p1[n..] == a1.path + "/" + ("login/" + a1.user);
    assert p2[n..] == a2.path + "/" + ("login/" + a2.user);
    CutFirst(a1.path, "login/" + a1.user, '/');
    CutFirst(a2.path, "login/" + a2.user, '/');
    assert "login/" + a1.user == "login/" + a2.user;
    assert a1.user == ("login/" + a1.user)[6..];
  }
}

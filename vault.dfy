/** The secret provider (vault.go): a client of a Vault-style key-value secret
    store that authenticates, either with a static token or by a role login,
    and reads one secret from a version-2 key-value mount. The store itself is
    an oracle: `Store` says how it answers each call. */
module Vault {
  import opened Common
  import Strings

  /** A value in a secret's field map; only strings matter to the tool. */
  datatype Value = Str(s: string) | NonString

  /** The field map of a secret (the `data` object of the store's reply). */
  type Secret = map<string, Value>

  /** An `*api.Client`: the server it talks to and the token it sends. */
  datatype Client = Client(address: string, token: string)

  /** A call made to the store. */
  datatype Request =
    | LoginWrite(path: string, options: map<string, string>)
    | KVRead(address: string)

  /** The answer to `Logical().Read`: an error, no secret (a nil secret or nil
      `Data`), or the secret's field map. A reply whose `data` entry is not an
      object is not representable: the source would panic on it. */
  datatype ReadReply = ReadError(message: string) | NoSecret | SecretData(data: Secret)

  /** How the store behaves. `clientFails` holds the addresses for which
      `api.NewClient` fails; `login` answers a `Logical().Write` on a login
      path with a client token or an error message; `read` answers a
      `Logical().Read`. */
  datatype Store = Store(
    clientFails: set<string>,
    login: (Client, string, map<string, string>) -> Result<string, string>,
    read: (Client, string) -> ReadReply)

  /** The fields of a `VaultSecret`, with the calls made so far. */
  datatype VaultState = VaultState(
    addr: string,
    role: string,
    authMethod: string,
    path: string,
    kubeToken: string,
    client: Option<Client>,
    token: string,
    requests: seq<Request>)

  datatype VaultStep = VaultStep(err: Option<Error>, state: VaultState)

  datatype FetchStep = FetchStep(result: Result<Secret, Error>, state: VaultState)

  /** The `VaultSecret` the sync cycle builds: only the address and the path
      are set, so the role and the auth method stay empty. */
  function Initial(addr: string, path: string): VaultState
  {
    VaultState(addr, "", "", path, "", None, "", [])
  }

  /** The login path for an auth method, `auth/<method>/login`. */
  function LoginPath(authMethod: string): string
  {
    "auth/" + authMethod + "/login"
  }

  /** The options of the login request: always the role, and the service
      account token as `jwt` only when there is one. */
  function LoginOptions(role: string, kubeToken: string): (o: map<string, string>)
    ensures "role" in o && o["role"] == role
    ensures "jwt" in o <==> kubeToken != ""
    ensures "jwt" in o ==> o["jwt"] == kubeToken
    ensures forall k <- o :: k == "role" || k == "jwt"
  {
    if kubeToken != "" then map["role" := role, "jwt" := kubeToken] else map["role" := role]
  }

  /** `Login`: one write to the login path; on success the returned client
      token becomes the token of the secret and of its client, on failure
      neither changes. */
  function LoginSpec(v: VaultState, store: Store): (r: VaultStep)
    requires v.client.Some?
    ensures r.state.requests == v.requests + [LoginWrite(LoginPath(v.authMethod), LoginOptions(v.role, v.kubeToken))]
    ensures r.state.client.Some?
    ensures r.err.None? ==> r.state.client.value.token == r.state.token
    ensures r.err.Some? ==> r.state.token == v.token && r.state.client == v.client
    ensures r.state.kubeToken == v.kubeToken && r.state.path == v.path
    ensures r.state == v.(requests := r.state.requests, token := r.state.token, client := r.state.client)
    ensures r.err.None? ==> r.state.client == Some(v.client.value.(token := r.state.token))
    ensures var reply := store.login(v.client.value, LoginPath(v.authMethod), LoginOptions(v.role, v.kubeToken));
      && (r.err.None? <==> reply.Success?)
      && (reply.Success? ==> r.state.token == reply.value)
      && (reply.Failure? ==> r.err == Some(VaultError(reply.error)))
  {
    var path := LoginPath(v.authMethod);
    var options := LoginOptions(v.role, v.kubeToken);
    var v1 := v.(requests := v.requests + [LoginWrite(path, options)]);
    match store.login(v.client.value, path, options)
    case Failure(message) => VaultStep(Some(VaultError(message)), v1)
    case Success(t) => VaultStep(None, v1.(token := t, client := Some(v.client.value.(token := t))))
  }

  /** `NewToken`: a non-empty `VAULT_TOKEN` is used as it is and no login
      happens; otherwise the outcome is that of `Login`. */
  function NewTokenSpec(v: VaultState, env: Env, store: Store): (r: VaultStep)
    requires v.client.Some?
    ensures Getenv(env, "VAULT_TOKEN") != "" ==>
      && r.err.None?
      && r.state.token == Getenv(env, "VAULT_TOKEN")
      && r.state.client == Some(v.client.value.(token := r.state.token))
      && r.state.requests == v.requests
      && r.state == v.(token := r.state.token, client := r.state.client)
    ensures Getenv(env, "VAULT_TOKEN") == "" ==> r == LoginSpec(v, store)
    ensures r.state.client.Some? && r.state.path == v.path
  {
    var t := Getenv(env, "VAULT_TOKEN");
    if t != "" then VaultStep(None, v.(token := t, client := Some(v.client.value.(token := t))))
    else LoginSpec(v, store)
  }

  /** `NewClient`: build the client, read the service account token from the
      file `KUBE_TOKEN` names (when it names one), then get a token. The files
      the process can read are `tokenFiles`. */
  function NewClientSpec(v: VaultState, env: Env, tokenFiles: map<string, string>, store: Store): (r: VaultStep)
    ensures r.err.None? ==> r.state.client.Some?
    ensures r.state.path == v.path
    ensures v.addr in store.clientFails ==> r.err == Some(ClientError) && r.state == v.(client := None)
    ensures Getenv(env, "KUBE_TOKEN") == "" ==> r.state.kubeToken == v.kubeToken
    ensures var k := Getenv(env, "KUBE_TOKEN");
      v.addr !in store.clientFails && k != "" ==>
        if k in tokenFiles then r.state.kubeToken == tokenFiles[k]
        else r.err == Some(KubeTokenUnreadable(k)) && r.state == v.(client := Some(Client(v.addr, "")))
    ensures var k := Getenv(env, "KUBE_TOKEN");
      v.addr !in store.clientFails && (k == "" || k in tokenFiles) ==>
        r == NewTokenSpec(v.(client := Some(Client(v.addr, "")),
                             kubeToken := if k != "" then tokenFiles[k] else v.kubeToken), env, store)
  {
    if v.addr in store.clientFails then VaultStep(Some(ClientError), v.(client := None))
    else
      var v1 := v.(client := Some(Client(v.addr, "")));
      var k := Getenv(env, "KUBE_TOKEN");
      if k != "" && k !in tokenFiles then VaultStep(Some(KubeTokenUnreadable(k)), v1)
      else
        var v2 := if k != "" then v1.(kubeToken := tokenFiles[k]) else v1;
        NewTokenSpec(v2, env, store)
  }

  /** A client with a valid token or an error: after a successful
      `NewClient` the client talks to the configured address with the secret's
      token, which is `VAULT_TOKEN` when that is set and otherwise the token
      the store returned to the one login request. */
  lemma NewClientAcquiresToken(v: VaultState, env: Env, tokenFiles: map<string, string>, store: Store)
    requires NewClientSpec(v, env, tokenFiles, store).err.None?
    ensures var r := NewClientSpec(v, env, tokenFiles, store);
      r.state.client == Some(Client(v.addr, r.state.token))
    ensures var r := NewClientSpec(v, env, tokenFiles, store);
      Getenv(env, "VAULT_TOKEN") != "" ==>
        r.state.token == Getenv(env, "VAULT_TOKEN") && r.state.requests == v.requests
    ensures var r := NewClientSpec(v, env, tokenFiles, store);
      var path, options := LoginPath(v.authMethod), LoginOptions(v.role, r.state.kubeToken);
      Getenv(env, "VAULT_TOKEN") == "" ==>
        && r.state.requests == v.requests + [LoginWrite(path, options)]
        && store.login(Client(v.addr, ""), path, options) == Success(r.state.token)
  {
  }

  /** The store address `GetKVSecret` reads for a secret path: the mount (the
      text before the first `/`), then `/data/`, then the rest of the path. An
      empty path and a path without `/` are refused. */
  function SecretAddress(path: string): (r: Result<string, Error>)
    ensures r == Failure(SecretPathRequired) <==> path == ""
    ensures r == Failure(SecretPathFormat) <==> path != "" && '/' !in path
    ensures r.Success? <==> '/' in path
    ensures r.Success? ==>
      var i := Strings.FirstIndex(path, '/');
      r.value == path[..i] + "/data/" + path[i + 1..]
  {
    if path == "" then Failure(SecretPathRequired)
    else
      var parts := Strings.Split(path, '/');
      if |parts| < 2 then Failure(SecretPathFormat)
      else
        Strings.SplitAtFirst(path, '/');
        Success(parts[0] + "/data/" + Strings.Join(parts[1..], '/'))
  }

  /** `GetKVSecret`: a path that `SecretAddress` refuses is reported without
      any call to the store; otherwise exactly one read of that address, whose
      error is passed on and whose missing secret is `SecretNotFound`. */
  function FetchSpec(v: VaultState, store: Store): (r: FetchStep)
    requires v.client.Some?
    ensures r.state == v.(requests := r.state.requests)
    ensures SecretAddress(v.path).Failure? ==>
      r.result == Failure(SecretAddress(v.path).error) && r.state.requests == v.requests
    ensures SecretAddress(v.path).Success? ==>
      var address := SecretAddress(v.path).value;
      && r.state.requests == v.requests + [KVRead(address)]
      && match store.read(v.client.value, address)
         case ReadError(m) => r.result == Failure(VaultError(m))
         case NoSecret => r.result == Failure(SecretNotFound)
         case SecretData(d) => r.result == Success(d)
  {
    match SecretAddress(v.path)
    case Failure(e) => FetchStep(Failure(e), v)
    case Success(address) =>
      var v1 := v.(requests := v.requests + [KVRead(address)]);
      match store.read(v.client.value, address)
      case ReadError(m) => FetchStep(Failure(VaultError(m)), v1)
      case NoSecret => FetchStep(Failure(SecretNotFound), v1)
      case SecretData(d) => FetchStep(Success(d), v1)
  }

  /** A `VaultSecret`: the address and path it was made with, the auth
      settings, the client and token it acquires, and the calls it has made
      to the store. */
  class VaultSecret {
    var addr: string
    var role: string
    var authMethod: string
    var path: string
    var kubeToken: string
    var client: Option<Client>
    var token: string
    var requests: seq<Request>

    function State(): VaultState
      reads this
    {
      VaultState(addr, role, authMethod, path, kubeToken, client, token, requests)
    }

    constructor (addr: string, path: string)
      ensures State() == Initial(addr, path)
    {
      this.addr := addr;
      this.role := "";
      this.authMethod := "";
      this.path := path;
      this.kubeToken := "";
      this.client := None;
      this.token := "";
      this.requests := [];
    }

    method NewClient(env: Env, tokenFiles: map<string, string>, store: Store) returns (err: Option<Error>)
      modifies this
      ensures VaultStep(err, State()) == NewClientSpec(old(State()), env, tokenFiles, store)
    {
      if addr in store.clientFails {
        client := None;
        return Some(ClientError);
      }
      client := Some(Client(addr, ""));
      var k := Getenv(env, "KUBE_TOKEN");
      if k != "" {
        if k !in tokenFiles {
          return Some(KubeTokenUnreadable(k));
        }
        kubeToken := tokenFiles[k];
      }
      var _, terr := NewToken(env, store);
      return terr;
    }

    method Login(store: Store) returns (t: string, err: Option<Error>)
      requires client.Some?
      modifies this
      ensures VaultStep(err, State()) == LoginSpec(old(State()), store)
      ensures t == if err.None? then token else ""
    {
      var options := LoginOptions(role, kubeToken);
      var loginPath := LoginPath(authMethod);
      requests := requests + [LoginWrite(loginPath, options)];
      var reply := store.login(client.value, loginPath, options);
      if reply.Failure? {
        return "", Some(VaultError(reply.error));
      }
      token := reply.value;
      client := Some(client.value.(token := token));
      return token, None;
    }

    method NewToken(env: Env, store: Store) returns (t: string, err: Option<Error>)
      requires client.Some?
      modifies this
      ensures VaultStep(err, State()) == NewTokenSpec(old(State()), env, store)
      ensures t == if err.None? then token else ""
    {
      if Getenv(env, "VAULT_TOKEN") != "" {
        token := Getenv(env, "VAULT_TOKEN");
        client := Some(client.value.(token := token));
        return token, None;
      }
      t, err := Login(store);
    }

    method GetKVSecret(store: Store) returns (r: Result<Secret, Error>)
      requires client.Some?
      modifies this`requests
      ensures FetchStep(r, State()) == FetchSpec(old(State()), store)
    {
      var address := SecretAddress(path);
      if address.Failure? {
        return Failure(address.error);
      }
      requests := requests + [KVRead(address.value)];
      var reply := store.read(client.value, address.value);
      match reply
      case ReadError(m) => r := Failure(VaultError(m));
      case NoSecret => r := Failure(SecretNotFound);
      case SecretData(d) => r := Success(d);
    }
  }

  /** With the `VaultSecret` the sync cycle builds, a login (no `VAULT_TOKEN`)
      writes to `auth//login` with an empty role: the cycle never sets an auth
      method or a role. */
  lemma CycleLoginUsesEmptyMethodAndRole(addr: string, path: string, env: Env,
                                         tokenFiles: map<string, string>, store: Store)
    requires addr !in store.clientFails
    requires Getenv(env, "VAULT_TOKEN") == ""
    requires Getenv(env, "KUBE_TOKEN") == "" || Getenv(env, "KUBE_TOKEN") in tokenFiles
    ensures var r := NewClientSpec(Initial(addr, path), env, tokenFiles, store);
      |r.state.requests| == 1 && r.state.requests[0].LoginWrite?
      && r.state.requests[0].path == "auth//login"
      && r.state.requests[0].options["role"] == ""
  {
  }

  /** The address of `<mount>/<rest>` is `<mount>/data/<rest>` for any mount
      free of `/` and any rest, so `kv/certs/example.com` is read at
      `kv/data/certs/example.com`. */
  lemma SecretAddressOfMountAndRest(mount: string, rest: string)
    requires '/' !in mount
    ensures SecretAddress(mount + "/" + rest) == Success(mount + "/data/" + rest)
  {
    var p := mount + "/" + rest;
    assert p == mount + ['/'] + rest;
    assert p[|mount|] == '/';
    Strings.FirstIndexAfterPiece(mount, '/', rest);
    assert p[..|mount|] == mount && p[|mount| + 1..] == rest;
  }

  /** A path ending right after the mount is accepted. */
  lemma SecretAddressMountOnly()
    ensures SecretAddress("kv/") == Success("kv/data/")
  {
    var p := "kv/";
    assert p[2] == '/';
    var r := SecretAddress(p);
    assert r.Success?;
    Strings.FirstIndexAfterPiece("kv", '/', "");
    assert p == "kv" + ['/'] + "";
    assert Strings.FirstIndex(p, '/') == 2;
    assert r.value == p[..2] + "/data/" + p[3..];
    assert p[..2] == "kv" && p[3..] == "";
    assert "kv" + "/data/" + "" == "kv/data/";
  }

  /** A path without `/` is refused. */
  lemma SecretAddressNoSlash()
    ensures SecretAddress("badpath") == Failure(SecretPathFormat)
  {
    var p := "badpath";
    assert forall i | 0 <= i < |p| :: p[i] != '/';
  }
}

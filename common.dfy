/** Shared vocabulary of the certificate sync tool: optional values, results,
    bytes, the process environment and the errors the cycle can end with. */
module Common {

  datatype Option<+T> = None | Some(value: T)

  datatype Result<+T, +E> = Success(value: T) | Failure(error: E)

  /** A byte, as Go's `byte`. */
  type byte = b: int | 0 <= b < 256

  /** The contents of a file or of a decoded secret field (a Go `string` or `[]byte`). */
  type Bytes = seq<byte>

  /** The process environment: a variable that is not in the map is unset. */
  type Env = map<string, string>

  /** `os.Getenv`: an unset variable reads as the empty string. */
  function Getenv(env: Env, name: string): string
  {
    if name in env then env[name] else ""
  }

  /** Every error a sync cycle can end with. The comment after each gives the
      Go error it stands for. */
  datatype Error =
    | NoCertField                 // "no cert field"
    | NoKeyField                  // "no key field"
    | CertNotFound                // "certificate not found"
    | KeyNotFound                 // "key not found"
    | ChainNotFound               // "chain not found"
    | CorruptBase64               // base64.CorruptInputError
    | SecretPathRequired          // "secret path required"
    | SecretPathFormat            // "Secret path must be in kv/path/to/secret format"
    | SecretNotFound              // "Secret not found"
    | ClientError                 // error of api.NewClient
    | KubeTokenUnreadable(path: string)  // error of ioutil.ReadFile on $KUBE_TOKEN
    | VaultError(message: string) // error of a Logical().Read or Logical().Write call
    | MkdirFailed(dir: string)    // error of os.MkdirAll
    | WriteFailed(file: string)   // error of ioutil.WriteFile
    | CommandFailed(program: string)  // error of exec.Cmd.Run
}

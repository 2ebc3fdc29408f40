# ssl-sync-vault, modelled in Dafny

`ssl-sync-vault` copies a TLS certificate and its private key from a
Vault-style key-value secret store to two files on disk. One run performs one
cycle:

1. apply environment overrides to the configuration;
2. build a store client and obtain a token, either a static `VAULT_TOKEN` or a
   role login that may carry a Kubernetes service-account token;
3. read the secret at `<mount>/data/<rest>`;
4. base64-decode the certificate, key and optional chain fields;
5. compare the result byte for byte with the two files;
6. when they differ, create missing parent directories, write the chain file
   and then the key file, and run a configured post-sync command.

The process exits with 0 on success and 1 on any error.

The project models that cycle and proves the properties the program relies
on. It has six modules.

- `Common` (`common.dfy`): `Option`, `Result`, bytes, the environment and the
  error values. Each error carries a comment giving the source's message.
- `Strings` (`strings.dfy`): `strings.Split` and `strings.Join` with a
  one-character separator. It proves that joining undoes splitting and that
  splitting undoes joining.
- `Base64` (`base64.dfy`): `base64.StdEncoding.DecodeString`, modelled exactly.
  - Line breaks are skipped.
  - The input must be whole quanta.
  - Padding may only close the last quantum.
  - Unused bits are not checked.
  - An encoder is included so the round trip can be stated.
- `FileSystem` (`filesystem.dfy`): an abstract disk, a log of side effects,
  and `os.Stat`, `ioutil.ReadFile`, `ioutil.WriteFile`, `os.MkdirAll` and
  `filepath.Dir`. Which operations fail is given by the disk's fault sets.
- `Vault` (`vault.dfy`), covering `vault.go`:
  - the `VaultSecret` class with `NewClient`, `NewToken`, `Login` and
    `GetKVSecret`;
  - each method is proved equal to a pure specification function;
  - the store's replies come from an oracle, `Store`.
- `SyncEngine` (`sync.dfy`), covering `main.go`:
  - the `SyncConfig` class with `EnvConfig`, `ReadCertData`, `WriteFiles`,
    `RunPostSyncCmd`, `Sync` and the exit decision `Run`;
  - each method is proved equal to a pure function of the old state: the
    `...Spec` functions, `Cycle` and `MainExit`;
  - lemmas over these functions prove the cycle's properties.

The environment, the readable token files, the store and the command runner
are parameters.

Two points of the code's behaviour are easy to misread:
- The post-sync command is split on the single character `' '`, not on runs
  of whitespace, so repeated spaces give empty arguments.
- Files are written in place, not written to a temporary file and renamed.

## Model

| member | source | states |
|---|---|---|
| Strings.Split | vault.go:115 | the pieces contain no separator; there is one piece exactly when the separator is absent; joining the pieces gives back the input |
| Strings.SplitJoin | main.go:131-135 | splitting a join of separator-free pieces gives back those pieces |
| Strings.SplitAtFirst | vault.go:115-121 | the first piece is the text before the first separator, and the rest joined is the text after it |
| Base64.DecodeEncode | main.go:181-189 | decoding the standard padded encoding of any byte string gives back the bytes |
| Base64.Decode | main.go:181-189 | a successful decode has an input whose line-break-free part has 4k characters, and yields between 3k - 2 and 3k bytes; input of only line breaks decodes to no bytes |
| Base64.DecodeSkipsNewlines | main.go:181 | decoding ignores every carriage return and line feed |
| Base64.DecodeRejectsPartialQuantum | main.go:181-185 | an input whose length without line breaks is not a multiple of four is a decode error |
| Base64.DecodeRejectsForeignChar | main.go:181-185 | any character outside the alphabet, padding and line breaks makes the input a decode error |
| Base64.DecodeIgnoresTrailingBits | main.go:181 | `c0 c1 = =` decodes to the one byte made of c0's six bits and c1's top two, so unused bits are dropped |
| Vault.LoginOptions | vault.go:67-72 | the role is always sent; `jwt` is sent exactly when the service-account token is non-empty; no other option |
| Vault.LoginSpec | vault.go:59-83 | one write to `auth/<method>/login` with those options; the step succeeds exactly when the store accepts the login; on success the token is the client token the store returned, set on the secret and on its client; on failure the error is the store's message and neither token nor client changes; the client keeps its address, and nothing but the request log, token and client changes |
| Vault.NewTokenSpec | vault.go:87-101 | a non-empty `VAULT_TOKEN` becomes the token of the secret and of its client, with no request to the store and nothing else changed; otherwise the result is that of the login |
| Vault.NewClientSpec | vault.go:26-56 | a client failure gives an error and drops the client, changing nothing else; `KubeToken` changes only when `KUBE_TOKEN` is set; an unreadable token file aborts with only the fresh client set, before any token or request; otherwise the result is that of `NewToken` on a fresh client for the address, carrying the token read from the file |
| Vault.NewClientAcquiresToken | vault.go:25-56 | after a successful `NewClient` the client talks to the address with the secret's token, which is `VAULT_TOKEN` when set (no request) and otherwise the token the store returned to the one login request |
| Vault.SecretAddress | vault.go:112-121 | an empty path, and a path without `/`, are each refused with its own error, both directions; an accepted path becomes mount + `/data/` + everything after the first `/` |
| Vault.FetchSpec | vault.go:104-133 | a refused path makes no read; otherwise exactly one read of that address; a read error is passed on; no secret gives "Secret not found"; otherwise the field map |
| Vault.VaultSecret.NewClient | vault.go:26-56 | the new state and the error are those of `NewClientSpec` |
| Vault.VaultSecret.Login | vault.go:59-83 | the new state and the error are those of `LoginSpec`; the returned token is the new token, or empty on error |
| Vault.VaultSecret.NewToken | vault.go:87-101 | the new state and the error are those of `NewTokenSpec` |
| Vault.VaultSecret.GetKVSecret | vault.go:104-133 | the result and the new request log are those of `FetchSpec` |
| Vault.CycleLoginUsesEmptyMethodAndRole | main.go:217-221 | with the secret `Sync` builds, a login writes to `auth//login` with an empty role |
| Vault.SecretAddressOfMountAndRest | vault.go:115-123 | `<mount>/<rest>` is read at `<mount>/data/<rest>` for any mount without `/` |
| Vault.SecretAddressMountOnly | vault.go:115-123 | `kv/` is accepted and read at `kv/data/` |
| Vault.SecretAddressNoSlash | vault.go:115-119 | `badpath` is refused with the format error |
| SyncEngine.EnvOverrideIdempotent | main.go:252-277 | applying the environment overrides twice equals applying them once |
| SyncEngine.EnvOverrideUnset | main.go:252-277 | with none of the eight variables set, the configuration is unchanged |
| SyncEngine.EnvOverride | main.go:252-277 | each of the eight variables that is non-empty replaces its configuration string; each that is empty or unset leaves its string as it was |
| SyncEngine.ExtractCertData | main.go:162-205 | success exactly when both field names are set, cert and key (and a configured chain) are strings that decode; the key is the decoded key and the chain is the decoded cert followed directly by the decoded chain; each failure gives its own error in the source's order: empty cert field name, empty key field name, cert missing or not a string, key missing or not a string, cert or key not base64, chain missing or not a string, chain not base64 |
| SyncEngine.ReadCertDataSpec | main.go:152-207 | on success both contents are replaced; on error the key is kept; when the failure is at the chain, the chain contents already hold the cert bytes; any earlier failure leaves the state unchanged |
| SyncEngine.ExtractCertDataRoundTrip | main.go:181-205 | fields holding encodings of cert, key and chain yield exactly cert ++ chain (or cert) and key |
| SyncEngine.ChainFailureStoresCert | main.go:191-203 | a configured chain that is missing or corrupt fails after the cert bytes were stored, and the key is kept |
| SyncEngine.FilesChanged | main.go:76-117 | false exactly when both files are readable and equal their contents byte for byte |
| SyncEngine.EnsureDir | main.go:41-58 | an existing directory is left alone with no error; a missing one is created, adding exactly itself and its ancestors to the directories, and logged, and creation fails exactly when the directory is uncreatable, with the host unchanged; files and fault sets never change |
| SyncEngine.WriteFilesSpec | main.go:34-74 | only the files, the directories and the effect log change, and effects are only appended |
| SyncEngine.WriteFilesSuccess | main.go:34-74 | on success the files are the old ones with the chain and then the key written, both parent directories exist, and the new effects are directory creations followed by the chain write and then the key write |
| SyncEngine.WriteFilesFailure | main.go:43-71 | on failure either no file changed and only directories were made, or exactly the chain file was written and the key write failed; a failed chain write leaves the key file untouched |
| SyncEngine.WriteFilesChainUnwritable | main.go:61-65 | an unwritable chain file fails the step without changing any file |
| SyncEngine.WrittenFilesAreUnchanged | main.go:34-117 | after a successful write to two distinct readable paths, `filesChanged` is false |
| SyncEngine.SplitCommand | main.go:131-135 | no token holds a space, and the program and the arguments joined by single spaces give back the command |
| SyncEngine.SplitCommandOfWords | main.go:131-135 | the split is the only one: words joined by single spaces come back as program and arguments, empty words included |
| SyncEngine.PostSyncSpec | main.go:119-150 | an empty command does nothing; otherwise one run of the split command; the step fails exactly when the run fails; the disk is never touched |
| SyncEngine.Cycle | main.go:209-250 | the configuration becomes its environment override; effects are only appended and the fault sets never change; after a successful cycle with two distinct readable paths, the files hold the payloads, so `filesChanged` is false |
| SyncEngine.CycleFailsBeforeTouchingFiles | main.go:215-236 | a client, fetch or extraction failure is an error and leaves the host as it was |
| SyncEngine.CycleQuietWithoutChange | main.go:237-249 | when the contents match the files, the cycle succeeds with no write and no command |
| SyncEngine.WriteThenCommandOrder | main.go:237-248 | a successful write followed by the command puts the command last, right after the chain write and then the key write |
| SyncEngine.FailedWriteRunsNothing | main.go:239-242 | a failed write runs no command |
| SyncEngine.CycleCommandFollowsBothWrites | main.go:209-250 | in any cycle, a command is the last effect and comes right after the chain write and then the key write |
| SyncEngine.CycleCommandFailureKeepsFiles | main.go:239-247 | after a detected change and a successful write, both files hold the new contents, and the cycle fails exactly when a configured command fails |
| SyncEngine.CycleIdempotent | main.go:209-250 | after a successful cycle with distinct readable paths, a second cycle with the same inputs changes nothing, writes nothing and runs no command |
| SyncEngine.MainExit | main.go:302-312 | the exit status is 0 or 1; it is 0 exactly when the secret path is set and the cycle succeeds; an empty path leaves the state unchanged |
| SyncEngine.KVPathVariableComesTooLate | main.go:302-306 | with the path flag empty, a non-empty `VAULT_KV_PATH` is not consulted and the exit status is 1 |
| SyncEngine.SyncConfig.constructor | main.go:293-300 | the flags give the configuration strings; the address and both contents are empty |
| SyncEngine.SyncConfig.EnvConfig | main.go:252-277 | the configuration becomes its environment override; contents and host are unchanged |
| SyncEngine.SyncConfig.ReadCertData | main.go:152-207 | the error and the new state are those of `ReadCertDataSpec` |
| SyncEngine.SyncConfig.WriteFiles | main.go:34-74 | the error and the new state are those of `WriteFilesSpec` |
| SyncEngine.SyncConfig.RunPostSyncCmd | main.go:119-150 | the error and the new state are those of `PostSyncSpec` |
| SyncEngine.SyncConfig.Sync | main.go:209-250 | the error and the new state are those of `Cycle` |
| SyncEngine.SyncConfig.Run | main.go:302-312 | the exit status and the final state are those of `MainExit` |

## Left out

- Logging (logrus), the `init` log-level setup and `flag` parsing are not modelled. The constructor takes the flag values.
- Process execution is left out. `exec.Command(...).Run()` is the `Runner` parameter, which reports success or failure. Stdout and stderr capture are not modelled.
- The real file system is left out.
  - Permission bits 0755 and 0644 are not modelled.
  - `os.Stat` errors other than not-exist are not modelled; `.` and `/` always exist.
  - Partial writes are not modelled.
  - A write or mkdir that the OS refuses, including under a parent that is a file, comes from the disk's `unwritable` and `uncreatable` sets.
  - `filepath.Dir` is modelled without `filepath.Clean`'s normalisation of `.`, `..` and repeated slashes.
- The Vault client library is an oracle (`Store`). This covers `api.NewClient`, `Logical().Read`, `Logical().Write` and `SetToken`.
  - The client's own defaults from the environment are not modelled.
  - A client built with an empty address is a new client with an empty token.
- The type assertion on the secret's `data` entry panics when that entry is not an object (vault.go:132). The oracle cannot return such a reply.
- A successful login reply without `Auth` would panic in the source (vault.go:79). The oracle returns a token or an error.
- The files the process can read for `KUBE_TOKEN` are the `tokenFiles` map, and the environment is a map.
- `Sync` never sets `Role` or `AuthMethod`, so only the empty role and method are reached from the cycle. Other auth methods are reachable only through `LoginSpec` directly.
- Base64.Decode: a corrupt input is `None`. The byte offset that Go's `CorruptInputError` carries is not modelled.
- SyncEngine.SyncConfig.Run: only the exit status is modelled. The usage text printed by `flag.PrintDefaults` is not.

/** The sync engine (main.go): one fetch, compare, write and notify cycle.
    The configuration comes from flags and environment overrides; the secret
    comes from the provider; the certificate chain and the key are decoded
    from it, compared byte for byte with the two files on disk, written when
    they differ, and a post-sync command is run after a successful write. */
module SyncEngine {
  import opened Common
  import Strings
  import Base64
  import opened FileSystem
  import Vault

  /** The configuration strings of a `SyncConfig`. */
  datatype Config = Config(
    vaultKVPath: string,
    vaultCertField: string,
    vaultKeyField: string,
    vaultChainField: string,
    vaultAddr: string,
    filePathFullChain: string,
    filePathKey: string,
    syncCompleteCommand: string)

  /** Everything a cycle reads and changes: the configuration, the two decoded
      payloads and the host. */
  datatype SyncState = SyncState(config: Config, fullChain: Bytes, key: Bytes, host: Host)

  /** The error a step returns, if any, and the state after it. */
  datatype Outcome = Outcome(err: Option<Error>, state: SyncState)

  /** Runs a program with its arguments and says whether it exited
      successfully (`exec.Cmd.Run` returned no error). */
  type Runner = (string, seq<string>) -> bool

  // ---------------------------------------------------------------------
  // envConfig

  /** A non-empty environment variable replaces the current value. */
  function Override(env: Env, name: string, current: string): string
  {
    if Getenv(env, name) != "" then Getenv(env, name) else current
  }

  /** The configuration string that the environment variable `name` sets. */
  function ConfigField(c: Config, name: string): string
  {
    if name == "VAULT_ADDR" then c.vaultAddr
    else if name == "VAULT_KV_PATH" then c.vaultKVPath
    else if name == "FULL_CHAIN_FILE" then c.filePathFullChain
    else if name == "KEY_FILE" then c.filePathKey
    else if name == "SYNC_COMPLETE_COMMAND" then c.syncCompleteCommand
    else if name == "VAULT_CERT_FIELD" then c.vaultCertField
    else if name == "VAULT_CHAIN_FIELD" then c.vaultChainField
    else if name == "VAULT_KEY_FIELD" then c.vaultKeyField
    else ""
  }

  /** `envConfig`: each of eight environment variables, when set to a
      non-empty value, replaces one configuration string; a variable that is
      unset or empty leaves its string as it was. */
  function EnvOverride(c: Config, env: Env): (r: Config)
    ensures forall name <- ConfigVariables :: Getenv(env, name) != "" ==> ConfigField(r, name) == Getenv(env, name)
    ensures forall name <- ConfigVariables :: Getenv(env, name) == "" ==> ConfigField(r, name) == ConfigField(c, name)
  {
    c.(vaultAddr := Override(env, "VAULT_ADDR", c.vaultAddr),
       vaultKVPath := Override(env, "VAULT_KV_PATH", c.vaultKVPath),
       filePathFullChain := Override(env, "FULL_CHAIN_FILE", c.filePathFullChain),
       filePathKey := Override(env, "KEY_FILE", c.filePathKey),
       syncCompleteCommand := Override(env, "SYNC_COMPLETE_COMMAND", c.syncCompleteCommand),
       vaultCertField := Override(env, "VAULT_CERT_FIELD", c.vaultCertField),
       vaultChainField := Override(env, "VAULT_CHAIN_FIELD", c.vaultChainField),
       vaultKeyField := Override(env, "VAULT_KEY_FIELD", c.vaultKeyField))
  }

  /** The names of the variables `envConfig` consults. */
  const ConfigVariables: set<string> :=
    {"VAULT_ADDR", "VAULT_KV_PATH", "FULL_CHAIN_FILE", "KEY_FILE", "SYNC_COMPLETE_COMMAND",
     "VAULT_CERT_FIELD", "VAULT_CHAIN_FIELD", "VAULT_KEY_FIELD"}

  /** Applying the overrides twice is applying them once. */
  lemma EnvOverrideIdempotent(c: Config, env: Env)
    ensures EnvOverride(EnvOverride(c, env), env) == EnvOverride(c, env)
  {
  }

  /** With none of the variables set to a non-empty value, nothing changes. */
  lemma EnvOverrideUnset(c: Config, env: Env)
    requires forall name <- ConfigVariables :: Getenv(env, name) == ""
    ensures EnvOverride(c, env) == c
  {
  }

  // ---------------------------------------------------------------------
  // readCertData

  /** The decoded chain and key of a secret. */
  datatype CertData = CertData(fullChain: Bytes, key: Bytes)

  /** `cert[name].(string)`: the field's value when it is present and a string. */
  function StringField(secret: Vault.Secret, name: string): Option<string>
  {
    if name in secret && secret[name].Str? then Some(secret[name].s) else None
  }

  /** A field that is present, a string, and valid base64. */
  predicate Decodes(secret: Vault.Secret, name: string)
  {
    StringField(secret, name).Some? && Base64.Decode(StringField(secret, name).value).Some?
  }

  function DecodedField(secret: Vault.Secret, name: string): Bytes
    requires Decodes(secret, name)
  {
    Base64.Decode(StringField(secret, name).value).value
  }

  /** What `readCertData` extracts from a secret: the checks in the order the
      source makes them, the first failing one giving the error; on success
      the chain is the certificate bytes followed directly by the chain bytes
      when a chain field is configured. */
  function ExtractCertData(c: Config, secret: Vault.Secret): (r: Result<CertData, Error>)
    ensures r.Success? <==>
      && c.vaultCertField != "" && c.vaultKeyField != ""
      && Decodes(secret, c.vaultCertField) && Decodes(secret, c.vaultKeyField)
      && (c.vaultChainField != "" ==> Decodes(secret, c.vaultChainField))
    ensures r.Success? ==>
      && r.value.key == DecodedField(secret, c.vaultKeyField)
      && r.value.fullChain == DecodedField(secret, c.vaultCertField)
           + (if c.vaultChainField != "" then DecodedField(secret, c.vaultChainField) else [])
    ensures c.vaultCertField == "" ==> r == Failure(NoCertField)
    ensures c.vaultCertField != "" && c.vaultKeyField == "" ==> r == Failure(NoKeyField)
    ensures c.vaultCertField != "" && c.vaultKeyField != "" ==>
      var cert, key := StringField(secret, c.vaultCertField), StringField(secret, c.vaultKeyField);
      && (cert.None? ==> r == Failure(CertNotFound))
      && (cert.Some? && key.None? ==> r == Failure(KeyNotFound))
      && (cert.Some? && key.Some? && !(Decodes(secret, c.vaultCertField) && Decodes(secret, c.vaultKeyField)) ==>
            r == Failure(CorruptBase64))
    ensures && c.vaultCertField != "" && c.vaultKeyField != "" && c.vaultChainField != ""
            && Decodes(secret, c.vaultCertField) && Decodes(secret, c.vaultKeyField) ==>
      var chain := StringField(secret, c.vaultChainField);
      && (chain.None? ==> r == Failure(ChainNotFound))
      && (chain.Some? && !Decodes(secret, c.vaultChainField) ==> r == Failure(CorruptBase64))
  {
    if c.vaultCertField == "" then Failure(NoCertField)
    else if c.vaultKeyField == "" then Failure(NoKeyField)
    else if StringField(secret, c.vaultCertField).None? then Failure(CertNotFound)
    else if StringField(secret, c.vaultKeyField).None? then Failure(KeyNotFound)
    else
      match Base64.Decode(StringField(secret, c.vaultCertField).value)
      case None => Failure(CorruptBase64)
      case Some(certBytes) =>
        match Base64.Decode(StringField(secret, c.vaultKeyField).value)
        case None => Failure(CorruptBase64)
        case Some(keyBytes) =>
          if c.vaultChainField == "" then Success(CertData(certBytes, keyBytes))
          else if StringField(secret, c.vaultChainField).None? then Failure(ChainNotFound)
          else
            match Base64.Decode(StringField(secret, c.vaultChainField).value)
            case None => Failure(CorruptBase64)
            case Some(chainBytes) => Success(CertData(certBytes + chainBytes, keyBytes))
  }

  /** The certificate bytes, when `readCertData` gets as far as storing them
      in `FullChainContents` (both field names set, both values strings that
      decode), whether or not the chain then fails. */
  function StoredCert(c: Config, secret: Vault.Secret): Option<Bytes>
  {
    if c.vaultCertField != "" && c.vaultKeyField != ""
       && Decodes(secret, c.vaultCertField) && Decodes(secret, c.vaultKeyField)
    then Some(DecodedField(secret, c.vaultCertField))
    else None
  }

  /** `readCertData` on a state: on success both payloads are replaced; on
      failure the key is kept, and the chain is kept too unless the failure
      came from the chain field, in which case it already holds the
      certificate bytes. */
  function ReadCertDataSpec(s: SyncState, secret: Vault.Secret): (r: Outcome)
    ensures r.state.config == s.config && r.state.host == s.host
    ensures r.err.None? <==> ExtractCertData(s.config, secret).Success?
    ensures r.err.None? ==>
      var x := ExtractCertData(s.config, secret).value;
      r.state.fullChain == x.fullChain && r.state.key == x.key
    ensures r.err.Some? ==> r.err == Some(ExtractCertData(s.config, secret).error) && r.state.key == s.key
    ensures r.err.Some? && StoredCert(s.config, secret).None? ==> r.state == s
    ensures r.err.Some? && StoredCert(s.config, secret).Some? ==>
      r.state.fullChain == StoredCert(s.config, secret).value
  {
    match ExtractCertData(s.config, secret)
    case Success(x) => Outcome(None, s.(fullChain := x.fullChain, key := x.key))
    case Failure(e) =>
      match StoredCert(s.config, secret)
      case Some(certBytes) => Outcome(Some(e), s.(fullChain := certBytes))
      case None => Outcome(Some(e), s)
  }

  /** A secret holding the encodings of a certificate, a key and (when a chain
      field is configured) a chain yields exactly those bytes, the chain after
      the certificate with nothing in between. */
  lemma ExtractCertDataRoundTrip(c: Config, secret: Vault.Secret, cert: Bytes, key: Bytes, chain: Bytes)
    requires c.vaultCertField != "" && c.vaultKeyField != ""
    requires c.vaultCertField in secret && secret[c.vaultCertField] == Vault.Str(Base64.Encode(cert))
    requires c.vaultKeyField in secret && secret[c.vaultKeyField] == Vault.Str(Base64.Encode(key))
    requires c.vaultChainField != "" ==>
      c.vaultChainField in secret && secret[c.vaultChainField] == Vault.Str(Base64.Encode(chain))
    ensures ExtractCertData(c, secret)
         == Success(CertData(if c.vaultChainField != "" then cert + chain else cert, key))
  {
    Base64.DecodeEncode(cert);
    Base64.DecodeEncode(key);
    Base64.DecodeEncode(chain);
  }

  /** A configured chain field whose value is missing, not a string or not
      base64 fails the extraction after the certificate bytes were stored. */
  lemma ChainFailureStoresCert(s: SyncState, secret: Vault.Secret)
    requires s.config.vaultChainField != ""
    requires StoredCert(s.config, secret).Some?
    requires !Decodes(secret, s.config.vaultChainField)
    ensures var r := ReadCertDataSpec(s, secret);
      && r.err.Some?
      && r.state.fullChain == DecodedField(secret, s.config.vaultCertField)
      && r.state.key == s.key
  {
  }

  // ---------------------------------------------------------------------
  // filesChanged

  /** `filesChanged`: a missing file, a file that cannot be read, or a file
      whose bytes differ from the payload all count as a change. */
  function FilesChanged(s: SyncState): (changed: bool)
    ensures !changed <==>
      && ReadFile(s.host.disk, s.config.filePathFullChain) == Some(s.fullChain)
      && ReadFile(s.host.disk, s.config.filePathKey) == Some(s.key)
  {
    var d := s.host.disk;
    var chainPath, keyPath := s.config.filePathFullChain, s.config.filePathKey;
    if !Exists(d, chainPath) then true
    else if !Exists(d, keyPath) then true
    else
      match ReadFile(d, chainPath)
      case None => true
      case Some(fc) =>
        match ReadFile(d, keyPath)
        case None => true
        case Some(kc) =>
          if s.fullChain != fc then true
          else if s.key != kc then true
          else false
  }

  // ---------------------------------------------------------------------
  // writeFiles

  /** The check-then-create of one parent directory: `os.MkdirAll` only when
      `os.Stat` reports that the directory does not exist. */
  function EnsureDir(h: Host, dir: Path): (r: HostStep)
    ensures r.err.None? ==> Exists(r.host.disk, dir)
    ensures r.host.disk.files == h.disk.files
    ensures r.host.disk.dirs >= h.disk.dirs
    ensures r.host.disk.(dirs := h.disk.dirs) == h.disk
    ensures r.host.effects == h.effects || r.host.effects == h.effects + [MadeDir(dir)]
    ensures Exists(h.disk, dir) ==> r == HostStep(None, h)
    ensures !Exists(h.disk, dir) ==> (r.err.Some? <==> dir in h.disk.uncreatable)
    ensures r.err.Some? ==> r.err == Some(MkdirFailed(dir)) && r.host == h
    ensures r.err.None? && !Exists(h.disk, dir) ==>
      && r.host.effects == h.effects + [MadeDir(dir)]
      && r.host.disk.dirs == h.disk.dirs + {dir} + Ancestors(dir)
  {
    if Exists(h.disk, dir) then HostStep(None, h) else MkdirAll(h, dir)
  }

  /** Effects that are only directory creations. */
  predicate OnlyDirs(e: seq<Effect>)
  {
    forall x <- e :: x.MadeDir?
  }

  /** `writeFiles`: create the missing parent directories, then write the chain
      file, then the key file, stopping at the first error. Nothing but the
      files, the directories and the effect log changes, and effects are only
      appended. */
  function WriteFilesSpec(s: SyncState): (r: Outcome)
    ensures r.state == s.(host := r.state.host)
    ensures r.state.host.disk.(files := s.host.disk.files, dirs := s.host.disk.dirs) == s.host.disk
    ensures s.host.effects <= r.state.host.effects
  {
    var cp, kp := s.config.filePathFullChain, s.config.filePathKey;
    var d1 := EnsureDir(s.host, ParentDir(cp));
    if d1.err.Some? then Outcome(d1.err, s.(host := d1.host))
    else
      var d2 := EnsureDir(d1.host, ParentDir(kp));
      if d2.err.Some? then Outcome(d2.err, s.(host := d2.host))
      else
        var w1 := WriteFile(d2.host, cp, s.fullChain);
        if w1.err.Some? then Outcome(w1.err, s.(host := w1.host))
        else
          var w2 := WriteFile(w1.host, kp, s.key);
          Outcome(w2.err, s.(host := w2.host))
  }

  /** The effects of the two directory checks of `writeFiles`. */
  function DirsMade(s: SyncState): seq<Effect>
  {
    var d1 := EnsureDir(s.host, ParentDir(s.config.filePathFullChain));
    var d2 := EnsureDir(d1.host, ParentDir(s.config.filePathKey));
    d2.host.effects[|s.host.effects|..]
  }

  lemma DirsMadeAreDirs(s: SyncState)
    ensures OnlyDirs(DirsMade(s))
  {
    var cp, kp := s.config.filePathFullChain, s.config.filePathKey;
    var d1 := EnsureDir(s.host, ParentDir(cp));
    var d2 := EnsureDir(d1.host, ParentDir(kp));
    var n := |s.host.effects|;
    assert d1.host.effects[n..] == [] || d1.host.effects[n..] == [MadeDir(ParentDir(cp))];
    assert d2.host.effects[n..] == d1.host.effects[n..] || d2.host.effects[n..] == d1.host.effects[n..] + [MadeDir(ParentDir(kp))];
  }

  /** A successful `writeFiles`: the files are the old ones with the chain
      written and then the key; both parent directories exist; the new effects
      are directory creations followed by the write of the chain file and then
      of the key file. */
  lemma WriteFilesSuccess(s: SyncState)
    requires WriteFilesSpec(s).err.None?
    ensures var r := WriteFilesSpec(s);
      var cp, kp := s.config.filePathFullChain, s.config.filePathKey;
      var e := r.state.host.effects[|s.host.effects|..];
      && r.state.host.disk.files == s.host.disk.files[cp := s.fullChain][kp := s.key]
      && Exists(r.state.host.disk, ParentDir(cp)) && Exists(r.state.host.disk, ParentDir(kp))
      && e == DirsMade(s) + [WroteFile(cp), WroteFile(kp)]
  {
    var cp, kp := s.config.filePathFullChain, s.config.filePathKey;
    var d1 := EnsureDir(s.host, ParentDir(cp));
    var d2 := EnsureDir(d1.host, ParentDir(kp));
    var n := |s.host.effects|;
    var r := WriteFilesSpec(s);
    assert r.state.host.effects == d2.host.effects + [WroteFile(cp), WroteFile(kp)];
    assert r.state.host.effects[n..] == d2.host.effects[n..] + [WroteFile(cp), WroteFile(kp)];
  }

  /** A failed `writeFiles`: either no file changed and only directories were
      made, or the chain file was written and the key write failed. In
      particular a failed chain write leaves the key file untouched. */
  lemma WriteFilesFailure(s: SyncState)
    requires WriteFilesSpec(s).err.Some?
    ensures var r := WriteFilesSpec(s);
      var cp, kp := s.config.filePathFullChain, s.config.filePathKey;
      var e := r.state.host.effects[|s.host.effects|..];
      || (r.state.host.disk.files == s.host.disk.files && OnlyDirs(e))
      || (&& r.state.host.disk.files == s.host.disk.files[cp := s.fullChain]
          && r.err == Some(WriteFailed(kp))
          && e == DirsMade(s) + [WroteFile(cp)])
  {
    var cp, kp := s.config.filePathFullChain, s.config.filePathKey;
    var d1 := EnsureDir(s.host, ParentDir(cp));
    var n := |s.host.effects|;
    var r := WriteFilesSpec(s);
    DirsMadeAreDirs(s);
    if d1.err.None? {
      var d2 := EnsureDir(d1.host, ParentDir(kp));
      if d2.err.None? {
        var w1 := WriteFile(d2.host, cp, s.fullChain);
        if w1.err.None? {
          assert r.state.host.effects == d2.host.effects + [WroteFile(cp)];
          assert r.state.host.effects[n..] == d2.host.effects[n..] + [WroteFile(cp)];
        }
      }
    }
  }

  /** An unwritable chain file fails `writeFiles` without changing any file. */
  lemma WriteFilesChainUnwritable(s: SyncState)
    requires s.config.filePathFullChain in s.host.disk.unwritable
    ensures WriteFilesSpec(s).err.Some?
    ensures WriteFilesSpec(s).state.host.disk.files == s.host.disk.files
  {
  }

  /** After a successful write to two distinct, readable paths, the files
      match the payloads: a following `filesChanged` is false. */
  lemma WrittenFilesAreUnchanged(s: SyncState)
    requires s.config.filePathFullChain != s.config.filePathKey
    requires s.config.filePathFullChain !in s.host.disk.unreadable
    requires s.config.filePathKey !in s.host.disk.unreadable
    requires WriteFilesSpec(s).err.None?
    ensures !FilesChanged(WriteFilesSpec(s).state)
  {
  }

  // ---------------------------------------------------------------------
  // runPostSyncCmd

  /** A command split into the program and its arguments. */
  datatype CommandLine = CommandLine(program: string, args: seq<string>)

  /** The split of `runPostSyncCmd`: pieces between single spaces, the first
      the program and the rest, empty pieces included, the arguments. */
  function SplitCommand(cmd: string): (cl: CommandLine)
    ensures ' ' !in cl.program && forall a <- cl.args :: ' ' !in a
    ensures Strings.Join([cl.program] + cl.args, ' ') == cmd
  {
    var parts := Strings.Split(cmd, ' ');
    assert [parts[0]] + parts[1..] == parts;
    CommandLine(parts[0], parts[1..])
  }

  /** The split is the only one: words free of spaces joined by single spaces
      come back as those words, so `a  b` is the program `a` with the
      arguments `""` and `b`. */
  lemma SplitCommandOfWords(words: seq<string>)
    requires |words| >= 1
    requires forall w <- words :: ' ' !in w
    ensures SplitCommand(Strings.Join(words, ' ')) == CommandLine(words[0], words[1..])
  {
    Strings.SplitJoin(words, ' ');
  }

  /** `runPostSyncCmd`: nothing for an empty command; otherwise the command
      is run once and its failure is the step's error. Files are not touched. */
  function PostSyncSpec(s: SyncState, run: Runner): (r: Outcome)
    ensures r.state == s.(host := r.state.host)
    ensures r.state.host.disk == s.host.disk
    ensures s.config.syncCompleteCommand == "" ==> r == Outcome(None, s)
    ensures s.config.syncCompleteCommand != "" ==>
      var cl := SplitCommand(s.config.syncCompleteCommand);
      && r.state.host.effects == s.host.effects + [RanCommand(cl.program, cl.args)]
      && (r.err.None? <==> run(cl.program, cl.args))
      && (r.err.Some? ==> r.err == Some(CommandFailed(cl.program)))
  {
    var cmd := s.config.syncCompleteCommand;
    if cmd == "" then Outcome(None, s)
    else
      var cl := SplitCommand(cmd);
      var h := s.host.(effects := s.host.effects + [RanCommand(cl.program, cl.args)]);
      Outcome(if run(cl.program, cl.args) then None else Some(CommandFailed(cl.program)),
              s.(host := h))
  }

  // ---------------------------------------------------------------------
  // Sync

  /** The secret the provider returns to a cycle with configuration `c`. */
  function Fetched(c: Config, env: Env, tokenFiles: map<string, string>, store: Vault.Store): Result<Vault.Secret, Error>
  {
    var n := Vault.NewClientSpec(Vault.Initial(c.vaultAddr, c.vaultKVPath), env, tokenFiles, store);
    if n.err.Some? then Failure(n.err.value)
    else
      var f := Vault.FetchSpec(n.state, store);
      f.result
  }

  /** `Sync`: apply the overrides, connect, fetch, extract; then write and
      notify only when the files differ from the payloads. The first error
      ends the cycle. */
  function Cycle(s: SyncState, env: Env, tokenFiles: map<string, string>, store: Vault.Store, run: Runner): (r: Outcome)
    ensures r.state.config == EnvOverride(s.config, env)
    ensures s.host.effects <= r.state.host.effects
    ensures r.state.host.disk.(files := s.host.disk.files, dirs := s.host.disk.dirs) == s.host.disk
    ensures var c := r.state.config;
      && r.err.None?
      && c.filePathFullChain != c.filePathKey
      && c.filePathFullChain !in s.host.disk.unreadable && c.filePathKey !in s.host.disk.unreadable
      ==> !FilesChanged(r.state)
  {
    var s1 := s.(config := EnvOverride(s.config, env));
    match Fetched(s1.config, env, tokenFiles, store)
    case Failure(e) => Outcome(Some(e), s1)
    case Success(secret) =>
      var read := ReadCertDataSpec(s1, secret);
      if read.err.Some? then read
      else if !FilesChanged(read.state) then read
      else
        var w := WriteFilesSpec(read.state);
        if w.err.Some? then w
        else
          var c := read.state.config;
          assert && c.filePathFullChain != c.filePathKey
                 && c.filePathFullChain !in s.host.disk.unreadable && c.filePathKey !in s.host.disk.unreadable
                 ==> !FilesChanged(w.state) by {
            if && c.filePathFullChain != c.filePathKey
               && c.filePathFullChain !in s.host.disk.unreadable && c.filePathKey !in s.host.disk.unreadable {
              WrittenFilesAreUnchanged(read.state);
            }
          }
          PostSyncSpec(w.state, run)
  }

  /** The state a cycle compares with the disk, when it gets that far. */
  function Compared(s: SyncState, env: Env, tokenFiles: map<string, string>, store: Vault.Store): Option<SyncState>
  {
    var c := EnvOverride(s.config, env);
    match Fetched(c, env, tokenFiles, store)
    case Failure(_) => None
    case Success(secret) =>
      match ExtractCertData(c, secret)
      case Failure(_) => None
      case Success(x) => Some(SyncState(c, x.fullChain, x.key, s.host))
  }

  /** A cycle that fails to connect, to fetch or to extract returns an error
      and leaves the host as it was: no directory, no file, no command. */
  lemma CycleFailsBeforeTouchingFiles(s: SyncState, env: Env, tokenFiles: map<string, string>,
                                      store: Vault.Store, run: Runner)
    requires Compared(s, env, tokenFiles, store).None?
    ensures var o := Cycle(s, env, tokenFiles, store, run);
      o.err.Some? && o.state.host == s.host
  {
  }

  /** No write and no command without a detected change: when the payloads
      match the files, the cycle succeeds and the host is untouched. */
  lemma CycleQuietWithoutChange(s: SyncState, env: Env, tokenFiles: map<string, string>,
                                store: Vault.Store, run: Runner)
    requires Compared(s, env, tokenFiles, store).Some?
    requires !FilesChanged(Compared(s, env, tokenFiles, store).value)
    ensures Cycle(s, env, tokenFiles, store, run) == Outcome(None, Compared(s, env, tokenFiles, store).value)
  {
  }

  /** A command, if any, is the last effect and comes right after the writes
      of the chain file and of the key file. */
  predicate CommandAfterWrites(e: seq<Effect>, chainPath: Path, keyPath: Path)
  {
    forall i | 0 <= i < |e| && e[i].RanCommand? ::
      && i == |e| - 1 && i >= 2
      && e[i - 2] == WroteFile(chainPath)
      && e[i - 1] == WroteFile(keyPath)
  }

  /** The effects a cycle adds to those of `before`. */
  function NewEffects(before: SyncState, after: SyncState): seq<Effect>
  {
    if |before.host.effects| <= |after.host.effects| then after.host.effects[|before.host.effects|..] else []
  }

  /** Directories, then the two writes, then possibly a command: the
      ordering holds. */
  lemma WritesThenCommand(dirs: seq<Effect>, chainPath: Path, keyPath: Path, tail: seq<Effect>)
    requires OnlyDirs(dirs)
    requires |tail| <= 1
    ensures CommandAfterWrites(dirs + [WroteFile(chainPath), WroteFile(keyPath)] + tail, chainPath, keyPath)
  {
    var f := dirs + [WroteFile(chainPath), WroteFile(keyPath)] + tail;
    var n := |dirs|;
    forall i | 0 <= i < |f|
      ensures f[i].RanCommand? ==>
        i == |f| - 1 && i >= 2 && f[i - 2] == WroteFile(chainPath) && f[i - 1] == WroteFile(keyPath)
    {
      if i < n {
        assert f[i] == dirs[i] && dirs[i] in dirs;
      } else if i < n + 2 {
        assert f[i] == [WroteFile(chainPath), WroteFile(keyPath)][i - n];
      } else {
        assert f[i - 2] == WroteFile(chainPath) && f[i - 1] == WroteFile(keyPath);
      }
    }
  }

  /** The effects of a write followed by the command satisfy the ordering. */
  lemma WriteThenCommandOrder(t: SyncState, run: Runner)
    requires WriteFilesSpec(t).err.None?
    ensures var p := PostSyncSpec(WriteFilesSpec(t).state, run);
      && t.host.effects <= p.state.host.effects
      && CommandAfterWrites(NewEffects(t, p.state), t.config.filePathFullChain, t.config.filePathKey)
  {
    var cp, kp := t.config.filePathFullChain, t.config.filePathKey;
    var w := WriteFilesSpec(t);
    var p := PostSyncSpec(w.state, run);
    WriteFilesSuccess(t);
    DirsMadeAreDirs(t);
    var n := |t.host.effects|;
    var tail := p.state.host.effects[|w.state.host.effects|..];
    assert |tail| <= 1;
    assert p.state.host.effects == w.state.host.effects + tail;
    assert NewEffects(t, p.state) == w.state.host.effects[n..] + tail;
    WritesThenCommand(DirsMade(t), cp, kp, tail);
  }

  /** A failed write runs no command. */
  lemma FailedWriteRunsNothing(t: SyncState)
    requires WriteFilesSpec(t).err.Some?
    ensures var w := WriteFilesSpec(t);
      && t.host.effects <= w.state.host.effects
      && forall x <- NewEffects(t, w.state) :: !x.RanCommand?
  {
    WriteFilesFailure(t);
    DirsMadeAreDirs(t);
  }

  /** The effects of a cycle, in order: some directories, then the chain file,
      then the key file, and only then, as the very last effect, the command. */
  lemma CycleCommandFollowsBothWrites(s: SyncState, env: Env, tokenFiles: map<string, string>,
                                      store: Vault.Store, run: Runner)
    ensures var o := Cycle(s, env, tokenFiles, store, run);
      && s.host.effects <= o.state.host.effects
      && CommandAfterWrites(NewEffects(s, o.state), o.state.config.filePathFullChain, o.state.config.filePathKey)
  {
    var o := Cycle(s, env, tokenFiles, store, run);
    var t := Compared(s, env, tokenFiles, store);
    if t.None? {
      CycleFailsBeforeTouchingFiles(s, env, tokenFiles, store, run);
      assert NewEffects(s, o.state) == [];
    } else if !FilesChanged(t.value) {
      CycleQuietWithoutChange(s, env, tokenFiles, store, run);
      assert NewEffects(s, o.state) == [];
    } else {
      CycleWrites(s, env, tokenFiles, store, run);
      var w := WriteFilesSpec(t.value);
      if w.err.None? {
        WriteThenCommandOrder(t.value, run);
      } else {
        FailedWriteRunsNothing(t.value);
      }
    }
  }

  /** Once a change is detected, a cycle is the write followed, when the write
      succeeds, by the command. */
  lemma CycleWrites(s: SyncState, env: Env, tokenFiles: map<string, string>,
                    store: Vault.Store, run: Runner)
    requires Compared(s, env, tokenFiles, store).Some?
    requires FilesChanged(Compared(s, env, tokenFiles, store).value)
    ensures var t := Compared(s, env, tokenFiles, store).value;
      var w := WriteFilesSpec(t);
      Cycle(s, env, tokenFiles, store, run) == if w.err.Some? then w else PostSyncSpec(w.state, run)
  {
  }

  /** A failing command is the cycle's error even though both files were
      written: they keep the new payloads, there is no rollback. */
  lemma CycleCommandFailureKeepsFiles(s: SyncState, env: Env, tokenFiles: map<string, string>,
                                      store: Vault.Store, run: Runner)
    requires Compared(s, env, tokenFiles, store).Some?
    requires var t := Compared(s, env, tokenFiles, store).value;
      FilesChanged(t) && WriteFilesSpec(t).err.None?
    ensures var t := Compared(s, env, tokenFiles, store).value;
      var o := Cycle(s, env, tokenFiles, store, run);
      && o.state.host.disk.files
           == t.host.disk.files[t.config.filePathFullChain := t.fullChain][t.config.filePathKey := t.key]
      && (o.err.Some? <==> t.config.syncCompleteCommand != "" && !run(SplitCommand(t.config.syncCompleteCommand).program,
                                                                    SplitCommand(t.config.syncCompleteCommand).args))
  {
    var t := Compared(s, env, tokenFiles, store).value;
    CycleWrites(s, env, tokenFiles, store, run);
    WriteFilesSuccess(t);
    var w := WriteFilesSpec(t);
    assert Cycle(s, env, tokenFiles, store, run) == PostSyncSpec(w.state, run);
    assert w.state.config == t.config;
  }

  /** Idempotence: after a successful cycle, a second cycle with the same
      environment, store and command runner succeeds, writes nothing and runs
      no command, provided the two files are distinct and readable. */
  lemma CycleIdempotent(s: SyncState, env: Env, tokenFiles: map<string, string>,
                        store: Vault.Store, run: Runner)
    requires Cycle(s, env, tokenFiles, store, run).err.None?
    requires var c := EnvOverride(s.config, env);
      && c.filePathFullChain != c.filePathKey
      && c.filePathFullChain !in s.host.disk.unreadable
      && c.filePathKey !in s.host.disk.unreadable
    ensures var o := Cycle(s, env, tokenFiles, store, run);
      Cycle(o.state, env, tokenFiles, store, run) == o
  {
    var o := Cycle(s, env, tokenFiles, store, run);
    var c := EnvOverride(s.config, env);
    EnvOverrideIdempotent(s.config, env);
    assert o.state.config == c;
    var secret := Fetched(c, env, tokenFiles, store).value;
    var r := ReadCertDataSpec(s.(config := c), secret);
    if FilesChanged(r.state) {
      WrittenFilesAreUnchanged(r.state);
    }
    assert !FilesChanged(o.state.(host := o.state.host));
  }

  // ---------------------------------------------------------------------
  // main

  /** The process exit status and the state the process ends in. */
  datatype Exit = Exit(code: int, state: SyncState)

  /** The exit decision of `main` after flag parsing: an empty secret path
      exits with status 1 before any cycle; otherwise the status is 0 exactly
      when the cycle succeeds. */
  function MainExit(s: SyncState, env: Env, tokenFiles: map<string, string>, store: Vault.Store, run: Runner): (x: Exit)
    ensures x.code == 0 || x.code == 1
    ensures x.code == 0 <==> s.config.vaultKVPath != "" && Cycle(s, env, tokenFiles, store, run).err.None?
    ensures s.config.vaultKVPath == "" ==> x.state == s
    ensures s.config.vaultKVPath != "" ==> x.state == Cycle(s, env, tokenFiles, store, run).state
  {
    if s.config.vaultKVPath == "" then Exit(1, s)
    else
      var o := Cycle(s, env, tokenFiles, store, run);
      Exit(if o.err.None? then 0 else 1, o.state)
  }

  /** The overrides are applied inside the cycle, after the path check: a
      `VAULT_KV_PATH` that would supply the missing path is never consulted,
      and the process exits with status 1 without touching the host. */
  lemma KVPathVariableComesTooLate(s: SyncState, env: Env, tokenFiles: map<string, string>,
                                   store: Vault.Store, run: Runner)
    requires s.config.vaultKVPath == "" && Getenv(env, "VAULT_KV_PATH") != ""
    ensures EnvOverride(s.config, env).vaultKVPath != ""
    ensures MainExit(s, env, tokenFiles, store, run) == Exit(1, s)
  {
  }

  // ---------------------------------------------------------------------
  // The SyncConfig object

  /** A `SyncConfig`: the configuration strings, the two decoded payloads, and
      the host the cycle works on. */
  class SyncConfig {
    var vaultKVPath: string
    var vaultCertField: string
    var vaultKeyField: string
    var vaultChainField: string
    var vaultAddr: string
    var filePathFullChain: string
    var filePathKey: string
    var syncCompleteCommand: string
    var fullChainContents: Bytes
    var keyContents: Bytes
    var host: Host

    function Settings(): Config
      reads this
    {
      Config(vaultKVPath, vaultCertField, vaultKeyField, vaultChainField, vaultAddr,
             filePathFullChain, filePathKey, syncCompleteCommand)
    }

    function State(): SyncState
      reads this
    {
      SyncState(Settings(), fullChainContents, keyContents, host)
    }

    /** The configuration after flag parsing: the seven flags give their
        values; there is no flag for the store address. */
    constructor (vaultKVPath: string, filePathFullChain: string, filePathKey: string,
                 syncCompleteCommand: string, vaultCertField: string, vaultKeyField: string,
                 vaultChainField: string, host: Host)
      ensures State() == SyncState(Config(vaultKVPath, vaultCertField, vaultKeyField, vaultChainField, "",
                                      filePathFullChain, filePathKey, syncCompleteCommand),
                               [], [], host)
    {
      this.vaultKVPath := vaultKVPath;
      this.vaultCertField := vaultCertField;
      this.vaultKeyField := vaultKeyField;
      this.vaultChainField := vaultChainField;
      this.vaultAddr := "";
      this.filePathFullChain := filePathFullChain;
      this.filePathKey := filePathKey;
      this.syncCompleteCommand := syncCompleteCommand;
      this.fullChainContents := [];
      this.keyContents := [];
      this.host := host;
    }

    method EnvConfig(env: Env)
      modifies this
      ensures State() == old(State()).(config := EnvOverride(old(Settings()), env))
    {
      ghost var target := EnvOverride(Settings(), env);
      vaultAddr := Override(env, "VAULT_ADDR", vaultAddr);
      vaultKVPath := Override(env, "VAULT_KV_PATH", vaultKVPath);
      filePathFullChain := Override(env, "FULL_CHAIN_FILE", filePathFullChain);
      filePathKey := Override(env, "KEY_FILE", filePathKey);
      syncCompleteCommand := Override(env, "SYNC_COMPLETE_COMMAND", syncCompleteCommand);
      vaultCertField := Override(env, "VAULT_CERT_FIELD", vaultCertField);
      vaultChainField := Override(env, "VAULT_CHAIN_FIELD", vaultChainField);
      vaultKeyField := Override(env, "VAULT_KEY_FIELD", vaultKeyField);
      assert Settings() == target;
    }

    method ReadCertData(cert: Vault.Secret) returns (err: Option<Error>)
      modifies this
      ensures Outcome(err, State()) == ReadCertDataSpec(old(State()), cert)
    {
      if vaultCertField == "" {
        return Some(NoCertField);
      }
      if vaultKeyField == "" {
        return Some(NoKeyField);
      }
      var certB64 := StringField(cert, vaultCertField);
      if certB64.None? {
        return Some(CertNotFound);
      }
      var keyB64 := StringField(cert, vaultKeyField);
      if keyB64.None? {
        return Some(KeyNotFound);
      }
      var certBytes := Base64.Decode(certB64.value);
      if certBytes.None? {
        return Some(CorruptBase64);
      }
      var keyBytes := Base64.Decode(keyB64.value);
      if keyBytes.None? {
        return Some(CorruptBase64);
      }
      fullChainContents := certBytes.value;
      if vaultChainField != "" {
        var chainB64 := StringField(cert, vaultChainField);
        if chainB64.None? {
          return Some(ChainNotFound);
        }
        var chainBytes := Base64.Decode(chainB64.value);
        if chainBytes.None? {
          return Some(CorruptBase64);
        }
        fullChainContents := fullChainContents + chainBytes.value;
      }
      keyContents := keyBytes.value;
      return None;
    }

    method WriteFiles() returns (err: Option<Error>)
      modifies this
      ensures Outcome(err, State()) == WriteFilesSpec(old(State()))
    {
      var chainDir := ParentDir(filePathFullChain);
      var keyDir := ParentDir(filePathKey);
      if !Exists(host.disk, chainDir) {
        var m := MkdirAll(host, chainDir);
        host := m.host;
        if m.err.Some? {
          return m.err;
        }
      }
      if !Exists(host.disk, keyDir) {
        var m := MkdirAll(host, keyDir);
        host := m.host;
        if m.err.Some? {
          return m.err;
        }
      }
      var w := WriteFile(host, filePathFullChain, fullChainContents);
      host := w.host;
      if w.err.Some? {
        return w.err;
      }
      w := WriteFile(host, filePathKey, keyContents);
      host := w.host;
      return w.err;
    }

    method RunPostSyncCmd(run: Runner) returns (err: Option<Error>)
      modifies this
      ensures Outcome(err, State()) == PostSyncSpec(old(State()), run)
    {
      if syncCompleteCommand == "" {
        return None;
      }
      var cl := SplitCommand(syncCompleteCommand);
      host := host.(effects := host.effects + [RanCommand(cl.program, cl.args)]);
      if !run(cl.program, cl.args) {
        return Some(CommandFailed(cl.program));
      }
      return None;
    }

    method Sync(env: Env, tokenFiles: map<string, string>, store: Vault.Store, run: Runner)
      returns (err: Option<Error>)
      modifies this
      ensures Outcome(err, State()) == Cycle(old(State()), env, tokenFiles, store, run)
    {
      EnvConfig(env);
      var vs := new Vault.VaultSecret(vaultAddr, vaultKVPath);
      err := vs.NewClient(env, tokenFiles, store);
      if err.Some? {
        return;
      }
      var cert := vs.GetKVSecret(store);
      if cert.Failure? {
        return Some(cert.error);
      }
      err := ReadCertData(cert.value);
      if err.Some? {
        return;
      }
      if FilesChanged(State()) {
        err := WriteFiles();
        if err.Some? {
          return;
        }
        err := RunPostSyncCmd(run);
        if err.Some? {
          return;
        }
      }
      return None;
    }

    /** `main` after flag parsing. */
    method Run(env: Env, tokenFiles: map<string, string>, store: Vault.Store, run: Runner)
      returns (exitCode: int)
      modifies this
      ensures Exit(exitCode, State()) == MainExit(old(State()), env, tokenFiles, store, run)
    {
      if vaultKVPath == "" {
        return 1;
      }
      var err := Sync(env, tokenFiles, store, run);
      exitCode := if err.None? then 0 else 1;
    }
  }
}

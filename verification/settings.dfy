/** The configuration record of config.go and its loader `loadConfig`: the
    TOML decoder, `os.Stat`, `os.ReadFile` and `systemd-analyze` are given as
    parameters; the package-level variable `AppFileDir` and the decoded
    configuration are the fields of a `Process` object that the loader
    updates in place. */
module Settings {
  import opened Common

  newtype uint8 = x: int | 0 <= x < 256

  datatype Remote = Remote(kind: string, root: string, user: string, password: string, script: string, destDir: string)

  datatype Target = Target(path: string, remote: string, interval: string)

  datatype BackupListSettings = BackupListSettings(enabled: bool, cleanEntries: bool, olderThan: string)

  datatype Config = Config(
    archive: string,
    archiveDir: string,
    compression: string,
    compressionLevel: uint8,
    deleteAfterUpload: bool,
    backupList: BackupListSettings,
    idLength: int,
    remotes: map<string, Remote>,
    targets: map<string, Target>,
    configPath: string)

  /** Go's zero values, which a lookup of a missing map key yields. */
  const NoRemote := Remote("", "", "", "", "", "")
  const NoTarget := Target("", "", "")
  const EmptyConfig := Config("", "", "", 0, false, BackupListSettings(false, false, ""), 0, map[], map[], "")

  function RemoteNamed(remotes: map<string, Remote>, name: string): Remote {
    if name in remotes then remotes[name] else NoRemote
  }

  function TargetNamed(targets: map<string, Target>, name: string): Target {
    if name in targets then targets[name] else NoTarget
  }

  const DefaultCuidLength := 8
  const FilePrefix := "file:"
  const SystemConfigPath := "/etc/qbsgo/qbsgo.toml"
  const LocalConfigPath := "./qbsgo.toml"
  const SystemAppFileDir := "/etc/qbsgo/"
  const LocalAppFileDir := "./"

  datatype LoadError =
    | DecodeFailed(path: string)
    | PasswordFileUnreadable(remote: string)
    | InvalidInterval(targetPath: string, interval: string)

  /** The password a remote has once loaded: a `file:` password is replaced
      by the trimmed contents of the file it names; None when that file cannot
      be read (a fatal error). */
  function ResolvedPassword(password: string, readFile: string -> Option<string>): (r: Option<string>)
    ensures !HasPrefix(password, FilePrefix) ==> r == Some(password)
    ensures HasPrefix(password, FilePrefix) ==>
      (r.None? <==> readFile(password[|FilePrefix|..]).None?)
    ensures r.Some? && HasPrefix(password, FilePrefix) ==>
      |r.value| <= |readFile(password[|FilePrefix|..]).value|
  {
    if !HasPrefix(password, FilePrefix) then Some(password)
    else
      match readFile(password[|FilePrefix|..])
      case None => None
      case Some(contents) => Some(TrimSpace(contents))
  }

  /** A password read from a file never keeps surrounding white space, and
      the file's contents are what is left of it after trimming. */
  lemma FilePasswordIsTrimmed(password: string, readFile: string -> Option<string>)
    requires HasPrefix(password, FilePrefix)
    requires ResolvedPassword(password, readFile).Some?
    ensures var p := ResolvedPassword(password, readFile).value;
      p == [] || (!IsSpace(p[0]) && !IsSpace(p[|p| - 1]))
    ensures var p := ResolvedPassword(password, readFile).value;
      var contents := readFile(password[|FilePrefix|..]).value;
      exists i :: SurroundedBySpace(contents, p, i)
  {
    TrimSpaceSlice(readFile(password[|FilePrefix|..]).value);
  }

  /** A remote as loaded: only its password can change. */
  function ResolvedRemote(remote: Remote, readFile: string -> Option<string>): (r: Option<Remote>)
    ensures r.Some? <==> ResolvedPassword(remote.password, readFile).Some?
    ensures r.Some? ==> r.value == remote.(password := ResolvedPassword(remote.password, readFile).value)
  {
    match ResolvedPassword(remote.password, readFile)
    case None => None
    case Some(password) => Some(remote.(password := password))
  }

  ghost predicate PasswordsResolvable(remotes: map<string, Remote>, readFile: string -> Option<string>) {
    forall name :: name in remotes ==> ResolvedRemote(remotes[name], readFile).Some?
  }

  ghost predicate IntervalsAccepted(targets: map<string, Target>, accepted: string -> bool) {
    forall name :: name in targets ==> accepted(targets[name].interval)
  }

  /** Each remote with its password resolved; every other field as decoded. */
  ghost function ResolvePasswords(remotes: map<string, Remote>, readFile: string -> Option<string>): (r: map<string, Remote>)
    requires PasswordsResolvable(remotes, readFile)
    ensures r.Keys == remotes.Keys
  {
    map name | name in remotes :: ResolvedRemote(remotes[name], readFile).value
  }

  /** The state of the password loop: the remotes in `pending` are still as
      decoded, every other remote is resolved. */
  ghost predicate ResolvedExcept(remotes: map<string, Remote>, readFile: string -> Option<string>,
                                 resolved: map<string, Remote>, pending: set<string>)
  {
    && pending <= remotes.Keys
    && resolved.Keys == remotes.Keys
    && (forall name :: name in pending ==> resolved[name] == remotes[name])
    && (forall name :: name in remotes && name !in pending ==>
          ResolvedRemote(remotes[name], readFile) == Some(resolved[name]))
  }

  /** One turn of the password loop on a remote that resolves: a `file:`
      password is written back, any other remote already is as loaded. */
  lemma ResolvedExceptStep(remotes: map<string, Remote>, readFile: string -> Option<string>,
                           resolved: map<string, Remote>, pending: set<string>, name: string)
    requires ResolvedExcept(remotes, readFile, resolved, pending) && name in pending
    requires ResolvedRemote(remotes[name], readFile).Some?
    ensures var loaded := ResolvedRemote(remotes[name], readFile).value;
      var next := if HasPrefix(remotes[name].password, FilePrefix) then resolved[name := loaded] else resolved;
      ResolvedExcept(remotes, readFile, next, pending - {name})
  {
    var remote := remotes[name];
    var loaded := ResolvedRemote(remote, readFile).value;
    var next := if HasPrefix(remote.password, FilePrefix) then resolved[name := loaded] else resolved;
    assert next[name] == loaded by {
      if !HasPrefix(remote.password, FilePrefix) {
        assert remote.(password := remote.password) == remote;
      }
    }
    forall n | n in pending - {name}
      ensures next[n] == remotes[n]
    {
      assert next[n] == resolved[n];
    }
    forall n | n in remotes && n !in pending - {name}
      ensures ResolvedRemote(remotes[n], readFile) == Some(next[n])
    {
      if n != name {
        assert next[n] == resolved[n];
      }
    }
  }

  /** When nothing is pending, every password resolved and the map is the
      resolved one. */
  lemma ResolvedExceptDone(remotes: map<string, Remote>, readFile: string -> Option<string>,
                           resolved: map<string, Remote>)
    requires ResolvedExcept(remotes, readFile, resolved, {})
    ensures PasswordsResolvable(remotes, readFile)
    ensures resolved == ResolvePasswords(remotes, readFile)
  {
    forall name | name in remotes
      ensures ResolvedRemote(remotes[name], readFile).Some?
      ensures resolved[name] == ResolvedRemote(remotes[name], readFile).value
    {
    }
    var all := ResolvePasswords(remotes, readFile);
    assert forall name :: name in remotes ==> resolved[name] == all[name];
  }

  /** The loop of config.go:86-100 over `config.Remotes`, in Go's unspecified
      map order: every `file:` password is resolved; the first remote whose
      password file cannot be read stops the loop and is named. */
  method ResolveRemotePasswords(remotes: map<string, Remote>, readFile: string -> Option<string>)
    returns (resolved: map<string, Remote>, unreadable: Option<string>)
    ensures unreadable.None? <==> PasswordsResolvable(remotes, readFile)
    ensures unreadable.None? ==> resolved == ResolvePasswords(remotes, readFile)
    ensures unreadable.Some? ==>
      unreadable.value in remotes && ResolvedRemote(remotes[unreadable.value], readFile).None?
  {
    resolved := remotes;
    var pending := remotes.Keys;
    while pending != {}
      invariant ResolvedExcept(remotes, readFile, resolved, pending)
      decreases pending
    {
      var name :| name in pending;
      var remote := resolved[name];
      var loaded := ResolvedRemote(remote, readFile);
      if loaded.None? {
        return resolved, Some(name);
      }
      ResolvedExceptStep(remotes, readFile, resolved, pending, name);
      if HasPrefix(remote.password, FilePrefix) {
        resolved := resolved[name := loaded.value];
      }
      pending := pending - {name};
    }
    unreadable := None;
    ResolvedExceptDone(remotes, readFile, resolved);
  }

  /** The validation loop of config.go:106-113: the first target (in map
      order) whose interval `systemd-analyze calendar` rejects is returned. */
  method CheckIntervals(targets: map<string, Target>, accepted: string -> bool) returns (rejected: Option<Target>)
    ensures rejected.None? <==> IntervalsAccepted(targets, accepted)
    ensures rejected.Some? ==> rejected.value in targets.Values && !accepted(rejected.value.interval)
  {
    var unchecked := targets.Keys;
    while unchecked != {}
      invariant unchecked <= targets.Keys
      invariant forall name :: name in targets && name !in unchecked ==> accepted(targets[name].interval)
      decreases unchecked
    {
      var name :| name in unchecked;
      if !accepted(targets[name].interval) {
        return Some(targets[name]);
      }
      unchecked := unchecked - {name};
    }
    rejected := None;
  }

  /** The process-wide state `loadConfig` writes: the global `AppFileDir`
      and the configuration it decodes into. */
  class Process {
    var appFileDir: string
    var config: Config

    constructor ()
      ensures appFileDir == SystemAppFileDir && config == EmptyConfig
    {
      appFileDir := SystemAppFileDir;
      config := EmptyConfig;
    }

    /** `loadConfig(&config, validate)`. `systemConfigExists` is the answer of
        `os.Stat` for the system path, `decode` the TOML decoder (None when it
        fails), `readFile` reads a password file and `accepted` is the verdict
        of `systemd-analyze calendar`. A result other than None is a fatal
        error (`log.Fatal`), after which the state no longer matters. */
    method LoadConfig(validate: bool, systemConfigExists: bool, decode: string -> Option<Config>,
                      readFile: string -> Option<string>, accepted: string -> bool)
      returns (err: Option<LoadError>)
      modifies this
      ensures var path := if systemConfigExists then SystemConfigPath else LocalConfigPath;
        err.None? <==>
          decode(path).Some?
          && PasswordsResolvable(decode(path).value.remotes, readFile)
          && (validate ==> IntervalsAccepted(decode(path).value.targets, accepted))
      ensures err.None? ==>
        var path := if systemConfigExists then SystemConfigPath else LocalConfigPath;
        var decoded := decode(path).value;
        && appFileDir == (if systemConfigExists then old(appFileDir) else LocalAppFileDir)
        && config == decoded.(configPath := path,
                              idLength := if decoded.idLength == 0 then DefaultCuidLength else decoded.idLength,
                              remotes := ResolvePasswords(decoded.remotes, readFile))
      ensures err.Some? && err.value.PasswordFileUnreadable? ==>
        var path := if systemConfigExists then SystemConfigPath else LocalConfigPath;
        decode(path).Some? &&
        var remotes := decode(path).value.remotes;
        err.value.remote in remotes && ResolvedRemote(remotes[err.value.remote], readFile).None?
    {
      var path := SystemConfigPath;
      if !systemConfigExists {
        appFileDir := LocalAppFileDir;
        path := LocalConfigPath;
      }
      var decoded := decode(path);
      if decoded.None? {
        return Some(DecodeFailed(path));
      }
      config := decoded.value.(configPath := path);
      if config.idLength == 0 {
        config := config.(idLength := DefaultCuidLength);
      }
      var resolved, unreadable := ResolveRemotePasswords(config.remotes, readFile);
      if unreadable.Some? {
        return Some(PasswordFileUnreadable(unreadable.value));
      }
      config := config.(remotes := resolved);
      if !validate {
        return None;
      }
      var rejected := CheckIntervals(config.targets, accepted);
      if rejected.Some? {
        return Some(InvalidInterval(rejected.value.path, rejected.value.interval));
      }
      err := None;
    }
  }
}

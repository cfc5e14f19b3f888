/** copyparty.go: the command line `copypartyUpload` gives the copyparty
    upload helper, and the location it reports for the uploaded file.

    `url.JoinPath` is the parameter `join`, and how the helper process ends
    is the parameter `runs`. The configuration is passed by value: appending
    ":" to the user name edits the function's own copy of the remote and
    never the configuration's map. */
module Copyparty {
  import opened Common
  import opened Settings

  /** `exec.Command(script, authArg, dest, inputFile)`. */
  datatype Command = Command(script: string, authArg: string, dest: string, inputFile: string)

  datatype UploadError = JoinFailed | CommandFailed

  /** The two results of `copypartyUpload` and the command it ran, if any. */
  datatype Upload = Upload(location: string, ran: Option<Command>, err: Option<UploadError>)

  const DefaultScript := "u2c"

  /** The helper to run: the remote's script, or `u2c` when none is set. */
  function Script(remote: Remote): (s: string)
    ensures s != ""
    ensures remote.script != "" ==> s == remote.script
  {
    if remote.script == "" then DefaultScript else remote.script
  }

  /** The single argument carrying the credentials: empty without a
      password, even when a user is set. */
  function AuthArg(user: string, password: string): (a: string)
    ensures password == "" <==> a == ""
    ensures password != "" ==> |a| >= 3 + |password| && HasPrefix(a, "-a ") && a[|a| - |password|..] == password
  {
    var userPart := if user != "" then user + ":" else user;
    if password != "" then "-a " + userPart + password else ""
  }

  /** Reading the credentials back from the argument: the text after `-a `
      up to the first ':' is the user, the rest the password; without a ':'
      it is all password. */
  function Credentials(a: string): (string, string) {
    var text := if HasPrefix(a, "-a ") then a[3..] else a;
    var parts := Split(text, ':');
    if |parts| == 1 then ("", text)
    else (parts[0], Join(parts[1..], ":"))
  }

  /** The helper sees the user and password that were configured, as long
      as the password is set, the user has no ':', and a password without a
      user has no ':' either. */
  lemma CredentialsRoundTrip(user: string, password: string)
    requires password != "" && ':' !in user
    requires user == "" ==> ':' !in password
    ensures Credentials(AuthArg(user, password)) == (user, password)
  {
    var a := AuthArg(user, password);
    assert HasPrefix(a, "-a ");
    var text := a[3..];
    if user == "" {
      assert text == password;
      SplitWithoutSeparator(password, ':');
    } else {
      assert text == user + [':'] + password;
      SplitAtSeparator(user, password, ':');
      JoinSplit(password, ':');
    }
  }

  /** `c.copypartyUpload(remoteName, inputFile, fileName)`. */
  function CopypartyUpload(remotes: map<string, Remote>, remoteName: string, inputFile: string, fileName: string,
                           join: UrlJoin, runs: Command -> bool): (r: Upload)
    ensures r.err == None ==> r.ran.Some?
    ensures r.err == Some(JoinFailed) <==> r.ran.None?
    ensures r.ran.None? ==> r.location == ""
  {
    var remote := RemoteNamed(remotes, remoteName);
    match join(remote.root, [remote.destDir])
    case None => Upload("", None, Some(JoinFailed))
    case Some(dest) =>
      match join(dest, [fileName])
      case None => Upload("", None, Some(JoinFailed))
      case Some(destWithFile) =>
        var cmd := Command(Script(remote), AuthArg(remote.user, remote.password), dest, inputFile);
        Upload(destWithFile, Some(cmd), if runs(cmd) then None else Some(CommandFailed))
  }

  /** When both joins succeed, the helper is run once with the configured
      script and credentials, the directory URL (not the file's) and the
      local file; the reported location is the file's URL whether or not
      the helper succeeds. */
  lemma UploadRunsTheHelper(remotes: map<string, Remote>, remoteName: string, inputFile: string, fileName: string,
                            join: UrlJoin, runs: Command -> bool)
    requires var remote := RemoteNamed(remotes, remoteName);
      join(remote.root, [remote.destDir]).Some? && join(join(remote.root, [remote.destDir]).value, [fileName]).Some?
    ensures var remote := RemoteNamed(remotes, remoteName);
      var dest := join(remote.root, [remote.destDir]).value;
      var r := CopypartyUpload(remotes, remoteName, inputFile, fileName, join, runs);
      && r.ran == Some(Command(Script(remote), AuthArg(remote.user, remote.password), dest, inputFile))
      && r.location == join(dest, [fileName]).value
      && (r.err.None? <==> runs(r.ran.value))
  {
  }

  /** A failed join is reported before anything runs: either join failing
      gives the empty location and no command. */
  lemma JoinFailureRunsNothing(remotes: map<string, Remote>, remoteName: string, inputFile: string, fileName: string,
                               join: UrlJoin, runs: Command -> bool)
    requires var remote := RemoteNamed(remotes, remoteName);
      join(remote.root, [remote.destDir]).None?
      || join(join(remote.root, [remote.destDir]).value, [fileName]).None?
    ensures CopypartyUpload(remotes, remoteName, inputFile, fileName, join, runs) == Upload("", None, Some(JoinFailed))
  {
  }

  /** The command does not depend on the file name, and the location does
      not depend on how the helper ends. */
  lemma CommandIgnoresFileName(remotes: map<string, Remote>, remoteName: string, inputFile: string,
                               name1: string, name2: string, join: UrlJoin, runs1: Command -> bool, runs2: Command -> bool)
    requires var remote := RemoteNamed(remotes, remoteName);
      join(remote.root, [remote.destDir]).Some?
      && join(join(remote.root, [remote.destDir]).value, [name1]).Some?
      && join(join(remote.root, [remote.destDir]).value, [name2]).Some?
    ensures CopypartyUpload(remotes, remoteName, inputFile, name1, join, runs1).ran
         == CopypartyUpload(remotes, remoteName, inputFile, name2, join, runs2).ran
    ensures CopypartyUpload(remotes, remoteName, inputFile, name1, join, runs1).location
         == CopypartyUpload(remotes, remoteName, inputFile, name1, join, runs2).location
  {
    UploadRunsTheHelper(remotes, remoteName, inputFile, name1, join, runs1);
    UploadRunsTheHelper(remotes, remoteName, inputFile, name2, join, runs2);
    UploadRunsTheHelper(remotes, remoteName, inputFile, name1, join, runs2);
  }
}

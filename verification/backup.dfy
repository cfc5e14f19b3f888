/** The per-target run of backup.go: the archive's file extension and file
    name, `writeToFileFirst`, and the loop of `backup` with its policy for
    build failures, uploads and deletion.

    The local file system is the `Host` object: the archives stored under
    their paths and a log of what was done to them. The cuid2 generator and
    the clock are functions of the loop iteration, `path.Join` and the walk
    are parameters, and the copyparty upload is the host's oracle
    `uploadAccepted`. The flag `WriteToFileFirst`, which the configuration
    record does not declare, is a separate parameter. */
module Backup {
  import opened Common
  import opened Settings
  import opened Archive

  // ---------------------------------------------------------------------
  // The extension (backup.go:29-38)
  // ---------------------------------------------------------------------

  /** `fileExt`: the archive setting, with `.gz` or `.zst` after `tar` for
      gzip or zstd compression. */
  function FileExtension(archive: string, compression: string): string {
    if archive == "tar" && compression == "gzip" then archive + ".gz"
    else if archive == "tar" && compression == "zstd" then archive + ".zst"
    else archive
  }

  /** For every format `createArchive` accepts, the extension names the
      container and the compression it actually writes. */
  lemma ExtensionNamesTheFormat(archive: string, compression: string, level: uint8)
    requires FormatFor(archive, compression, level).Ok?
    ensures FileExtension(archive, compression)
         == match FormatFor(archive, compression, level).value
            case Tar(Zstd) => "tar.zst"
            case Tar(Gzip(_)) => "tar.gz"
            case Tar(Uncompressed) => "tar"
            case Zip(_) => "zip"
  {
  }

  /** Only tar gets a suffix; zip, or any other archive setting, is its own
      extension. */
  lemma ExtensionExtendsArchive(archive: string, compression: string)
    ensures HasPrefix(FileExtension(archive, compression), archive)
    ensures archive != "tar" ==> FileExtension(archive, compression) == archive
  {
    var ext := FileExtension(archive, compression);
    assert ext[..|archive|] == archive;
  }

  // ---------------------------------------------------------------------
  // The file name (backup.go:44-47)
  // ---------------------------------------------------------------------

  type MonthNum = m: int | 1 <= m <= 12 witness 1

  /** A reading of `time.Now()`: `Year()`, `Month()` and `Day()`. */
  datatype Date = Date(year: nat, month: MonthNum, day: nat)

  /** `time.Month.String()`. */
  function MonthName(m: MonthNum): string {
    match m
    case 1 => "January" case 2 => "February" case 3 => "March" case 4 => "April"
    case 5 => "May" case 6 => "June" case 7 => "July" case 8 => "August"
    case 9 => "September" case 10 => "October" case 11 => "November" case _ => "December"
  }

  /** The name as the code computes it: `Month().String()[0:4]` is a slice
      out of range, a run-time panic (None), when the month's name is shorter
      than four characters. */
  function FileNameAsWritten(target: string, date: Date, id: string, ext: string): Option<string> {
    var month := MonthName(date.month);
    if |month| < 4 then None
    else Some((target + "-") + (Decimal(date.day) + (month[..4] + Decimal(date.year))) + ("-" + id + "." + ext))
  }

  /** Every backup made in May panics before its archive is written. */
  lemma MayPanics(target: string, date: Date, id: string, ext: string)
    ensures FileNameAsWritten(target, date, id, ext).None? <==> date.month == 5
  {
  }

  /** The month as it appears in a file name: its first four letters, or the
      whole name when it is shorter. */
  function MonthAbbrev(m: MonthNum): (a: string)
    ensures 3 <= |a| <= 4
    ensures forall i :: 0 <= i < |a| ==> !IsDigit(a[i])
  {
    var name := MonthName(m);
    if |name| < 4 then name else name[..4]
  }

  /** `{target}-{day}{month}{year}-{id}.{ext}`, with the month abbreviated as
      `MonthAbbrev` says. */
  function FileName(target: string, date: Date, id: string, ext: string): string {
    (target + "-") + DateText(date) + ("-" + id + "." + ext)
  }

  /** `{day}{month}{year}`, as in "3Janu2025". */
  function DateText(date: Date): string {
    Decimal(date.day) + (MonthAbbrev(date.month) + Decimal(date.year))
  }

  /** The corrected name is the written one in every month the written one
      survives. */
  lemma FileNameAgrees(target: string, date: Date, id: string, ext: string)
    ensures date.month != 5 ==> FileNameAsWritten(target, date, id, ext) == Some(FileName(target, date, id, ext))
    ensures date.month == 5 ==>
      FileName(target, date, id, ext) == target + "-" + Decimal(date.day) + "May" + Decimal(date.year) + "-" + id + "." + ext
  {
  }

  /** The month an abbreviation stands for, 0 for none. */
  function MonthOf(a: string): int {
    if a == "Janu" then 1 else if a == "Febr" then 2 else if a == "Marc" then 3
    else if a == "Apri" then 4 else if a == "May" then 5 else if a == "June" then 6
    else if a == "July" then 7 else if a == "Augu" then 8 else if a == "Sept" then 9
    else if a == "Octo" then 10 else if a == "Nove" then 11 else if a == "Dece" then 12
    else 0
  }

  /** No two months share an abbreviation. */
  lemma MonthAbbrevInjective(m: MonthNum, n: MonthNum)
    requires MonthAbbrev(m) == MonthAbbrev(n)
    ensures m == n
  {
    MonthOfAbbrev(m);
    MonthOfAbbrev(n);
  }

  lemma MonthOfAbbrev(m: MonthNum)
    ensures MonthOf(MonthAbbrev(m)) == m
  {
    match m
    case 1 => assert MonthAbbrev(m) == "Janu";
    case 2 => assert MonthAbbrev(m) == "Febr";
    case 3 => assert MonthAbbrev(m) == "Marc";
    case 4 => assert MonthAbbrev(m) == "Apri";
    case 5 => assert MonthAbbrev(m) == "May";
    case 6 => assert MonthAbbrev(m) == "June";
    case 7 => assert MonthAbbrev(m) == "July";
    case 8 => assert MonthAbbrev(m) == "Augu";
    case 9 => assert MonthAbbrev(m) == "Sept";
    case 10 => assert MonthAbbrev(m) == "Octo";
    case 11 => assert MonthAbbrev(m) == "Nove";
    case 12 => assert MonthAbbrev(m) == "Dece";
  }

  /** Two strings that agree, each a run of `p`-characters followed by a
      character that is not one, have the same run. */
  lemma SplitAtFirst(p: char -> bool, a1: string, b1: string, a2: string, b2: string)
    requires forall i :: 0 <= i < |a1| ==> p(a1[i])
    requires forall i :: 0 <= i < |a2| ==> p(a2[i])
    requires b1 != [] && !p(b1[0]) && b2 != [] && !p(b2[0])
    requires a1 + b1 == a2 + b2
    ensures a1 == a2 && b1 == b2
  {
    var s := a1 + b1;
    assert forall i :: 0 <= i < |a1| ==> p(s[i]);
    assert forall i :: 0 <= i < |a2| ==> p(s[i]);
    assert !p(s[|a1|]) && !p(s[|a2|]);
    assert |a1| == |a2|;
    assert a1 == s[..|a1|] && a2 == s[..|a2|];
    assert b1 == s[|a1|..] && b2 == s[|a2|..];
  }

  /** Equal strings with a common head and tail have equal middles. */
  lemma StripAround(head: string, m1: string, m2: string, tail: string)
    requires head + m1 + tail == head + m2 + tail
    ensures m1 == m2
  {
    var s1 := head + m1 + tail;
    var s2 := head + m2 + tail;
    assert |m1| == |m2|;
    assert m1 == s1[|head|..|head| + |m1|];
    assert m2 == s2[|head|..|head| + |m2|];
  }

  /** Day, month and year can be read back from the middle of a name. */
  lemma DateTextInjective(d1: Date, d2: Date)
    requires DateText(d1) == DateText(d2)
    ensures d1 == d2
  {
    DecimalRoundTrip(d1.day);
    DecimalRoundTrip(d2.day);
    DecimalRoundTrip(d1.year);
    DecimalRoundTrip(d2.year);
    var rest1 := MonthAbbrev(d1.month) + Decimal(d1.year);
    var rest2 := MonthAbbrev(d2.month) + Decimal(d2.year);
    SplitAtFirst(IsDigit, Decimal(d1.day), rest1, Decimal(d2.day), rest2);
    SplitAtFirst(c => !IsDigit(c), MonthAbbrev(d1.month), Decimal(d1.year), MonthAbbrev(d2.month), Decimal(d2.year));
    MonthAbbrevInjective(d1.month, d2.month);
  }

  /** The date can be read back from a file name: two backups of the same
      target with the same id and extension get the same name only on the
      same day. */
  lemma FileNameDeterminesDate(target: string, d1: Date, d2: Date, id: string, ext: string)
    requires FileName(target, d1, id, ext) == FileName(target, d2, id, ext)
    ensures d1 == d2
  {
    StripAround(target + "-", DateText(d1), DateText(d2), "-" + id + "." + ext);
    DateTextInjective(d1, d2);
  }

  // ---------------------------------------------------------------------
  // The run (backup.go:20-114)
  // ---------------------------------------------------------------------

  /** The inputs of one run that come from outside the configuration. */
  datatype Env = Env(
    ids: nat -> string,           // genCuid() in iteration i
    clock: nat -> Date,           // time.Now() in iteration i
    walk: string -> seq<WalkItem>, // filepath.Walk of a source directory
    rel: RelPath,
    separator: char,
    pathJoin: PathJoin)

  /** An archive file as stored. */
  datatype Stored = Stored(format: Option<Format>, members: seq<Member>)

  datatype Event =
    | Created(path: string)
    | Removed(path: string, ok: bool)
    | Uploaded(remote: string, path: string, ok: bool)

  /** The host between two statements of the loop: the files, the log, and
      whether the loop-carried `err` is set. */
  datatype Snapshot = Snapshot(files: map<string, Stored>, log: seq<Event>, pending: bool)

  function OutPath(config: Config, name: string, i: nat, env: Env): string {
    var ext := FileExtension(config.archive, config.compression);
    env.pathJoin([config.archiveDir, FileName(name, env.clock(i), env.ids(i), ext)])
  }

  /** What `createArchive` leaves in a freshly created file, and whether it
      failed. */
  function ArchiveFile(config: Config, sourceDir: string, env: Env): (Stored, bool) {
    match FormatFor(config.archive, config.compression, config.compressionLevel)
    case Err(_) => (Stored(None, []), true)
    case Ok(f) =>
      var w := Archived([], env.walk(sourceDir), sourceDir, env.rel, LayoutOf(f, env.separator));
      (Stored(Some(f), w.members), w.failure.Some?)
  }

  /** `err = c.writeToFileFirst(target, outPath)`. */
  function Build(s: Snapshot, outPath: string, sourceDir: string, config: Config, env: Env,
                 creatable: string -> bool): Snapshot
  {
    if !creatable(outPath) then s.(pending := true)
    else
      var (stored, failed) := ArchiveFile(config, sourceDir, env);
      Snapshot(s.files[outPath := stored], s.log + [Created(outPath)], failed)
  }

  /** `err = os.Remove(path)`. */
  function Remove(s: Snapshot, path: string): Snapshot {
    Snapshot(s.files - {path}, s.log + [Removed(path, path in s.files)], path !in s.files)
  }

  /** `err = c.copypartyUpload(remote, path)`. */
  function Upload(s: Snapshot, remote: string, path: string, accepted: (string, string) -> bool): Snapshot {
    Snapshot(s.files, s.log + [Uploaded(remote, path, accepted(remote, path))], !accepted(remote, path))
  }

  /** One iteration of the loop, for the `i`-th requested target `name`. */
  function Step(s: Snapshot, name: string, i: nat, config: Config, writeFirst: bool, env: Env,
                creatable: string -> bool, accepted: (string, string) -> bool): Snapshot
  {
    var target := TargetNamed(config.targets, name);
    var remote := RemoteNamed(config.remotes, target.remote);
    StepTo(s, OutPath(config, name, i, env), target, remote.kind == "copyparty", config, writeFirst, env, creatable, accepted)
  }

  /** The same iteration once the archive's path, the target and whether its
      remote is a copyparty server are known. */
  function StepTo(s: Snapshot, outPath: string, target: Target, copyparty: bool, config: Config, writeFirst: bool, env: Env,
                  creatable: string -> bool, accepted: (string, string) -> bool): Snapshot
  {
    var built := if writeFirst || copyparty then Build(s, outPath, target.path, config, env, creatable) else s;
    if built.pending then Remove(built, outPath)
    else
      var uploaded := if copyparty then Upload(built, target.remote, outPath, accepted) else built;
      if writeFirst && config.deleteAfterUpload then Remove(uploaded, outPath) else uploaded
  }

  /** The loop from the `i`-th requested target on. */
  function RunFrom(s: Snapshot, targets: seq<string>, i: nat, config: Config, writeFirst: bool, env: Env,
                   creatable: string -> bool, accepted: (string, string) -> bool): Snapshot
    decreases |targets| - i
  {
    if i >= |targets| then s
    else RunFrom(Step(s, targets[i], i, config, writeFirst, env, creatable, accepted), targets, i + 1,
                 config, writeFirst, env, creatable, accepted)
  }

  /** An iteration touches no file but its own archive. */
  lemma StepTouchesOnlyItsArchive(s: Snapshot, name: string, i: nat, config: Config, writeFirst: bool, env: Env,
                                  creatable: string -> bool, accepted: (string, string) -> bool, p: string)
    requires p != OutPath(config, name, i, env)
    ensures var t := Step(s, name, i, config, writeFirst, env, creatable, accepted);
      (p in t.files <==> p in s.files) && (p in s.files ==> t.files[p] == s.files[p])
  {
  }

  /** A failed build is cleaned up and skipped: the archive is gone
      afterwards and nothing is uploaded. The loop-carried error is then set
      exactly when the removal failed, which is when the file was never
      created. */
  lemma BuildFailureRemovesArchive(s: Snapshot, name: string, i: nat, config: Config, writeFirst: bool, env: Env,
                                   creatable: string -> bool, accepted: (string, string) -> bool)
    requires var target := TargetNamed(config.targets, name);
      var remote := RemoteNamed(config.remotes, target.remote);
      var outPath := OutPath(config, name, i, env);
      (writeFirst || remote.kind == "copyparty") && Build(s, outPath, target.path, config, env, creatable).pending
    ensures var outPath := OutPath(config, name, i, env);
      var t := Step(s, name, i, config, writeFirst, env, creatable, accepted);
      var built := Build(s, outPath, TargetNamed(config.targets, name).path, config, env, creatable);
      && outPath !in t.files
      && t.log == built.log + [Removed(outPath, creatable(outPath) || outPath in s.files)]
      && (t.pending <==> !creatable(outPath) && outPath !in s.files)
  {
  }

  /** An iteration uploads exactly when the target's remote is a copyparty
      server and its archive was built; the upload goes to the target's
      remote and sends the archive just built. */
  lemma UploadOnlyAfterBuild(s: Snapshot, name: string, i: nat, config: Config, writeFirst: bool, env: Env,
                             creatable: string -> bool, accepted: (string, string) -> bool)
    ensures var target := TargetNamed(config.targets, name);
      var remote := RemoteNamed(config.remotes, target.remote);
      var outPath := OutPath(config, name, i, env);
      var t := Step(s, name, i, config, writeFirst, env, creatable, accepted);
      var built := Build(s, outPath, target.path, config, env, creatable);
      && |s.log| <= |t.log| && t.log[..|s.log|] == s.log
      && ((exists k :: |s.log| <= k < |t.log| && t.log[k].Uploaded?)
          <==> remote.kind == "copyparty" && !built.pending)
      && (forall k :: |s.log| <= k < |t.log| && t.log[k].Uploaded? ==>
            t.log[k].remote == target.remote && t.log[k].path == outPath
            && outPath in built.files && built.files[outPath] == ArchiveFile(config, target.path, env).0)
  {
    var target := TargetNamed(config.targets, name);
    var remote := RemoteNamed(config.remotes, target.remote);
    StepToUploads(s, OutPath(config, name, i, env), target, remote.kind == "copyparty", config, writeFirst, env, creatable, accepted);
  }

  lemma StepToUploads(s: Snapshot, outPath: string, target: Target, copyparty: bool, config: Config, writeFirst: bool, env: Env,
                      creatable: string -> bool, accepted: (string, string) -> bool)
    ensures var t := StepTo(s, outPath, target, copyparty, config, writeFirst, env, creatable, accepted);
      var built := Build(s, outPath, target.path, config, env, creatable);
      && |s.log| <= |t.log| && t.log[..|s.log|] == s.log
      && ((exists k :: |s.log| <= k < |t.log| && t.log[k].Uploaded?) <==> copyparty && !built.pending)
      && (forall k :: |s.log| <= k < |t.log| && t.log[k].Uploaded? ==>
            t.log[k].remote == target.remote && t.log[k].path == outPath
            && outPath in built.files && built.files[outPath] == ArchiveFile(config, target.path, env).0)
  {
    var t := StepTo(s, outPath, target, copyparty, config, writeFirst, env, creatable, accepted);
    var built := if writeFirst || copyparty then Build(s, outPath, target.path, config, env, creatable) else s;
    assert built.log == s.log || built.log == s.log + [Created(outPath)];
    NoUploadsAppend(s.log, |s.log|, Created(outPath));
    assert NoUploadsFrom(built.log, |s.log|);
    if built.pending {
      assert t == Remove(built, outPath);
      NoUploadsAppend(built.log, |s.log|, Removed(outPath, outPath in built.files));
    } else if copyparty {
      var u := Upload(built, target.remote, outPath, accepted);
      var k0 := |built.log|;
      assert t == u || t == Remove(u, outPath);
      assert |t.log| >= k0 + 1 && t.log[..k0] == built.log && t.log[k0] == Uploaded(target.remote, outPath, accepted(target.remote, outPath));
      forall k | |s.log| <= k < |t.log| && t.log[k].Uploaded?
        ensures k == k0
      {
      }
    } else {
      assert t == built || t == Remove(built, outPath);
      NoUploadsAppend(built.log, |s.log|, Removed(outPath, outPath in built.files));
    }
  }

  /** No upload is logged from index `from` on. */
  ghost predicate NoUploadsFrom(log: seq<Event>, from: nat) {
    forall k :: from <= k < |log| ==> !log[k].Uploaded?
  }

  lemma NoUploadsAppend(log: seq<Event>, from: nat, e: Event)
    requires NoUploadsFrom(log, from) && !e.Uploaded?
    ensures NoUploadsFrom(log + [e], from)
  {
    forall k | from <= k < |log| + 1
      ensures !(log + [e])[k].Uploaded?
    {
      if k < |log| {
        assert (log + [e])[k] == log[k];
      }
    }
  }

  /** The archive stays on disk after a successful iteration unless both
      `WriteToFileFirst` and `DeleteAfterUpload` are set, whatever the
      upload's outcome. */
  lemma ArchiveKeptUnlessDeleteAfterUpload(s: Snapshot, name: string, i: nat, config: Config, writeFirst: bool, env: Env,
                                           creatable: string -> bool, accepted: (string, string) -> bool)
    requires var target := TargetNamed(config.targets, name);
      var remote := RemoteNamed(config.remotes, target.remote);
      var outPath := OutPath(config, name, i, env);
      (writeFirst || remote.kind == "copyparty") && !Build(s, outPath, target.path, config, env, creatable).pending
    ensures var target := TargetNamed(config.targets, name);
      var outPath := OutPath(config, name, i, env);
      var t := Step(s, name, i, config, writeFirst, env, creatable, accepted);
      && (outPath in t.files <==> !(writeFirst && config.deleteAfterUpload))
      && (outPath in t.files ==> t.files[outPath] == ArchiveFile(config, target.path, env).0)
  {
  }

  /** The loop-carried `err`: a target that neither writes a file first nor
      goes to a copyparty server builds nothing; it does nothing at all when
      the previous iteration ended without error, and otherwise mistakes that
      error for its own build failure and removes its own (absent) archive. */
  lemma CarriedErrorReachesNextTarget(s: Snapshot, name: string, i: nat, config: Config, writeFirst: bool, env: Env,
                                      creatable: string -> bool, accepted: (string, string) -> bool)
    requires !writeFirst && RemoteNamed(config.remotes, TargetNamed(config.targets, name).remote).kind != "copyparty"
    ensures var t := Step(s, name, i, config, writeFirst, env, creatable, accepted);
      t == if s.pending then Remove(s, OutPath(config, name, i, env)) else s
  {
  }

  lemma StepAppendsLog(s: Snapshot, name: string, i: nat, config: Config, writeFirst: bool, env: Env,
                        creatable: string -> bool, accepted: (string, string) -> bool)
    ensures var t := Step(s, name, i, config, writeFirst, env, creatable, accepted);
      |s.log| <= |t.log| && t.log[..|s.log|] == s.log
  {
  }

  /** The run only appends to the log. */
  lemma {:induction false} RunFromAppendsLog(s: Snapshot, targets: seq<string>, i: nat, config: Config, writeFirst: bool,
                                             env: Env, creatable: string -> bool, accepted: (string, string) -> bool)
    ensures var r := RunFrom(s, targets, i, config, writeFirst, env, creatable, accepted);
      |s.log| <= |r.log| && r.log[..|s.log|] == s.log
    decreases |targets| - i
  {
    if i < |targets| {
      var t := Step(s, targets[i], i, config, writeFirst, env, creatable, accepted);
      StepAppendsLog(s, targets[i], i, config, writeFirst, env, creatable, accepted);
      RunFromAppendsLog(t, targets, i + 1, config, writeFirst, env, creatable, accepted);
      var r := RunFrom(s, targets, i, config, writeFirst, env, creatable, accepted);
      assert r.log[..|t.log|][..|s.log|] == r.log[..|s.log|];
    }
  }

  /** A file that no requested target's archive path names is left alone by
      the whole run. */
  lemma {:induction false} RunLeavesOtherFiles(s: Snapshot, targets: seq<string>, i: nat, config: Config, writeFirst: bool,
                                               env: Env, creatable: string -> bool, accepted: (string, string) -> bool, p: string)
    requires forall k :: i <= k < |targets| ==> p != OutPath(config, targets[k], k, env)
    ensures var r := RunFrom(s, targets, i, config, writeFirst, env, creatable, accepted);
      (p in r.files <==> p in s.files) && (p in s.files ==> r.files[p] == s.files[p])
    decreases |targets| - i
  {
    if i < |targets| {
      StepTouchesOnlyItsArchive(s, targets[i], i, config, writeFirst, env, creatable, accepted, p);
      var t := Step(s, targets[i], i, config, writeFirst, env, creatable, accepted);
      RunLeavesOtherFiles(t, targets, i + 1, config, writeFirst, env, creatable, accepted, p);
    }
  }

  // ---------------------------------------------------------------------
  // The host and the loop
  // ---------------------------------------------------------------------

  /** The local file system and the copyparty helper, as far as the run
      sees them: `creatable` says where `os.Create` succeeds and
      `uploadAccepted` how an upload of a file to a remote ends. */
  class Host {
    var files: map<string, Stored>
    var log: seq<Event>
    const creatable: string -> bool
    const uploadAccepted: (string, string) -> bool

    constructor (files: map<string, Stored>, creatable: string -> bool, uploadAccepted: (string, string) -> bool)
      ensures this.files == files && log == [] && this.creatable == creatable && this.uploadAccepted == uploadAccepted
    {
      this.files := files;
      log := [];
      this.creatable := creatable;
      this.uploadAccepted := uploadAccepted;
    }

    /** `os.Create(path)`: an empty file, replacing any file there. */
    method Create(path: string) returns (ok: bool)
      modifies this
      ensures ok == creatable(path)
      ensures ok ==> files == old(files)[path := Stored(None, [])] && log == old(log) + [Created(path)]
      ensures !ok ==> files == old(files) && log == old(log)
    {
      ok := creatable(path);
      if ok {
        files := files[path := Stored(None, [])];
        log := log + [Created(path)];
      }
    }

    /** Closing the archive writer: the file holds what was written. */
    method Save(path: string, stored: Stored)
      modifies this`files
      ensures files == old(files)[path := stored]
    {
      files := files[path := stored];
    }

    /** `os.Remove(path)`: fails when there is no such file. */
    method Remove(path: string) returns (ok: bool)
      modifies this
      ensures ok == (path in old(files))
      ensures files == old(files) - {path} && log == old(log) + [Removed(path, ok)]
    {
      ok := path in files;
      files := files - {path};
      log := log + [Removed(path, ok)];
    }

    /** `c.copypartyUpload(remote, path)`. */
    method Upload(remote: string, path: string) returns (ok: bool)
      modifies this`log
      ensures ok == uploadAccepted(remote, path) && log == old(log) + [Uploaded(remote, path, ok)]
    {
      ok := uploadAccepted(remote, path);
      log := log + [Uploaded(remote, path, ok)];
    }
  }

  /** `c.writeToFileFirst(target, outPath)`; true when it returns an error. */
  method WriteToFileFirst(host: Host, target: Target, outPath: string, config: Config, env: Env) returns (failed: bool)
    modifies host
    ensures var b := Build(Snapshot(old(host.files), old(host.log), false), outPath, target.path, config, env, host.creatable);
      host.files == b.files && host.log == b.log && failed == b.pending
  {
    var created := host.Create(outPath);
    if !created {
      return true;
    }
    var output := new ArchiveWriter();
    var err := CreateArchive(config, target.path, output, env.walk(target.path), env.rel, env.separator);
    host.Save(outPath, Stored(output.format, output.members));
    failed := err.Some?;
  }

  /** One iteration of the loop of `c.backup(targets)`. */
  method BackupTarget(host: Host, name: string, i: nat, config: Config, writeFirst: bool, env: Env, carried: bool)
    returns (pending: bool)
    modifies host
    ensures var t := Step(Snapshot(old(host.files), old(host.log), carried), name, i, config, writeFirst, env,
                          host.creatable, host.uploadAccepted);
      host.files == t.files && host.log == t.log && pending == t.pending
  {
    var target := TargetNamed(config.targets, name);
    var remote := RemoteNamed(config.remotes, target.remote);
    var backupId := env.ids(i);
    var date := env.clock(i);
    var fileName := FileName(name, date, backupId, FileExtension(config.archive, config.compression));
    var outPath := env.pathJoin([config.archiveDir, fileName]);
    ghost var s0 := Snapshot(host.files, host.log, carried);
    ghost var copyparty := remote.kind == "copyparty";
    assert Step(s0, name, i, config, writeFirst, env, host.creatable, host.uploadAccepted)
        == StepTo(s0, outPath, target, copyparty, config, writeFirst, env, host.creatable, host.uploadAccepted);
    ghost var built := if writeFirst || copyparty then Build(s0, outPath, target.path, config, env, host.creatable) else s0;
    pending := carried;
    if writeFirst || remote.kind == "copyparty" {
      pending := WriteToFileFirst(host, target, outPath, config, env);
    }
    assert Snapshot(host.files, host.log, pending) == built;
    if pending {
      var removed := host.Remove(outPath);
      return !removed;
    }
    if remote.kind == "copyparty" {
      var uploaded := host.Upload(target.remote, outPath);
      pending := !uploaded;
    }
    assert Snapshot(host.files, host.log, pending)
        == if copyparty then Upload(built, target.remote, outPath, host.uploadAccepted) else built;
    if writeFirst && config.deleteAfterUpload {
      var removed := host.Remove(outPath);
      pending := !removed;
    }
  }

  /** `c.backup(targets)`. `cuidReady` says whether `cuid2.Init` accepts
      the configured id length; when it does not, the run is fatal before any
      target. */
  method RunBackup(host: Host, targets: seq<string>, config: Config, writeFirst: bool, env: Env, cuidReady: bool)
    returns (fatal: bool)
    modifies host
    ensures fatal == !cuidReady
    ensures fatal ==> host.files == old(host.files) && host.log == old(host.log)
    ensures !fatal ==>
      var r := RunFrom(Snapshot(old(host.files), old(host.log), false), targets, 0, config, writeFirst, env,
                       host.creatable, host.uploadAccepted);
      host.files == r.files && host.log == r.log
  {
    if !cuidReady {
      return true;
    }
    ghost var whole := RunFrom(Snapshot(host.files, host.log, false), targets, 0, config, writeFirst, env,
                               host.creatable, host.uploadAccepted);
    var err := false;
    for i := 0 to |targets|
      invariant RunFrom(Snapshot(host.files, host.log, err), targets, i, config, writeFirst, env,
                        host.creatable, host.uploadAccepted) == whole
    {
      err := BackupTarget(host, targets[i], i, config, writeFirst, env, err);
    }
    fatal := false;
  }
}

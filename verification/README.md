# qbsgo backup core in Dafny

A model of qbsgo, a backup tool. It reads a TOML configuration of *targets*
and *remotes*. A target is a source directory, a remote and a systemd calendar
interval. A remote is a copyparty or Nextcloud server.

For every requested target, qbsgo archives the target's source directory into
a tar (optionally gzip or zstd) or zip file and uploads the file to the
target's remote. It keeps a JSON ledger, the *backup list*, of past backups,
which it can prune by age. It can also generate, save, clean and enable
systemd service and timer units that run the backups on their intervals.

The model has one module per source file:

| module | file | form |
|---|---|---|
| `Settings` | config.go | configuration records; `loadConfig` as a method of a `Process` object holding `AppFileDir` and the decoded configuration |
| `Ledger` | backuplist.go | age-token cutoff and filter as functions and loop methods; the list file as a `LedgerStore` object |
| `Nextcloud` | nextcloud.go | chunked WebDAV upload: a `DavClient` object that logs each request, and loop methods proved against specification functions |
| `Archive` | backup.go:122-238 | `createArchive`, `createTar` and `createZip` writing into an `ArchiveWriter` object |
| `Backup` | backup.go:20-114 | file extension, archive file name, and the per-target loop over a `Host` object (files and event log) |
| `Copyparty` | copyparty.go | the helper command line and the reported location |
| `Systemd` | systemd.go | unit names and texts, grouping by interval, the save/edit prompt, enabling and cleaning, with a `Disk` object |
| `Cli` | main.go | which stages run, and which targets are selected |
| `Common` | (shared) | Go's `strings.Split`/`Join`/`TrimSpace`, `strconv.Atoi` and decimal formatting |

Whatever the program gets from outside is a parameter:

- the file system, the TOML decoder, `time.Now` and `time.Parse`;
- `AddDate`, `cuid2`, `url.JoinPath`, `path.Join` and `filepath.Rel`;
- `filepath.Walk`/`WalkDir`, the WebDAV server's answers, the helper processes, the text editor and the terminal input.

The contracts hold for every value of these parameters. Go's map
iteration order is either a parameter (`order`) or an arbitrary choice
(`:|`).

## Model

| member | source | states |
|---|---|---|
| Common.DecimalRoundTrip | nextcloud.go:62 | the decimal text `strconv.FormatInt` gives for the total length is all digits and reads back as the same number |
| Common.PaddedDecimalRoundTrip | nextcloud.go:87 | the `%05d` chunk number is all digits and reads back as the chunk number, whatever the width |
| Common.PaddedDecimalInjective | nextcloud.go:87 | different chunk numbers give different padded names |
| Common.Atoi | backuplist.go:130 | `strconv.Atoi` succeeds exactly on an optional `+` or `-` followed by at least one digit whose value fits the signed 64-bit range (down to -2^63 with a minus); the result is the signed decimal value |
| Common.AtoiFormatInt | backuplist.go:130 | every signed 64-bit number reads back from its decimal text, with or without a leading `+` when non-negative |
| Common.Split | main.go:39 | `strings.Split` gives one more part than there are separators, so never an empty list |
| Common.DoubledSeparatorSplitsEmpty | backuplist.go:127 | two adjacent separators put an empty part in the split |
| Common.SplitJoin | main.go:39 | splitting a joined non-empty list whose parts contain no separator gives back the list (an empty list joins to the empty text, which splits to one empty part) |
| Common.JoinSplit | copyparty.go:27 | joining the parts of a split with the same separator gives back the text |
| Common.TrimSpace | config.go:98 | `strings.TrimSpace` gives a result that neither starts nor ends with white space |
| Common.TrimSpaceSlice | config.go:98 | the trimmed text is a contiguous part of the input with only white space around it |
| Settings.ResolvedPassword | config.go:86-99 | a password without the `file:` prefix is kept; a `file:` password is unreadable exactly when the named file cannot be read; otherwise it is the trimmed file contents |
| Settings.FilePasswordIsTrimmed | config.go:98 | a password read from a file has no leading or trailing white space and sits inside the file contents with only white space around it |
| Settings.ResolvedRemote | config.go:86-99 | a remote resolves exactly when its password does, and then only its password changes |
| Settings.ResolvePasswords | config.go:86-100 | resolving every remote keeps the set of remote names |
| Settings.ResolveRemotePasswords | config.go:86-100 | reports an unreadable password file exactly when some remote's password cannot be resolved, naming such a remote; otherwise returns every remote with its password resolved |
| Settings.CheckIntervals | config.go:106-114 | rejects exactly when some target's interval is refused by the calendar check, and then returns such a target |
| Settings.Process.constructor | config.go:66 | the application directory starts as `/etc/qbsgo/` |
| Settings.Process.LoadConfig | config.go:68-115 | succeeds exactly when the file decodes, every password file is readable and, when validating, every interval is accepted; on success, the configuration is the decoded one from the system path when it exists (else `./qbsgo.toml` with `AppFileDir` `./`), with ID length 0 defaulted to 8 and passwords resolved |
| Ledger.Wrap64 | backuplist.go:138-144 | Go's `int` arithmetic: the result is in the signed 64-bit range, equal to the exact value modulo 2^64, and the exact value when that is in range |
| Ledger.Shifted | backuplist.go:136-145 | the unit switch: `y`, `m`, `w` (seven days per week) and `d` shift by the negated count, computed with 64-bit wrap-around; any other unit leaves the date |
| Ledger.ShiftWraps | backuplist.go:141-144 | 1317624576693539402 weeks wraps to a shift of 2^63 - 6 days forward, and the most negative day count is its own negation |
| Ledger.NumberBeforeUnit | backuplist.go:130 | the count parses exactly when the token's last character is ASCII (Go drops the last byte) and the rest is an `Atoi` number, and then it is that number |
| Ledger.ApplyToken | backuplist.go:130-145 | one token fails with a slice panic exactly when it is empty, succeeds exactly when it is well formed, and leaves the date when its unit is unknown |
| Ledger.Cutoff | backuplist.go:127-146 | the tokens are applied in order from now, and the first malformed token's error ends the loop |
| Ledger.CutoffDefinedIff | backuplist.go:127-146 | the cutoff is defined exactly when every token is non-empty, ends in an ASCII character, and has an `Atoi` number before it |
| Ledger.EmptyTokenFails | backuplist.go:127-130 | a list of tokens holding an empty one always fails |
| Ledger.EmptySpecPanics | backuplist.go:127-130 | every empty `OlderThan`, and every one holding a double space, is an error: its split holds an empty token |
| Ledger.UnknownUnitIgnored | backuplist.go:136-145 | a well-formed token whose unit is not y, m, w or d leaves the date unchanged |
| Ledger.CutoffIsInThePast | backuplist.go:127-146 | with non-negative counts (weeks small enough not to overflow as days) and a backward-moving `AddDate`, the cutoff is defined, no later than now, and strictly earlier when some count with a known unit is positive |
| Ledger.ShiftedBackward | backuplist.go:136-145 | a non-negative count below 2^63, with a week count that does not overflow when turned into days, never moves the date forward, and a positive one with a known unit moves it strictly back |
| Ledger.CutoffStep | backuplist.go:129-146 | one loop step applies the current token to the date and continues with the rest |
| Ledger.CutoffDate | backuplist.go:125-146 | the token loop computes the cutoff of the tokens, or the error of the first malformed one |
| Ledger.Kept | backuplist.go:150-161 | the date filter: an entry stays when its date parses and is after the cutoff |
| Ledger.KeptConcat | backuplist.go:150-161 | filtering a concatenation filters each part |
| Ledger.KeptIsOrderedSelection | backuplist.go:150-161 | the kept entries are exactly the entries with a parsable date after the cutoff, in their original order |
| Ledger.KeptMembership | backuplist.go:150-161 | an entry is kept exactly when it is listed and recent |
| Ledger.KeptIdempotent | backuplist.go:150-161 | filtering twice with the same cutoff is the same as filtering once |
| Ledger.Sweep | backuplist.go:123-164 | `cleanList`: the cutoff of the space-split spec, then the date filter |
| Ledger.KeepRecent | backuplist.go:150-163 | the entry loop returns the filter of the entries |
| Ledger.CleanList | backuplist.go:123-164 | computes the cutoff and keeps the recent entries, or fails on a malformed token |
| Ledger.WriteOut | backuplist.go:70 | `os.WriteFile`: success writes the list; a failed open leaves the file; a write cut short leaves a file that does not decode; a failed close leaves the whole list; each failure is fatal |
| Ledger.AppendOutcome | backuplist.go:28-75 | `append`: skipped when disabled; a missing file is an empty list; an unreadable or undecodable file is fatal; then the list with the new entry is written |
| Ledger.AppendKeepsHistory | backuplist.go:28-75 | disabled means untouched; an unreadable or corrupt file is fatal and kept; otherwise a missing list becomes the one entry and a readable list gains it at its end, written in full on success or a failed close, kept on a failed open, and left undecodable when the write is cut short |
| Ledger.CutShortBreaksNextAppend | backuplist.go:47-70 | after a write cut short, the next append fails to decode the file, whatever it would write |
| Ledger.AppendAllRecordsEverything | backuplist.go:28-75 | appending several backups in turn records all of them, in order, after the old entries |
| Ledger.CleanUpOutcome | backuplist.go:77-120 | `cleanUp`: skipped unless both the ledger and cleaning are enabled; a missing, unreadable or undecodable file or a bad spec is fatal; then the swept list is written |
| Ledger.CleanUpKeepsRecent | backuplist.go:77-120 | disabled or no cleaning means untouched; a missing file is fatal; any failure before the write leaves the file; a written file (on success or a failed close) holds exactly the recent entries of the old file; a failed open keeps it and a write cut short leaves it undecodable |
| Ledger.AppendThenCleanUp | backuplist.go:28-120 | a cleanup right after an append keeps the new entry exactly when it is recent |
| Ledger.LedgerStore.constructor | backuplist.go:47 | the store starts with the given file and way `os.WriteFile` ends |
| Ledger.LedgerStore.WriteFile | backuplist.go:115 | the new file and whether it succeeded are those of `os.WriteFile` |
| Ledger.LedgerStore.Append | backuplist.go:28-75 | the new file and status are the append outcome of the old file |
| Ledger.LedgerStore.CleanUp | backuplist.go:77-120 | the new file and status are the cleanup outcome of the old file |
| Nextcloud.ChunkLoop | nextcloud.go:74-98 | the chunk loop: from each offset it reads the next chunk, stops at a failed read without writing, writes it to the next numbered chunk path, and stops at the first refused write |
| Nextcloud.Puts | nextcloud.go:74-98 | the chunk writes of a loop in which every read and write succeeds |
| Nextcloud.UploadRun | nextcloud.go:23-108 | `nextcloudUpload` from the URL joins to the final move, as the request log and the returned error |
| Nextcloud.ChunkPathsDistinct | nextcloud.go:87 | two chunk numbers share a chunk path only when they are equal |
| Nextcloud.ChunkSizeAt | nextcloud.go:75-78 | each chunk is non-empty, at most 50 MiB and within the file, and a short chunk is the last one |
| Nextcloud.PutBytesConcat | nextcloud.go:74-98 | the bytes sent by two runs of writes are the bytes of each run in turn |
| Nextcloud.PutsCoverTheFile | nextcloud.go:74-98 | the chunks written from an offset hold exactly the file's bytes from that offset |
| Nextcloud.PutIsNumbered | nextcloud.go:87-88 | the i-th write goes to chunk number start + i |
| Nextcloud.PutsAreFullChunks | nextcloud.go:75-80 | every chunk but the last is exactly 50 MiB, and none is empty |
| Nextcloud.PutsCount | nextcloud.go:74-98 | the number of chunks is the file size divided by 50 MiB, rounded up |
| Nextcloud.ChunkLoopAppendsWrites | nextcloud.go:74-98 | the chunk loop only appends writes to the request log |
| Nextcloud.ChunkLoopCompletes | nextcloud.go:74-98 | a chunk loop without failure writes exactly the file's chunks |
| Nextcloud.ChunkLoopAccepted | nextcloud.go:88-92 | every write before a failure was accepted by the server |
| Nextcloud.ChunkLoopRefused | nextcloud.go:88-92 | a failed chunk loop ends with the write the server refused |
| Nextcloud.SuccessfulUpload | nextcloud.go:23-108 | a successful upload connects, sets `OC-Total-Length` to the file size, creates the chunk folder, writes every chunk and moves `<folder>/.file` to `files/<user>/<destdir>/<name>` with overwriting allowed, each accepted |
| Nextcloud.SuccessfulUploadStoresTheFile | nextcloud.go:62-104 | in a successful upload the chunks are numbered from 00001 and the bytes sent are exactly the file |
| Nextcloud.StoredBytes | nextcloud.go:71-104 | the bytes sent by a request log are those of its chunk writes |
| Nextcloud.MoveOnlyAfterAllChunks | nextcloud.go:98-100 | the assembling move is the last request, and comes only after every chunk was accepted |
| Nextcloud.MoveMeansChunksDone | nextcloud.go:71-104 | a log holding the move wrote all chunks of the file |
| Nextcloud.ChunkFailureEndsUpload | nextcloud.go:88-92 | a refused chunk write ends the upload with that error and no move |
| Nextcloud.EmptyFileUpload | nextcloud.go:74-104 | an empty file uploads no chunk and is still assembled |
| Nextcloud.DavClient.constructor | nextcloud.go:32 | a new client has no requests and no headers |
| Nextcloud.DavClient.Connect | nextcloud.go:40 | logs the connection and reports the server's answer |
| Nextcloud.DavClient.SetHeader | nextcloud.go:62 | logs the header and sets it |
| Nextcloud.DavClient.Mkdir | nextcloud.go:65 | logs the folder creation and reports the server's answer |
| Nextcloud.DavClient.Write | nextcloud.go:88 | logs the chunk write and reports the server's answer |
| Nextcloud.DavClient.Rename | nextcloud.go:100 | logs the move with its overwrite flag and reports the server's answer |
| Nextcloud.UploadChunks | nextcloud.go:71-98 | the loop's requests and error are those of the chunk-loop specification |
| Nextcloud.Transfer | nextcloud.go:40-104 | the requests, headers and error after the URL joins are those of the transfer specification |
| Nextcloud.NextcloudUpload | nextcloud.go:23-108 | the requests and error are those of the upload specification, and a client exists exactly when the prefix URL joins |
| Archive.FormatFor | backup.go:122-153 | the `createArchive` switch: tar with zstd, gzip at the configured level (refused above 9), or uncompressed; zip, deflated only for "deflate"; any other archive is an error |
| Archive.Archived | backup.go:156-238 | the walk callback applied to each item in turn: a walk, info, relative-path or header failure stops before the entry; a file that cannot be opened or copied stops after its header |
| Archive.ToSlash | backup.go:219 | keeps the path's length |
| Archive.ToSlashConverts | backup.go:219 | every OS separator becomes '/', every other character is kept, and converting twice changes nothing |
| Archive.ArchivedAppends | backup.go:156-238 | the walk only appends entries to the archive, at most one per walked item |
| Archive.ArchivedFollowsLayout | backup.go:170-219 | every entry written is deflated exactly for zip with "deflate", a tar entry's name holds no OS separator, and a directory entry has no body |
| Archive.ArchivedEveryItem | backup.go:156-238 | when no item fails, the archive holds one entry per walked item, in walk order, each the entry of the item under its relative path |
| Archive.ArchivedStopsAtFirstFailure | backup.go:160-237 | a failed walk stops at the first failing item, whose path the error names; every item before it was archived as its entry under its relative path, and the failing item adds nothing or only its header |
| Archive.ArchivedFailsIff | backup.go:156-238 | the walk fails exactly when some item fails |
| Archive.ArchivedFailsIfSomeItemFails | backup.go:156-238 | any failing item makes the walk fail |
| Archive.FormatForAccepts | backup.go:122-153 | only "tar" and "zip" are accepted, tar with gzip only at level 9 or below; tar is uncompressed for any compression other than zstd and gzip, and zip is deflated exactly for "deflate" |
| Archive.ArchiveWriter.constructor | backup.go:101 | a new output holds no format and no entries |
| Archive.ArchiveWriter.Begin | backup.go:127-150 | the output is wrapped in the chosen format |
| Archive.ArchiveWriter.WriteHeader | backup.go:180-223 | the header is appended as a new entry |
| Archive.ArchiveWriter.Copy | backup.go:195-235 | the bytes are appended to the body of the last entry |
| Archive.WalkInto | backup.go:160-237 | the walk callback applied item by item writes the entries and returns the error of the walk specification |
| Archive.CreateTar | backup.go:201-238 | writes the archive of the walk with tar names |
| Archive.CreateZip | backup.go:156-198 | writes the archive of the walk with zip names, deflated for "deflate" |
| Archive.CreateArchive | backup.go:122-154 | a format error writes nothing; otherwise the output gets the format and the walk's entries, and a walk error is returned |
| Backup.FileExtension | backup.go:29-38 | the archive setting, followed by `.gz` or `.zst` for tar with gzip or zstd |
| Backup.ExtensionNamesTheFormat | backup.go:29-38 | the extension is `tar.zst`, `tar.gz`, `tar` or `zip`, matching the format the archive is written in |
| Backup.ExtensionExtendsArchive | backup.go:29-38 | the extension starts with the archive setting and equals it except for tar |
| Backup.FileNameAsWritten | backup.go:46 | `{target}-{day}{month[0:4]}{year}-{id}.{ext}`, a panic when the month's name is shorter than four bytes |
| Backup.MayPanics | backup.go:46 | the name as written fails exactly in May (its month name has only 3 letters) |
| Backup.MonthAbbrev | backup.go:46 | the month part has 3 or 4 letters and no digit |
| Backup.FileName | backup.go:46 | the corrected name, with the whole month name when it is shorter than four letters |
| Backup.FileNameAgrees | backup.go:46 | the corrected name equals the name as written for every month but May, and uses "May" in May |
| Backup.MonthAbbrevInjective | backup.go:46 | distinct months get distinct month parts |
| Backup.DateTextInjective | backup.go:46 | the day-month-year text determines the date |
| Backup.FileNameDeterminesDate | backup.go:46 | for the same target, ID and extension, distinct dates give distinct file names |
| Backup.OutPath | backup.go:44-47 | the archive directory joined with the corrected file name of the i-th target's clock reading and ID |
| Backup.Build | backup.go:98-114 | `writeToFileFirst`: a file that cannot be created sets the error; otherwise the created file holds the archive and the error is the archive's |
| Backup.Step | backup.go:40-95 | one iteration for the i-th requested target: its archive path, its target and whether its remote is copyparty |
| Backup.StepTo | backup.go:54-93 | builds when writing first or uploading to copyparty; with the error set removes the archive; otherwise uploads to copyparty and deletes after upload when both settings ask for it |
| Backup.RunFrom | backup.go:40-95 | the iterations from the i-th requested target on, in order |
| Backup.StepTouchesOnlyItsArchive | backup.go:40-95 | an iteration touches no file but its own archive |
| Backup.BuildFailureRemovesArchive | backup.go:54-70 | a failed build removes the archive and skips the upload; the carried error stays set only when the removal also failed |
| Backup.UploadOnlyAfterBuild | backup.go:54-83 | an iteration uploads exactly when the remote is copyparty and the build succeeded, sending the built archive to the target's remote |
| Backup.ArchiveKeptUnlessDeleteAfterUpload | backup.go:85-92 | after a successful build the archive stays, as built, unless `WriteToFileFirst` and `DeleteAfterUpload` are both set |
| Backup.CarriedErrorReachesNextTarget | backup.go:54-70 | a target that builds nothing inherits the previous iteration's error and removes its own archive path |
| Backup.StepAppendsLog | backup.go:40-95 | an iteration only appends to the event log |
| Backup.RunFromAppendsLog | backup.go:40-95 | the run only appends to the event log |
| Backup.RunLeavesOtherFiles | backup.go:40-95 | a file named by no requested target's archive path is untouched by the run |
| Backup.Host.constructor | backup.go:20 | the host starts with the given files and an empty log |
| Backup.Host.Create | backup.go:101 | creating succeeds exactly where allowed, leaving an empty file; otherwise nothing changes |
| Backup.Host.Save | backup.go:107 | the file holds what was written into it |
| Backup.Host.Remove | backup.go:64-87 | removing succeeds exactly when the file exists, and the file is gone afterwards |
| Backup.Host.Upload | backup.go:78 | logs the upload and reports the helper's answer |
| Backup.WriteToFileFirst | backup.go:98-114 | the files, log and failure are those of the build specification |
| Backup.BackupTarget | backup.go:41-94 | one iteration leaves the host as the step specification says |
| Backup.RunBackup | backup.go:20-95 | a failing ID generator is fatal and changes nothing; otherwise the files and log are those of the run specification over all requested targets |
| Copyparty.Script | copyparty.go:14-18 | the helper is the configured script, or `u2c` when none is set |
| Copyparty.AuthArg | copyparty.go:20-28 | the credential argument is empty exactly when the password is; otherwise it starts with `-a ` and ends with the password |
| Copyparty.CredentialsRoundTrip | copyparty.go:20-28 | reading the argument back gives the configured user and password, when the password is set, the user has no ':' and, without a user, the password has no ':' |
| Copyparty.CopypartyUpload | copyparty.go:12-49 | the helper runs exactly when both joins succeed; a failed join gives an empty location |
| Copyparty.UploadRunsTheHelper | copyparty.go:30-48 | after both joins, the helper gets the script, the credentials, the directory URL and the local file; the location is the file URL whether or not it succeeds |
| Copyparty.JoinFailureRunsNothing | copyparty.go:30-40 | a failed join returns the empty location and runs nothing |
| Copyparty.CommandIgnoresFileName | copyparty.go:30-48 | the command does not depend on the file name, and the location does not depend on the helper's outcome |
| Systemd.IntervalOrServerNames | systemd.go:159-165 | the interval, or the target names run together when the interval holds a calendar character |
| Systemd.FileNameIsPlain | systemd.go:159-165 | the unit file name has no calendar character when the target names have none, and it is the interval exactly when the interval has none (or the names spell it) |
| Systemd.UnitNamesDistinct | systemd.go:16-83 | service and timer names never collide, each determines its file name, and both carry the prefix |
| Systemd.GenService | systemd.go:266-288 | a service text exists exactly when the executable path is known |
| Systemd.ServiceUnitLines | systemd.go:266-288 | the service text is, line by line, the unit header, the description naming the targets, the network dependencies, `User`/`Group` when a user is given, and `ExecStart` |
| Systemd.GenTimer | systemd.go:290-302 | the timer text: its lines joined by line breaks |
| Systemd.TimerUnitLines | systemd.go:290-302 | the timer text is, line by line, its description, `OnCalendar=` the interval, `Persistent=true` and `WantedBy=timers.target` |
| Systemd.ServiceRunsItsTargets | systemd.go:273-287 | the `ExecStart` line runs the executable with `-targets` given the group's comma-joined names, then `-backup` |
| Systemd.GroupUnits | systemd.go:78-92 | the paths and texts generated for one interval's group |
| Systemd.Members | systemd.go:64-70 | a group never has more members than were requested |
| Systemd.MembersStep | systemd.go:66-70 | one more request extends its interval's group by that name |
| Systemd.GroupedStep | systemd.go:66-70 | the grouping loop keeps every group equal to the requests of its interval so far |
| Systemd.GroupByInterval | systemd.go:64-70 | there is a group exactly for each interval of some requested target, and it holds that interval's requests |
| Systemd.MembersAreOrderedSelection | systemd.go:64-70 | a group holds exactly the requests of its interval, in request order, so each request is in the group of its own interval |
| Systemd.Prompt | systemd.go:101-130 | the prompt of one group: `s` and `a` end it, `e` edits with the next answer, anything else asks again, and it stalls when the input runs out |
| Systemd.Choose | systemd.go:73-131 | the group loop: after "save all" each group is saved as generated; otherwise each group is prompted, and a stalled prompt ends the session |
| Systemd.Edited | systemd.go:172-194 | editing keeps both paths and changes at most one of the two texts |
| Systemd.PromptKeepsPaths | systemd.go:99-130 | a group is saved under its generated paths, and with its generated texts when nothing was edited |
| Systemd.SaveAllSavesTheRest | systemd.go:94-128 | after "save all", every remaining group is saved as generated without reading input |
| Systemd.ChooseSavesEveryGroup | systemd.go:72-131 | the group loop only appends, at most once per group, and exactly once per group unless input runs out |
| Systemd.ChooseKeepsPaths | systemd.go:72-131 | groups are saved in order, each under its own paths |
| Systemd.Disk.constructor | systemd.go:167-170 | the disk starts with the given files |
| Systemd.Disk.SaveUnits | systemd.go:167-170 | writes the service text to its path, then the timer text to its path |
| Systemd.Disk.Remove | systemd.go:260 | the file is gone afterwards |
| Systemd.SavedFilesAppend | systemd.go:167-170 | saving one more group writes its two files over what was saved before |
| Systemd.PromptGroup | systemd.go:99-130 | the prompt loop ends as the prompt specification says |
| Systemd.InstallUnits | systemd.go:72-131 | for a map iteration order that visits every interval exactly once, a missing executable is fatal before any file is saved; otherwise the disk holds the files of the groups the session saved, in order |
| Systemd.EnabledAsWrittenMatchesIff | systemd.go:148-151 | the timer enabled as written is the one saved exactly when the interval has no calendar character or the names spell it |
| Systemd.CalendarTimerNotEnabled | systemd.go:148-151 | for interval `*-*-* 02:00:00` and target `db`, the enabled name is not that of the saved timer |
| Systemd.EnabledTimerWasSaved | systemd.go:148-151 | the corrected enable step names the timer that was saved, with the prefix |
| Systemd.WalkedUntilError | systemd.go:230-233 | the walk stops at the first entry that reports an error |
| Systemd.PrefixedAreSelected | systemd.go:235-240 | exactly the entries whose name has the prefix are collected, in walk order |
| Systemd.CleanUnits | systemd.go:225-264 | with the answer `y` the found unit files are removed, and with any other answer nothing is |
| Systemd.DefaultCleanUpEndsInstall | systemd.go:30-45 | as written, a blank line in answer to the `[Y/n]` clean-up question is a read error, so the advertised default ends the process |
| Systemd.CleanUpReplyTakesDefault | systemd.go:30-45 | the corrected reply cleans on a blank line and agrees with the code on every other line; it fails exactly at end of input or on a line of several words |
| Cli.Stages | main.go:23-62 | `-version` only prints the version; otherwise the configuration is loaded first, validated only for `-install`, then units are installed and backups run, each exactly when requested, installing first |
| Cli.FirstField | main.go:39-45 | the first field is the flag's text before its first comma |
| Cli.FirstTargetIsFirstField | main.go:39-45 | the split list is never empty, so the empty check never fires; `all` selects every target only as the first field |
| Cli.ResolveTargets | main.go:39-53 | without a leading `all`, the split list; with it, every configured target exactly once |
| Cli.ServiceTargetsResolveToGroup | main.go:39-53 | the `-targets` list of a generated service resolves to exactly its group's names, when no name contains ',' and the first is not `all` |

## Left out

- File locking (`flock`) around the backup list is left out: the model is single-process, so there is nothing to lock against.
- JSON encoding and decoding of the list are left out. The list file is modelled as missing, unreadable, corrupt, or a list of entries. A marshalling failure, which Go cannot produce for these string records, is left out too.
- `time.Now`, `time.Parse` and `Time.AddDate` are parameters. `Ledger.CutoffIsInThePast` assumes `AddDate` moves backwards for negative counts.
- `Ledger.CutoffDate`: the exact `ErrRange` and `ErrSyntax` values of `strconv.Atoi` are not distinguished; any error is fatal.
- The `BadNumber` error carries the token's characters before its last one. When that last character is not ASCII, Go's message also holds the leading bytes of its UTF-8 encoding; strings are characters here, so those bytes are not in the text.
- The per-entry "Unable to parse date" log line and the cutoff log line are left out.
- Nextcloud `ReadAt` is modelled as returning the whole requested chunk. For a regular file that does not change during the upload, `io.EOF` arrives only together with a full short read. A read error is modelled as a set of failing offsets.
- The progress log line at nextcloud.go:95, with its floating-point percentage, is left out.
- `Nextcloud.ChunkSizeAt`: the `int64` offset and `int` chunk size are unbounded integers. A Go overflow needs files above 8 EiB.
- The tar, zip, gzip and zstd encodings are left out. An archive is the sequence of its entries (name, directory flag, deflate flag, body), and the compression is a label on the stream.
- `zstd.NewWriter` is modelled as infallible: it is given the valid level `SpeedBestCompression` (backup.go:129), which cannot fail. The configured `CompressionLevel` applies only to gzip.
- An `io.Copy` failure is modelled as copying nothing into the entry before the error.
- Closing writers (`defer`) and the `archiveBuffer` path, which is unreachable, are left out.
- `WriteToFileFirst` and `copypartyUpload` disagree across files. backup.go reads `c.WriteToFileFirst`, which is not a field of the configuration type in config.go, and calls `c.copypartyUpload(target.Remote, outPath)` with two arguments and one result, while copyparty.go declares three arguments and two results.
  - The run therefore takes `writeFirst` as a parameter.
  - The upload inside the run is an oracle `accepted(remote, path)`.
  - `Copyparty.CopypartyUpload` models copyparty.go as written. Nextcloud uploads are not called from the run, as in the source.
- `cuid2.Init` is the `cuidReady` flag, and the generated IDs are the function `ids`.
- Backup.OutPath, Backup.Step, Backup.BackupTarget, Backup.RunBackup: the run names each archive with the corrected `FileName` (see Findings). In May the run therefore archives, uploads and continues where backup.go:46 panics and ends the process; `Backup.MayPanics` states that panic about the name as written.
- The run's log lines are left out. Only file creation, removal and upload events are kept.
- The steps of `install` before the group loop are not one method of the model, and the model starts after them. These steps can end the process before any unit is generated:
  - the root check: a failing `user.Current` or a user other than root is `log.Fatalf` (systemd.go:19-28);
  - the clean-up question: any `Scanln` error is `log.Fatalf`, including an empty line and end of input, and `y`/`Y` runs `cleanUnits`, which removes unit files (systemd.go:30-45). `Systemd.CleanUpReplyAsWritten` models this reply, and `Systemd.CleanUnits` takes the answer as a parameter;
  - `$EDITOR` with its `vim` default, and the user-name prompt, whose read error is ignored (systemd.go:47-60). `Systemd.InstallUnits` takes their outcomes as parameters.
- The whole of `install` is not one method. The grouping, the group loop, cleaning and enabling are modelled separately.
- `Systemd.InstallUnits` takes the interval map's iteration order as the parameter `order`.
- `Systemd.Prompt`: when the answers run out, the prompt is `Stalled`. The source would re-prompt forever on an empty input, and the session stops there.
- Review (`r`), which only prints, is modelled as a no-op prompt step.
- The text editor is an oracle from the answer index and the text to the new text: the contents `editFile` returns. A failing editor command only warns (systemd.go:209-211), and the temporary file's contents are still used; an unreadable temporary file keeps the original text (systemd.go:213-218), which the oracle may return. A failure to write the temporary file (`log.Fatalf` at systemd.go:199-201) is left out.
- `os.WriteFile` results in `saveTimerFiles` are ignored by the source. The model writes both files unconditionally.
- Running `systemctl daemon-reload` and `systemctl enable --now` is left out. The process outcome is only logged. `Systemd.EnabledTimer` models the name the enable step uses.
- The enable question is left out; only the name each enable step uses is modelled.
- `os.Remove` errors in `cleanUnits` are ignored by the source and are left out.
- `Settings.Process.LoadConfig`: an `os.Stat` error other than "not exist" is treated as "exists", as the source does by checking only `os.IsNotExist`. The calendar validation (`systemd-analyze`) is the parameter `accepted`.
- The version text from `debug.ReadBuildInfo` (main.go:11-21) is left out; `Cli.Stages` models only that `-version` prints and exits.
- build.py, the release build script, is not part of this model.

## Findings

| source | as written | input that shows it | evidently intended | confidence | as-written member | corrected member |
|---|---|---|---|---|---|---|
| backup.go:46 | the month is `date.Month().String()[0:4]`, a 4-byte slice of the English month name | any backup run in May: "May" has 3 bytes, so the slice is out of range and the program panics | the first four letters of the month name, or the whole name when it is shorter | high (not executed) | Backup.MayPanics | Backup.FileNameAgrees, Backup.FileNameDeterminesDate |
| systemd.go:148-151 | the timer enabled for each group is `qbsgo-generated-<interval>.timer`, built from the raw interval | interval `*-*-* 02:00:00` for target `db`: the saved timer is `qbsgo-generated-db.timer`, but `qbsgo-generated-*-*-* 02:00:00.timer` is enabled | enable the timer under the file name `intervalOrServerNames` chose when saving | high (not executed) | Systemd.CalendarTimerNotEnabled | Systemd.EnabledTimerWasSaved |
| systemd.go:30-45 | the clean-up question offers `[Y/n]` but reads its answer with `fmt.Scanln`, whose error on an empty line is `log.Fatalf` | pressing Enter at the question "Do you wish to clean up existing QBS unit files? (if there is any) [Y/n]": `Scanln` reports "unexpected newline" and `install` ends before any unit is generated | an empty line takes the default `Y` and cleans | medium (not executed) | Systemd.DefaultCleanUpEndsInstall | Systemd.CleanUpReplyTakesDefault |

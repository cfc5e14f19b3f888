/** The Nextcloud upload of nextcloud.go: Nextcloud's WebDAV chunked upload
    (a scratch collection under `uploads/`, numbered chunk objects, then a
    WebDAV MOVE of the collection's `.file` marker, section 9.9 of RFC 4918,
    to the destination).

    The `gowebdav` client is replaced by `DavClient`, a fake that records
    every call in `log` and answers each call with a fixed oracle `accepts`.
    `url.JoinPath`, `path.Join` and `cuid2.Generate` are parameters; the local
    file is described by `LocalFile`. */
module Nextcloud {
  import opened Common
  import opened Settings

  const Mebibyte := 1024 * 1024
  const DefaultChunkSize := 50 * Mebibyte
  const TotalLengthHeader := "OC-Total-Length"

  /** What the fake client records: one entry per client call. */
  datatype Call =
    | Connected                          // client.Connect()
    | HeaderSet(name: string, value: string)
    | Mkcol(path: string)                // client.Mkdir
    | Put(path: string, body: seq<byte>) // client.Write
    | Move(from: string, to: string, overwrite: bool)     // client.Rename

  /** The local archive as `os.Open`, `File.Stat` and `File.ReadAt` see it:
      `ReadAt` returns the whole requested range, except at the offsets in
      `unreadableAt`, where it fails. */
  datatype LocalFile = LocalFile(opens: bool, stats: bool, content: seq<byte>, unreadableAt: set<nat>)

  datatype UploadError =
    | PrefixJoinFailed
    | DestinationJoinFailed
    | ConnectFailed(remote: string)
    | OpenFailed
    | StatFailed
    | MkdirFailed
    | ReadFailed(offset: nat)
    | ChunkFailed(chunkNum: nat)
    | AssembleFailed

  /** The client's whole log at the end, and the returned error (None: `nil`). */
  datatype Run = Run(calls: seq<Call>, failure: Option<UploadError>)

  // ---------------------------------------------------------------------
  // Names and paths (nextcloud.go:64, 87, 100)
  // ---------------------------------------------------------------------

  function ChunkFolder(user: string, uploadId: string): string {
    "uploads/" + user + "/qbsgo-" + uploadId
  }

  /** `fmt.Sprintf("%s/%05d", chunksFolder, chunkNum)`. */
  function ChunkPath(folder: string, num: nat): string {
    folder + "/" + PaddedDecimal(num, 5)
  }

  /** Distinct chunk numbers name distinct chunk objects. */
  lemma ChunkPathsDistinct(folder: string, m: nat, n: nat)
    requires ChunkPath(folder, m) == ChunkPath(folder, n)
    ensures m == n
  {
    var prefix := folder + "/";
    assert ChunkPath(folder, m)[|prefix|..] == PaddedDecimal(m, 5);
    assert ChunkPath(folder, n)[|prefix|..] == PaddedDecimal(n, 5);
    PaddedDecimalInjective(m, n, 5);
  }

  function DestinationPath(remote: Remote, fileName: string, pathJoin: PathJoin): string {
    pathJoin(["files", remote.user, remote.destDir, fileName])
  }

  // ---------------------------------------------------------------------
  // The chunk loop (nextcloud.go:71-98)
  // ---------------------------------------------------------------------

  /** `thisChunkSize`: a full chunk, or what is left of the file. */
  function ChunkSizeAt(fileSize: nat, offset: nat): (size: nat)
    requires offset < fileSize
    ensures 0 < size <= DefaultChunkSize && offset + size <= fileSize
    ensures size < DefaultChunkSize ==> offset + size == fileSize
  {
    if offset + DefaultChunkSize > fileSize then fileSize - offset else DefaultChunkSize
  }

  /** The chunk loop from `offset` on, numbering chunks from `num`, on a
      client whose log so far is `log`: it stops at the first chunk it cannot
      read (issuing nothing for it) or at the first chunk the server refuses. */
  function ChunkLoop(log: seq<Call>, file: LocalFile, offset: nat, num: nat, folder: string, accepts: Call -> bool): Run
    decreases |file.content| - offset
  {
    if offset >= |file.content| then Run(log, None)
    else if offset in file.unreadableAt then Run(log, Some(ReadFailed(offset)))
    else
      var size := ChunkSizeAt(|file.content|, offset);
      var call := Put(ChunkPath(folder, num), file.content[offset..offset + size]);
      if !accepts(call) then Run(log + [call], Some(ChunkFailed(num)))
      else ChunkLoop(log + [call], file, offset + size, num + 1, folder, accepts)
  }

  /** The writes of the chunk loop when every read and write succeeds. */
  function Puts(content: seq<byte>, offset: nat, num: nat, folder: string): seq<Call>
    decreases |content| - offset
  {
    if offset >= |content| then []
    else
      var size := ChunkSizeAt(|content|, offset);
      [Put(ChunkPath(folder, num), content[offset..offset + size])] + Puts(content, offset + size, num + 1, folder)
  }

  /** The bytes a sequence of calls writes, in order. */
  function PutBytes(calls: seq<Call>): seq<byte>
    decreases |calls|
  {
    if calls == [] then [] else (if calls[0].Put? then calls[0].body else []) + PutBytes(calls[1..])
  }

  lemma {:induction false} PutBytesConcat(a: seq<Call>, b: seq<Call>)
    ensures PutBytes(a + b) == PutBytes(a) + PutBytes(b)
    decreases |a|
  {
    if a == [] {
      assert a + b == b;
    } else {
      assert (a + b)[1..] == a[1..] + b;
      PutBytesConcat(a[1..], b);
    }
  }

  /** Together the chunks are the file from `offset` on, without gap or
      overlap. */
  lemma {:induction false} PutsCoverTheFile(content: seq<byte>, offset: nat, num: nat, folder: string)
    requires offset <= |content|
    ensures PutBytes(Puts(content, offset, num, folder)) == content[offset..]
    decreases |content| - offset
  {
    if offset < |content| {
      var size := ChunkSizeAt(|content|, offset);
      PutsCoverTheFile(content, offset + size, num + 1, folder);
      assert Puts(content, offset, num, folder)[1..] == Puts(content, offset + size, num + 1, folder);
      assert content[offset..] == content[offset..offset + size] + content[offset + size..];
    }
  }

  /** The chunks are numbered consecutively from `num`: the `i`-th write
      goes to chunk `num + i`. */
  lemma {:induction false} PutIsNumbered(content: seq<byte>, offset: nat, num: nat, folder: string, i: nat)
    requires i < |Puts(content, offset, num, folder)|
    ensures Puts(content, offset, num, folder)[i].Put?
    ensures Puts(content, offset, num, folder)[i].path == ChunkPath(folder, num + i)
    decreases i
  {
    if i > 0 {
      var size := ChunkSizeAt(|content|, offset);
      var rest := Puts(content, offset + size, num + 1, folder);
      assert Puts(content, offset, num, folder)[i] == rest[i - 1];
      PutIsNumbered(content, offset + size, num + 1, folder, i - 1);
      assert num + 1 + (i - 1) == num + i;
    }
  }

  /** No chunk is empty, and every chunk but the last is exactly
      `DEFAULT_CHUNK_SIZE` bytes; there are chunks exactly when some of the
      file is left. */
  lemma {:induction false} PutsAreFullChunks(content: seq<byte>, offset: nat, num: nat, folder: string)
    ensures var calls := Puts(content, offset, num, folder);
      && (calls == [] <==> offset >= |content|)
      && forall i :: 0 <= i < |calls| ==>
           && calls[i].Put?
           && 0 < |calls[i].body| <= DefaultChunkSize
           && (i < |calls| - 1 ==> |calls[i].body| == DefaultChunkSize)
    decreases |content| - offset
  {
    if offset < |content| {
      var size := ChunkSizeAt(|content|, offset);
      var calls := Puts(content, offset, num, folder);
      var rest := Puts(content, offset + size, num + 1, folder);
      PutsAreFullChunks(content, offset + size, num + 1, folder);
      assert calls == [calls[0]] + rest;
      if rest != [] {
        assert size == DefaultChunkSize;
      }
    }
  }

  /** The number of chunks is the file size divided by the chunk size,
      rounded up. */
  lemma {:induction false} PutsCount(content: seq<byte>, offset: nat, num: nat, folder: string)
    requires offset <= |content|
    ensures |Puts(content, offset, num, folder)| == (|content| - offset + DefaultChunkSize - 1) / DefaultChunkSize
    decreases |content| - offset
  {
    var rest := |content| - offset;
    if rest > DefaultChunkSize {
      PutsCount(content, offset + DefaultChunkSize, num + 1, folder);
      assert (rest + DefaultChunkSize - 1) / DefaultChunkSize
          == 1 + (rest - DefaultChunkSize + DefaultChunkSize - 1) / DefaultChunkSize;
    } else if rest > 0 {
      assert (rest + DefaultChunkSize - 1) / DefaultChunkSize == 1;
    }
  }

  /** The loop only appends to the log, and only writes. */
  lemma {:induction false} ChunkLoopAppendsWrites(log: seq<Call>, file: LocalFile, offset: nat, num: nat, folder: string, accepts: Call -> bool)
    ensures var run := ChunkLoop(log, file, offset, num, folder, accepts);
      |log| <= |run.calls| && run.calls[..|log|] == log
      && forall k :: |log| <= k < |run.calls| ==> run.calls[k].Put?
    decreases |file.content| - offset
  {
    if offset < |file.content| && offset !in file.unreadableAt {
      var size := ChunkSizeAt(|file.content|, offset);
      var call := Put(ChunkPath(folder, num), file.content[offset..offset + size]);
      if accepts(call) {
        ChunkLoopAppendsWrites(log + [call], file, offset + size, num + 1, folder, accepts);
        var run := ChunkLoop(log, file, offset, num, folder, accepts);
        assert run.calls[..|log| + 1][..|log|] == run.calls[..|log|];
      }
    }
  }

  /** When the chunk loop runs to its end, it has written every chunk. */
  lemma {:induction false} ChunkLoopCompletes(log: seq<Call>, file: LocalFile, offset: nat, num: nat, folder: string, accepts: Call -> bool)
    requires ChunkLoop(log, file, offset, num, folder, accepts).failure.None?
    ensures ChunkLoop(log, file, offset, num, folder, accepts).calls == log + Puts(file.content, offset, num, folder)
    decreases |file.content| - offset
  {
    if offset < |file.content| {
      var size := ChunkSizeAt(|file.content|, offset);
      var call := Put(ChunkPath(folder, num), file.content[offset..offset + size]);
      ChunkLoopCompletes(log + [call], file, offset + size, num + 1, folder, accepts);
      assert log + [call] + Puts(file.content, offset + size, num + 1, folder)
          == log + Puts(file.content, offset, num, folder);
    }
  }

  /** Every write of the chunk loop was accepted, except a refused last one
      that ended it. */
  lemma {:induction false} ChunkLoopAccepted(log: seq<Call>, file: LocalFile, offset: nat, num: nat, folder: string,
                                             accepts: Call -> bool, j: nat)
    requires var run := ChunkLoop(log, file, offset, num, folder, accepts);
      |log| <= j < |run.calls| && (run.failure.None? || j < |run.calls| - 1)
    ensures accepts(ChunkLoop(log, file, offset, num, folder, accepts).calls[j])
    decreases |file.content| - offset
  {
    var size := ChunkSizeAt(|file.content|, offset);
    var call := Put(ChunkPath(folder, num), file.content[offset..offset + size]);
    if accepts(call) && j > |log| {
      ChunkLoopAccepted(log + [call], file, offset + size, num + 1, folder, accepts, j);
    } else if accepts(call) {
      ChunkLoopAppendsWrites(log + [call], file, offset + size, num + 1, folder, accepts);
      var run := ChunkLoop(log, file, offset, num, folder, accepts);
      assert run.calls[..|log| + 1][j] == call;
    }
  }

  /** A refused write ends the chunk loop: it is the last call, not accepted,
      and the error names its chunk, which is the loop's last write. */
  lemma {:induction false} ChunkLoopRefused(log: seq<Call>, file: LocalFile, offset: nat, num: nat, folder: string, accepts: Call -> bool)
    requires var run := ChunkLoop(log, file, offset, num, folder, accepts);
      run.failure.Some? && run.failure.value.ChunkFailed?
    ensures var run := ChunkLoop(log, file, offset, num, folder, accepts);
      && |run.calls| > |log|
      && run.failure.value.chunkNum == num + |run.calls| - |log| - 1
      && var last := run.calls[|run.calls| - 1];
         last.Put? && last.path == ChunkPath(folder, run.failure.value.chunkNum) && !accepts(last)
    decreases |file.content| - offset
  {
    var size := ChunkSizeAt(|file.content|, offset);
    var call := Put(ChunkPath(folder, num), file.content[offset..offset + size]);
    if accepts(call) {
      ChunkLoopRefused(log + [call], file, offset + size, num + 1, folder, accepts);
    }
  }

  // ---------------------------------------------------------------------
  // One whole upload (nextcloud.go:23-107)
  // ---------------------------------------------------------------------

  /** The three calls before the chunk loop: connect, announce the total
      length, create the scratch collection. */
  function Setup(fileSize: nat, folder: string): seq<Call> {
    [Connected, HeaderSet(TotalLengthHeader, Decimal(fileSize)), Mkcol(folder)]
  }

  /** Everything `c.nextcloudUpload(remoteName, inputFile, fileName)` does,
      as the client's log and the returned error. */
  function UploadRun(remotes: map<string, Remote>, remoteName: string, fileName: string, uploadId: string,
                     file: LocalFile, urlJoin: UrlJoin, pathJoin: PathJoin, accepts: Call -> bool): Run
  {
    var remote := RemoteNamed(remotes, remoteName);
    match urlJoin(remote.root, ["remote.php/dav"])
    case None => Run([], Some(PrefixJoinFailed))
    case Some(prefixUrl) =>
      if urlJoin(prefixUrl, ["files", remote.user, remote.destDir, fileName]).None? then Run([], Some(DestinationJoinFailed))
      else if !accepts(Connected) then Run([Connected], Some(ConnectFailed(remoteName)))
      else if !file.opens then Run([Connected], Some(OpenFailed))
      else if !file.stats then Run([Connected], Some(StatFailed))
      else TransferRun([Connected], remote, fileName, uploadId, file, pathJoin, accepts)
  }

  /** The upload from the header on (nextcloud.go:60-107), on a client whose
      log so far is `log`. */
  function TransferRun(log: seq<Call>, remote: Remote, fileName: string, uploadId: string, file: LocalFile,
                       pathJoin: PathJoin, accepts: Call -> bool): Run
  {
    var folder := ChunkFolder(remote.user, uploadId);
    var setup := log + [HeaderSet(TotalLengthHeader, Decimal(|file.content|)), Mkcol(folder)];
    if !accepts(Mkcol(folder)) then Run(setup, Some(MkdirFailed))
    else
      var chunks := ChunkLoop(setup, file, 0, 1, folder, accepts);
      if chunks.failure.Some? then chunks
      else
        var rename := Move(folder + "/.file", DestinationPath(remote, fileName, pathJoin), true);
        Run(chunks.calls + [rename], if accepts(rename) then None else Some(AssembleFailed))
  }

  /** The upload gets as far as the chunk loop. */
  predicate ReachesChunks(remotes: map<string, Remote>, remoteName: string, fileName: string, uploadId: string,
                          file: LocalFile, urlJoin: UrlJoin, accepts: Call -> bool)
  {
    var remote := RemoteNamed(remotes, remoteName);
    && urlJoin(remote.root, ["remote.php/dav"]).Some?
    && urlJoin(urlJoin(remote.root, ["remote.php/dav"]).value, ["files", remote.user, remote.destDir, fileName]).Some?
    && accepts(Connected) && file.opens && file.stats
    && accepts(Mkcol(ChunkFolder(remote.user, uploadId)))
  }

  /** A successful upload issues, in this order: connect, the
      `OC-Total-Length` header holding the decimal file size, the scratch
      collection, one write per chunk, and last the move of the `.file` marker
      to `files/{User}/{DestDir}/{fileName}`; every call was accepted. */
  lemma SuccessfulUpload(remotes: map<string, Remote>, remoteName: string, fileName: string, uploadId: string,
                         file: LocalFile, urlJoin: UrlJoin, pathJoin: PathJoin, accepts: Call -> bool)
    requires UploadRun(remotes, remoteName, fileName, uploadId, file, urlJoin, pathJoin, accepts).failure.None?
    ensures ReachesChunks(remotes, remoteName, fileName, uploadId, file, urlJoin, accepts)
    ensures var remote := RemoteNamed(remotes, remoteName);
      var folder := ChunkFolder(remote.user, uploadId);
      var calls := UploadRun(remotes, remoteName, fileName, uploadId, file, urlJoin, pathJoin, accepts).calls;
      && calls == Setup(|file.content|, folder) + Puts(file.content, 0, 1, folder)
                  + [Move(folder + "/.file", DestinationPath(remote, fileName, pathJoin), true)]
      && forall j :: 0 <= j < |calls| && j != 1 ==> accepts(calls[j])
  {
    var remote := RemoteNamed(remotes, remoteName);
    var folder := ChunkFolder(remote.user, uploadId);
    var setup := Setup(|file.content|, folder);
    var chunks := ChunkLoop(setup, file, 0, 1, folder, accepts);
    assert [Connected] + [HeaderSet(TotalLengthHeader, Decimal(|file.content|)), Mkcol(folder)] == setup;
    ChunkLoopCompletes(setup, file, 0, 1, folder, accepts);
    var calls := UploadRun(remotes, remoteName, fileName, uploadId, file, urlJoin, pathJoin, accepts).calls;
    assert calls == chunks.calls + [calls[|calls| - 1]];
    forall j | 3 <= j < |chunks.calls|
      ensures accepts(calls[j])
    {
      ChunkLoopAccepted(setup, file, 0, 1, folder, accepts, j);
    }
  }

  /** What a successful upload stores: the chunk writes, numbered 1, 2, …,
      carry exactly the file's bytes, in pieces of `DEFAULT_CHUNK_SIZE` but
      the last; there are as many as the size divided by the chunk size,
      rounded up. */
  lemma SuccessfulUploadStoresTheFile(remotes: map<string, Remote>, remoteName: string, fileName: string, uploadId: string,
                                      file: LocalFile, urlJoin: UrlJoin, pathJoin: PathJoin, accepts: Call -> bool)
    requires UploadRun(remotes, remoteName, fileName, uploadId, file, urlJoin, pathJoin, accepts).failure.None?
    ensures var calls := UploadRun(remotes, remoteName, fileName, uploadId, file, urlJoin, pathJoin, accepts).calls;
      var folder := ChunkFolder(RemoteNamed(remotes, remoteName).user, uploadId);
      && PutBytes(calls) == file.content
      && |calls| == 4 + (|file.content| + DefaultChunkSize - 1) / DefaultChunkSize
      && forall i :: 3 <= i < |calls| - 1 ==>
           && calls[i].Put? && calls[i].path == ChunkPath(folder, i - 2)
           && 0 < |calls[i].body| <= DefaultChunkSize
           && (i < |calls| - 2 ==> |calls[i].body| == DefaultChunkSize)
  {
    var remote := RemoteNamed(remotes, remoteName);
    var folder := ChunkFolder(remote.user, uploadId);
    SuccessfulUpload(remotes, remoteName, fileName, uploadId, file, urlJoin, pathJoin, accepts);
    UploadCallsStoreTheFile(file.content, folder, Setup(|file.content|, folder),
                            Move(folder + "/.file", DestinationPath(remote, fileName, pathJoin), true));
  }

  /** The calls of a successful upload, once its setup and move are fixed:
      the chunk writes between them carry the file, numbered from 1. */
  lemma UploadCallsStoreTheFile(content: seq<byte>, folder: string, setup: seq<Call>, move: Call)
    requires |setup| == 3 && !setup[0].Put? && !setup[1].Put? && !setup[2].Put? && !move.Put?
    ensures var calls := setup + Puts(content, 0, 1, folder) + [move];
      && PutBytes(calls) == content
      && |calls| == 4 + (|content| + DefaultChunkSize - 1) / DefaultChunkSize
      && forall i :: 3 <= i < |calls| - 1 ==>
           && calls[i].Put? && calls[i].path == ChunkPath(folder, i - 2)
           && 0 < |calls[i].body| <= DefaultChunkSize
           && (i < |calls| - 2 ==> |calls[i].body| == DefaultChunkSize)
  {
    var puts := Puts(content, 0, 1, folder);
    var calls := setup + puts + [move];
    PutsCoverTheFile(content, 0, 1, folder);
    StoredBytes(setup, puts, move, content);
    PutsCount(content, 0, 1, folder);
    PutsAreFullChunks(content, 0, 1, folder);
    forall i | 3 <= i < |calls| - 1
      ensures calls[i] == puts[i - 3] && calls[i].path == ChunkPath(folder, i - 2)
    {
      PutIsNumbered(content, 0, 1, folder, i - 3);
    }
  }

  /** The header, collection and move calls write no bytes. */
  lemma StoredBytes(setup: seq<Call>, puts: seq<Call>, move: Call, content: seq<byte>)
    requires |setup| == 3 && !setup[0].Put? && !setup[1].Put? && !setup[2].Put? && !move.Put?
    requires PutBytes(puts) == content[0..]
    ensures PutBytes(setup + puts + [move]) == content
  {
    PutBytesConcat(setup, puts);
    PutBytesConcat(setup + puts, [move]);
    assert PutBytes(setup) == [] by {
      assert PutBytes(setup) == PutBytes(setup[1..]);
      assert PutBytes(setup[1..]) == PutBytes(setup[2..]);
      assert PutBytes(setup[2..]) == PutBytes(setup[3..]);
      assert setup[3..] == [];
    }
    assert PutBytes([move]) == [] by {
      assert [move][1..] == [];
    }
    assert content[0..] == content;
  }

  /** The move that makes the upload visible is issued only after every
      chunk has been written and accepted, and it is the last call. */
  lemma MoveOnlyAfterAllChunks(remotes: map<string, Remote>, remoteName: string, fileName: string, uploadId: string,
                               file: LocalFile, urlJoin: UrlJoin, pathJoin: PathJoin, accepts: Call -> bool, k: nat)
    requires var calls := UploadRun(remotes, remoteName, fileName, uploadId, file, urlJoin, pathJoin, accepts).calls;
      k < |calls| && calls[k].Move?
    ensures var calls := UploadRun(remotes, remoteName, fileName, uploadId, file, urlJoin, pathJoin, accepts).calls;
      var folder := ChunkFolder(RemoteNamed(remotes, remoteName).user, uploadId);
      && ReachesChunks(remotes, remoteName, fileName, uploadId, file, urlJoin, accepts)
      && k == |calls| - 1
      && calls[..k] == Setup(|file.content|, folder) + Puts(file.content, 0, 1, folder)
      && forall j :: 3 <= j < k ==> accepts(calls[j])
  {
    var remote := RemoteNamed(remotes, remoteName);
    var folder := ChunkFolder(remote.user, uploadId);
    var setup := Setup(|file.content|, folder);
    var chunks := ChunkLoop(setup, file, 0, 1, folder, accepts);
    var calls := UploadRun(remotes, remoteName, fileName, uploadId, file, urlJoin, pathJoin, accepts).calls;
    assert [Connected] + [HeaderSet(TotalLengthHeader, Decimal(|file.content|)), Mkcol(folder)] == setup;
    MoveMeansChunksDone(remotes, remoteName, fileName, uploadId, file, urlJoin, pathJoin, accepts, k);
    ChunkLoopCompletes(setup, file, 0, 1, folder, accepts);
    assert calls[..|calls| - 1] == chunks.calls;
    ChunkLoopAppendsWrites(setup, file, 0, 1, folder, accepts);
    forall j | 0 <= j < |calls| - 1
      ensures !calls[j].Move?
    {
      assert calls[j] == chunks.calls[j];
      if j < 3 {
        assert chunks.calls[..3][j] == setup[j];
      }
    }
    forall j | 3 <= j < |calls| - 1
      ensures accepts(calls[j])
    {
      ChunkLoopAccepted(setup, file, 0, 1, folder, accepts, j);
    }
  }

  /** Only an upload whose chunk loop ran to its end issues a move. */
  lemma MoveMeansChunksDone(remotes: map<string, Remote>, remoteName: string, fileName: string, uploadId: string,
                            file: LocalFile, urlJoin: UrlJoin, pathJoin: PathJoin, accepts: Call -> bool, k: nat)
    requires var calls := UploadRun(remotes, remoteName, fileName, uploadId, file, urlJoin, pathJoin, accepts).calls;
      k < |calls| && calls[k].Move?
    ensures ReachesChunks(remotes, remoteName, fileName, uploadId, file, urlJoin, accepts)
    ensures var folder := ChunkFolder(RemoteNamed(remotes, remoteName).user, uploadId);
      ChunkLoop(Setup(|file.content|, folder), file, 0, 1, folder, accepts).failure.None?
  {
    var remote := RemoteNamed(remotes, remoteName);
    var folder := ChunkFolder(remote.user, uploadId);
    var setup := Setup(|file.content|, folder);
    assert [Connected] + [HeaderSet(TotalLengthHeader, Decimal(|file.content|)), Mkcol(folder)] == setup;
    var prefixUrl := urlJoin(remote.root, ["remote.php/dav"]);
    if prefixUrl.Some? && urlJoin(prefixUrl.value, ["files", remote.user, remote.destDir, fileName]).Some?
       && accepts(Connected) && file.opens && file.stats && accepts(Mkcol(folder)) {
      ChunkLoopAppendsWrites(setup, file, 0, 1, folder, accepts);
      assert ChunkLoop(setup, file, 0, 1, folder, accepts).calls[..3] == setup;
    }
  }

  /** A refused chunk write ends the upload with an error naming that chunk:
      the refused write is the last call, so no later chunk and no move. */
  lemma ChunkFailureEndsUpload(remotes: map<string, Remote>, remoteName: string, fileName: string, uploadId: string,
                               file: LocalFile, urlJoin: UrlJoin, pathJoin: PathJoin, accepts: Call -> bool)
    requires var run := UploadRun(remotes, remoteName, fileName, uploadId, file, urlJoin, pathJoin, accepts);
      run.failure.Some? && run.failure.value.ChunkFailed?
    ensures var run := UploadRun(remotes, remoteName, fileName, uploadId, file, urlJoin, pathJoin, accepts);
      var folder := ChunkFolder(RemoteNamed(remotes, remoteName).user, uploadId);
      && |run.calls| >= 4
      && run.failure.value.chunkNum == |run.calls| - 3
      && (var last := run.calls[|run.calls| - 1];
          last.Put? && last.path == ChunkPath(folder, run.failure.value.chunkNum) && !accepts(last))
      && forall k :: 0 <= k < |run.calls| ==> !run.calls[k].Move?
  {
    var remote := RemoteNamed(remotes, remoteName);
    var folder := ChunkFolder(remote.user, uploadId);
    var setup := Setup(|file.content|, folder);
    assert [Connected] + [HeaderSet(TotalLengthHeader, Decimal(|file.content|)), Mkcol(folder)] == setup;
    ChunkLoopRefused(setup, file, 0, 1, folder, accepts);
    ChunkLoopAppendsWrites(setup, file, 0, 1, folder, accepts);
    var run := UploadRun(remotes, remoteName, fileName, uploadId, file, urlJoin, pathJoin, accepts);
    forall k | 0 <= k < 3
      ensures !run.calls[k].Move?
    {
      assert run.calls[k] == run.calls[..3][k];
    }
  }

  /** An empty file is uploaded without any chunk: the header says 0 and the
      move follows the collection directly. */
  lemma EmptyFileUpload(remotes: map<string, Remote>, remoteName: string, fileName: string, uploadId: string,
                        file: LocalFile, urlJoin: UrlJoin, pathJoin: PathJoin, accepts: Call -> bool)
    requires file.content == []
    requires UploadRun(remotes, remoteName, fileName, uploadId, file, urlJoin, pathJoin, accepts).failure.None?
    ensures var remote := RemoteNamed(remotes, remoteName);
      var folder := ChunkFolder(remote.user, uploadId);
      UploadRun(remotes, remoteName, fileName, uploadId, file, urlJoin, pathJoin, accepts).calls
        == [Connected, HeaderSet(TotalLengthHeader, "0"), Mkcol(folder), Move(folder + "/.file", DestinationPath(remote, fileName, pathJoin), true)]
  {
    assert Decimal(0) == "0";
  }

  // ---------------------------------------------------------------------
  // The fake WebDAV client and the upload method
  // ---------------------------------------------------------------------

  class DavClient {
    const root: string
    const user: string
    const password: string
    const accepts: Call -> bool
    var log: seq<Call>
    var headers: map<string, string>

    /** `gowebdav.NewClient(root, user, password)`. */
    constructor (root: string, user: string, password: string, accepts: Call -> bool)
      ensures this.root == root && this.user == user && this.password == password && this.accepts == accepts
      ensures log == [] && headers == map[]
    {
      this.root := root;
      this.user := user;
      this.password := password;
      this.accepts := accepts;
      log := [];
      headers := map[];
    }

    method Connect() returns (ok: bool)
      modifies this`log
      ensures log == old(log) + [Connected] && ok == accepts(Connected)
    {
      log := log + [Connected];
      ok := accepts(Connected);
    }

    /** Every later request carries the header. */
    method SetHeader(name: string, value: string)
      modifies this`log, this`headers
      ensures log == old(log) + [HeaderSet(name, value)] && headers == old(headers)[name := value]
    {
      log := log + [HeaderSet(name, value)];
      headers := headers[name := value];
    }

    method Mkdir(path: string) returns (ok: bool)
      modifies this`log
      ensures log == old(log) + [Mkcol(path)] && ok == accepts(Mkcol(path))
    {
      log := log + [Mkcol(path)];
      ok := accepts(Mkcol(path));
    }

    method Write(path: string, body: seq<byte>) returns (ok: bool)
      modifies this`log
      ensures log == old(log) + [Put(path, body)] && ok == accepts(Put(path, body))
    {
      log := log + [Put(path, body)];
      ok := accepts(Put(path, body));
    }

    method Rename(from: string, to: string, overwrite: bool) returns (ok: bool)
      modifies this`log
      ensures log == old(log) + [Move(from, to, overwrite)] && ok == accepts(Move(from, to, overwrite))
    {
      log := log + [Move(from, to, overwrite)];
      ok := accepts(Move(from, to, overwrite));
    }
  }

  /** The chunk loop of nextcloud.go:71-98 on a connected client. */
  method UploadChunks(client: DavClient, file: LocalFile, chunksFolder: string) returns (err: Option<UploadError>)
    modifies client`log
    ensures var run := ChunkLoop(old(client.log), file, 0, 1, chunksFolder, client.accepts);
      client.log == run.calls && err == run.failure
  {
    var fileSize := |file.content|;
    ghost var whole := ChunkLoop(client.log, file, 0, 1, chunksFolder, client.accepts);
    var offset: nat := 0;
    var chunkNum: nat := 1;
    while offset < fileSize
      invariant offset <= fileSize
      invariant ChunkLoop(client.log, file, offset, chunkNum, chunksFolder, client.accepts) == whole
      decreases fileSize - offset
    {
      var thisChunkSize := DefaultChunkSize;
      if offset + DefaultChunkSize > fileSize {
        thisChunkSize := fileSize - offset;
      }
      if offset in file.unreadableAt {
        return Some(ReadFailed(offset));
      }
      var chunk := file.content[offset..offset + thisChunkSize];
      var bytesRead := |chunk|;
      assert chunk[..bytesRead] == chunk;
      var written := client.Write(ChunkPath(chunksFolder, chunkNum), chunk[..bytesRead]);
      if !written {
        return Some(ChunkFailed(chunkNum));
      }
      offset := offset + bytesRead;
      chunkNum := chunkNum + 1;
    }
    err := None;
  }

  /** nextcloud.go:60-107 on a connected client. */
  method Transfer(client: DavClient, remote: Remote, fileName: string, uploadId: string, file: LocalFile, pathJoin: PathJoin)
    returns (err: Option<UploadError>)
    modifies client`log, client`headers
    ensures var run := TransferRun(old(client.log), remote, fileName, uploadId, file, pathJoin, client.accepts);
      client.log == run.calls && err == run.failure
    ensures client.headers == old(client.headers)[TotalLengthHeader := Decimal(|file.content|)]
  {
    ghost var before := client.log;
    var fileSize := |file.content|;
    client.SetHeader(TotalLengthHeader, Decimal(fileSize));
    var chunksFolder := ChunkFolder(remote.user, uploadId);
    var made := client.Mkdir(chunksFolder);
    assert client.log == before + [HeaderSet(TotalLengthHeader, Decimal(|file.content|)), Mkcol(chunksFolder)];
    if !made {
      return Some(MkdirFailed);
    }
    var chunksFailed := UploadChunks(client, file, chunksFolder);
    if chunksFailed.Some? {
      return chunksFailed;
    }
    var assembled := client.Rename(chunksFolder + "/.file", DestinationPath(remote, fileName, pathJoin), true);
    if !assembled {
      return Some(AssembleFailed);
    }
    err := None;
  }

  /** `c.nextcloudUpload(remoteName, inputFile, fileName)`, where `file`
      describes `inputFile` and `uploadId` is the generated cuid2. The client
      is null when the prefix URL cannot be formed (no client is created). */
  method NextcloudUpload(remotes: map<string, Remote>, remoteName: string, fileName: string, uploadId: string,
                         file: LocalFile, urlJoin: UrlJoin, pathJoin: PathJoin, accepts: Call -> bool)
    returns (client: DavClient?, err: Option<UploadError>)
    ensures var run := UploadRun(remotes, remoteName, fileName, uploadId, file, urlJoin, pathJoin, accepts);
      err == run.failure && (client != null ==> client.log == run.calls && fresh(client))
    ensures client == null <==> urlJoin(RemoteNamed(remotes, remoteName).root, ["remote.php/dav"]).None?
  {
    var remote := RemoteNamed(remotes, remoteName);
    var prefixUrl := urlJoin(remote.root, ["remote.php/dav"]);
    if prefixUrl.None? {
      return null, Some(PrefixJoinFailed);
    }
    client := new DavClient(prefixUrl.value, remote.user, remote.password, accepts);
    var destUrl := urlJoin(prefixUrl.value, ["files", remote.user, remote.destDir, fileName]);
    if destUrl.None? {
      return client, Some(DestinationJoinFailed);
    }
    var connected := client.Connect();
    if !connected {
      return client, Some(ConnectFailed(remoteName));
    }
    if !file.opens {
      return client, Some(OpenFailed);
    }
    if !file.stats {
      return client, Some(StatFailed);
    }
    assert client.log == [Connected];
    err := Transfer(client, remote, fileName, uploadId, file, pathJoin);
  }
}

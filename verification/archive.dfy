/** Archive construction in backup.go: `createArchive` picks the container
    (tar or zip) and, for tar, the compression stream; `createTar` and
    `createZip` walk the source directory and write one entry per walked path.

    The walk (`filepath.Walk`) is given as the list of items it visits, in
    its order, each with the failure, if any, that the callback meets on it;
    `filepath.Rel` is a parameter. The tar (POSIX ustar/pax), zip (PKWARE
    APPNOTE), gzip (RFC 1952) and zstd (RFC 8878) encoders are not modelled:
    the archive is the sequence of its entries, and the compression is a
    label on the output stream. */
module Archive {
  import opened Common
  import opened Settings

  /** The failure the walk callback meets on an item. */
  datatype Fault =
    | LstatFault   // the walk hands the callback an error
    | InfoFault    // tar.FileInfoHeader / zip.FileInfoHeader fails
    | HeaderFault  // tarWriter.WriteHeader / zipWriter.CreateHeader fails
    | OpenFault    // os.Open fails
    | CopyFault    // io.Copy fails (modelled as copying nothing)

  /** One path the walk visits. */
  datatype WalkItem = WalkItem(path: string, isDir: bool, content: seq<byte>, fault: Option<Fault>)

  /** `filepath.Rel(basepath, targpath)`; None when it fails. */
  type RelPath = (string, string) -> Option<string>

  /** How entries are named and stored: tar converts the OS path separator
      to '/', zip keeps the relative path and may deflate. */
  datatype Layout = TarLayout(separator: char) | ZipLayout(deflate: bool)

  /** An archive entry: its header fields that the code sets, and its body. */
  datatype Member = Member(name: string, isDir: bool, deflated: bool, body: seq<byte>)

  /** The error the walk callback returns, naming the item. */
  datatype WalkError =
    | WalkFailed(path: string)
    | InfoFailed(path: string)
    | RelFailed(path: string)
    | HeaderFailed(path: string)
    | OpenFailed(path: string)
    | CopyFailed(path: string)

  datatype ArchiveError =
    | WalkAborted(cause: WalkError)
    | CompressorFailed(level: uint8)
    | UnknownFormat(archive: string)

  /** The entries in the archive stream when the walk ends, and its error. */
  datatype Written = Written(members: seq<Member>, failure: Option<WalkError>)

  datatype TarCompression = Zstd | Gzip(level: uint8) | Uncompressed

  datatype Format = Tar(compression: TarCompression) | Zip(deflate: bool)

  // ---------------------------------------------------------------------
  // Entry names (backup.go:170-178, 215-219)
  // ---------------------------------------------------------------------

  /** `filepath.ToSlash(p)` on a system whose separator is `separator`. */
  function ToSlash(p: string, separator: char): (r: string)
    ensures |r| == |p|
  {
    if separator == '/' then p
    else seq(|p|, i requires 0 <= i < |p| => if p[i] == separator then '/' else p[i])
  }

  /** `ToSlash` turns every separator into '/', leaves every other character
      alone, and converting twice is converting once. */
  lemma ToSlashConverts(p: string, separator: char)
    ensures separator != '/' ==> separator !in ToSlash(p, separator)
    ensures forall i :: 0 <= i < |p| && p[i] != separator ==> ToSlash(p, separator)[i] == p[i]
    ensures forall i :: 0 <= i < |p| && p[i] == separator ==> ToSlash(p, separator)[i] == '/'
    ensures ToSlash(ToSlash(p, separator), separator) == ToSlash(p, separator)
  {
    var r := ToSlash(p, separator);
    if separator != '/' {
      assert forall i :: 0 <= i < |r| ==> r[i] != separator;
    }
  }

  /** The header the callback writes for an item whose relative path is
      `relPath`. */
  function HeaderFor(layout: Layout, relPath: string, isDir: bool): Member {
    match layout
    case TarLayout(separator) => Member(ToSlash(relPath, separator), isDir, false, [])
    case ZipLayout(deflate) => Member(relPath, isDir, deflate, [])
  }

  /** The complete entry for an item: a directory has no body, a file its
      whole content. */
  function EntryFor(layout: Layout, relPath: string, item: WalkItem): Member {
    HeaderFor(layout, relPath, item.isDir).(body := if item.isDir then [] else item.content)
  }

  /** The callback finishes the item without error. */
  predicate Archivable(item: WalkItem, sourceDir: string, rel: RelPath) {
    && rel(sourceDir, item.path).Some?
    && (item.fault.None? || (item.isDir && (item.fault.value == OpenFault || item.fault.value == CopyFault)))
  }

  // ---------------------------------------------------------------------
  // The walk (backup.go:156-238)
  // ---------------------------------------------------------------------

  /** The walk from `items` on, into a stream already holding `written`:
      each item is checked, named and written in turn, and the first error
      stops the walk. */
  function Archived(written: seq<Member>, items: seq<WalkItem>, sourceDir: string, rel: RelPath, layout: Layout): Written
    decreases |items|
  {
    if items == [] then Written(written, None)
    else
      var item := items[0];
      if item.fault == Some(LstatFault) then Written(written, Some(WalkFailed(item.path)))
      else if item.fault == Some(InfoFault) then Written(written, Some(InfoFailed(item.path)))
      else if rel(sourceDir, item.path).None? then Written(written, Some(RelFailed(item.path)))
      else if item.fault == Some(HeaderFault) then Written(written, Some(HeaderFailed(item.path)))
      else
        var header := HeaderFor(layout, rel(sourceDir, item.path).value, item.isDir);
        if item.isDir then Archived(written + [header], items[1..], sourceDir, rel, layout)
        else if item.fault == Some(OpenFault) then Written(written + [header], Some(OpenFailed(item.path)))
        else if item.fault == Some(CopyFault) then Written(written + [header], Some(CopyFailed(item.path)))
        else Archived(written + [header.(body := item.content)], items[1..], sourceDir, rel, layout)
  }

  /** An item that succeeds adds its entry and the walk goes on. */
  lemma ArchivedArchivableStep(written: seq<Member>, items: seq<WalkItem>, sourceDir: string, rel: RelPath, layout: Layout)
    requires items != [] && Archivable(items[0], sourceDir, rel)
    ensures Archived(written, items, sourceDir, rel, layout)
         == Archived(written + [EntryFor(layout, rel(sourceDir, items[0].path).value, items[0])], items[1..], sourceDir, rel, layout)
  {
  }

  /** An item that fails stops the walk with an error naming it; only an
      open or copy failure comes after the item's header was written. */
  lemma ArchivedFailingStep(written: seq<Member>, items: seq<WalkItem>, sourceDir: string, rel: RelPath, layout: Layout)
    requires items != [] && !Archivable(items[0], sourceDir, rel)
    ensures var w := Archived(written, items, sourceDir, rel, layout);
      && w.failure.Some? && w.failure.value.path == items[0].path
      && |w.members| == |written| + (if w.failure.value.OpenFailed? || w.failure.value.CopyFailed? then 1 else 0)
  {
    match items[0].fault
    case None =>
    case Some(LstatFault) =>
    case Some(InfoFault) =>
    case Some(HeaderFault) =>
    case Some(OpenFault) =>
    case Some(CopyFault) =>
  }

  /** The walk only appends, one entry at most per item. */
  lemma {:induction false} ArchivedAppends(written: seq<Member>, items: seq<WalkItem>, sourceDir: string, rel: RelPath, layout: Layout)
    ensures var w := Archived(written, items, sourceDir, rel, layout);
      |written| <= |w.members| <= |written| + |items| && w.members[..|written|] == written
    decreases |items|
  {
    if items != [] {
      var item := items[0];
      if rel(sourceDir, item.path).Some? {
        var header := HeaderFor(layout, rel(sourceDir, item.path).value, item.isDir);
        var next := written + [if item.isDir then header else header.(body := item.content)];
        ArchivedAppends(next, items[1..], sourceDir, rel, layout);
        var w := Archived(written, items, sourceDir, rel, layout);
        if w.members != written + [header] && w.members != written {
          assert w == Archived(next, items[1..], sourceDir, rel, layout);
          assert w.members[..|next|][..|written|] == w.members[..|written|];
        }
      }
    }
  }

  /** Every entry the walk writes follows the layout: tar names carry no OS
      separator and are never deflated, zip entries are deflated exactly when
      the compression says so, and a directory entry has no body. */
  lemma {:induction false} ArchivedFollowsLayout(written: seq<Member>, items: seq<WalkItem>, sourceDir: string,
                                                 rel: RelPath, layout: Layout, k: nat)
    requires var w := Archived(written, items, sourceDir, rel, layout);
      |written| <= k < |w.members|
    ensures var m := Archived(written, items, sourceDir, rel, layout).members[k];
      && m.deflated == (layout.ZipLayout? && layout.deflate)
      && (layout.TarLayout? && layout.separator != '/' ==> layout.separator !in m.name)
      && (m.isDir ==> m.body == [])
    decreases |items|
  {
    var item := items[0];
    var relPath := rel(sourceDir, item.path).value;
    var header := HeaderFor(layout, relPath, item.isDir);
    var next := written + [if item.isDir then header else header.(body := item.content)];
    var w := Archived(written, items, sourceDir, rel, layout);
    if layout.TarLayout? {
      ToSlashConverts(relPath, layout.separator);
    }
    if k > |written| {
      ArchivedFollowsLayout(next, items[1..], sourceDir, rel, layout, k);
    } else if w.members != written + [header] {
      ArchivedAppends(next, items[1..], sourceDir, rel, layout);
      assert w.members[k] == w.members[..|next|][k];
    }
  }

  /** A walk in which every item succeeds writes one entry per item, in walk
      order, each named by the item's relative path and holding its bytes. */
  lemma {:induction false} ArchivedEveryItem(written: seq<Member>, items: seq<WalkItem>, sourceDir: string,
                                             rel: RelPath, layout: Layout)
    requires forall i :: 0 <= i < |items| ==> Archivable(items[i], sourceDir, rel)
    ensures var w := Archived(written, items, sourceDir, rel, layout);
      && w.failure.None? && |w.members| == |written| + |items|
      && forall i :: 0 <= i < |items| ==>
           Archivable(items[i], sourceDir, rel)
           && w.members[|written| + i] == EntryFor(layout, rel(sourceDir, items[i].path).value, items[i])
    decreases |items|
  {
    if items != [] {
      var item := items[0];
      var next := written + [EntryFor(layout, rel(sourceDir, item.path).value, item)];
      assert forall i :: 0 <= i < |items| - 1 ==> items[1..][i] == items[i + 1];
      ArchivedArchivableStep(written, items, sourceDir, rel, layout);
      ArchivedEveryItem(next, items[1..], sourceDir, rel, layout);
      ArchivedAppends(next, items[1..], sourceDir, rel, layout);
      var w := Archived(written, items, sourceDir, rel, layout);
      assert w.members[|written|] == w.members[..|next|][|written|];
    }
  }

  /** The first item that fails stops the walk: the error names it, every
      earlier item has its entry, and the failing item has none, or only its
      header when the failure came after the header was written. */
  lemma {:induction false} ArchivedStopsAtFirstFailure(written: seq<Member>, items: seq<WalkItem>, sourceDir: string,
                                                       rel: RelPath, layout: Layout)
    returns (j: nat)
    requires Archived(written, items, sourceDir, rel, layout).failure.Some?
    ensures j < |items| && !Archivable(items[j], sourceDir, rel)
    ensures forall i :: 0 <= i < j ==> Archivable(items[i], sourceDir, rel)
    ensures var w := Archived(written, items, sourceDir, rel, layout);
      && w.failure.value.path == items[j].path
      && |w.members| == |written| + j + (if w.failure.value.OpenFailed? || w.failure.value.CopyFailed? then 1 else 0)
    ensures var w := Archived(written, items, sourceDir, rel, layout);
      forall i :: 0 <= i < j ==>
        Archivable(items[i], sourceDir, rel)
        && w.members[|written| + i] == EntryFor(layout, rel(sourceDir, items[i].path).value, items[i])
    decreases |items|
  {
    var item := items[0];
    if Archivable(item, sourceDir, rel) {
      var next := written + [EntryFor(layout, rel(sourceDir, item.path).value, item)];
      ArchivedArchivableStep(written, items, sourceDir, rel, layout);
      var j' := ArchivedStopsAtFirstFailure(next, items[1..], sourceDir, rel, layout);
      j := j' + 1;
      assert forall i :: 1 <= i < j ==> items[i] == items[1..][i - 1];
      var w := Archived(written, items, sourceDir, rel, layout);
      ArchivedAppends(next, items[1..], sourceDir, rel, layout);
      forall i | 0 <= i < j
        ensures Archivable(items[i], sourceDir, rel)
          && w.members[|written| + i] == EntryFor(layout, rel(sourceDir, items[i].path).value, items[i])
      {
        if i == 0 {
          assert w.members[|written|] == w.members[..|next|][|written|];
        } else {
          assert items[i] == items[1..][i - 1] && |written| + i == |next| + (i - 1);
        }
      }
    } else {
      ArchivedFailingStep(written, items, sourceDir, rel, layout);
      j := 0;
    }
  }

  /** The walk fails exactly when some item fails. */
  lemma ArchivedFailsIff(written: seq<Member>, items: seq<WalkItem>, sourceDir: string, rel: RelPath, layout: Layout)
    ensures Archived(written, items, sourceDir, rel, layout).failure.Some?
        <==> exists i :: 0 <= i < |items| && !Archivable(items[i], sourceDir, rel)
  {
    if Archived(written, items, sourceDir, rel, layout).failure.Some? {
      var j := ArchivedStopsAtFirstFailure(written, items, sourceDir, rel, layout);
    } else if forall i :: 0 <= i < |items| ==> Archivable(items[i], sourceDir, rel) {
    } else {
      ArchivedFailsIfSomeItemFails(written, items, sourceDir, rel, layout);
    }
  }

  lemma {:induction false} ArchivedFailsIfSomeItemFails(written: seq<Member>, items: seq<WalkItem>, sourceDir: string,
                                                        rel: RelPath, layout: Layout)
    requires exists i :: 0 <= i < |items| && !Archivable(items[i], sourceDir, rel)
    ensures Archived(written, items, sourceDir, rel, layout).failure.Some?
    decreases |items|
  {
    var item := items[0];
    if Archivable(item, sourceDir, rel) {
      var i :| 0 <= i < |items| && !Archivable(items[i], sourceDir, rel);
      assert i > 0 && items[1..][i - 1] == items[i];
      var next := written + [EntryFor(layout, rel(sourceDir, item.path).value, item)];
      ArchivedArchivableStep(written, items, sourceDir, rel, layout);
      ArchivedFailsIfSomeItemFails(next, items[1..], sourceDir, rel, layout);
    } else {
      ArchivedFailingStep(written, items, sourceDir, rel, layout);
    }
  }

  // ---------------------------------------------------------------------
  // Format selection (backup.go:122-153)
  // ---------------------------------------------------------------------

  /** The `createArchive` switch: tar with zstd, gzip at the configured
      level, or no compression for any other string; zip, deflated only for
      "deflate"; anything else is an error. `gzip.NewWriterLevel` refuses a
      level above 9 (`gzip.BestCompression`). */
  function FormatFor(archive: string, compression: string, level: uint8): Result<Format, ArchiveError> {
    if archive == "tar" then
      if compression == "zstd" then Ok(Tar(Zstd))
      else if compression == "gzip" then
        if level > 9 then Err(CompressorFailed(level)) else Ok(Tar(Gzip(level)))
      else Ok(Tar(Uncompressed))
    else if archive == "zip" then Ok(Zip(compression == "deflate"))
    else Err(UnknownFormat(archive))
  }

  function LayoutOf(format: Format, separator: char): Layout {
    match format
    case Tar(_) => TarLayout(separator)
    case Zip(deflate) => ZipLayout(deflate)
  }

  /** Only "tar" and "zip" are accepted, and tar with gzip only at a valid
      level; the container follows the archive setting, and zip entries are
      deflated exactly for "deflate". */
  lemma FormatForAccepts(archive: string, compression: string, level: uint8)
    ensures FormatFor(archive, compression, level).Ok?
        <==> archive == "zip" || (archive == "tar" && (compression != "gzip" || level <= 9))
    ensures FormatFor(archive, compression, level).Err? && archive != "tar" && archive != "zip" ==>
      FormatFor(archive, compression, level).error == UnknownFormat(archive)
    ensures FormatFor(archive, compression, level).Ok? ==>
      var f := FormatFor(archive, compression, level).value;
      && (f.Tar? <==> archive == "tar")
      && (f.Zip? ==> (f.deflate <==> compression == "deflate"))
      && (f.Tar? ==> (f.compression.Uncompressed? <==> compression != "zstd" && compression != "gzip"))
  {
  }

  // ---------------------------------------------------------------------
  // The output stream and the archive writers
  // ---------------------------------------------------------------------

  /** The `io.Writer` the archive goes to, as the sequence of entries written
      through it and the container and compression wrapped around it. */
  class ArchiveWriter {
    var format: Option<Format>
    var members: seq<Member>

    constructor ()
      ensures format.None? && members == []
    {
      format := None;
      members := [];
    }

    /** Wrap the stream in a container writer (and its compressor). */
    method Begin(f: Format)
      modifies this`format
      ensures format == Some(f)
    {
      format := Some(f);
    }

    /** `WriteHeader` / `CreateHeader`: a new entry, with no body yet. */
    method WriteHeader(header: Member)
      modifies this`members
      ensures members == old(members) + [header]
    {
      members := members + [header];
    }

    /** `io.Copy` into the current entry. */
    method Copy(bytes: seq<byte>)
      requires members != []
      modifies this`members
      ensures var last := old(members)[|old(members)| - 1];
        members == old(members)[..|old(members)| - 1] + [last.(body := last.body + bytes)]
    {
      var last := members[|members| - 1];
      members := members[..|members| - 1] + [last.(body := last.body + bytes)];
    }
  }

  /** One turn of the walk on an item that reaches its header. */
  lemma ArchivedStep(written: seq<Member>, items: seq<WalkItem>, i: nat, sourceDir: string, rel: RelPath, layout: Layout)
    requires i < |items|
    requires items[i].fault != Some(LstatFault) && items[i].fault != Some(InfoFault)
    requires items[i].fault != Some(HeaderFault) && rel(sourceDir, items[i].path).Some?
    ensures var item := items[i];
      var header := HeaderFor(layout, rel(sourceDir, item.path).value, item.isDir);
      Archived(written, items[i..], sourceDir, rel, layout)
        == if item.isDir then Archived(written + [header], items[i + 1..], sourceDir, rel, layout)
           else if item.fault == Some(OpenFault) then Written(written + [header], Some(OpenFailed(item.path)))
           else if item.fault == Some(CopyFault) then Written(written + [header], Some(CopyFailed(item.path)))
           else Archived(written + [header.(body := item.content)], items[i + 1..], sourceDir, rel, layout)
  {
    assert items[i..][1..] == items[i + 1..];
  }

  /** The walk callback of `createTar` and `createZip`, applied to every
      walked item in order. */
  method WalkInto(output: ArchiveWriter, sourceDir: string, items: seq<WalkItem>, rel: RelPath, layout: Layout)
    returns (err: Option<WalkError>)
    modifies output`members
    ensures var w := Archived(old(output.members), items, sourceDir, rel, layout);
      output.members == w.members && err == w.failure
  {
    ghost var whole := Archived(output.members, items, sourceDir, rel, layout);
    assert items[0..] == items;
    for i := 0 to |items|
      invariant Archived(output.members, items[i..], sourceDir, rel, layout) == whole
    {
      var item := items[i];
      if item.fault == Some(LstatFault) {
        return Some(WalkFailed(item.path));
      }
      if item.fault == Some(InfoFault) {
        return Some(InfoFailed(item.path));
      }
      var relPath := rel(sourceDir, item.path);
      if relPath.None? {
        return Some(RelFailed(item.path));
      }
      if item.fault == Some(HeaderFault) {
        return Some(HeaderFailed(item.path));
      }
      ArchivedStep(output.members, items, i, sourceDir, rel, layout);
      ghost var before := output.members;
      var header := HeaderFor(layout, relPath.value, item.isDir);
      output.WriteHeader(header);
      if item.isDir {
        continue;
      }
      if item.fault == Some(OpenFault) {
        return Some(OpenFailed(item.path));
      }
      if item.fault == Some(CopyFault) {
        return Some(CopyFailed(item.path));
      }
      output.Copy(item.content);
      assert header.body + item.content == item.content;
      assert output.members == before + [header.(body := item.content)];
    }
    err := None;
  }

  /** `createTar(sourceDir, output)`; `separator` is the OS path separator. */
  method CreateTar(sourceDir: string, output: ArchiveWriter, items: seq<WalkItem>, rel: RelPath, separator: char)
    returns (err: Option<WalkError>)
    modifies output`members
    ensures var w := Archived(old(output.members), items, sourceDir, rel, TarLayout(separator));
      output.members == w.members && err == w.failure
  {
    err := WalkInto(output, sourceDir, items, rel, TarLayout(separator));
  }

  /** `createZip(sourceDir, output, compression)`. */
  method CreateZip(sourceDir: string, output: ArchiveWriter, compression: string, items: seq<WalkItem>, rel: RelPath)
    returns (err: Option<WalkError>)
    modifies output`members
    ensures var w := Archived(old(output.members), items, sourceDir, rel, ZipLayout(compression == "deflate"));
      output.members == w.members && err == w.failure
  {
    err := WalkInto(output, sourceDir, items, rel, ZipLayout(compression == "deflate"));
  }

  /** `c.createArchive(sourceDir, output)`: on a format error nothing is
      written; otherwise the stream is wrapped and the walk writes into it. */
  method CreateArchive(config: Config, sourceDir: string, output: ArchiveWriter, items: seq<WalkItem>,
                       rel: RelPath, separator: char)
    returns (err: Option<ArchiveError>)
    modifies output
    ensures match FormatFor(config.archive, config.compression, config.compressionLevel)
      case Err(e) => err == Some(e) && output.members == old(output.members) && output.format == old(output.format)
      case Ok(f) =>
        var w := Archived(old(output.members), items, sourceDir, rel, LayoutOf(f, separator));
        && output.format == Some(f) && output.members == w.members
        && err == if w.failure.Some? then Some(WalkAborted(w.failure.value)) else None
  {
    match config.archive {
      case "tar" =>
        var compression := Uncompressed;
        match config.compression {
          case "zstd" =>
            compression := Zstd;
          case "gzip" =>
            if config.compressionLevel > 9 {
              return Some(CompressorFailed(config.compressionLevel));
            }
            compression := Gzip(config.compressionLevel);
          case _ =>
        }
        output.Begin(Tar(compression));
        var failed := CreateTar(sourceDir, output, items, rel, separator);
        err := if failed.Some? then Some(WalkAborted(failed.value)) else None;
      case "zip" =>
        output.Begin(Zip(config.compression == "deflate"));
        var failed := CreateZip(sourceDir, output, config.compression, items, rel);
        err := if failed.Some? then Some(WalkAborted(failed.value)) else None;
      case _ =>
        err := Some(UnknownFormat(config.archive));
    }
  }
}

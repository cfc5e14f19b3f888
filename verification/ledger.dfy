/** The backup ledger of backuplist.go: a list of `{Id, Remote, FilePath,
    Date}` records kept in `backuplist.json`, extended by `append` and pruned
    by `cleanUp` with the retention sweep `cleanList`.

    Time is an abstract ordered instant (`Instant`); the clock reading, Go's
    `time.Time.AddDate` and `time.Parse(time.RFC3339, …)` (RFC 3339, section
    5.6) are parameters. The JSON file is modelled by what reading and
    decoding it yields; the advisory lock makes each operation one atomic
    read-modify-write, which is how the store's methods are written. */
module Ledger {
  import opened Common
  import opened Settings

  type Instant = int

  /** `t.AddDate(years, months, days)`. */
  type AddDate = (Instant, int, int, int) -> Instant

  /** `time.Parse(time.RFC3339, text)`; None when the text does not parse. */
  type DateParser = string -> Option<Instant>

  datatype Entry = Entry(id: string, remote: string, filePath: string, date: string)

  const ListFileName := "backuplist.json"

  /** What `os.ReadFile` followed by `json.Unmarshal` makes of the ledger file. */
  datatype LedgerFile =
    | Missing                       // fs.ErrNotExist
    | Unreadable                    // any other read error
    | Corrupt                       // the JSON does not decode
    | Records(entries: seq<Entry>)

  datatype LedgerError =
    | ReadFailed
    | ParseFailed
    | WriteFailed
    | SliceOutOfRange               // an empty token of the age spec: a run-time panic
    | BadNumber(text: string)

  /** Every outcome but Skipped and Written ends the process (`log.Fatalf`). */
  datatype Status = Skipped | Written | Fatal(reason: LedgerError)

  datatype Outcome = Outcome(file: LedgerFile, status: Status)

  // ---------------------------------------------------------------------
  // The retention cutoff (backuplist.go:127-146)
  // ---------------------------------------------------------------------

  /** Go's 64-bit `int` arithmetic: the value modulo 2^64, read as signed. */
  function Wrap64(x: int): (r: int)
    ensures -Int64Bound <= r < Int64Bound
    ensures (r - x) % (2 * Int64Bound) == 0
    ensures -Int64Bound <= x < Int64Bound ==> r == x
  {
    (x + Int64Bound) % (2 * Int64Bound) - Int64Bound
  }

  /** The calendar shift one token selects by its last character. The
      negated counts are computed in Go's `int`, so they wrap. */
  function Shifted(t: Instant, num: int, unit: char, addDate: AddDate): Instant {
    match unit
    case 'y' => addDate(t, Wrap64(-num), 0, 0)
    case 'm' => addDate(t, 0, Wrap64(-num), 0)
    case 'w' => addDate(t, 0, 0, Wrap64(-Wrap64(num * 7)))
    case 'd' => addDate(t, 0, 0, Wrap64(-num))
    case _ => t
  }

  /** A week count above (2^63 - 1) / 7 overflows: 1317624576693539402 weeks
      is 2^63 + 6 days, and its negation wraps to 2^63 - 6, a shift forward;
      and the most negative count is its own negation. */
  lemma ShiftWraps(t: Instant, addDate: AddDate)
    ensures Shifted(t, 1317624576693539402, 'w', addDate) == addDate(t, 0, 0, Int64Bound - 6)
    ensures Shifted(t, -Int64Bound, 'd', addDate) == addDate(t, 0, 0, -Int64Bound)
  {
  }

  /** `strconv.Atoi(token[:len(token)-1])`. Go drops the last BYTE of the
      token: when its last character is ASCII that is the last character;
      otherwise the rest ends in an incomplete UTF-8 sequence, whose bytes
      are no digits, so the number never parses. */
  function NumberBeforeUnit(token: string): (r: Option<int>)
    requires token != []
    ensures r.Some? <==> token[|token| - 1] as int < 0x80 && Atoi(token[..|token| - 1]).Some?
    ensures r.Some? ==> r == Atoi(token[..|token| - 1])
  {
    if token[|token| - 1] as int >= 0x80 then None else Atoi(token[..|token| - 1])
  }

  /** One space-separated token of `OlderThan` applied to the running cutoff:
      every byte but the last must form an integer, the last selects the
      unit. */
  function ApplyToken(token: string, t: Instant, addDate: AddDate): (r: Result<Instant, LedgerError>)
    ensures r == Err(SliceOutOfRange) <==> token == []
    ensures r.Ok? <==> WellFormedToken(token)
    ensures r.Ok? && token[|token| - 1] !in {'y', 'm', 'w', 'd'} ==> r.value == t
  {
    if token == [] then Err(SliceOutOfRange)
    else
      match NumberBeforeUnit(token)
      case None => Err(BadNumber(token[..|token| - 1]))
      case Some(num) => Ok(Shifted(t, num, token[|token| - 1], addDate))
  }

  /** The cutoff the tokens give when applied in order from `t`. */
  function Cutoff(tokens: seq<string>, t: Instant, addDate: AddDate): Result<Instant, LedgerError>
    decreases |tokens|
  {
    if tokens == [] then Ok(t)
    else
      match ApplyToken(tokens[0], t, addDate)
      case Err(e) => Err(e)
      case Ok(next) => Cutoff(tokens[1..], next, addDate)
  }

  predicate WellFormedToken(token: string) {
    token != [] && NumberBeforeUnit(token).Some?
  }

  /** The spec is accepted exactly when every token is non-empty, ends in an
      ASCII character, and all but that character form an integer; the first
      bad token is the error. */
  lemma {:induction false} CutoffDefinedIff(tokens: seq<string>, t: Instant, addDate: AddDate)
    ensures Cutoff(tokens, t, addDate).Ok? <==> forall i :: 0 <= i < |tokens| ==> WellFormedToken(tokens[i])
    decreases |tokens|
  {
    if tokens != [] {
      var rest := tokens[1..];
      assert (forall i :: 0 <= i < |tokens| ==> WellFormedToken(tokens[i]))
          <==> WellFormedToken(tokens[0]) && forall i :: 0 <= i < |rest| ==> WellFormedToken(rest[i]) by {
        assert forall i :: 0 <= i < |rest| ==> rest[i] == tokens[i + 1];
        if WellFormedToken(tokens[0]) && forall i :: 0 <= i < |rest| ==> WellFormedToken(rest[i]) {
          forall i | 0 <= i < |tokens|
            ensures WellFormedToken(tokens[i])
          {
            if i > 0 {
              assert tokens[i] == rest[i - 1];
            }
          }
        }
      }
      match ApplyToken(tokens[0], t, addDate)
      case Err(e) =>
      case Ok(next) =>
        CutoffDefinedIff(rest, next, addDate);
    }
  }

  /** An empty `OlderThan`, a leading, trailing or doubled space yields an
      empty token, and the sweep fails (the empty token cannot be sliced, or
      an earlier token is already malformed). */
  lemma {:induction false} EmptyTokenFails(tokens: seq<string>, t: Instant, addDate: AddDate)
    requires "" in tokens
    ensures Cutoff(tokens, t, addDate).Err?
    decreases |tokens|
  {
    if tokens[0] != "" {
      assert "" in tokens[1..] by {
        var i :| 0 <= i < |tokens| && tokens[i] == "";
        assert tokens[1..][i - 1] == "";
      }
      match ApplyToken(tokens[0], t, addDate)
      case Err(e) =>
      case Ok(next) => EmptyTokenFails(tokens[1..], next, addDate);
    }
  }

  /** The spec text itself: an empty one, or one with a doubled space. */
  lemma EmptySpecPanics(olderThan: string, t: Instant, addDate: AddDate)
    requires olderThan == [] || exists i :: 0 <= i < |olderThan| - 1 && olderThan[i] == ' ' && olderThan[i + 1] == ' '
    ensures Cutoff(Split(olderThan, ' '), t, addDate).Err?
  {
    if olderThan == [] {
      assert Split(olderThan, ' ') == [""];
    } else {
      var i :| 0 <= i < |olderThan| - 1 && olderThan[i] == ' ' && olderThan[i + 1] == ' ';
      DoubledSeparatorSplitsEmpty(olderThan, ' ', i);
      var k :| 0 <= k < |Split(olderThan, ' ')[1..]| && Split(olderThan, ' ')[1..][k] == "";
      assert Split(olderThan, ' ')[k + 1] == "";
    }
    EmptyTokenFails(Split(olderThan, ' '), t, addDate);
  }

  /** A unit letter other than y, m, w and d leaves the cutoff where it is,
      but its number must still parse. */
  lemma UnknownUnitIgnored(token: string, t: Instant, addDate: AddDate)
    requires WellFormedToken(token) && token[|token| - 1] !in {'y', 'm', 'w', 'd'}
    ensures ApplyToken(token, t, addDate) == Ok(t)
  {
  }

  /** `AddDate` with non-positive amounts never moves an instant forward,
      and moves it strictly backward when one amount is negative. */
  ghost predicate ShiftsBackward(addDate: AddDate) {
    forall t, y, m, d :: y <= 0 && m <= 0 && d <= 0 ==>
      addDate(t, y, m, d) <= t && (y < 0 || m < 0 || d < 0 ==> addDate(t, y, m, d) < t)
  }

  /** A token with a non-negative count that does not overflow when turned
      into days. */
  predicate BackwardToken(token: string) {
    && WellFormedToken(token)
    && var num := NumberBeforeUnit(token).value;
    num >= 0 && (token[|token| - 1] == 'w' ==> num * 7 < Int64Bound)
  }

  predicate PositiveToken(token: string) {
    WellFormedToken(token) && NumberBeforeUnit(token).value > 0 && token[|token| - 1] in {'y', 'm', 'w', 'd'}
  }

  /** With a calendar that shifts backward, non-negative amounts that do not
      overflow give a cutoff no later than the starting instant, and strictly
      earlier once some token asks for a positive age. */
  lemma {:induction false} CutoffIsInThePast(tokens: seq<string>, t: Instant, addDate: AddDate)
    requires ShiftsBackward(addDate)
    requires forall i :: 0 <= i < |tokens| ==> BackwardToken(tokens[i])
    ensures Cutoff(tokens, t, addDate).Ok?
    ensures Cutoff(tokens, t, addDate).value <= t
    ensures (exists i :: 0 <= i < |tokens| && PositiveToken(tokens[i])) ==> Cutoff(tokens, t, addDate).value < t
    decreases |tokens|
  {
    if tokens != [] {
      var token := tokens[0];
      var rest := tokens[1..];
      var num := NumberBeforeUnit(token).value;
      var next := Shifted(t, num, token[|token| - 1], addDate);
      assert ApplyToken(token, t, addDate) == Ok(next);
      ShiftedBackward(t, num, token[|token| - 1], addDate);
      assert forall i :: 0 <= i < |rest| ==> rest[i] == tokens[i + 1];
      CutoffIsInThePast(rest, next, addDate);
      if exists i :: 0 <= i < |tokens| && PositiveToken(tokens[i]) {
        var i :| 0 <= i < |tokens| && PositiveToken(tokens[i]);
        if i > 0 {
          assert PositiveToken(rest[i - 1]);
        }
      }
    }
  }

  /** A non-negative count never moves the cutoff forward, and a positive
      count with a known unit moves it strictly back. */
  lemma ShiftedBackward(t: Instant, num: int, unit: char, addDate: AddDate)
    requires ShiftsBackward(addDate) && 0 <= num < Int64Bound
    requires unit == 'w' ==> num * 7 < Int64Bound
    ensures Shifted(t, num, unit, addDate) <= t
    ensures num > 0 && unit in {'y', 'm', 'w', 'd'} ==> Shifted(t, num, unit, addDate) < t
  {
    match unit
    case 'y' => assert Wrap64(-num) == -num;
    case 'm' => assert Wrap64(-num) == -num;
    case 'w' => assert Wrap64(-Wrap64(num * 7)) == -(num * 7);
    case 'd' => assert Wrap64(-num) == -num;
    case _ =>
  }

  // ---------------------------------------------------------------------
  // The date filter (backuplist.go:150-163)
  // ---------------------------------------------------------------------

  /** An entry survives the sweep when its date parses and is strictly after
      the cutoff. */
  predicate Recent(entry: Entry, cutoff: Instant, parse: DateParser) {
    parse(entry.date).Some? && parse(entry.date).value > cutoff
  }

  /** The entries that survive, in their original order. */
  function Kept(entries: seq<Entry>, cutoff: Instant, parse: DateParser): seq<Entry>
    decreases |entries|
  {
    if entries == [] then []
    else
      var last := entries[|entries| - 1];
      Kept(entries[..|entries| - 1], cutoff, parse) + (if Recent(last, cutoff, parse) then [last] else [])
  }

  /** The sweep works entry by entry: a dropped entry, unparsable date
      included, does not affect the others. */
  lemma {:induction false} KeptConcat(a: seq<Entry>, b: seq<Entry>, cutoff: Instant, parse: DateParser)
    ensures Kept(a + b, cutoff, parse) == Kept(a, cutoff, parse) + Kept(b, cutoff, parse)
    decreases |b|
  {
    if b == [] {
      assert a + b == a;
    } else {
      assert (a + b)[..|a + b| - 1] == a + b[..|b| - 1];
      KeptConcat(a, b[..|b| - 1], cutoff, parse);
    }
  }

  /** The sweep's result is an order-preserving subsequence of its input that
      holds exactly the recent entries: `positions` says where each kept entry
      came from. */
  lemma {:induction false} KeptIsOrderedSelection(entries: seq<Entry>, cutoff: Instant, parse: DateParser)
    returns (positions: seq<nat>)
    ensures var kept := Kept(entries, cutoff, parse);
      && |positions| == |kept|
      && (forall k :: 0 <= k < |positions| ==> positions[k] < |entries| && kept[k] == entries[positions[k]])
      && (forall k, l :: 0 <= k < l < |positions| ==> positions[k] < positions[l])
      && (forall i :: 0 <= i < |entries| ==> (i in positions <==> Recent(entries[i], cutoff, parse)))
    decreases |entries|
  {
    if entries == [] {
      positions := [];
    } else {
      var n := |entries| - 1;
      var front := entries[..n];
      var kept := Kept(entries, cutoff, parse);
      var frontKept := Kept(front, cutoff, parse);
      var p := KeptIsOrderedSelection(front, cutoff, parse);
      assert forall k :: 0 <= k < |p| ==> p[k] < n;
      assert forall i :: 0 <= i < n ==> entries[i] == front[i];
      assert n !in p;
      if Recent(entries[n], cutoff, parse) {
        positions := p + [n];
        assert kept == frontKept + [entries[n]];
      } else {
        positions := p;
        assert kept == frontKept;
      }
    }
  }

  lemma KeptMembership(entries: seq<Entry>, cutoff: Instant, parse: DateParser, entry: Entry)
    ensures entry in Kept(entries, cutoff, parse) <==> entry in entries && Recent(entry, cutoff, parse)
  {
    var positions := KeptIsOrderedSelection(entries, cutoff, parse);
    var kept := Kept(entries, cutoff, parse);
    if entry in kept {
      var k :| 0 <= k < |kept| && kept[k] == entry;
      assert positions[k] in positions;
    }
    if entry in entries && Recent(entry, cutoff, parse) {
      var i :| 0 <= i < |entries| && entries[i] == entry;
      assert i in positions;
      var k :| 0 <= k < |positions| && positions[k] == i;
    }
  }

  /** Sweeping twice with the same cutoff is sweeping once. */
  lemma {:induction false} KeptIdempotent(entries: seq<Entry>, cutoff: Instant, parse: DateParser)
    ensures Kept(Kept(entries, cutoff, parse), cutoff, parse) == Kept(entries, cutoff, parse)
    decreases |entries|
  {
    if entries != [] {
      var n := |entries| - 1;
      var last := entries[n];
      KeptIdempotent(entries[..n], cutoff, parse);
      var tail := if Recent(last, cutoff, parse) then [last] else [];
      KeptConcat(Kept(entries[..n], cutoff, parse), tail, cutoff, parse);
      if Recent(last, cutoff, parse) {
        assert Kept(tail, cutoff, parse) == Kept([], cutoff, parse) + [last] by {
          assert tail[..0] == [];
        }
      }
    }
  }

  /** The whole of `cleanList`: the cutoff from the clock reading `now`, then
      the filter. */
  function Sweep(olderThan: string, entries: seq<Entry>, now: Instant, addDate: AddDate, parse: DateParser)
    : Result<seq<Entry>, LedgerError>
  {
    match Cutoff(Split(olderThan, ' '), now, addDate)
    case Err(e) => Err(e)
    case Ok(cutoff) => Ok(Kept(entries, cutoff, parse))
  }

  /** One turn of the first loop of `cleanList`. */
  lemma CutoffStep(tokens: seq<string>, i: nat, t: Instant, addDate: AddDate)
    requires i < |tokens|
    ensures Cutoff(tokens[i..], t, addDate)
      == match ApplyToken(tokens[i], t, addDate)
         case Err(e) => Err(e)
         case Ok(next) => Cutoff(tokens[i + 1..], next, addDate)
  {
    assert tokens[i..][1..] == tokens[i + 1..];
  }

  /** The first loop of `cleanList` (backuplist.go:127-146): each token of
      `OlderThan` moves the date back from `now`. */
  method CutoffDate(tokens: seq<string>, now: Instant, addDate: AddDate) returns (r: Result<Instant, LedgerError>)
    ensures r == Cutoff(tokens, now, addDate)
  {
    var oldDate := now;
    assert tokens[0..] == tokens;
    for i := 0 to |tokens|
      invariant Cutoff(tokens[i..], oldDate, addDate) == Cutoff(tokens, now, addDate)
    {
      CutoffStep(tokens, i, oldDate, addDate);
      var token := tokens[i];
      if token == [] {
        return Err(SliceOutOfRange);
      }
      var num := NumberBeforeUnit(token);
      if num.None? {
        return Err(BadNumber(token[..|token| - 1]));
      }
      oldDate := Shifted(oldDate, num.value, token[|token| - 1], addDate);
    }
    return Ok(oldDate);
  }

  /** The second loop of `cleanList` (backuplist.go:150-163). */
  method KeepRecent(entries: seq<Entry>, oldDate: Instant, parse: DateParser) returns (newList: seq<Entry>)
    ensures newList == Kept(entries, oldDate, parse)
  {
    newList := [];
    for i := 0 to |entries|
      invariant newList == Kept(entries[..i], oldDate, parse)
    {
      assert entries[..i + 1][..i] == entries[..i];
      var backupDate := parse(entries[i].date);
      if backupDate.None? {
        continue;
      }
      if backupDate.value > oldDate {
        newList := newList + [entries[i]];
      }
    }
    assert entries[..|entries|] == entries;
  }

  /** `b.cleanList(entries)` with `time.Now()` read as `now`. */
  method CleanList(olderThan: string, entries: seq<Entry>, now: Instant, addDate: AddDate, parse: DateParser)
    returns (r: Result<seq<Entry>, LedgerError>)
    ensures r == Sweep(olderThan, entries, now, addDate, parse)
  {
    var oldDate := CutoffDate(Split(olderThan, ' '), now, addDate);
    if oldDate.Err? {
      return Err(oldDate.error);
    }
    var newList := KeepRecent(entries, oldDate.value, parse);
    return Ok(newList);
  }

  // ---------------------------------------------------------------------
  // append and cleanUp (backuplist.go:28-120)
  // ---------------------------------------------------------------------

  /** How `os.WriteFile` ends. It opens the file with `O_TRUNC`, writes, and
      closes: a failed open leaves the file alone; a write that fails after
      the open leaves nothing or a proper prefix of the JSON array, which no
      longer decodes; a failed close comes after the whole text was written. */
  datatype WriteResult = WriteOk | OpenFailed | WriteCutShort | CloseFailed

  /** The file and status after `os.WriteFile` of `entries` over `file`. */
  function WriteOut(file: LedgerFile, write: WriteResult, entries: seq<Entry>): Outcome {
    match write
    case WriteOk => Outcome(Records(entries), Written)
    case OpenFailed => Outcome(file, Fatal(WriteFailed))
    case WriteCutShort => Outcome(Corrupt, Fatal(WriteFailed))
    case CloseFailed => Outcome(Records(entries), Fatal(WriteFailed))
  }

  /** `append`: disabled means nothing happens; a missing file is an empty
      ledger; any other read or decode failure is fatal before anything is
      written; then the list with the new entry is written out. */
  function AppendOutcome(settings: BackupListSettings, file: LedgerFile, write: WriteResult, entry: Entry): Outcome {
    if !settings.enabled then Outcome(file, Skipped)
    else
      match file
      case Unreadable => Outcome(file, Fatal(ReadFailed))
      case Corrupt => Outcome(file, Fatal(ParseFailed))
      case Missing => WriteOut(file, write, [entry])
      case Records(entries) => WriteOut(file, write, entries + [entry])
  }

  /** `cleanUp`: it runs only when both the ledger and pruning are enabled;
      unlike `append`, a missing file is fatal. */
  function CleanUpOutcome(settings: BackupListSettings, file: LedgerFile, write: WriteResult,
                          now: Instant, addDate: AddDate, parse: DateParser): Outcome
  {
    if !settings.enabled || !settings.cleanEntries then Outcome(file, Skipped)
    else
      match file
      case Missing => Outcome(file, Fatal(ReadFailed))
      case Unreadable => Outcome(file, Fatal(ReadFailed))
      case Corrupt => Outcome(file, Fatal(ParseFailed))
      case Records(entries) =>
        match Sweep(settings.olderThan, entries, now, addDate, parse)
        case Err(e) => Outcome(file, Fatal(e))
        case Ok(kept) => WriteOut(file, write, kept)
  }

  /** The ledger an append leaves: the old records, unchanged and in order,
      then the new one. A skipped append, a failed read and a failed open
      leave the file as it was; a write cut short leaves a file that no
      longer decodes. */
  lemma AppendKeepsHistory(settings: BackupListSettings, file: LedgerFile, write: WriteResult, entry: Entry)
    ensures var o := AppendOutcome(settings, file, write, entry);
      && (o.status == Written <==> settings.enabled && write == WriteOk && (file.Missing? || file.Records?))
      && (!settings.enabled ==> o == Outcome(file, Skipped))
      && (settings.enabled && (file.Unreadable? || file.Corrupt?) ==> o.status.Fatal? && o.file == file)
      && (settings.enabled && (file.Missing? || file.Records?) ==>
            var after := (if file.Missing? then [] else file.entries) + [entry];
            && (write == WriteOk ==> o == Outcome(Records(after), Written))
            && (write == OpenFailed ==> o == Outcome(file, Fatal(WriteFailed)))
            && (write == WriteCutShort ==> o == Outcome(Corrupt, Fatal(WriteFailed)))
            && (write == CloseFailed ==> o == Outcome(Records(after), Fatal(WriteFailed))))
  {
    assert [] + [entry] == [entry];
  }

  /** A write cut short is not the end of it: the next append finds a file
      that does not decode and is fatal, whatever it would have written. */
  lemma CutShortBreaksNextAppend(settings: BackupListSettings, file: LedgerFile, write: WriteResult,
                                 entry: Entry, next: Entry)
    requires settings.enabled && (file.Missing? || file.Records?)
    ensures var broken := AppendOutcome(settings, file, WriteCutShort, entry).file;
      AppendOutcome(settings, broken, write, next) == Outcome(Corrupt, Fatal(ParseFailed))
  {
  }

  /** A sequence of appends, one after the other, each under the lock. */
  function AppendAll(settings: BackupListSettings, file: LedgerFile, write: WriteResult, entries: seq<Entry>): LedgerFile
    decreases |entries|
  {
    if entries == [] then file
    else AppendAll(settings, AppendOutcome(settings, file, write, entries[0]).file, write, entries[1..])
  }

  /** Serialised appends lose nothing and duplicate nothing: N appends to a
      missing ledger leave exactly those N records, in order. */
  lemma {:induction false} AppendAllRecordsEverything(settings: BackupListSettings, before: seq<Entry>, entries: seq<Entry>)
    requires settings.enabled
    ensures AppendAll(settings, Records(before), WriteOk, entries) == Records(before + entries)
    ensures AppendAll(settings, Missing, WriteOk, entries) == if entries == [] then Missing else Records(entries)
    decreases |entries|
  {
    if entries != [] {
      AppendAllRecordsEverything(settings, before + [entries[0]], entries[1..]);
      assert before + [entries[0]] + entries[1..] == before + entries;
      AppendAllRecordsEverything(settings, [entries[0]], entries[1..]);
      assert [entries[0]] + entries[1..] == entries;
    }
  }

  /** A prune that gets as far as writing rewrites the ledger with exactly
      its recent entries (an order-preserving selection, by
      KeptIsOrderedSelection); anything that fails before the write keeps the
      file; a write cut short leaves a file that no longer decodes; it is a
      no-op when pruning is disabled. */
  lemma CleanUpKeepsRecent(settings: BackupListSettings, file: LedgerFile, write: WriteResult,
                           now: Instant, addDate: AddDate, parse: DateParser)
    ensures var o := CleanUpOutcome(settings, file, write, now, addDate, parse);
      var writes := settings.enabled && settings.cleanEntries && file.Records?
        && Sweep(settings.olderThan, file.entries, now, addDate, parse).Ok?;
      && ((!settings.enabled || !settings.cleanEntries) ==> o == Outcome(file, Skipped))
      && (settings.enabled && settings.cleanEntries && file.Missing? ==> o == Outcome(file, Fatal(ReadFailed)))
      && (!writes ==> o.file == file && o.status != Written)
      && (writes ==> o.status == if write == WriteOk then Written else Fatal(WriteFailed))
      && (writes && write == OpenFailed ==> o.file == file)
      && (writes && write == WriteCutShort ==> o.file == Corrupt)
      && (writes && (write == WriteOk || write == CloseFailed) ==>
            o.file.Records?
            && var cutoff := Cutoff(Split(settings.olderThan, ' '), now, addDate).value;
            forall e :: e in o.file.entries <==> e in file.entries && Recent(e, cutoff, parse))
  {
    var o := CleanUpOutcome(settings, file, write, now, addDate, parse);
    if settings.enabled && settings.cleanEntries && file.Records?
       && Sweep(settings.olderThan, file.entries, now, addDate, parse).Ok? && (write == WriteOk || write == CloseFailed) {
      var cutoff := Cutoff(Split(settings.olderThan, ' '), now, addDate).value;
      forall e | true
        ensures e in o.file.entries <==> e in file.entries && Recent(e, cutoff, parse)
      {
        KeptMembership(file.entries, cutoff, parse, e);
      }
    }
  }

  /** An entry appended and then swept survives exactly when its own date is
      recent; the entries before it are swept as if it were not there. */
  lemma AppendThenCleanUp(settings: BackupListSettings, entries: seq<Entry>, entry: Entry,
                          now: Instant, addDate: AddDate, parse: DateParser)
    requires settings.enabled && settings.cleanEntries
    requires Cutoff(Split(settings.olderThan, ' '), now, addDate).Ok?
    ensures var appended := AppendOutcome(settings, Records(entries), WriteOk, entry).file;
      var swept := CleanUpOutcome(settings, appended, WriteOk, now, addDate, parse);
      var cutoff := Cutoff(Split(settings.olderThan, ' '), now, addDate).value;
      swept.status == Written
      && swept.file == Records(Kept(entries, cutoff, parse) + (if Recent(entry, cutoff, parse) then [entry] else []))
  {
    var cutoff := Cutoff(Split(settings.olderThan, ' '), now, addDate).value;
    var all := entries + [entry];
    assert AppendOutcome(settings, Records(entries), WriteOk, entry) == Outcome(Records(all), Written);
    var kept := Kept(all, cutoff, parse);
    assert Sweep(settings.olderThan, all, now, addDate, parse) == Ok(kept);
    assert CleanUpOutcome(settings, Records(all), WriteOk, now, addDate, parse) == Outcome(Records(kept), Written);
    KeptConcat(entries, [entry], cutoff, parse);
    assert Kept([entry], cutoff, parse) == (if Recent(entry, cutoff, parse) then [entry] else []) by {
      assert [entry][..0] == [];
    }
  }

  /** The ledger file as the process sees it between lock acquisitions.
      `write` says how `os.WriteFile` ends. */
  class LedgerStore {
    var file: LedgerFile
    const write: WriteResult

    constructor (file: LedgerFile, write: WriteResult)
      ensures this.file == file && this.write == write
    {
      this.file := file;
      this.write := write;
    }

    /** `os.WriteFile(listFile, newContent, 0644)`. */
    method WriteFile(entries: seq<Entry>) returns (ok: bool)
      modifies this
      ensures Outcome(file, if ok then Written else Fatal(WriteFailed)) == WriteOut(old(file), write, entries)
    {
      match write {
        case WriteOk => file := Records(entries);
        case OpenFailed =>
        case WriteCutShort => file := Corrupt;
        case CloseFailed => file := Records(entries);
      }
      ok := write == WriteOk;
    }

    /** `b.append(newBackup)`. */
    method Append(settings: BackupListSettings, newBackup: Entry) returns (status: Status)
      modifies this
      ensures Outcome(file, status) == AppendOutcome(settings, old(file), write, newBackup)
    {
      if !settings.enabled {
        return Skipped;
      }
      var listEntries: seq<Entry>;
      match file {
        case Missing => listEntries := [];
        case Unreadable => return Fatal(ReadFailed);
        case Corrupt => return Fatal(ParseFailed);
        case Records(entries) => listEntries := entries;
      }
      listEntries := listEntries + [newBackup];
      assert old(file).Missing? ==> listEntries == [newBackup];
      assert old(file).Records? ==> listEntries == old(file).entries + [newBackup];
      var ok := WriteFile(listEntries);
      status := if ok then Written else Fatal(WriteFailed);
    }

    /** `b.cleanUp()` with `time.Now()` read as `now`. */
    method CleanUp(settings: BackupListSettings, now: Instant, addDate: AddDate, parse: DateParser)
      returns (status: Status)
      modifies this
      ensures Outcome(file, status) == CleanUpOutcome(settings, old(file), write, now, addDate, parse)
    {
      if !settings.enabled || !settings.cleanEntries {
        return Skipped;
      }
      var listEntries: seq<Entry>;
      match file {
        case Missing => return Fatal(ReadFailed);
        case Unreadable => return Fatal(ReadFailed);
        case Corrupt => return Fatal(ParseFailed);
        case Records(entries) => listEntries := entries;
      }
      var cleaned := CleanList(settings.olderThan, listEntries, now, addDate, parse);
      if cleaned.Err? {
        return Fatal(cleaned.error);
      }
      var ok := WriteFile(cleaned.value);
      status := if ok then Written else Fatal(WriteFailed);
    }
  }
}

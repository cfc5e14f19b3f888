/** systemd.go: the unit files `install` generates for the requested targets,
    grouped by interval; the prompt through which each group is reviewed,
    edited and saved; the timers it enables; and `cleanUnits`.

    Standard input is the sequence `answers`: the k-th is the word the k-th
    `fmt.Scanln` stores, the first blank-separated word of its line (the
    prompt ignores the error `Scanln` reports for a line of no word or of
    several). Reading past its end gives the empty answer, as `Scanln`
    leaves its variable at end of input. The text editor is the parameter `editor`,
    which gives the file content after the editor ran on the edit asked for
    at a given answer. `/etc/systemd/system/` is the object `Disk`. */
module Systemd {
  import opened Common
  import opened Settings

  const UnitNamePrefix := "qbsgo-generated-"
  const UnitDir := "/etc/systemd/system/"

  /** The characters that mark an interval as a calendar expression rather
      than a name that can stand in a file name. */
  const CalendarChars: set<char> := {' ', '*', ':', '/'}

  // ---------------------------------------------------------------------
  // Unit names and texts (systemd.go:159-165, 266-302)
  // ---------------------------------------------------------------------

  /** `intervalOrServerNames`: the interval itself, or, for a calendar
      expression, the target names run together. */
  function IntervalOrServerNames(interval: string, names: seq<string>): string {
    if ContainsAny(interval, CalendarChars) then Join(names, "") else interval
  }

  /** The name chosen for a group's unit files holds no calendar character,
      so its units stay in the unit directory, as long as the target names
      hold none; and it is the interval exactly when the interval holds none
      or the names happen to spell it. */
  lemma FileNameIsPlain(interval: string, names: seq<string>)
    ensures (forall i :: 0 <= i < |names| ==> !ContainsAny(names[i], CalendarChars))
            ==> !ContainsAny(IntervalOrServerNames(interval, names), CalendarChars)
    ensures IntervalOrServerNames(interval, names) == interval
            <==> !ContainsAny(interval, CalendarChars) || Join(names, "") == interval
  {
    if (forall i :: 0 <= i < |names| ==> !ContainsAny(names[i], CalendarChars)) && ContainsAny(interval, CalendarChars) {
      JoinAvoids(names, "", CalendarChars);
    }
  }

  /** The file name of a group's service unit. */
  function ServiceUnitName(fileName: string): string {
    UnitNamePrefix + fileName + ".service"
  }

  /** The file name of a group's timer unit. */
  function TimerUnitName(fileName: string): string {
    UnitNamePrefix + fileName + ".timer"
  }

  function ServicePath(fileName: string): string {
    UnitDir + ServiceUnitName(fileName)
  }

  function TimerPath(fileName: string): string {
    UnitDir + TimerUnitName(fileName)
  }

  /** A service unit is never a timer unit, either name determines the file
      name it was made from, and both carry the prefix `cleanUnits` looks
      for. */
  lemma UnitNamesDistinct(a: string, b: string)
    ensures ServiceUnitName(a) != TimerUnitName(b)
    ensures ServiceUnitName(a) == ServiceUnitName(b) ==> a == b
    ensures TimerUnitName(a) == TimerUnitName(b) ==> a == b
    ensures HasPrefix(ServiceUnitName(a), UnitNamePrefix) && HasPrefix(TimerUnitName(a), UnitNamePrefix)
  {
    var s := ServiceUnitName(a);
    var t := TimerUnitName(b);
    assert s[|s| - 2] == 'c' && t[|t| - 2] == 'e';
    assert s[..|UnitNamePrefix|] == UnitNamePrefix;
    var ta := TimerUnitName(a);
    assert ta[..|UnitNamePrefix|] == UnitNamePrefix;
    if ServiceUnitName(a) == ServiceUnitName(b) {
      var sb := ServiceUnitName(b);
      assert a == s[|UnitNamePrefix|..|s| - 8];
      assert b == sb[|UnitNamePrefix|..|sb| - 8];
    }
    if TimerUnitName(a) == TimerUnitName(b) {
      assert a == ta[|UnitNamePrefix|..|ta| - 6];
      assert b == t[|UnitNamePrefix|..|t| - 6];
    }
  }

  /** The lines of the service unit: `User=` and `Group=`, both the given
      user, only when a user is given. */
  function ServiceLines(names: seq<string>, user: string, exe: string): seq<string> {
    var name := Join(names, ",");
    ["[Unit]", "Description=Backups " + name + " through QBS", "Wants=network-online.target",
     "After=network-online.target", "", "[Service]"]
    + (if user != "" then ["User=" + user, "Group=" + user] else [])
    + ["ExecStart=" + Join(ExecWords(exe, name), " ")]
  }

  /** The command line of the service, word by word. */
  function ExecWords(exe: string, name: string): seq<string> {
    [exe, "-targets", name, "-backup"]
  }

  /** `genService(names, user)`; `exe` is what `os.Executable` returns, None
      when it fails. */
  function GenService(names: seq<string>, user: string, exe: Option<string>): (r: Option<string>)
    ensures r.Some? <==> exe.Some?
  {
    if exe.None? then None else Some(Join(ServiceLines(names, user, exe.value), "\n"))
  }

  function TimerLines(names: seq<string>, interval: string): seq<string> {
    ["[Unit]", "Description=Trigger backups for target(s): " + Join(names, ", "), "", "[Timer]",
     "OnCalendar=" + interval, "Persistent=true", "", "[Install]", "WantedBy=timers.target"]
  }

  /** `genTimer(names, interval)`. */
  function GenTimer(names: seq<string>, interval: string): string {
    Join(TimerLines(names, interval), "\n")
  }

  /** The fixed text of the service unit's header holds no line break. */
  lemma ServiceHeadUnbroken()
    ensures '\n' !in "[Unit]" && '\n' !in "Description=Backups " && '\n' !in " through QBS" && '\n' !in "[Service]"
  {
  }

  /** The fixed text of the service unit's dependency and user lines holds no
      line break. */
  lemma ServiceBodyUnbroken()
    ensures '\n' !in "Wants=network-online.target" && '\n' !in "After=network-online.target"
    ensures '\n' !in "User=" && '\n' !in "Group="
  {
  }

  /** The fixed text of the service unit's command line holds no line break. */
  lemma ServiceExecUnbroken()
    ensures '\n' !in "ExecStart=" && '\n' !in "-targets" && '\n' !in "-backup" && '\n' !in " "
  {
  }

  /** The fixed text of the timer unit's header holds no line break. */
  lemma TimerHeadUnbroken()
    ensures '\n' !in "[Unit]" && '\n' !in "Description=Trigger backups for target(s): " && '\n' !in "[Timer]"
  {
  }

  /** The fixed text of the timer unit's schedule and install lines holds no
      line break. */
  lemma TimerBodyUnbroken()
    ensures '\n' !in "OnCalendar=" && '\n' !in "Persistent=true" && '\n' !in "[Install]"
    ensures '\n' !in "WantedBy=timers.target"
  {
  }

  /** No name, user or path breaks a line of the service unit: it reads back
      as its lines, with the user lines exactly when a user is given. */
  lemma ServiceUnitLines(names: seq<string>, user: string, exe: string)
    requires forall i :: 0 <= i < |names| ==> '\n' !in names[i]
    requires '\n' !in user && '\n' !in exe
    ensures var lines := Split(GenService(names, user, Some(exe)).value, '\n');
      && lines == ServiceLines(names, user, exe)
      && |lines| == (if user != "" then 9 else 7)
      && (user != "" ==> lines[6] == "User=" + user && lines[7] == "Group=" + user)
      && lines[|lines| - 1] == "ExecStart=" + Join(ExecWords(exe, Join(names, ",")), " ")
  {
    var lines := ServiceLines(names, user, exe);
    ServiceHeadUnbroken();
    ServiceBodyUnbroken();
    ServiceExecUnbroken();
    JoinAvoidsChar(names, ",", '\n');
    JoinAvoidsChar(ExecWords(exe, Join(names, ",")), " ", '\n');
    forall i | 0 <= i < |lines|
      ensures '\n' !in lines[i]
    {
    }
    SplitJoin(lines, '\n');
  }

  /** The timer unit reads back as its lines: it fires on the interval and
      catches up on missed runs. */
  lemma TimerUnitLines(names: seq<string>, interval: string)
    requires forall i :: 0 <= i < |names| ==> '\n' !in names[i]
    requires '\n' !in interval
    ensures var lines := Split(GenTimer(names, interval), '\n');
      lines == TimerLines(names, interval) && lines[4] == "OnCalendar=" + interval && lines[5] == "Persistent=true"
  {
    var lines := TimerLines(names, interval);
    TimerHeadUnbroken();
    TimerBodyUnbroken();
    JoinAvoidsChar(names, ", ", '\n');
    forall i | 0 <= i < |lines|
      ensures '\n' !in lines[i]
    {
    }
    SplitJoin(lines, '\n');
  }

  /** The service runs the program on exactly its own targets: the
      `-targets` argument, split at ',' as the command line is, gives back
      the group's names, as long as no name holds a ',' or a space. */
  lemma ServiceRunsItsTargets(names: seq<string>, user: string, exe: string)
    requires |names| >= 1
    requires forall i :: 0 <= i < |names| ==> ',' !in names[i] && ' ' !in names[i]
    requires ' ' !in exe
    ensures var lines := ServiceLines(names, user, exe);
      && HasPrefix(lines[|lines| - 1], "ExecStart=")
      && Split(lines[|lines| - 1][10..], ' ') == [exe, "-targets", Join(names, ","), "-backup"]
      && Split(Join(names, ","), ',') == names
  {
    var name := Join(names, ",");
    var line := Join(ExecWords(exe, name), " ");
    assert ("ExecStart=" + line)[10..] == line;
    assert ' ' !in "-targets" && ' ' !in "-backup";
    SplitJoin(names, ',');
    JoinAvoidsChar(names, ",", ' ');
    SplitJoin(ExecWords(exe, name), ' ');
  }

  // ---------------------------------------------------------------------
  // Grouping by interval (systemd.go:64-70)
  // ---------------------------------------------------------------------

  function IntervalOf(targets: map<string, Target>, name: string): string {
    TargetNamed(targets, name).interval
  }

  /** The requested names whose target has the given interval, in request
      order. */
  function Members(targets: map<string, Target>, requested: seq<string>, interval: string): (m: seq<string>)
    ensures |m| <= |requested|
    decreases |requested|
  {
    if requested == [] then []
    else
      var last := requested[|requested| - 1];
      Members(targets, requested[..|requested| - 1], interval) + (if IntervalOf(targets, last) == interval then [last] else [])
  }

  lemma MembersStep(targets: map<string, Target>, requested: seq<string>, i: nat, interval: string)
    requires i < |requested|
    ensures Members(targets, requested[..i + 1], interval)
         == Members(targets, requested[..i], interval)
            + (if IntervalOf(targets, requested[i]) == interval then [requested[i]] else [])
  {
    assert requested[..i + 1][..i] == requested[..i];
  }

  /** `intervals` holds one list per interval that some request has, with
      that interval's requests. */
  ghost predicate Grouped(intervals: map<string, seq<string>>, targets: map<string, Target>, requested: seq<string>) {
    forall iv :: (iv in intervals <==> Members(targets, requested, iv) != [])
                 && (iv in intervals ==> intervals[iv] == Members(targets, requested, iv))
  }

  lemma GroupedStep(intervals: map<string, seq<string>>, targets: map<string, Target>, requested: seq<string>, i: nat)
    requires i < |requested| && Grouped(intervals, targets, requested[..i])
    ensures var iv := IntervalOf(targets, requested[i]);
      var list := if iv in intervals then intervals[iv] else [];
      Grouped(intervals[iv := list + [requested[i]]], targets, requested[..i + 1])
  {
    var iv := IntervalOf(targets, requested[i]);
    var list := if iv in intervals then intervals[iv] else [];
    var next := intervals[iv := list + [requested[i]]];
    forall other
      ensures other in next <==> Members(targets, requested[..i + 1], other) != []
      ensures other in next ==> next[other] == Members(targets, requested[..i + 1], other)
    {
      MembersStep(targets, requested, i, other);
      if other == iv {
        assert list == Members(targets, requested[..i], iv);
      } else {
        assert other in next <==> other in intervals;
      }
    }
  }

  /** The grouping loop of `install`: one list per interval that some
      request has, holding that interval's requests. */
  method GroupByInterval(targets: map<string, Target>, requested: seq<string>) returns (intervals: map<string, seq<string>>)
    ensures forall iv :: iv in intervals <==> Members(targets, requested, iv) != []
    ensures forall iv :: iv in intervals ==> intervals[iv] == Members(targets, requested, iv)
  {
    intervals := map[];
    for i := 0 to |requested|
      invariant Grouped(intervals, targets, requested[..i])
    {
      GroupedStep(intervals, targets, requested, i);
      var name := requested[i];
      var iv := TargetNamed(targets, name).interval;
      var list := if iv in intervals then intervals[iv] else [];
      intervals := intervals[iv := list + [name]];
    }
    assert requested[..|requested|] == requested;
  }

  /** Each group is the requests of its interval, in request order:
      `positions` says where each member was requested, and a request is
      among them exactly when its target has the interval. So every
      requested target is in exactly one group, the one of its own
      interval. */
  lemma {:induction false} MembersAreOrderedSelection(targets: map<string, Target>, requested: seq<string>, interval: string)
    returns (positions: seq<nat>)
    ensures OrderedSelection(positions, Members(targets, requested, interval), requested, targets, interval)
    decreases |requested|
  {
    positions := [];
    if requested != [] {
      var n := |requested| - 1;
      var front := requested[..n];
      var p := MembersAreOrderedSelection(targets, front, interval);
      assert Members(targets, requested, interval)
          == Members(targets, front, interval) + (if IntervalOf(targets, requested[n]) == interval then [requested[n]] else []);
      OrderedSelectionAppend(p, Members(targets, front, interval), requested, targets, interval);
      positions := p + (if IntervalOf(targets, requested[n]) == interval then [n] else []);
    }
  }

  /** `m` is the subsequence of `requested` at the increasing `positions`,
      which are exactly the requests of `interval`. */
  ghost predicate OrderedSelection(positions: seq<nat>, m: seq<string>, requested: seq<string>,
                                   targets: map<string, Target>, interval: string)
  {
    && |positions| == |m|
    && (forall k :: 0 <= k < |positions| ==> positions[k] < |requested| && m[k] == requested[positions[k]])
    && (forall k, l :: 0 <= k < l < |positions| ==> positions[k] < positions[l])
    && (forall j :: 0 <= j < |requested| ==> (j in positions <==> IntervalOf(targets, requested[j]) == interval))
  }

  lemma OrderedSelectionAppend(p: seq<nat>, m: seq<string>, requested: seq<string>,
                               targets: map<string, Target>, interval: string)
    requires |requested| > 0
    requires OrderedSelection(p, m, requested[..|requested| - 1], targets, interval)
    ensures var n := |requested| - 1;
      var selected := IntervalOf(targets, requested[n]) == interval;
      OrderedSelection(p + (if selected then [n] else []), m + (if selected then [requested[n]] else []),
                       requested, targets, interval)
  {
    var n := |requested| - 1;
    var front := requested[..n];
    var selected := IntervalOf(targets, requested[n]) == interval;
    var tail := if selected then [n] else [];
    var positions := p + tail;
    var m' := m + (if selected then [requested[n]] else []);
    forall k | 0 <= k < |positions|
      ensures positions[k] < |requested| && m'[k] == requested[positions[k]]
    {
      if k < |p| {
        assert positions[k] == p[k] && m'[k] == m[k] && front[p[k]] == requested[p[k]];
      }
    }
    forall k, l | 0 <= k < l < |positions|
      ensures positions[k] < positions[l]
    {
      if l >= |p| {
        assert positions[k] == p[k] < n && positions[l] == n;
      }
    }
    assert n !in p;
    forall j | 0 <= j < |requested|
      ensures j in positions <==> IntervalOf(targets, requested[j]) == interval
    {
      if j < n {
        assert front[j] == requested[j];
        assert j in positions <==> j in p;
      } else {
        assert j in positions <==> j in tail;
      }
    }
  }

  // ---------------------------------------------------------------------
  // Choosing what to save (systemd.go:72-131, 172-194)
  // ---------------------------------------------------------------------

  /** The files generated for one group, as paths and texts. */
  datatype UnitFiles = UnitFiles(servicePath: string, service: string, timerPath: string, timer: string)

  /** The files of the group of `interval` with target names `names`. */
  function GroupUnits(interval: string, names: seq<string>, user: string, exe: string): UnitFiles {
    var fileName := IntervalOrServerNames(interval, names);
    UnitFiles(ServicePath(fileName), GenService(names, user, Some(exe)).value, TimerPath(fileName), GenTimer(names, interval))
  }

  datatype Action = Review | EditUnits | SaveGroup | SaveAll | Unrecognised

  /** The action a line of input selects, after `strings.ToLower`. */
  function ActionOf(answer: string): Action {
    if IsAnswer(answer, 'r') then Review
    else if IsAnswer(answer, 'e') then EditUnits
    else if IsAnswer(answer, 's') then SaveGroup
    else if IsAnswer(answer, 'a') then SaveAll
    else Unrecognised
  }

  function Answer(answers: seq<string>, k: nat): string {
    if k < |answers| then answers[k] else ""
  }

  /** `editUnitFiles`: the `k`-th answer chooses the service or the timer for
      the editor; anything else, cancel included, keeps both. */
  function Edited(u: UnitFiles, answers: seq<string>, k: nat, editor: (nat, string) -> string): (e: UnitFiles)
    ensures e.servicePath == u.servicePath && e.timerPath == u.timerPath
    ensures e.service == u.service || e.timer == u.timer
  {
    var choice := Answer(answers, k);
    if IsAnswer(choice, 's') then u.(service := editor(k, u.service))
    else if IsAnswer(choice, 't') then u.(timer := editor(k, u.timer))
    else u
  }

  datatype Prompted = Chosen(units: UnitFiles, next: nat, all: bool) | Stalled

  /** The prompt of one group from the `k`-th answer on: it ends with `s` or
      `a`, or stalls when the input runs out, as the source would then
      re-prompt forever. */
  function Prompt(u: UnitFiles, answers: seq<string>, k: nat, editor: (nat, string) -> string): Prompted
    decreases |answers| - k
  {
    if k >= |answers| then Stalled
    else match ActionOf(answers[k])
      case SaveGroup => Chosen(u, k + 1, false)
      case SaveAll => Chosen(u, k + 1, true)
      case EditUnits => Prompt(Edited(u, answers, k + 1, editor), answers, k + 2, editor)
      case _ => Prompt(u, answers, k + 1, editor)
  }

  /** Where the group loop stands. */
  datatype Session = Session(saved: seq<UnitFiles>, next: nat, saveAll: bool, stalled: bool)

  /** The group loop from the `i`-th group on. */
  function Choose(groups: seq<UnitFiles>, answers: seq<string>, i: nat, s: Session, editor: (nat, string) -> string): Session
    decreases |groups| - i
  {
    if i >= |groups| || s.stalled then s
    else if s.saveAll then Choose(groups, answers, i + 1, s.(saved := s.saved + [groups[i]]), editor)
    else match Prompt(groups[i], answers, s.next, editor)
      case Stalled => s.(stalled := true)
      case Chosen(u, next, all) => Choose(groups, answers, i + 1, Session(s.saved + [u], next, all, false), editor)
  }

  /** A group is saved under the paths it was generated with, and, without an
      edit, with the text it was generated with. */
  lemma {:induction false} PromptKeepsPaths(u: UnitFiles, answers: seq<string>, k: nat, editor: (nat, string) -> string)
    ensures var p := Prompt(u, answers, k, editor);
      p.Chosen? ==> p.units.servicePath == u.servicePath && p.units.timerPath == u.timerPath && k < p.next
    ensures var p := Prompt(u, answers, k, editor);
      p.Chosen? && (forall j :: k <= j < |answers| ==> ActionOf(answers[j]) != EditUnits) ==> p.units == u
    decreases |answers| - k
  {
    if k < |answers| {
      match ActionOf(answers[k])
      case SaveGroup =>
      case SaveAll =>
      case EditUnits => PromptKeepsPaths(Edited(u, answers, k + 1, editor), answers, k + 2, editor);
      case _ => PromptKeepsPaths(u, answers, k + 1, editor);
    }
  }

  /** After `a`, every later group is saved as generated without reading any
      input. */
  lemma {:induction false} SaveAllSavesTheRest(groups: seq<UnitFiles>, answers: seq<string>, i: nat, s: Session,
                                               editor: (nat, string) -> string)
    requires s.saveAll && !s.stalled && i <= |groups|
    ensures Choose(groups, answers, i, s, editor) == s.(saved := s.saved + groups[i..])
    decreases |groups| - i
  {
    if i == |groups| {
      assert groups[i..] == [];
    } else {
      SaveAllSavesTheRest(groups, answers, i + 1, s.(saved := s.saved + [groups[i]]), editor);
      assert s.saved + [groups[i]] + groups[i + 1..] == s.saved + groups[i..];
    }
  }

  /** The group loop only appends to what was saved, at most one entry per
      remaining group, and exactly one per group unless the input runs out. */
  lemma {:induction false} ChooseSavesEveryGroup(groups: seq<UnitFiles>, answers: seq<string>, i: nat, s: Session,
                                                 editor: (nat, string) -> string)
    requires !s.stalled && i <= |groups|
    ensures var r := Choose(groups, answers, i, s, editor);
      && |s.saved| <= |r.saved| <= |s.saved| + |groups| - i
      && r.saved[..|s.saved|] == s.saved
      && (!r.stalled ==> |r.saved| == |s.saved| + |groups| - i)
    decreases |groups| - i
  {
    if i < |groups| {
      if s.saveAll {
        SaveAllSavesTheRest(groups, answers, i, s, editor);
      } else {
        match Prompt(groups[i], answers, s.next, editor)
        case Stalled =>
        case Chosen(u, next, all) =>
          var t := Session(s.saved + [u], next, all, false);
          ChooseSavesEveryGroup(groups, answers, i + 1, t, editor);
          var r := Choose(groups, answers, i + 1, t, editor);
          assert r.saved[..|t.saved|][..|s.saved|] == r.saved[..|s.saved|];
      }
    }
  }

  /** Each entry of `saved` carries the paths of the group at the same
      position. */
  ghost predicate PathsMatch(groups: seq<UnitFiles>, saved: seq<UnitFiles>) {
    |saved| <= |groups| && forall j :: 0 <= j < |saved| ==> SamePaths(saved[j], groups[j])
  }

  predicate SamePaths(a: UnitFiles, b: UnitFiles) {
    a.servicePath == b.servicePath && a.timerPath == b.timerPath
  }

  lemma PathsMatchCons(groups: seq<UnitFiles>, saved: seq<UnitFiles>)
    requires |groups| > 0 && |saved| > 0 && SamePaths(saved[0], groups[0])
    requires PathsMatch(groups[1..], saved[1..])
    ensures PathsMatch(groups, saved)
  {
    forall j | 0 < j < |saved|
      ensures SamePaths(saved[j], groups[j])
    {
      assert saved[j] == saved[1..][j - 1] && groups[j] == groups[1..][j - 1];
    }
  }

  /** Files are saved in group order, each under the paths its group was
      generated with. */
  lemma {:induction false} ChooseKeepsPaths(groups: seq<UnitFiles>, answers: seq<string>, i: nat, s: Session,
                                            editor: (nat, string) -> string)
    requires !s.stalled && i <= |groups|
    ensures var r := Choose(groups, answers, i, s, editor);
      |s.saved| <= |r.saved| && PathsMatch(groups[i..], r.saved[|s.saved|..])
    decreases |groups| - i
  {
    ChooseSavesEveryGroup(groups, answers, i, s, editor);
    if i < |groups| {
      if s.saveAll {
        SaveAllSavesTheRest(groups, answers, i, s, editor);
        var r := Choose(groups, answers, i, s, editor);
        assert r.saved[|s.saved|..] == groups[i..];
      } else {
        PromptKeepsPaths(groups[i], answers, s.next, editor);
        match Prompt(groups[i], answers, s.next, editor)
        case Stalled =>
        case Chosen(u, next, all) =>
          var t := Session(s.saved + [u], next, all, false);
          var r := Choose(groups, answers, i + 1, t, editor);
          assert Choose(groups, answers, i, s, editor) == r;
          ChooseKeepsPaths(groups, answers, i + 1, t, editor);
          ChooseSavesEveryGroup(groups, answers, i + 1, t, editor);
          var rest := r.saved[|s.saved|..];
          assert rest[0] == r.saved[..|t.saved|][|s.saved|] == u;
          assert rest[1..] == r.saved[|t.saved|..];
          assert groups[i..][1..] == groups[i + 1..];
          PathsMatchCons(groups[i..], rest);
      }
    } else {
      assert Choose(groups, answers, i, s, editor) == s;
    }
  }

  /** The unit directory, as far as installing and cleaning see it. */
  class Disk {
    var files: map<string, string>

    constructor (files: map<string, string>)
      ensures this.files == files
    {
      this.files := files;
    }

    /** `saveTimerFiles`: both files, written over any old ones. */
    method SaveUnits(u: UnitFiles)
      modifies this
      ensures files == old(files)[u.servicePath := u.service][u.timerPath := u.timer]
    {
      files := files[u.servicePath := u.service];
      files := files[u.timerPath := u.timer];
    }

    method Remove(path: string)
      modifies this
      ensures files == old(files) - {path}
    {
      files := files - {path};
    }
  }

  /** The files after saving the given groups in turn. */
  function SavedFiles(files: map<string, string>, saved: seq<UnitFiles>): map<string, string>
    decreases |saved|
  {
    if saved == [] then files
    else
      var u := saved[0];
      SavedFiles(files[u.servicePath := u.service][u.timerPath := u.timer], saved[1..])
  }

  lemma {:induction false} SavedFilesAppend(files: map<string, string>, saved: seq<UnitFiles>, u: UnitFiles)
    ensures SavedFiles(files, saved + [u]) == SavedFiles(files, saved)[u.servicePath := u.service][u.timerPath := u.timer]
    decreases |saved|
  {
    if saved != [] {
      var v := saved[0];
      assert (saved + [u])[1..] == saved[1..] + [u];
      SavedFilesAppend(files[v.servicePath := v.service][v.timerPath := v.timer], saved[1..], u);
    }
  }

  /** The prompt of one group, from the `k`-th answer on. */
  method PromptGroup(u: UnitFiles, answers: seq<string>, k: nat, editor: (nat, string) -> string)
    returns (units: UnitFiles, next: nat, all: bool, stalled: bool)
    ensures var p := Prompt(u, answers, k, editor);
      if stalled then p.Stalled? else p == Chosen(units, next, all)
  {
    units, next := u, k;
    while true
      invariant Prompt(units, answers, next, editor) == Prompt(u, answers, k, editor)
      decreases |answers| - next
    {
      if next >= |answers| {
        return units, next, false, true;
      }
      var answer := answers[next];
      var action := ActionOf(answer);
      if action == SaveGroup {
        return units, next + 1, false, false;
      } else if action == SaveAll {
        return units, next + 1, true, false;
      } else if action == EditUnits {
        units := Edited(units, answers, next + 1, editor);
        next := next + 2;
      } else {
        next := next + 1;
      }
    }
  }

  /** The group loop of `install`: the groups of `order`, the iteration
      order of the interval map (every interval exactly once), are generated
      and saved as the answers say. A failing `os.Executable` is fatal before the first group. */
  method InstallUnits(disk: Disk, intervals: map<string, seq<string>>, order: seq<string>, user: string,
                      exe: Option<string>, answers: seq<string>, editor: (nat, string) -> string)
    returns (fatal: bool, session: Session)
    requires forall k :: 0 <= k < |order| ==> order[k] in intervals
    requires |order| == |intervals| && forall j, k :: 0 <= j < k < |order| ==> order[j] != order[k]
    modifies disk
    ensures fatal <==> exe.None? && |order| > 0
    ensures fatal ==> disk.files == old(disk.files)
    ensures !fatal ==>
      var groups := seq(|order|, k requires 0 <= k < |order| => GroupUnits(order[k], intervals[order[k]], user, exe.value));
      session == Choose(groups, answers, 0, Session([], 0, false, false), editor)
      && disk.files == SavedFiles(old(disk.files), session.saved)
  {
    if exe.None? && |order| > 0 {
      return true, Session([], 0, false, false);
    }
    fatal := false;
    ghost var groups := seq(|order|, k requires 0 <= k < |order| => GroupUnits(order[k], intervals[order[k]], user, exe.value));
    ghost var whole := Choose(groups, answers, 0, Session([], 0, false, false), editor);
    ghost var files0 := disk.files;
    session := Session([], 0, false, false);
    for i := 0 to |order|
      invariant Choose(groups, answers, i, session, editor) == whole
      invariant disk.files == SavedFiles(files0, session.saved)
    {
      if session.stalled {
        break;
      }
      var units := GroupUnits(order[i], intervals[order[i]], user, exe.value);
      assert units == groups[i];
      if session.saveAll {
        SavedFilesAppend(files0, session.saved, units);
        disk.SaveUnits(units);
        session := session.(saved := session.saved + [units]);
      } else {
        var chosen, next, all, stalled := PromptGroup(units, answers, session.next, editor);
        if stalled {
          session := session.(stalled := true);
        } else {
          SavedFilesAppend(files0, session.saved, chosen);
          disk.SaveUnits(chosen);
          session := Session(session.saved + [chosen], next, all, false);
        }
      }
    }
  }

  // ---------------------------------------------------------------------
  // Enabling the timers (systemd.go:148-156)
  // ---------------------------------------------------------------------

  /** The timer the enable step names for a group, as written: after the raw
      interval. */
  function EnabledTimerAsWritten(interval: string): string {
    TimerUnitName(interval)
  }

  /** The timer of a group as saved, named after the group's file name. */
  function EnabledTimer(interval: string, names: seq<string>): string {
    TimerUnitName(IntervalOrServerNames(interval, names))
  }

  /** As written, the enable step names the timer that was saved exactly
      when the unit file name is the interval itself, so never for a
      calendar expression such as `*-*-* 02:00:00` (unless the target names
      happen to spell it). */
  lemma EnabledAsWrittenMatchesIff(interval: string, names: seq<string>, user: string, exe: string)
    ensures UnitDir + EnabledTimerAsWritten(interval) == GroupUnits(interval, names, user, exe).timerPath
            <==> !ContainsAny(interval, CalendarChars) || Join(names, "") == interval
  {
    var fileName := IntervalOrServerNames(interval, names);
    UnitNamesDistinct(interval, fileName);
    FileNameIsPlain(interval, names);
    if UnitDir + EnabledTimerAsWritten(interval) == GroupUnits(interval, names, user, exe).timerPath {
      assert TimerUnitName(interval) == (UnitDir + TimerUnitName(interval))[|UnitDir|..];
      assert TimerUnitName(fileName) == (UnitDir + TimerUnitName(fileName))[|UnitDir|..];
    }
  }

  /** A daily calendar timer for the target `db`: the unit is saved as
      `qbsgo-generated-db.timer`, but the enable step asks for
      `qbsgo-generated-*-*-* 02:00:00.timer`. */
  lemma CalendarTimerNotEnabled(user: string, exe: string)
    ensures GroupUnits("*-*-* 02:00:00", ["db"], user, exe).timerPath == TimerPath("db")
    ensures EnabledTimerAsWritten("*-*-* 02:00:00") == TimerUnitName("*-*-* 02:00:00")
    ensures UnitDir + EnabledTimerAsWritten("*-*-* 02:00:00") != GroupUnits("*-*-* 02:00:00", ["db"], user, exe).timerPath
  {
    var interval := "*-*-* 02:00:00";
    assert interval[0] in CalendarChars;
    assert Join(["db"], "") == "db";
    assert IntervalOrServerNames(interval, ["db"]) == "db";
    UnitNamesDistinct(interval, "db");
    assert interval != "db";
  }

  /** With the timer named after the group's file name, the enable step
      always names the timer that was saved for the group. */
  lemma EnabledTimerWasSaved(interval: string, names: seq<string>, user: string, exe: string)
    ensures UnitDir + EnabledTimer(interval, names) == GroupUnits(interval, names, user, exe).timerPath
    ensures HasPrefix(EnabledTimer(interval, names), UnitNamePrefix)
  {
    UnitNamesDistinct(IntervalOrServerNames(interval, names), "");
  }

  // ---------------------------------------------------------------------
  // The clean-up question (systemd.go:30-45)
  // ---------------------------------------------------------------------

  /** What `install` does after asking whether to clean up old unit files:
      clean them first, keep them, or end the process on a read error. */
  datatype CleanUpAction = CleanFirst | KeepExisting | InputFailed

  /** The reply as the code reads it: `fmt.Scanln(&answer)` on the next input
      line (None at end of input). Scanln fails on a line holding no word
      ("unexpected newline") or more than one ("expected newline"), and any
      error is `log.Fatalf`; the word `y` or `Y` cleans. */
  function CleanUpReplyAsWritten(line: Option<string>): CleanUpAction {
    match line
    case None => InputFailed
    case Some(l) =>
      var word := TrimSpace(l);
      if word == [] || ContainsAny(word, SpaceChars) then InputFailed
      else if IsAnswer(word, 'y') then CleanFirst
      else KeepExisting
  }

  /** The question offers `[Y/n]`, yet the default it advertises can never
      be taken: an empty line, the way to accept a default, ends the
      process. */
  lemma DefaultCleanUpEndsInstall(line: string)
    requires TrimSpace(line) == []
    ensures CleanUpReplyAsWritten(Some(line)) == InputFailed
  {
  }

  /** The reply with the advertised default: an empty line cleans. */
  function CleanUpReply(line: Option<string>): CleanUpAction {
    if line.Some? && TrimSpace(line.value) == [] then CleanFirst
    else CleanUpReplyAsWritten(line)
  }

  /** The corrected reading takes the default on an empty line and agrees
      with the code on every other input; it fails only at end of input or
      on a line of several words. */
  lemma CleanUpReplyTakesDefault(line: Option<string>)
    ensures line.Some? && TrimSpace(line.value) == [] ==> CleanUpReply(line) == CleanFirst
    ensures line.None? || TrimSpace(line.value) != [] ==> CleanUpReply(line) == CleanUpReplyAsWritten(line)
    ensures CleanUpReply(line) == InputFailed
        <==> line.None? || (TrimSpace(line.value) != [] && ContainsAny(TrimSpace(line.value), SpaceChars))
  {
  }

  // ---------------------------------------------------------------------
  // Cleaning old units (systemd.go:225-264)
  // ---------------------------------------------------------------------

  /** One call of the `WalkDir` callback: the entry's path and base name,
      and whether it reports an error, which ends the walk. */
  datatype DirEntry = DirEntry(path: string, name: string, failed: bool)

  /** The number of entries the walk gets through before its first error. */
  function WalkedUntilError(walked: seq<DirEntry>): (n: nat)
    ensures n <= |walked|
    ensures forall j :: 0 <= j < n ==> !walked[j].failed
    ensures n < |walked| ==> walked[n].failed
    decreases |walked|
  {
    if walked == [] || walked[0].failed then 0 else 1 + WalkedUntilError(walked[1..])
  }

  /** The paths of the entries whose base name carries the prefix. */
  function PrefixedPaths(entries: seq<DirEntry>): seq<string>
    decreases |entries|
  {
    if entries == [] then []
    else
      var last := entries[|entries| - 1];
      PrefixedPaths(entries[..|entries| - 1]) + (if HasPrefix(last.name, UnitNamePrefix) then [last.path] else [])
  }

  /** The paths the walk collects: those with the prefix, up to the first
      error. */
  function UnitFilesFound(walked: seq<DirEntry>): seq<string> {
    PrefixedPaths(walked[..WalkedUntilError(walked)])
  }

  /** Exactly the paths of the entries whose name carries the prefix are
      collected, in walk order. */
  lemma {:induction false} PrefixedAreSelected(entries: seq<DirEntry>) returns (positions: seq<nat>)
    ensures var found := PrefixedPaths(entries);
      && |positions| == |found|
      && (forall k :: 0 <= k < |positions| ==> positions[k] < |entries| && found[k] == entries[positions[k]].path)
      && (forall k, l :: 0 <= k < l < |positions| ==> positions[k] < positions[l])
      && (forall j :: 0 <= j < |entries| ==> (j in positions <==> HasPrefix(entries[j].name, UnitNamePrefix)))
    decreases |entries|
  {
    positions := [];
    if entries != [] {
      var n := |entries| - 1;
      var front := entries[..n];
      var p := PrefixedAreSelected(front);
      var found := PrefixedPaths(entries);
      var tail := if HasPrefix(entries[n].name, UnitNamePrefix) then [n] else [];
      assert found == PrefixedPaths(front) + (if HasPrefix(entries[n].name, UnitNamePrefix) then [entries[n].path] else []);
      positions := p + tail;
      forall k | 0 <= k < |positions|
        ensures positions[k] < |entries| && found[k] == entries[positions[k]].path
      {
        if k < |p| {
          assert positions[k] == p[k] && front[p[k]] == entries[p[k]];
        }
      }
      forall j | 0 <= j < |entries|
        ensures j in positions <==> HasPrefix(entries[j].name, UnitNamePrefix)
      {
        assert n !in p;
        if j < n {
          assert front[j] == entries[j];
        }
      }
    }
  }

  /** `cleanUnits`: collects the unit files the walk finds and, when there
      are some and the answer is `y`, removes them. */
  method CleanUnits(disk: Disk, walked: seq<DirEntry>, answer: string) returns (removed: seq<string>)
    modifies disk
    ensures removed == if IsAnswer(answer, 'y') then UnitFilesFound(walked) else []
    ensures disk.files == old(disk.files) - set k | 0 <= k < |removed| :: removed[k]
  {
    var fileList := [];
    var i := 0;
    while i < |walked| && !walked[i].failed
      invariant 0 <= i <= |walked|
      invariant forall j :: 0 <= j < i ==> !walked[j].failed
      invariant fileList == PrefixedPaths(walked[..i])
      decreases |walked| - i
    {
      assert walked[..i + 1][..i] == walked[..i];
      if HasPrefix(walked[i].name, UnitNamePrefix) {
        fileList := fileList + [walked[i].path];
      }
      i := i + 1;
    }
    assert i == WalkedUntilError(walked);
    if |fileList| == 0 || !IsAnswer(answer, 'y') {
      return [];
    }
    for j := 0 to |fileList|
      invariant disk.files == old(disk.files) - set k | 0 <= k < j :: fileList[k]
    {
      disk.Remove(fileList[j]);
      assert (set k | 0 <= k < j + 1 :: fileList[k]) == (set k | 0 <= k < j :: fileList[k]) + {fileList[j]};
    }
    removed := fileList;
  }
}

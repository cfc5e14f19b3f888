/** main.go: which targets a command line selects and in which order the
    program acts on them.

    The order in which Go ranges over a map is unspecified; the model picks
    each next key with `:|`, so its contracts hold for every order. */
module Cli {
  import opened Common
  import opened Settings

  /** The flags `main` reads. */
  datatype Flags = Flags(version: bool, targets: string, backup: bool, install: bool)

  /** What `main` does, in order. */
  datatype Stage =
    | PrintVersion
    | LoadConfig(validate: bool)
    | Install
    | Backup

  /** The stages `main` goes through for the given flags: `-version` ends the
      program before the configuration is read; otherwise the configuration
      is loaded, validated only for `-install`, then the units are installed
      and then the backup runs, each only when asked for. */
  function Stages(flags: Flags): (stages: seq<Stage>)
    ensures |stages| >= 1
    ensures flags.version ==> stages == [PrintVersion]
    ensures !flags.version ==> stages[0] == LoadConfig(flags.install) && PrintVersion !in stages
    ensures Install in stages <==> !flags.version && flags.install
    ensures Backup in stages <==> !flags.version && flags.backup
    ensures forall i, j :: 0 <= i < |stages| && 0 <= j < |stages| && stages[i] == Install && stages[j] == Backup ==> i < j
  {
    if flags.version then [PrintVersion]
    else [LoadConfig(flags.install)] + (if flags.install then [Install] else []) + (if flags.backup then [Backup] else [])
  }

  /** `-targets all,...` selects every configured target. */
  predicate SelectsAll(parts: seq<string>) {
    |parts| >= 1 && parts[0] == "all"
  }

  /** The text of the flag before its first comma. */
  function FirstField(flag: string): (f: string)
    ensures |f| <= |flag| && flag[..|f|] == f && ',' !in f
    ensures |f| < |flag| ==> flag[|f|] == ','
    decreases |flag|
  {
    if flag == [] || flag[0] == ',' then [] else [flag[0]] + FirstField(flag[1..])
  }

  /** The comma split never comes back empty, so the check for an empty list
      never fires; and its first element is the text before the first comma,
      so `all` selects everything only in first position. */
  lemma {:induction false} FirstTargetIsFirstField(flag: string)
    ensures |Split(flag, ',')| >= 1 && Split(flag, ',')[0] == FirstField(flag)
    ensures SelectsAll(Split(flag, ',')) <==> FirstField(flag) == "all"
    decreases |flag|
  {
    if flag != [] && flag[0] != ',' {
      FirstTargetIsFirstField(flag[1..]);
    }
  }

  /** The requested targets: the comma-separated list of the flag, or every
      configured target, each exactly once, when the list starts with
      `all`. */
  method ResolveTargets(flag: string, targets: map<string, Target>) returns (names: seq<string>)
    ensures !SelectsAll(Split(flag, ',')) ==> names == Split(flag, ',')
    ensures SelectsAll(Split(flag, ',')) ==>
      && |names| == |targets|
      && (forall name :: name in names <==> name in targets)
      && (forall j, l :: 0 <= j < l < |names| ==> names[j] != names[l])
  {
    names := Split(flag, ',');
    if names[0] == "all" {
      var all := new string[|targets.Keys|];
      var remaining := targets.Keys;
      var i := 0;
      ghost var chosen: seq<string> := [];
      while remaining != {}
        invariant 0 <= i <= all.Length && all[..i] == chosen
        invariant remaining <= targets.Keys
        invariant i + |remaining| == all.Length
        invariant forall j :: 0 <= j < i ==> chosen[j] in targets && chosen[j] !in remaining
        invariant forall k :: k in targets && k !in remaining ==> k in chosen
        invariant forall j, l :: 0 <= j < l < i ==> chosen[j] != chosen[l]
        decreases |remaining|
      {
        var k :| k in remaining;
        all[i] := k;
        remaining := remaining - {k};
        chosen := chosen + [k];
        i := i + 1;
        assert all[..i] == all[..i - 1] + [k];
      }
      assert all[..] == all[..i];
      names := all[..];
    }
  }

  /** A generated service passes its group back through `-targets`: the
      program splits the list into exactly the group's names, as long as no
      name holds a ',' and the first is not `all`. */
  lemma ServiceTargetsResolveToGroup(names: seq<string>)
    requires |names| >= 1 && names[0] != "all"
    requires forall i :: 0 <= i < |names| ==> ',' !in names[i]
    ensures Split(Join(names, ","), ',') == names
    ensures !SelectsAll(Split(Join(names, ","), ','))
  {
    SplitJoin(names, ',');
  }
}

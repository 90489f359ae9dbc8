/**
 * Tool resolution: the frameset `TOOLS` entries name tools; the catalog turns
 * the names into tool records, and each record's version is read from the
 * entry's `VERSION` text (MWD and LWD tools use different patterns), from the
 * catalog, or from the section size.
 */
module ToolResolver {
  import opened Wrappers
  import Text
  import opened Models
  import opened Catalog
  import opened Request

  // ---------------------------------------------------------------------------
  // The two version patterns

  /** The length of the run of ASCII digits that starts at `i`. */
  function DigitRun(s: string, i: nat): (n: nat)
    requires i <= |s|
    ensures i + n <= |s|
    ensures forall k :: i <= k < i + n ==> Text.IsDigit(s[k])
    ensures i + n < |s| ==> !Text.IsDigit(s[i + n])
    decreases |s| - i
  {
    if i < |s| && Text.IsDigit(s[i]) then 1 + DigitRun(s, i + 1) else 0
  }

  /** What `\s` matches in a text pattern: the characters Python counts as whitespace. */
  predicate RegexSpace(c: char) {
    Text.IsSpace(c) || (0x1c <= c as int <= 0x20) || c as int == 0x85 || c as int == 0xa0
    || c as int == 0x1680 || (0x2000 <= c as int <= 0x200a) || c as int == 0x2028 || c as int == 0x2029
    || c as int == 0x202f || c as int == 0x205f || c as int == 0x3000
  }

  function SpaceRun(s: string, i: nat): (n: nat)
    requires i <= |s|
    ensures i + n <= |s|
    ensures forall k :: i <= k < i + n ==> RegexSpace(s[k])
    ensures i + n < |s| ==> !RegexSpace(s[i + n])
    decreases |s| - i
  {
    if i < |s| && RegexSpace(s[i]) then 1 + SpaceRun(s, i + 1) else 0
  }

  /**
   * `v\d+\.\d+` matched at `i`, without the `v`. The first digit run cannot
   * give back digits to make room for the point, so it is taken whole.
   */
  function LwdMatchAt(s: string, i: nat): (r: Option<string>)
    requires i < |s|
  {
    if s[i] != 'v' then None
    else
      var a := DigitRun(s, i + 1);
      var j := i + 1 + a;
      if a == 0 || j >= |s| || s[j] != '.' then None
      else
        var b := DigitRun(s, j + 1);
        if b == 0 then None else Some(s[i + 1..j + 1 + b])
  }

  /** `v\s*(\d+)(?:\.(\d+))?` matched at `i`, case-insensitively; the major number with `"0"` appended. */
  function MwdMatchAt(s: string, i: nat): (r: Option<string>)
    requires i < |s|
  {
    if s[i] != 'v' && s[i] != 'V' then None
    else
      var w := SpaceRun(s, i + 1);
      var a := DigitRun(s, i + 1 + w);
      if a == 0 then None else Some(s[i + 1 + w..i + 1 + w + a] + "0")
  }

  /** The pattern `get_lwd_version` searches for, or the one `get_mwd_version` does. */
  datatype Pattern = LwdPattern | MwdPattern

  function MatchAt(p: Pattern, s: string, i: nat): Option<string>
    requires i < |s|
  {
    match p
    case LwdPattern => LwdMatchAt(s, i)
    case MwdPattern => MwdMatchAt(s, i)
  }

  /** `re.search`: the match at the leftmost position where the pattern matches. */
  function Search(p: Pattern, s: string, from: nat): (r: Option<string>)
    requires from <= |s|
    ensures r.Some? <==> exists i :: from <= i < |s| && MatchAt(p, s, i).Some?
    ensures r.Some? ==> exists i :: from <= i < |s| && MatchAt(p, s, i) == r
                                   && forall k :: from <= k < i ==> MatchAt(p, s, k).None?
    decreases |s| - from
  {
    if from == |s| then None
    else if MatchAt(p, s, from).Some? then MatchAt(p, s, from)
    else Search(p, s, from + 1)
  }

  function VersionIn(p: Pattern, s: string): (r: Option<string>) {
    Search(p, s, 0)
  }

  /** A version `vX.Y` reads back as `X.Y`. */
  lemma LwdVersionRoundTrip(major: string, minor: string)
    requires |major| > 0 && Text.AllDigits(major) && |minor| > 0 && Text.AllDigits(minor)
    ensures VersionIn(LwdPattern, "v" + major + "." + minor) == Some(major + "." + minor)
  {
    var s := "v" + major + "." + minor;
    DigitRunWhole(s, 1, |major|);
    DigitRunWhole(s, 2 + |major|, |minor|);
    assert s[1..2 + |major| + |minor|] == major + "." + minor;
    assert LwdMatchAt(s, 0) == Some(major + "." + minor);
  }

  /** A version `v X.Y` (any spacing, either case of `v`) reads back as `X0`. */
  lemma MwdVersionRoundTrip(v: char, spaces: string, major: string, rest: string)
    requires v == 'v' || v == 'V'
    requires forall k :: 0 <= k < |spaces| ==> RegexSpace(spaces[k])
    requires |major| > 0 && Text.AllDigits(major)
    requires |rest| == 0 || !Text.IsDigit(rest[0])
    ensures VersionIn(MwdPattern, [v] + spaces + major + rest) == Some(major + "0")
  {
    var s := [v] + spaces + major + rest;
    SpaceRunWhole(s, 1, |spaces|);
    DigitRunWhole(s, 1 + |spaces|, |major|);
    assert s[1 + |spaces|..1 + |spaces| + |major|] == major;
    assert MwdMatchAt(s, 0) == Some(major + "0");
  }

  lemma {:induction false} DigitRunWhole(s: string, i: nat, n: nat)
    requires i + n <= |s|
    requires forall k :: i <= k < i + n ==> Text.IsDigit(s[k])
    requires i + n == |s| || !Text.IsDigit(s[i + n])
    ensures DigitRun(s, i) == n
    decreases n
  {
    if n > 0 { DigitRunWhole(s, i + 1, n - 1); }
  }

  lemma {:induction false} SpaceRunWhole(s: string, i: nat, n: nat)
    requires i + n <= |s|
    requires forall k :: i <= k < i + n ==> RegexSpace(s[k])
    requires i + n == |s| || !RegexSpace(s[i + n])
    ensures SpaceRun(s, i) == n
    decreases n
  {
    if n > 0 { SpaceRunWhole(s, i + 1, n - 1); }
  }

  // ---------------------------------------------------------------------------
  // get_lwd_version and get_mwd_version

  /** The message `re.search(pattern, None)` raises. */
  const RegexOfNoneMessage: string := "expected string or bytes-like object, got 'NoneType'"

  /** An entry that ends the scan: it names the tool and its version is null or matches. */
  predicate Decisive(e: ToolEntry, name: string, p: Pattern) {
    e.name == Some(name) && (e.version.NullVersion? || (e.version.VersionText? && VersionIn(p, e.version.s).Some?))
  }

  /**
   * The scan of `get_lwd_version` / `get_mwd_version`: the first entry naming
   * the tool whose `VERSION` matches gives the version; an entry naming the
   * tool with a null `VERSION` raises; a missing `VERSION` reads as `""`.
   */
  function FirstVersion(name: string, entries: seq<ToolEntry>, p: Pattern): (r: Result<Option<string>>)
    ensures r == Ok(None) <==> forall k :: 0 <= k < |entries| ==> !Decisive(entries[k], name, p)
    ensures r != Ok(None) ==>
              exists k :: 0 <= k < |entries| && Decisive(entries[k], name, p)
                          && (forall j :: 0 <= j < k ==> !Decisive(entries[j], name, p))
                          && r == if entries[k].version.NullVersion? then Err(TypeError(RegexOfNoneMessage))
                                  else Ok(VersionIn(p, entries[k].version.s))
    decreases |entries|
  {
    if |entries| == 0 then Ok(None)
    else
      var e := entries[0];
      var rest := FirstVersion(name, entries[1..], p);
      assert forall k :: 1 <= k < |entries| ==> entries[k] == entries[1..][k - 1];
      if Decisive(e, name, p) then
        if e.version.NullVersion? then Err(TypeError(RegexOfNoneMessage)) else Ok(VersionIn(p, e.version.s))
      else
        rest
  }

  /** `get_lwd_version(name, entries)`: the first `vX.Y` of the tool's entry, as `X.Y`. */
  function GetLwdVersion(name: string, entries: seq<ToolEntry>): Result<Option<string>> {
    FirstVersion(name, entries, LwdPattern)
  }

  /** `get_mwd_version(name, entries)`: the major number of the tool's entry, with `"0"` appended. */
  function GetMwdVersion(name: string, entries: seq<ToolEntry>): Result<Option<string>> {
    FirstVersion(name, entries, MwdPattern)
  }

  /** The version helpers on the entries of the test suite. */
  lemma LwdVersionExample()
    ensures GetLwdVersion("ECO", [ToolEntry(Some("ECO"), VersionText("v7.1"))]) == Ok(Some("7.1"))
  {
    LwdVersionRoundTrip("7", "1");
    assert "v" + "7" + "." + "1" == "v7.1";
    assert "7" + "." + "1" == "7.1";
  }

  lemma MwdVersionExample()
    ensures GetMwdVersion("IMP", [ToolEntry(Some("IMP"), VersionText("v 16.0"))]) == Ok(Some("160"))
  {
    assert ['v'] + " " + "16" + ".0" == "v 16.0";
    assert "16" + "0" == "160";
    assert VersionIn(MwdPattern, "v 16.0") == Some("160") by {
      MwdVersionRoundTrip('v', " ", "16", ".0");
    }
  }

  /** A tool that no entry names has no version from the entries. */
  lemma UnnamedToolHasNoVersion(name: string, entries: seq<ToolEntry>, p: Pattern)
    requires forall k :: 0 <= k < |entries| ==> entries[k].name != Some(name)
    ensures FirstVersion(name, entries, p) == Ok(None)
  {}

  // ---------------------------------------------------------------------------
  // get_size

  /** `get_size(section_size)`: the LWD collar size for a hole section, in inches. */
  function GetSize(sectionSize: real): (r: string)
    ensures r in ["4.75", "6.75", "8.25", "9.0"]
  {
    if sectionSize <= 7.5 then "4.75"
    else if 7.5 < sectionSize <= 10.0 then "6.75"
    else if 10.0 < sectionSize <= 15.0 then "8.25"
    else "9.0"
  }

  /** The rank of a collar size among the four. */
  function SizeRank(size: string): nat {
    if size == "4.75" then 0 else if size == "6.75" then 1 else if size == "8.25" then 2 else 3
  }

  /** A larger hole never gets a smaller collar, and the bucket edges belong to the lower bucket. */
  lemma GetSizeMonotone(x: real, y: real)
    requires x <= y
    ensures SizeRank(GetSize(x)) <= SizeRank(GetSize(y))
    ensures GetSize(7.5) == "4.75" && GetSize(10.0) == "6.75" && GetSize(15.0) == "8.25"
  {}

  lemma GetSizeExamples()
    ensures GetSize(7.0) == "4.75" && GetSize(8.0) == "6.75" && GetSize(12.0) == "8.25" && GetSize(16.0) == "9.0"
  {}

  // ---------------------------------------------------------------------------
  // get_tools_list

  /** `str(v)` of an optional text: `None` prints as `"None"`. */
  function StrOf(v: Option<string>): string {
    match v
    case Some(s) => s
    case None => "None"
  }

  /** The MWD version rule: a DVDXT telemetry tool reported as version 8 is version 10. */
  function MwdVersionOf(toolId: string, reported: string): string {
    if toolId == "DVDXTTOOL" && reported == "80" then "100" else reported
  }

  /**
   * The body of the resolution loop for one tool: an MWD tool takes its
   * version from the entries or, failing that, the catalog's greatest version
   * printed with `str()`; an LWD tool takes its version from the entries and
   * its size from the hole section.
   */
  function ResolveTool(cat: Catalog, t: Tool, entries: seq<ToolEntry>, sectionSize: real): (r: Result<Tool>)
    ensures r.Ok? ==> ToolKeyOf(r.value) == ToolKeyOf(t)
    ensures r.Ok? ==> r.value.trSpacing == t.trSpacing && r.value.rtBlocksize == t.rtBlocksize
    ensures t.isMwd ==> (r.Err? <==> GetMwdVersion(t.displayName, entries).Err?)
    ensures !t.isMwd ==> (r.Err? <==> GetLwdVersion(t.displayName, entries).Err?)
    ensures r.Err? ==> r.error == TypeError(RegexOfNoneMessage)
    ensures r.Ok? && t.isMwd ==>
              && r.value.size == t.size
              && r.value.version == Some(match GetMwdVersion(t.displayName, entries).value
                                         case Some(v) => MwdVersionOf(t.toolId, v)
                                         case None => StrOf(MaxVersion(cat.versions, t.toolId)))
    ensures r.Ok? && !t.isMwd ==>
              r.value.version == GetLwdVersion(t.displayName, entries).value && r.value.size == Some(GetSize(sectionSize))
  {
    if t.isMwd then
      var reported :- GetMwdVersion(t.displayName, entries);
      match reported
      case Some(v) => Ok(t.(version := Some(MwdVersionOf(t.toolId, v))))
      case None => Ok(t.(version := Some(StrOf(MaxVersion(cat.versions, t.toolId)))))
    else
      var v :- GetLwdVersion(t.displayName, entries);
      Ok(t.(version := v, size := Some(GetSize(sectionSize))))
  }

  function ResolveAll(cat: Catalog, ts: seq<Tool>, entries: seq<ToolEntry>, sectionSize: real): (r: Result<seq<Tool>>)
    ensures r.Ok? <==> forall i :: 0 <= i < |ts| ==> ResolveTool(cat, ts[i], entries, sectionSize).Ok?
    ensures r.Err? ==> r.error == TypeError(RegexOfNoneMessage)
    ensures r.Ok? ==> |r.value| == |ts| && forall i :: 0 <= i < |ts| ==> r.value[i] == ResolveTool(cat, ts[i], entries, sectionSize).value
    decreases |ts|
  {
    if |ts| == 0 then Ok([])
    else
      var t :- ResolveTool(cat, ts[0], entries, sectionSize);
      var rest := ResolveAll(cat, ts[1..], entries, sectionSize);
      assert forall i :: 1 <= i < |ts| ==> ts[i] == ts[1..][i - 1];
      if rest.Err? then Err(rest.error) else Ok([t] + rest.value)
  }

  /** `[x.get("NAME") for x in tools_data]`. */
  function EntryNames(entries: seq<ToolEntry>): (r: seq<Option<string>>)
    ensures |r| == |entries|
    ensures forall k :: 0 <= k < |entries| ==> r[k] == entries[k].name
    decreases |entries|
  {
    if |entries| == 0 then [] else [entries[0].name] + EntryNames(entries[1..])
  }

  /**
   * `get_tools_list(tools_data, section_size)`: the catalog's tools for the
   * entries' names, in the order the query yields them, each resolved. The
   * identity of every selected tool is kept; only version and size are set.
   */
  function GetToolsList(cat: Catalog, entries: seq<ToolEntry>, sectionSize: real): (r: Result<seq<Tool>>)
    ensures var sel := SelectTools(cat, EntryNames(entries));
            && (r.Ok? <==> forall i :: 0 <= i < |sel| ==> ResolveTool(cat, sel[i], entries, sectionSize).Ok?)
            && (r.Ok? ==> |r.value| == |sel| && forall i :: 0 <= i < |sel| ==>
                            && ToolKeyOf(r.value[i]) == ToolKeyOf(sel[i])
                            && r.value[i] == ResolveTool(cat, sel[i], entries, sectionSize).value)
    ensures r.Err? ==> r.error == TypeError(RegexOfNoneMessage)
    ensures r.Ok? ==> forall t :: t in r.value ==> Some(t.displayName) in EntryNames(entries)
  {
    var sel := SelectTools(cat, EntryNames(entries));
    var r := ResolveAll(cat, sel, entries, sectionSize);
    forall t | r.Ok? && t in r.value ensures Some(t.displayName) in EntryNames(entries) {
      var i :| 0 <= i < |r.value| && r.value[i] == t;
      assert sel[i] in sel;
    }
    r
  }

  // ---------------------------------------------------------------------------
  // update_ddr_tools

  /** Which DDR role a tool id carries; the first marker found decides. */
  datatype DdrRole = Ddr1 | Ddr2 | Ddr3 | DdrT | NotDdr

  /** A DDR1, DDR2 or DDR3 tool: the ones whose update reads `fsl1`. */
  predicate ReadsFsl1(t: Tool) {
    var role := RoleOf(t.toolId);
    role == Ddr1 || role == Ddr2 || role == Ddr3
  }

  function RoleOf(toolId: string): DdrRole {
    if Text.Contains(toolId, "DDR1") then Ddr1
    else if Text.Contains(toolId, "DDR2") then Ddr2
    else if Text.Contains(toolId, "DDR3") then Ddr3
    else if Text.Contains(toolId, "DDRT") then DdrT
    else NotDdr
  }

  /** `data.get("fsl1", {}).get(key)` for the spacing and block fields. */
  function Fsl1Field(d: Option<FslData>, key: nat): Scalar
    requires key < 6
  {
    match d
    case None => Null
    case Some(f) => [f.r1Space, f.r1Block, f.r2Space, f.r2Block, f.r3Space, f.r3Block][key]
  }

  /** What the loop does to one tool, given the version of the last DDR1 tool seen before it. */
  function DdrUpdated(t: Tool, d: Option<FslData>, lastDdr1: Option<string>): (r: Tool)
    ensures ToolKeyOf(r) == ToolKeyOf(t)
  {
    match RoleOf(t.toolId)
    case Ddr1 => t.(trSpacing := Fsl1Field(d, 0), rtBlocksize := Fsl1Field(d, 1))
    case Ddr2 => t.(trSpacing := Fsl1Field(d, 2), rtBlocksize := Fsl1Field(d, 3))
    case Ddr3 => t.(trSpacing := Fsl1Field(d, 4), rtBlocksize := Fsl1Field(d, 5))
    case DdrT => t.(version := lastDdr1)
    case NotDdr => t
  }

  /** The version a DDRT tool would take after `t`, when `v` was the one before it. */
  function Step(v: Option<string>, t: Tool): Option<string> {
    if RoleOf(t.toolId) == Ddr1 then t.version else v
  }

  /** The version of the last DDR1 tool of `ts`, or `init` when there is none. */
  function LastFrom(init: Option<string>, ts: seq<Tool>): Option<string>
    decreases |ts|
  {
    if |ts| == 0 then init
    else if RoleOf(ts[|ts| - 1].toolId) == Ddr1 then ts[|ts| - 1].version
    else LastFrom(init, ts[..|ts| - 1])
  }

  /** The version of the last DDR1 tool of `ts`; `""` when there is none, as the loop starts. */
  function LastDdr1Version(ts: seq<Tool>): Option<string> {
    LastFrom(Some(""), ts)
  }

  lemma {:induction false} LastFromCons(v: Option<string>, t: Tool, ts: seq<Tool>)
    ensures LastFrom(v, [t] + ts) == LastFrom(Step(v, t), ts)
    decreases |ts|
  {
    var full := [t] + ts;
    if |ts| == 0 {
      assert full[..0] == [];
    } else {
      assert full[|full| - 1] == ts[|ts| - 1];
      assert full[..|full| - 1] == [t] + ts[..|ts| - 1];
      LastFromCons(v, t, ts[..|ts| - 1]);
    }
  }

  /** The loop over `todo`, carrying the last DDR1 version seen. */
  function DdrLoop(todo: seq<Tool>, d: Option<FslData>, v: Option<string>): (r: seq<Tool>)
    ensures |r| == |todo|
    ensures forall i :: 0 <= i < |todo| ==> r[i] == DdrUpdated(todo[i], d, LastFrom(v, todo[..i]))
    decreases |todo|
  {
    if |todo| == 0 then []
    else
      var rest := DdrLoop(todo[1..], d, Step(v, todo[0]));
      DdrLoopStep(todo, d, v, rest);
      [DdrUpdated(todo[0], d, v)] + rest
  }

  lemma {:induction false} DdrLoopStep(todo: seq<Tool>, d: Option<FslData>, v: Option<string>, rest: seq<Tool>)
    requires |todo| > 0 && |rest| == |todo| - 1
    requires forall i :: 0 <= i < |rest| ==> rest[i] == DdrUpdated(todo[1..][i], d, LastFrom(Step(v, todo[0]), todo[1..][..i]))
    ensures forall i :: 0 <= i < |todo| ==>
              ([DdrUpdated(todo[0], d, v)] + rest)[i] == DdrUpdated(todo[i], d, LastFrom(v, todo[..i]))
  {
    var r := [DdrUpdated(todo[0], d, v)] + rest;
    forall i | 0 <= i < |todo| ensures r[i] == DdrUpdated(todo[i], d, LastFrom(v, todo[..i])) {
      if i == 0 {
        assert todo[..0] == [];
      } else {
        DdrLoopStepAt(todo, d, v, rest, i);
      }
    }
  }

  lemma {:induction false} DdrLoopStepAt(todo: seq<Tool>, d: Option<FslData>, v: Option<string>, rest: seq<Tool>, i: nat)
    requires 0 < i < |todo| && |rest| == |todo| - 1
    requires rest[i - 1] == DdrUpdated(todo[1..][i - 1], d, LastFrom(Step(v, todo[0]), todo[1..][..i - 1]))
    ensures ([DdrUpdated(todo[0], d, v)] + rest)[i] == DdrUpdated(todo[i], d, LastFrom(v, todo[..i]))
  {
    assert ([DdrUpdated(todo[0], d, v)] + rest)[i] == rest[i - 1];
    assert todo[1..][i - 1] == todo[i];
    assert todo[..i] == [todo[0]] + todo[1..][..i - 1];
    LastFromCons(v, todo[0], todo[1..][..i - 1]);
  }

  /**
   * `update_ddr_tools(tools, data)`: DDR1..DDR3 tools take their spacing and
   * block size from `fsl1`; a DDRT tool takes the version of the last DDR1
   * tool before it. A null `fsl1` fails at the first DDR1..DDR3 tool.
   */
  function UpdateDdrTools(tools: seq<Tool>, fsl1: Slot): (r: Result<seq<Tool>>)
    ensures r.Err? <==> fsl1.NullSlot? && exists k :: 0 <= k < |tools| && ReadsFsl1(tools[k])
    ensures r.Err? ==> r.error == AttributeError(NoneGetMessage)
    ensures r.Ok? ==> |r.value| == |tools|
    ensures r.Ok? ==> forall i :: 0 <= i < |tools| ==>
              r.value[i] == DdrUpdated(tools[i], SlotFields(fsl1), LastDdr1Version(tools[..i]))
    ensures r.Ok? ==> forall i :: 0 <= i < |tools| ==> ToolKeyOf(r.value[i]) == ToolKeyOf(tools[i])
  {
    if fsl1.NullSlot? && exists k :: 0 <= k < |tools| && ReadsFsl1(tools[k]) then
      Err(AttributeError(NoneGetMessage))
    else
      Ok(DdrLoop(tools, SlotFields(fsl1), Some("")))
  }
}

/**
 * The frame request as the FBW run document: an element tree with a `Run`
 * root, the bottom-hole assembly, one frame-set list per shown frameset, the
 * DDS, utility, on-demand and MODF frames, and the QC element. The tree is
 * modelled as elements with attribute maps; the byte serialisation is not.
 */
module Export {
  import opened Wrappers
  import Text
  import opened Models
  import VersionMap
  import Assembly

  /** An XML element: tag, attributes, text and child elements. */
  datatype Element = Element(tag: string, attrs: map<string, string>, text: Option<string>, children: seq<Element>)

  /**
   * What the export reads from outside the request: today's date, the current
   * time and the host name, already formatted, and Python's `str` of a float.
   */
  datatype Env = Env(date: string, now: string, host: string, realText: real -> string)

  const CannotSerializeNone: string := "cannot serialize None (type NoneType)"
  const SpTool: string := "SPTOOL"
  const Checked: string := "Checked"
  const Empty: string := "Empty"

  /** The element has attribute `k` with value `v`. */
  predicate Has(m: map<string, string>, k: string, v: string) {
    k in m && m[k] == v
  }

  /** `str(v)` of an optional text. */
  function OptText(v: Option<string>): string {
    if v.Some? then v.value else "None"
  }

  /** `str(v)` of an optional number. */
  function OptReal(env: Env, v: Option<real>): string {
    if v.Some? then env.realText(v.value) else "None"
  }

  /** `str(v)` of a request scalar. */
  function ScalarText(env: Env, v: Scalar): string {
    match v
    case Number(x) => env.realText(x)
    case Str(s) => s
    case Null => "None"
  }

  /** `f"{job_number}_{well_name}_{section_size}_{date}"`: the run name and every frame's notes. */
  function RunNotes(req: FrameRequest, env: Env): string {
    OptText(req.jobNumber) + "_" + OptText(req.wellName) + "_" + OptText(req.sectionSize) + "_" + env.date
  }

  // ---------------------------------------------------------------------------
  // Frames

  function PointElement(p: DPoint): Element {
    Element("DataPoint", map["ID" := Text.IntToString(p.datpid)], None, [])
  }

  /**
   * A frame element: one `DataPoint` per point, in order, whose `ID` reads
   * back as the point's datpid; a frame without points holds a single space.
   */
  function Frame(tag: string, attrs: map<string, string>, ps: seq<DPoint>): (e: Element)
    ensures e.tag == tag && e.attrs == attrs
    ensures e.text == if |ps| == 0 then Some(" ") else None
    ensures |e.children| == |ps|
    ensures forall k :: 0 <= k < |ps| ==>
              && e.children[k].tag == "DataPoint" && "ID" in e.children[k].attrs
              && Text.ParseInt(e.children[k].attrs["ID"]) == Ok(ps[k].datpid)
  {
    var children := seq(|ps|, k requires 0 <= k < |ps| => PointElement(ps[k]));
    forall k | 0 <= k < |ps| ensures Text.ParseInt(children[k].attrs["ID"]) == Ok(ps[k].datpid) {
      Text.ParseIntRoundTrip(ps[k].datpid);
    }
    Element(tag, attrs, if |ps| == 0 then Some(" ") else None, children)
  }

  /** Frames whose points differ in datpid at some position are different elements: the IDs keep the datpids apart. */
  lemma FramesDistinguishPoints(tag: string, attrs: map<string, string>, a: seq<DPoint>, b: seq<DPoint>, k: nat)
    requires k < |a| && k < |b| && a[k].datpid != b[k].datpid
    ensures Frame(tag, attrs, a) != Frame(tag, attrs, b)
  {
    var ea := Frame(tag, attrs, a);
    var eb := Frame(tag, attrs, b);
    assert Text.ParseInt(ea.children[k].attrs["ID"]) != Text.ParseInt(eb.children[k].attrs["ID"]);
  }

  /** The attributes the DDS, utility, ODF and MODF frames share: the first frameset's rates and the run notes. */
  function FrameAttrs(req: FrameRequest, env: Env, description: string, status: string): map<string, string>
    requires req.WellFormed()
  {
    map["Description" := description, "BitRate" := OptReal(env, req.fsls[0].bitrate),
        "ROP" := OptReal(env, req.fsls[0].rop), "Notes" := RunNotes(req, env), "CheckStatus" := status]
  }

  /** `Checked` exactly when all three frames of the frameset hold points. */
  function CheckStatus(fs: Fsl): (r: string)
    ensures r == Checked <==> |fs.mtf| > 0 && |fs.gtf| > 0 && |fs.rotary| > 0
    ensures r == Checked || r == Empty
  {
    if |fs.mtf| > 0 && |fs.gtf| > 0 && |fs.rotary| > 0 then Checked else Empty
  }

  /** The `FrameSetList` of the frameset at position `i`, whose notes are present. */
  function FslElement(i: nat, fs: Fsl, env: Env): (e: Element)
    requires fs.description.Some?
    ensures e.tag == "FrameSetList"
    ensures Has(e.attrs, "Description", "FSL-" + Text.IntToString(i + 1))
    ensures Has(e.attrs, "Notes", fs.description.value)
    ensures Has(e.attrs, "CheckStatus", CheckStatus(fs))
    ensures Has(e.attrs, "BitRate", OptReal(env, fs.bitrate)) && Has(e.attrs, "ROP", OptReal(env, fs.rop))
    ensures e.children == [Frame("MagneticToolFaceFrame", map[], fs.mtf),
                           Frame("GravityToolFaceFrame", map[], fs.gtf),
                           Frame("RotatingFrame", map[], fs.rotary)]
  {
    var attrs := map["Description" := "FSL-" + Text.IntToString(i + 1), "BitRate" := OptReal(env, fs.bitrate),
                     "ROP" := OptReal(env, fs.rop), "Notes" := fs.description.value, "CheckStatus" := CheckStatus(fs)];
    Element("FrameSetList", attrs, None,
            [Frame("MagneticToolFaceFrame", map[], fs.mtf),
             Frame("GravityToolFaceFrame", map[], fs.gtf),
             Frame("RotatingFrame", map[], fs.rotary)])
  }

  // ---------------------------------------------------------------------------
  // Tools

  const SettingKeys: set<string> := {"Name", "Version", "Size", "TRSpacing"}
  const BlockKeys: set<string> := {"RTBlockSize", "RTBlockSize_A", "RTBlockSize_B", "RTBlockSize_C"}
  const DataCompKeys: set<string> := {"DataComp", "DataComp_A", "DataComp_B", "DataComp_C"}
  const CompDisKeys: set<string> := {"CompDis", "CompDis_A", "CompDis_B", "CompDis_C"}

  /** The tool's id and each of its settings that is truthy. */
  function SettingAttrs(env: Env, t: Tool): (m: map<string, string>)
    ensures Has(m, "Name", t.toolId)
    ensures ("Version" in m <==> t.version.Some? && t.version.value != "") && ("Version" in m ==> m["Version"] == t.version.value)
    ensures ("Size" in m <==> t.size.Some? && t.size.value != "") && ("Size" in m ==> m["Size"] == t.size.value)
    ensures ("TRSpacing" in m <==> Truthy(t.trSpacing)) && ("TRSpacing" in m ==> m["TRSpacing"] == ScalarText(env, t.trSpacing))
    ensures m.Keys <= SettingKeys
  {
    var m0 := map["Name" := t.toolId];
    var m1 := if t.version.Some? && t.version.value != "" then m0["Version" := t.version.value] else m0;
    var m2 := if t.size.Some? && t.size.value != "" then m1["Size" := t.size.value] else m1;
    if Truthy(t.trSpacing) then m2["TRSpacing" := ScalarText(env, t.trSpacing)] else m2
  }

  /** The block-size settings of a tool with a truthy block size: the size four times, compression off. */
  function BlockAttrs(m: map<string, string>, size: string): (r: map<string, string>)
    requires m.Keys <= SettingKeys
    ensures forall k :: k in BlockKeys ==> Has(r, k, size)
    ensures forall k :: k in DataCompKeys ==> Has(r, k, "false")
    ensures forall k :: k in CompDisKeys ==> Has(r, k, "0")
    ensures forall k :: k in m ==> Has(r, k, m[k])
    ensures r.Keys == m.Keys + BlockKeys + DataCompKeys + CompDisKeys
  {
    KeysApart();
    var blocks := map k | k in BlockKeys :: size;
    var comp := map k | k in DataCompKeys :: "false";
    var dis := map k | k in CompDisKeys :: "0";
    m + blocks + comp + dis
  }

  /** The tool settings and the block-size settings use different attribute names. */
  lemma KeysApart()
    ensures SettingKeys !! BlockKeys + DataCompKeys + CompDisKeys
    ensures BlockKeys !! DataCompKeys + CompDisKeys && DataCompKeys !! CompDisKeys
  {
    forall k | k in SettingKeys ensures k[0] in {'N', 'V', 'S', 'T'} { }
    forall k | k in BlockKeys ensures k[0] == 'R' { }
    forall k | k in DataCompKeys ensures k[..5] == "DataC" { }
    forall k | k in CompDisKeys ensures k[..5] == "CompD" { }
  }

  /** A tool of the bottom-hole assembly: its id, each setting only when it is truthy, and the block settings with a truthy block size. */
  function ToolElement(env: Env, t: Tool): (e: Element)
    ensures e.tag == "Tool" && e.children == []
    ensures Has(e.attrs, "Name", t.toolId)
    ensures ("Version" in e.attrs <==> t.version.Some? && t.version.value != "")
            && ("Version" in e.attrs ==> e.attrs["Version"] == t.version.value)
    ensures ("Size" in e.attrs <==> t.size.Some? && t.size.value != "")
            && ("Size" in e.attrs ==> e.attrs["Size"] == t.size.value)
    ensures ("TRSpacing" in e.attrs <==> Truthy(t.trSpacing))
            && ("TRSpacing" in e.attrs ==> e.attrs["TRSpacing"] == ScalarText(env, t.trSpacing))
    ensures Truthy(t.rtBlocksize) ==> forall k :: k in BlockKeys ==> Has(e.attrs, k, ScalarText(env, t.rtBlocksize))
    ensures Truthy(t.rtBlocksize) ==> forall k :: k in DataCompKeys ==> Has(e.attrs, k, "false")
    ensures Truthy(t.rtBlocksize) ==> forall k :: k in CompDisKeys ==> Has(e.attrs, k, "0")
    ensures !Truthy(t.rtBlocksize) ==> e.attrs.Keys <= SettingKeys
  {
    var m := SettingAttrs(env, t);
    KeysApart();
    Element("Tool", if Truthy(t.rtBlocksize) then BlockAttrs(m, ScalarText(env, t.rtBlocksize)) else m, None, [])
  }

  function BhaElement(env: Env, tools: seq<Tool>): (e: Element)
    ensures e.tag == "BottomHoleAssembly" && |e.children| == |tools|
    ensures forall k :: 0 <= k < |tools| ==> e.children[k] == ToolElement(env, tools[k])
  {
    Element("BottomHoleAssembly", map[], None, seq(|tools|, k requires 0 <= k < |tools| => ToolElement(env, tools[k])))
  }

  // ---------------------------------------------------------------------------
  // The run

  /** How many framesets the run shows: three for a DVDXT tool, one for an SP tool, six otherwise. */
  function ShownCount(toolId: string): (n: nat)
    ensures n == 1 || n == 3 || n == 6
    ensures toolId == SpTool <==> n == 1
    ensures toolId == Assembly.DvdxtTool <==> n == 3
  {
    if toolId == SpTool then 1 else if toolId == Assembly.DvdxtTool then 3 else 6
  }

  /** The first tool of the request whose display name is `ARC6` or `ECO`. */
  function LwdIndex(tools: seq<Tool>): (r: Option<nat>)
    ensures r.None? <==> forall k :: 0 <= k < |tools| ==> tools[k].displayName != "ARC6" && tools[k].displayName != "ECO"
    ensures r.Some? ==> && r.value < |tools| && (tools[r.value].displayName == "ARC6" || tools[r.value].displayName == "ECO")
                        && forall k :: 0 <= k < r.value ==> tools[k].displayName != "ARC6" && tools[k].displayName != "ECO"
    decreases |tools|
  {
    if |tools| == 0 then None
    else if tools[0].displayName == "ARC6" || tools[0].displayName == "ECO" then Some(0)
    else
      var rest := LwdIndex(tools[1..]);
      assert forall k :: 1 <= k < |tools| ==> tools[k] == tools[1..][k - 1];
      if rest.None? then None else Some(rest.value + 1)
  }

  predicate HasEco(tools: seq<Tool>) {
    exists k :: 0 <= k < |tools| && tools[k].displayName == "ECO"
  }

  /** The name of the MODF at position `i`: named after ECO when the request has an ECO tool, else after ARC6. */
  function ModfName(tools: seq<Tool>, i: nat): string {
    (if HasEco(tools) then "ECO APPO2 MODF" else "ARC6 APPO MODF") + Text.IntToString(i + 1)
  }

  function ModfSetElement(req: FrameRequest, env: Env, ltb: int): (e: Element)
    requires req.WellFormed()
    ensures e.tag == "MODFSet" && Has(e.attrs, "LWDLTBID", Text.IntToString(ltb))
    ensures |e.children| == |req.modfFrame|
    ensures forall i :: 0 <= i < |req.modfFrame| ==>
              e.children[i] == Frame("MODF", FrameAttrs(req, env, "", Checked) - {"Description"} + map["Name" := ModfName(req.tools, i)], req.modfFrame[i])
  {
    var sets := seq(|req.modfFrame|, i requires 0 <= i < |req.modfFrame| =>
      Frame("MODF", FrameAttrs(req, env, "", Checked) - {"Description"} + map["Name" := ModfName(req.tools, i)], req.modfFrame[i]));
    Element("MODFSet", map["SubName" := "MODFSet 1", "LWDLTBID" := Text.IntToString(ltb), "LockLevel" := "Unlocked"], None, sets)
  }

  /** `QC_ELEMENT_MAPPER.get(hspm_version, default)`. */
  function QcOf(hspm: Option<string>): (r: string)
    ensures hspm.Some? && hspm.value in VersionMap.QcElementMapper ==> r == VersionMap.QcElementMapper[hspm.value]
    ensures !(hspm.Some? && hspm.value in VersionMap.QcElementMapper) ==> r == VersionMap.QcDefault
  {
    if hspm.Some? then VersionMap.QcVersion(hspm.value) else VersionMap.QcDefault
  }

  function QcElement(req: FrameRequest, env: Env): Element {
    Element("QCElement", map["HSPMVersion" := QcOf(req.hspmVersion), "FileDateTime" := env.now,
                             "LocationSpecificRules" := "", "QCCheck" := "NoErrorOrWarning"], None, [])
  }

  function RunAttrs(req: FrameRequest, env: Env, mwd: Tool): map<string, string> {
    map["Name" := RunNotes(req, env), "TelemetryTool" := mwd.toolId, "Version" := OptText(mwd.version),
        "UnitSystem" := "ENGLISH", "UserMode" := "FIELD", "FileDate" := env.now, "LastEditComputer" := env.host,
        "NumberOfFSLToBeDisplayed" := "6", "FileFormatVersion" := "3.0"]
  }

  /** Some element of `es` carries `tag`. */
  predicate HasTag(es: seq<Element>, tag: string) {
    exists c :: c in es && c.tag == tag
  }

  /** A proof step for `RunLayout`, checked apart from its larger context. */
  lemma RunNamesTool(req: FrameRequest, env: Env, mwd: Tool)
    ensures Has(RunAttrs(req, env, mwd), "TelemetryTool", mwd.toolId)
  {
  }

  /** Whether any shown frameset lacks notes, which the serialiser refuses. */
  predicate NotesMissing(req: FrameRequest, n: nat)
    requires req.WellFormed() && n <= 6
  {
    exists i :: 0 <= i < n && req.fsls[i].description.None?
  }

  function FslElements(req: FrameRequest, env: Env, n: nat): (r: seq<Element>)
    requires req.WellFormed() && n <= 6 && !NotesMissing(req, n)
    ensures |r| == n && forall i :: 0 <= i < n ==> r[i] == FslElement(i, req.fsls[i], env)
  {
    seq(n, i requires 0 <= i < n => FslElement(i, req.fsls[i], env))
  }

  /** The DDS frame, shown only when it holds points. */
  function DdsPart(req: FrameRequest, env: Env): (r: seq<Element>)
    requires req.WellFormed()
    ensures |r| == if |req.ddsFrame| > 0 then 1 else 0
    ensures |r| == 1 ==> r[0] == Frame("DDSFrame", FrameAttrs(req, env, "DDS Frame", Checked), req.ddsFrame)
  {
    if |req.ddsFrame| > 0 then [Frame("DDSFrame", FrameAttrs(req, env, "DDS Frame", Checked), req.ddsFrame)] else []
  }

  function UtilityElement(req: FrameRequest, env: Env): Element
    requires req.WellFormed()
  {
    Frame("UtilityFrame", FrameAttrs(req, env, "Utility Frame", Checked), req.utility.utility)
  }

  /** The on-demand frame, present for every MWD tool but the SP tool, `Empty` when it holds no points. */
  function OdfPart(req: FrameRequest, env: Env, mwd: Tool): (r: seq<Element>)
    requires req.WellFormed()
    ensures |r| == if mwd.toolId == SpTool then 0 else 1
    ensures |r| == 1 ==> r[0].tag == "OnDemandFrame"
                         && Has(r[0].attrs, "CheckStatus", if |req.odfFrame| > 0 then Checked else Empty)
                         && r[0] == Frame("OnDemandFrame", r[0].attrs, req.odfFrame)
  {
    if mwd.toolId == SpTool then []
    else [Frame("OnDemandFrame", FrameAttrs(req, env, "ODF", if |req.odfFrame| > 0 then Checked else Empty), req.odfFrame)]
  }

  /** The MODF set: only when there are MODF frames and the MWD tool is not the SP tool; it needs an ARC6 or ECO tool. */
  function ModfPart(req: FrameRequest, env: Env, mwd: Tool): (r: Result<seq<Element>>)
    requires req.WellFormed()
    ensures r.Err? <==> mwd.toolId != SpTool && |req.modfFrame| > 0 && LwdIndex(req.tools).None?
    ensures r.Err? ==> r.error == StopIteration
    ensures r.Ok? ==> |r.value| == if mwd.toolId != SpTool && |req.modfFrame| > 0 then 1 else 0
    ensures r.Ok? && |r.value| == 1 ==> r.value[0] == ModfSetElement(req, env, req.tools[LwdIndex(req.tools).value].ltbAddr)
  {
    if mwd.toolId == SpTool || |req.modfFrame| == 0 then Ok([])
    else
      match LwdIndex(req.tools)
      case None => Err(StopIteration)
      case Some(k) => Ok([ModfSetElement(req, env, req.tools[k].ltbAddr)])
  }

  const CustomRuleFile: Element := Element("CustomRuleFile", map["Name" := "CustomRuleFile"], None, [])

  /** The run's children before the DDS frame: the assembly, then the shown frame-set lists. */
  function Head(req: FrameRequest, env: Env, n: nat): (r: seq<Element>)
    requires req.WellFormed() && n <= 6 && !NotesMissing(req, n)
    ensures |r| == 1 + n && r[0] == BhaElement(env, req.tools)
    ensures forall i :: 0 <= i < n ==> r[1 + i] == FslElement(i, req.fsls[i], env)
  {
    [BhaElement(env, req.tools)] + FslElements(req, env, n)
  }

  /** The run's children from the utility frame on: utility, on-demand frame, MODF set, custom rule file, QC element. */
  function Tail(req: FrameRequest, env: Env, mwd: Tool, modf: seq<Element>): (r: seq<Element>)
    requires req.WellFormed()
    ensures var o := |OdfPart(req, env, mwd)|;
            && |r| == 3 + o + |modf|
            && r[0] == UtilityElement(req, env)
            && r[1..1 + o] == OdfPart(req, env, mwd)
            && r[1 + o..|r| - 2] == modf
            && r[|r| - 2] == CustomRuleFile
            && r[|r| - 1] == QcElement(req, env)
  {
    var odf := OdfPart(req, env, mwd);
    var r := [UtilityElement(req, env)] + odf + modf + [CustomRuleFile, QcElement(req, env)];
    assert r[1..1 + |odf|] == odf;
    assert r[1 + |odf|..|r| - 2] == modf;
    r
  }

  /** The run's children: head, DDS frame, tail, in that order. */
  function Children(req: FrameRequest, env: Env, mwd: Tool, modf: seq<Element>): (r: seq<Element>)
    requires req.WellFormed() && !NotesMissing(req, ShownCount(mwd.toolId))
    ensures var n := ShownCount(mwd.toolId);
            var d := |DdsPart(req, env)|;
            && |r| == 1 + n + d + |Tail(req, env, mwd, modf)|
            && r[..1 + n] == Head(req, env, n)
            && r[1 + n..1 + n + d] == DdsPart(req, env)
            && r[1 + n + d..] == Tail(req, env, mwd, modf)
  {
    var head := Head(req, env, ShownCount(mwd.toolId));
    var dds := DdsPart(req, env);
    var r := head + dds + Tail(req, env, mwd, modf);
    assert r[..|head|] == head;
    assert r[|head|..|head| + |dds|] == dds;
    assert r[|head| + |dds|..] == Tail(req, env, mwd, modf);
    r
  }

  /**
   * `convert_to_xml(frame_request)`. The run is named after the job, well,
   * section and date and records the first MWD tool; its children are laid
   * out by `Children`. No MWD tool, or MODF frames without an ARC6 or ECO
   * tool, stop the export; a shown frameset without notes fails its
   * serialisation.
   */
  function ConvertToXml(req: FrameRequest, env: Env): (r: Result<Element>)
    requires req.WellFormed()
    ensures Assembly.FirstMwd(req.tools).None? ==> r == Err(StopIteration)
    ensures Assembly.FirstMwd(req.tools).Some? ==>
              var mwd := req.tools[Assembly.FirstMwd(req.tools).value];
              var modf := ModfPart(req, env, mwd);
              && (modf.Err? ==> r == Err(StopIteration))
              && (modf.Ok? && NotesMissing(req, ShownCount(mwd.toolId)) ==> r == Err(TypeError(CannotSerializeNone)))
              && (modf.Ok? && !NotesMissing(req, ShownCount(mwd.toolId)) ==>
                    r == Ok(Element("Run", RunAttrs(req, env, mwd), None, Children(req, env, mwd, modf.value))))
  {
    match Assembly.FirstMwd(req.tools)
    case None => Err(StopIteration)
    case Some(k) =>
      var mwd := req.tools[k];
      var modf :- ModfPart(req, env, mwd);
      if NotesMissing(req, ShownCount(mwd.toolId)) then Err(TypeError(CannotSerializeNone))
      else Ok(Element("Run", RunAttrs(req, env, mwd), None, Children(req, env, mwd, modf)))
  }

  /** The assembly and the frame-set lists. */
  lemma HeadTag(req: FrameRequest, env: Env, n: nat, c: Element)
    requires req.WellFormed() && n <= 6 && !NotesMissing(req, n)
    requires c in Head(req, env, n)
    ensures c.tag == "BottomHoleAssembly" || c.tag == "FrameSetList"
  {
    var h := Head(req, env, n);
    var i :| 0 <= i < |h| && h[i] == c;
    if i > 0 {
      assert c == FslElement(i - 1, req.fsls[i - 1], env);
    }
  }

  /** Past the DDS frame, only the on-demand frame is tagged `OnDemandFrame` and only MODF sets `MODFSet`. */
  lemma TailTag(req: FrameRequest, env: Env, mwd: Tool, modf: seq<Element>, c: Element)
    requires req.WellFormed()
    requires forall e :: e in modf ==> e.tag == "MODFSet"
    requires c in Tail(req, env, mwd, modf)
    ensures c.tag == "OnDemandFrame" ==> c in OdfPart(req, env, mwd)
    ensures c.tag == "MODFSet" ==> c in modf
  {
    var t := Tail(req, env, mwd, modf);
    var o := |OdfPart(req, env, mwd)|;
    assert t == [t[0]] + t[1..1 + o] + t[1 + o..|t| - 2] + [t[|t| - 2], t[|t| - 1]];
  }

  /** Only the on-demand frame is tagged `OnDemandFrame`, and only MODF sets `MODFSet`. */
  lemma ChildTag(req: FrameRequest, env: Env, mwd: Tool, modf: seq<Element>, c: Element)
    requires req.WellFormed() && !NotesMissing(req, ShownCount(mwd.toolId))
    requires forall e :: e in modf ==> e.tag == "MODFSet"
    requires c in Children(req, env, mwd, modf)
    ensures c.tag == "OnDemandFrame" ==> c in OdfPart(req, env, mwd)
    ensures c.tag == "MODFSet" ==> c in modf
  {
    var n := ShownCount(mwd.toolId);
    var r := Children(req, env, mwd, modf);
    var d := |DdsPart(req, env)|;
    assert r == r[..1 + n] + r[1 + n..1 + n + d] + r[1 + n + d..];
    if c in r[..1 + n] {
      HeadTag(req, env, n, c);
    } else if c in r[1 + n + d..] {
      TailTag(req, env, mwd, modf, c);
    }
  }

  /** The MODF set elements of a successful export. */
  lemma ModfTags(req: FrameRequest, env: Env, mwd: Tool)
    requires req.WellFormed() && ModfPart(req, env, mwd).Ok?
    ensures forall e :: e in ModfPart(req, env, mwd).value ==> e.tag == "MODFSet"
  {
  }

  /** The shown frame-set lists of a run follow its assembly, in order, as `FSL-1`, `FSL-2`, ... with their notes. */
  lemma RunFsls(req: FrameRequest, env: Env, mwd: Tool, modf: seq<Element>)
    requires req.WellFormed() && !NotesMissing(req, ShownCount(mwd.toolId))
    ensures var r := Children(req, env, mwd, modf);
            && |r| > ShownCount(mwd.toolId)
            && forall i :: 0 <= i < ShownCount(mwd.toolId) ==>
                 && req.fsls[i].description.Some?
                 && r[1 + i].tag == "FrameSetList"
                 && Has(r[1 + i].attrs, "Description", "FSL-" + Text.IntToString(i + 1))
                 && Has(r[1 + i].attrs, "Notes", req.fsls[i].description.value)
  {
    var r := Children(req, env, mwd, modf);
    var n := ShownCount(mwd.toolId);
    forall i | 0 <= i < n ensures r[1 + i] == FslElement(i, req.fsls[i], env) {
      assert r[1 + i] == r[..1 + n][1 + i];
    }
  }

  /** Right after the frame-set lists comes the DDS frame when it holds points, else the utility frame; the QC element is last. */
  lemma RunBounds(req: FrameRequest, env: Env, mwd: Tool, modf: seq<Element>)
    requires req.WellFormed() && !NotesMissing(req, ShownCount(mwd.toolId))
    ensures var r := Children(req, env, mwd, modf);
            var n := ShownCount(mwd.toolId);
            && |r| > 1 + n
            && r[1 + n].tag == (if |req.ddsFrame| > 0 then "DDSFrame" else "UtilityFrame")
            && r[|r| - 1] == QcElement(req, env)
  {
    var r := Children(req, env, mwd, modf);
    var n := ShownCount(mwd.toolId);
    var d := |DdsPart(req, env)|;
    var t := Tail(req, env, mwd, modf);
    assert r[1 + n] == if d > 0 then r[1 + n..1 + n + d][0] else r[1 + n + d..][0];
    assert r[|r| - 1] == r[1 + n + d..][|t| - 1];
  }

  /** The on-demand frame is there for every MWD tool but the SP tool; the MODF set needs MODF frames too. */
  lemma RunOptionalFrames(req: FrameRequest, env: Env, mwd: Tool, modf: seq<Element>)
    requires req.WellFormed() && !NotesMissing(req, ShownCount(mwd.toolId))
    requires ModfPart(req, env, mwd) == Ok(modf)
    ensures var r := Children(req, env, mwd, modf);
            && (HasTag(r, "OnDemandFrame") <==> mwd.toolId != SpTool)
            && (HasTag(r, "MODFSet") <==> mwd.toolId != SpTool && |req.modfFrame| > 0)
  {
    var r := Children(req, env, mwd, modf);
    var n := ShownCount(mwd.toolId);
    var d := |DdsPart(req, env)|;
    var t := Tail(req, env, mwd, modf);
    var o := |OdfPart(req, env, mwd)|;
    ModfTags(req, env, mwd);
    if mwd.toolId != SpTool {
      assert r[1 + n + d + 1] == t[1..1 + o][0];
    }
    if mwd.toolId != SpTool && |req.modfFrame| > 0 {
      assert r[1 + n + d + 1 + o] == t[1 + o..|t| - 2][0];
    }
    forall c | c in r && (c.tag == "OnDemandFrame" || c.tag == "MODFSet")
      ensures c.tag == "OnDemandFrame" ==> mwd.toolId != SpTool
      ensures c.tag == "MODFSet" ==> mwd.toolId != SpTool && |req.modfFrame| > 0
    {
      ChildTag(req, env, mwd, modf, c);
    }
  }

  /** A successful export is the run over its first MWD tool. */
  lemma RunIs(req: FrameRequest, env: Env)
    requires req.WellFormed() && ConvertToXml(req, env).Ok?
    ensures Assembly.FirstMwd(req.tools).Some?
    ensures var mwd := req.tools[Assembly.FirstMwd(req.tools).value];
            && mwd.isMwd
            && ModfPart(req, env, mwd).Ok?
            && !NotesMissing(req, ShownCount(mwd.toolId))
            && ConvertToXml(req, env).value
               == Element("Run", RunAttrs(req, env, mwd), None, Children(req, env, mwd, ModfPart(req, env, mwd).value))
  {
  }

  /**
   * The exported run against the request: it records the first MWD tool; the
   * shown framesets follow the assembly as `FSL-1`, `FSL-2`, ... with their
   * notes; the DDS frame comes next exactly when it holds points; there is an
   * on-demand frame exactly when the MWD tool is not the SP tool and a MODF
   * set exactly when, in addition, there are MODF frames; the QC element
   * closes the run.
   */
  lemma RunLayout(req: FrameRequest, env: Env)
    requires req.WellFormed() && ConvertToXml(req, env).Ok?
    ensures var run := ConvertToXml(req, env).value;
            var mwd := req.tools[Assembly.FirstMwd(req.tools).value];
            var n := ShownCount(mwd.toolId);
            && mwd.isMwd && Has(run.attrs, "TelemetryTool", mwd.toolId)
            && |run.children| > 1 + n
            && (forall i :: 0 <= i < n ==>
                  && req.fsls[i].description.Some?
                  && run.children[1 + i].tag == "FrameSetList"
                  && Has(run.children[1 + i].attrs, "Description", "FSL-" + Text.IntToString(i + 1))
                  && Has(run.children[1 + i].attrs, "Notes", req.fsls[i].description.value))
            && run.children[1 + n].tag == (if |req.ddsFrame| > 0 then "DDSFrame" else "UtilityFrame")
            && run.children[|run.children| - 1] == QcElement(req, env)
            && (HasTag(run.children, "OnDemandFrame") <==> mwd.toolId != SpTool)
            && (HasTag(run.children, "MODFSet") <==> mwd.toolId != SpTool && |req.modfFrame| > 0)
  {
    var mwd := req.tools[Assembly.FirstMwd(req.tools).value];
    RunIs(req, env);
    var modf := ModfPart(req, env, mwd).value;
    var run := ConvertToXml(req, env).value;
    assert run.attrs == RunAttrs(req, env, mwd) && run.children == Children(req, env, mwd, modf);
    RunNamesTool(req, env, mwd);
    RunFsls(req, env, mwd, modf);
    RunBounds(req, env, mwd, modf);
    RunOptionalFrames(req, env, mwd, modf);
  }
}

/**
 * Building a frame request from a request body and folding the generator's
 * answer back: tools, the six framesets and the utility frame, the MWD-specific
 * frames, and the catalog selection the process keeps between requests.
 */
module Assembly {
  import opened Wrappers
  import Text
  import opened Models
  import opened Catalog
  import opened Request
  import opened Resolver
  import ToolResolver
  import Framesets
  import FrameLibrary
  import Reconcile
  import VersionMap

  const RstripOfNoneMessage: string := "'NoneType' object has no attribute 'rstrip'"
  const MwdMissingMessage: string := "MWD tool is missing in frame request!"
  const LenOfNoneMessage: string := "object of type 'NoneType' has no len()"

  /** Every frameset of a request on this MWD tool may carry up to 333 points. */
  const RosTool: string := "ROSTOOL"
  const RosMaxDpoints: int := 333
  /** A request on this MWD tool builds at most three framesets. */
  const DvdxtTool: string := "DVDXTTOOL"
  const DvdxtMaxFsl: int := 3

  /** The catalog held in a file; a file without the tables answers every query with nothing. */
  function CatalogOf(catalogs: map<string, Catalog>, file: string): Catalog {
    if file in catalogs then catalogs[file] else EmptyCatalog
  }

  /** The catalog file after a request: the one its label maps to, else the one already selected. */
  function NextSelected(selected: string, hspm: Option<string>): (r: string)
    ensures VersionMap.MappedCatalog(hspm).Some? ==> r == VersionMap.MappedCatalog(hspm).value && r in VersionMap.QcElementMapper
    ensures VersionMap.MappedCatalog(hspm).None? ==> r == selected
  {
    match VersionMap.MappedCatalog(hspm)
    case Some(f) => f
    case None => selected
  }

  // ---------------------------------------------------------------------------
  // Tools

  /** `float(section_size.rstrip("in"))`. */
  function SectionSize(s: Option<string>): Result<real> {
    if s.None? then Err(AttributeError(RstripOfNoneMessage))
    else Text.ParseDecimal(Text.RStripChars(s.value, {'i', 'n'}))
  }

  /** Trailing unit letters never change the size read. */
  lemma {:induction false} SectionSizeIgnoresInches(s: string)
    ensures SectionSize(Some(s + "in")) == SectionSize(Some(s))
  {
    StripInches(s);
  }

  lemma StripInches(s: string)
    ensures Text.RStripChars(s + "in", {'i', 'n'}) == Text.RStripChars(s, {'i', 'n'})
  {
    var t := s + "in";
    assert t[|t| - 1] == 'n' && t[..|t| - 1] == s + "i";
    assert (s + "i")[|s|] == 'i' && (s + "i")[..|s|] == s;
  }

  /** The tools of the request before the DDR update: the catalog's tools named in any frameset, resolved. */
  function ResolvedTools(cat: Catalog, data: RequestData): Result<seq<Tool>> {
    var entries :- Framesets.GetFramesetTools(data);
    var size :- SectionSize(data.sectionSize);
    ToolResolver.GetToolsList(cat, entries, size)
  }

  /** `next((tool for tool in tools if tool.is_mwd), None)`, as a position. */
  function FirstMwd(tools: seq<Tool>): (r: Option<nat>)
    ensures r.None? <==> forall j :: 0 <= j < |tools| ==> !tools[j].isMwd
    ensures r.Some? ==> r.value < |tools| && tools[r.value].isMwd && forall j :: 0 <= j < r.value ==> !tools[j].isMwd
    decreases |tools|
  {
    if |tools| == 0 then None
    else if tools[0].isMwd then Some(0)
    else
      var rest := FirstMwd(tools[1..]);
      assert forall j :: 1 <= j < |tools| ==> tools[j] == tools[1..][j - 1];
      if rest.None? then None else Some(rest.value + 1)
  }

  /** Tools with the same identities have their first MWD tool at the same place. */
  lemma {:induction false} FirstMwdByIdentity(a: seq<Tool>, b: seq<Tool>)
    requires |a| == |b| && forall i :: 0 <= i < |a| ==> ToolKeyOf(a[i]) == ToolKeyOf(b[i])
    ensures FirstMwd(a) == FirstMwd(b)
  {
    assert forall i :: 0 <= i < |a| ==> a[i].isMwd == ToolKeyOf(a[i]).isMwd;
    assert forall i :: 0 <= i < |b| ==> b[i].isMwd == ToolKeyOf(b[i]).isMwd;
    var fa := FirstMwd(a);
    var fb := FirstMwd(b);
    if fa.Some? && fb.Some? {
      assert !(fa.value < fb.value) && !(fb.value < fa.value);
    }
  }

  /**
   * The tools stage: the resolved tools must hold an MWD tool; when the
   * request asks for a DDR BHA the DDR tools then take their settings from
   * `fsl1`. Tool identities survive the update.
   */
  function ToolsStage(cat: Catalog, data: RequestData): (r: Result<seq<Tool>>)
    ensures ResolvedTools(cat, data).Err? ==> r == Err(ResolvedTools(cat, data).error)
    ensures ResolvedTools(cat, data).Ok? && FirstMwd(ResolvedTools(cat, data).value).None? ==>
              r == Err(ValueError(MwdMissingMessage))
    ensures r.Ok? ==> ResolvedTools(cat, data).Ok? && FirstMwd(r.value).Some?
    ensures r.Ok? ==> |r.value| == |ResolvedTools(cat, data).value|
                      && forall i :: 0 <= i < |r.value| ==> ToolKeyOf(r.value[i]) == ToolKeyOf(ResolvedTools(cat, data).value[i])
    ensures r.Ok? && !Truthy(data.ddrBha) ==> r.value == ResolvedTools(cat, data).value
    ensures r.Ok? && Truthy(data.ddrBha) ==> Ok(r.value) == ToolResolver.UpdateDdrTools(ResolvedTools(cat, data).value, SlotAt(data, 0))
  {
    var tools :- ResolvedTools(cat, data);
    if FirstMwd(tools).None? then Err(ValueError(MwdMissingMessage))
    else if Truthy(data.ddrBha) then
      var updated :- ToolResolver.UpdateDdrTools(tools, SlotAt(data, 0));
      FirstMwdByIdentity(tools, updated);
      Ok(updated)
    else Ok(tools)
  }

  // ---------------------------------------------------------------------------
  // The frame request

  /** `get_fsl_data(slot, tools) if slot else FSL()`. */
  function FslOf(cat: Catalog, s: Slot, tools: seq<Tool>): Result<Fsl> {
    if s.Filled? then Framesets.GetFslData(cat, s.d, tools) else Ok(DefaultFsl)
  }

  /** The framesets of the given slots, built in order; the first failure is the request's. */
  function BuildFsls(cat: Catalog, slots: seq<Slot>, tools: seq<Tool>): (r: Result<seq<Fsl>>)
    ensures r.Ok? <==> forall i :: 0 <= i < |slots| ==> FslOf(cat, slots[i], tools).Ok?
    ensures r.Err? ==> exists i :: && 0 <= i < |slots| && FslOf(cat, slots[i], tools).Err?
                                   && r.error == FslOf(cat, slots[i], tools).error
                                   && forall j :: 0 <= j < i ==> FslOf(cat, slots[j], tools).Ok?
    ensures r.Ok? ==> |r.value| == |slots| && forall i :: 0 <= i < |slots| ==> r.value[i] == FslOf(cat, slots[i], tools).value
    decreases |slots|
  {
    if |slots| == 0 then Ok([])
    else
      var head :- FslOf(cat, slots[0], tools);
      var rest := BuildFsls(cat, slots[1..], tools);
      assert forall i :: 1 <= i < |slots| ==> slots[i] == slots[1..][i - 1];
      if rest.Err? then
        var k :| && 0 <= k < |slots[1..]| && FslOf(cat, slots[1..][k], tools).Err?
                 && rest.error == FslOf(cat, slots[1..][k], tools).error
                 && forall j :: 0 <= j < k ==> FslOf(cat, slots[1..][j], tools).Ok?;
        assert FslOf(cat, slots[k + 1], tools).Err?;
        Err(rest.error)
      else
        Ok([head] + rest.value)
  }

  /** An empty or absent slot yields a default frameset; a filled one yields what its data resolves to. */
  lemma EmptySlotsGiveDefaults(cat: Catalog, data: RequestData, tools: seq<Tool>, i: nat)
    requires i < 6 && BuildFsls(cat, Framesets.Slots(data), tools).Ok?
    ensures !SlotAt(data, i).Filled? ==> BuildFsls(cat, Framesets.Slots(data), tools).value[i] == DefaultFsl
    ensures SlotAt(data, i).Filled? ==>
              Framesets.GetFslData(cat, SlotAt(data, i).d, tools) == Ok(BuildFsls(cat, Framesets.Slots(data), tools).value[i])
  {
    assert Framesets.Slots(data)[i] == SlotAt(data, i);
  }

  /** `data.get("fsl1", {})` read for one field: nothing when the slot is absent or empty. */
  function Fsl1Scalar(d: Option<FslData>, f: FslData -> Scalar): Scalar {
    if d.Some? then f(d.value) else Null
  }

  /** The utility frame: the first slot's description and rates, and the catalog points for the utility names. */
  function UtilityOf(cat: Catalog, data: RequestData, tools: seq<Tool>): (r: Result<Utility>)
    ensures SlotAt(data, 0).NullSlot? ==> r == Err(AttributeError(NoneGetMessage))
    ensures r.Ok? ==> Framesets.GetFramesetUtilityDPoints(data).Ok?
                      && GetDPointList(cat, Framesets.GetFramesetUtilityDPoints(data).value, tools, NoUpdates) == Ok(r.value.utility)
    ensures r.Ok? ==> r.value.description == (if SlotAt(data, 0).Filled? then SlotAt(data, 0).d.description else None)
  {
    var fsl1 :- SlotDict(SlotAt(data, 0));
    var names :- Framesets.GetFramesetUtilityDPoints(data);
    var points :- GetDPointList(cat, names, tools, NoUpdates);
    MakeUtility(if fsl1.Some? then fsl1.value.description else None,
                Fsl1Scalar(fsl1, (d: FslData) => d.bitrate), Fsl1Scalar(fsl1, (d: FslData) => d.rop), points)
  }

  /**
   * `FRAME_REQUEST(...)` as the request body fills it: the six framesets, the
   * frameset count, the flags that only the exact text `"true"` sets, the
   * utility frame, the tools and the selected catalog file. No ODF, MODF or
   * DDS frame yet.
   */
  function RequestStage(cat: Catalog, data: RequestData, tools: seq<Tool>, selected: string): (r: Result<FrameRequest>)
    ensures BuildFsls(cat, Framesets.Slots(data), tools).Err? ==> r == Err(BuildFsls(cat, Framesets.Slots(data), tools).error)
    ensures BuildFsls(cat, Framesets.Slots(data), tools).Ok? && PyInt(data.numOfFsl).Err? ==> r == Err(PyInt(data.numOfFsl).error)
    ensures r.Ok? <==> BuildFsls(cat, Framesets.Slots(data), tools).Ok? && PyInt(data.numOfFsl).Ok? && UtilityOf(cat, data, tools).Ok?
    ensures r.Ok? ==> r.value.WellFormed() && r.value.fsls == BuildFsls(cat, Framesets.Slots(data), tools).value
    ensures r.Ok? ==> r.value.numOfFsl == PyInt(data.numOfFsl).value
    ensures r.Ok? ==> && !r.value.odfRequired
                      && (r.value.modfRequired <==> data.modfRequired == Str("true"))
                      && (r.value.provisionBha <==> data.provisionBha == Str("true"))
                      && (r.value.ddrBha <==> data.ddrBha == Str("true"))
    ensures r.Ok? ==> r.value.utility == UtilityOf(cat, data, tools).value
    ensures r.Ok? ==> r.value.tools == tools && r.value.hspmVersion == Some(selected)
    ensures r.Ok? ==> r.value.odfFrame == [] && r.value.modfFrame == [] && r.value.ddsFrame == []
    ensures r.Ok? ==> r.value.uid == data.uid && r.value.sectionSize == data.sectionSize
  {
    var fsls :- BuildFsls(cat, Framesets.Slots(data), tools);
    var num :- PyInt(data.numOfFsl);
    var utility :- UtilityOf(cat, data, tools);
    Ok(FrameRequest(data.uid, data.jobNumber, data.wellName, data.sectionSize, fsls, utility, num,
                    false, FlagTrue(data.modfRequired), FlagTrue(data.provisionBha), FlagTrue(data.ddrBha),
                    Some(selected), tools, [], [], []))
  }

  // ---------------------------------------------------------------------------
  // Frames chosen by the MWD tool and the library

  function CapPoints(fsls: seq<Fsl>): (r: seq<Fsl>)
    ensures |r| == |fsls| && forall i :: 0 <= i < |fsls| ==> r[i] == fsls[i].(maxDpoints := RosMaxDpoints)
  {
    seq(|fsls|, i requires 0 <= i < |fsls| => fsls[i].(maxDpoints := RosMaxDpoints))
  }

  /** The DDS frame of a ROSTOOL request; an MWD version the library does not list has no names to measure. */
  function DdsStage(cat: Catalog, lib: FrameLibrary.Library, req: FrameRequest, mwd: Tool): (r: Result<FrameRequest>)
    ensures mwd.toolId != RosTool ==> r == Ok(req)
    ensures mwd.toolId == RosTool && FrameLibrary.DdsEntry(lib, mwd.version).None? ==> r == Err(TypeError(LenOfNoneMessage))
    ensures r.Ok? && mwd.toolId == RosTool ==>
              && FrameLibrary.DdsEntry(lib, mwd.version).Some?
              && var names := FrameLibrary.DdsEntry(lib, mwd.version).value;
                 && |r.value.ddsFrame| == |names|
                 && (forall i :: 0 <= i < |names| ==> r.value.ddsFrame[i].name == names[i])
                 && r.value == req.(ddsFrame := r.value.ddsFrame, fsls := CapPoints(req.fsls))
  {
    if mwd.toolId != RosTool then Ok(req)
    else
      match FrameLibrary.DdsEntry(lib, mwd.version)
      case None => Err(TypeError(LenOfNoneMessage))
      case Some(names) =>
        var dds :- GetOrderedDPointList(cat, names, req.tools);
        Ok(req.(ddsFrame := dds, fsls := CapPoints(req.fsls)))
  }

  /** The ODF frame: required exactly when the request's tools list any ODF names, and then those names in order. */
  function OdfStage(cat: Catalog, lib: FrameLibrary.Library, req: FrameRequest): (r: Result<FrameRequest>)
    ensures |FrameLibrary.Odf(lib, req.tools)| == 0 ==> r == Ok(req)
    ensures |FrameLibrary.Odf(lib, req.tools)| > 0 ==>
              (r.Ok? <==> forall i :: 0 <= i < |FrameLibrary.Odf(lib, req.tools)| ==>
                            Available(cat, FrameLibrary.Odf(lib, req.tools)[i], Ltbs(req.tools)))
    ensures r.Ok? && |FrameLibrary.Odf(lib, req.tools)| > 0 ==>
              && r.value == req.(odfRequired := true, odfFrame := r.value.odfFrame)
              && |r.value.odfFrame| == |FrameLibrary.Odf(lib, req.tools)|
              && forall i :: 0 <= i < |r.value.odfFrame| ==> r.value.odfFrame[i].name == FrameLibrary.Odf(lib, req.tools)[i]
  {
    var odf := FrameLibrary.Odf(lib, req.tools);
    if |odf| == 0 then Ok(req)
    else
      var frame :- GetOrderedDPointList(cat, odf, req.tools);
      Ok(req.(odfRequired := true, odfFrame := frame))
  }

  /** Each MODF set resolved in order. */
  function OrderedSets(cat: Catalog, sets: seq<seq<string>>, tools: seq<Tool>): (r: Result<seq<seq<DPoint>>>)
    ensures r.Ok? <==> forall k :: 0 <= k < |sets| ==> GetOrderedDPointList(cat, sets[k], tools).Ok?
    ensures r.Err? ==> r.error == StopIteration
    ensures r.Ok? ==> |r.value| == |sets| && forall k :: 0 <= k < |sets| ==> Ok(r.value[k]) == GetOrderedDPointList(cat, sets[k], tools)
  {
    var rs := seq(|sets|, k requires 0 <= k < |sets| => GetOrderedDPointList(cat, sets[k], tools));
    assert forall k :: 0 <= k < |sets| ==> rs[k] == GetOrderedDPointList(cat, sets[k], tools);
    AllOk(rs)
  }

  /** The MODF frame, when required: the sets of the first tool the library lists any for. */
  function ModfStage(cat: Catalog, lib: FrameLibrary.Library, req: FrameRequest): (r: Result<FrameRequest>)
    ensures !req.modfRequired ==> r == Ok(req)
    ensures r.Ok? ==> r.value == req.(modfFrame := r.value.modfFrame)
    ensures r.Ok? && req.modfRequired ==>
              var sets := FrameLibrary.FirstModf(lib, req.tools);
              && |r.value.modfFrame| == |req.modfFrame| + |sets|
              && r.value.modfFrame[..|req.modfFrame|] == req.modfFrame
              && forall k :: 0 <= k < |sets| ==> GetOrderedDPointList(cat, sets[k], req.tools) == Ok(r.value.modfFrame[|req.modfFrame| + k])
  {
    if !req.modfRequired then Ok(req)
    else
      var sets := FrameLibrary.FirstModf(lib, req.tools);
      var frames :- OrderedSets(cat, sets, req.tools);
      Ok(req.(modfFrame := req.modfFrame + frames))
  }

  /** The frames the MWD tool and the library add, and the DVDXT cap on the frameset count. */
  function FramesStage(cat: Catalog, lib: FrameLibrary.Library, req: FrameRequest, mwd: Tool): (r: Result<FrameRequest>)
    ensures r.Ok? ==> |r.value.fsls| == |req.fsls|
    ensures r.Ok? && mwd.toolId == RosTool ==> forall i :: 0 <= i < |req.fsls| ==> r.value.fsls[i] == req.fsls[i].(maxDpoints := RosMaxDpoints)
    ensures r.Ok? && mwd.toolId != RosTool ==> r.value.fsls == req.fsls && r.value.ddsFrame == req.ddsFrame
    ensures r.Ok? && mwd.toolId == DvdxtTool ==> r.value.numOfFsl <= DvdxtMaxFsl
                                                 && (req.numOfFsl <= DvdxtMaxFsl ==> r.value.numOfFsl == req.numOfFsl)
    ensures r.Ok? && mwd.toolId != DvdxtTool ==> r.value.numOfFsl == req.numOfFsl
    ensures r.Ok? ==> (r.value.odfRequired <==> req.odfRequired || |FrameLibrary.Odf(lib, req.tools)| > 0)
    ensures r.Ok? ==> r.value.tools == req.tools && r.value.utility == req.utility && r.value.hspmVersion == req.hspmVersion
  {
    var withDds :- DdsStage(cat, lib, req, mwd);
    var capped := if mwd.toolId == DvdxtTool && withDds.numOfFsl > DvdxtMaxFsl then withDds.(numOfFsl := DvdxtMaxFsl) else withDds;
    var withOdf :- OdfStage(cat, lib, capped);
    ModfStage(cat, lib, withOdf)
  }

  // ---------------------------------------------------------------------------
  // The whole assembly

  /** The assembled request and the status the answer earns. */
  datatype Outcome = Outcome(request: FrameRequest, status: int)

  /** From the tools to the reconciled request, with tools and points read from the given catalogs. */
  function AssembleFrom(toolsCat: Catalog, cat: Catalog, selected: string, lib: FrameLibrary.Library,
                        data: RequestData, packer: FrameRequest -> Reconcile.Packed): (r: Result<Outcome>)
    ensures ToolsStage(toolsCat, data).Err? ==> r == Err(ToolsStage(toolsCat, data).error)
    ensures r.Ok? ==> ToolsStage(toolsCat, data).Ok? && r.value.request.tools == ToolsStage(toolsCat, data).value
    ensures r.Ok? ==> r.value.request.WellFormed() && r.value.request.hspmVersion == Some(selected)
    ensures r.Ok? ==> r.value.status == 200 || r.value.status == 209
  {
    var tools :- ToolsStage(toolsCat, data);
    var mwd := tools[FirstMwd(tools).value];
    var req :- RequestStage(cat, data, tools, selected);
    var framed :- FramesStage(cat, lib, req, mwd);
    var done :- Reconcile.ReconcileAnswer(cat, framed, packer(framed));
    Ok(Outcome(done.0, done.1))
  }

  /**
   * The assembly of one request: the request's label selects the catalog file
   * first, and every lookup of the request, tools included, reads that file.
   * The selection stays for later requests.
   */
  function Assemble(catalogs: map<string, Catalog>, selected: string, lib: FrameLibrary.Library,
                    data: RequestData, packer: FrameRequest -> Reconcile.Packed): (r: (string, Result<Outcome>))
    ensures r.0 == NextSelected(selected, data.hspmVersion)
    ensures r.1.Ok? ==> r.1.value.request.hspmVersion == Some(r.0)
    ensures r.1.Ok? ==> ToolsStage(CatalogOf(catalogs, r.0), data).Ok?
                        && r.1.value.request.tools == ToolsStage(CatalogOf(catalogs, r.0), data).value
    ensures r.1.Ok? ==> r.1.value.request.WellFormed() && (r.1.value.status == 200 || r.1.value.status == 209)
  {
    var next := NextSelected(selected, data.hspmVersion);
    var cat := CatalogOf(catalogs, next);
    (next, AssembleFrom(cat, cat, next, lib, data, packer))
  }

  /**
   * The assembly as written: tools are resolved in the catalog selected by an
   * earlier request, and the label's selection is only taken once the tools
   * stage has passed.
   */
  function AssembleAsWritten(catalogs: map<string, Catalog>, selected: string, lib: FrameLibrary.Library,
                             data: RequestData, packer: FrameRequest -> Reconcile.Packed): (r: (string, Result<Outcome>))
    ensures ToolsStage(CatalogOf(catalogs, selected), data).Err? ==>
              r == (selected, Err(ToolsStage(CatalogOf(catalogs, selected), data).error))
  {
    var tools := ToolsStage(CatalogOf(catalogs, selected), data);
    if tools.Err? then (selected, Err(tools.error))
    else
      var next := NextSelected(selected, data.hspmVersion);
      (next, AssembleFrom(CatalogOf(catalogs, selected), CatalogOf(catalogs, next), next, lib, data, packer))
  }

  /**
   * A request whose tools only the catalog of its own label knows, arriving
   * while another catalog is selected, fails as written for want of an MWD
   * tool, although its own catalog resolves one.
   */
  lemma StaleCatalogLosesMwd(catalogs: map<string, Catalog>, selected: string, lib: FrameLibrary.Library,
                             data: RequestData, packer: FrameRequest -> Reconcile.Packed)
    requires ResolvedTools(CatalogOf(catalogs, selected), data).Ok?
    requires FirstMwd(ResolvedTools(CatalogOf(catalogs, selected), data).value).None?
    requires ResolvedTools(CatalogOf(catalogs, NextSelected(selected, data.hspmVersion)), data).Ok?
    requires FirstMwd(ResolvedTools(CatalogOf(catalogs, NextSelected(selected, data.hspmVersion)), data).value).Some?
    ensures AssembleAsWritten(catalogs, selected, lib, data, packer) == (selected, Err(ValueError(MwdMissingMessage)))
    ensures ToolsStage(CatalogOf(catalogs, NextSelected(selected, data.hspmVersion)), data) != Err(ValueError(MwdMissingMessage))
  {
    var stale := CatalogOf(catalogs, selected);
    assert ToolsStage(stale, data) == Err(ValueError(MwdMissingMessage));
    var own := CatalogOf(catalogs, NextSelected(selected, data.hspmVersion));
    var tools := ResolvedTools(own, data).value;
    if Truthy(data.ddrBha) {
      var updated := ToolResolver.UpdateDdrTools(tools, SlotAt(data, 0));
      assert ToolsStage(own, data) == (if updated.Err? then Err(updated.error) else Ok(updated.value));
    } else {
      assert ToolsStage(own, data) == Ok(tools);
    }
  }
}

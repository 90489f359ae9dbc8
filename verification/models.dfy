/**
 * The records of a frame request: data points, tools, the six framesets,
 * the utility frame and the request itself, with the identity rules the
 * records use for equality and hashing and the type coercions their
 * constructors apply to textual input.
 */
module Models {
  import opened Wrappers
  import Text

  /** A JSON scalar as a request carries it: a number, a string or `null`. */
  datatype Scalar = Number(x: real) | Str(s: string) | Null

  /** Python truthiness of a scalar. */
  predicate Truthy(v: Scalar) {
    match v
    case Number(x) => x != 0.0
    case Str(s) => s != ""
    case Null => false
  }

  /** Python's `int(x)` on a float: truncation toward zero. */
  function Trunc(x: real): (r: int)
    ensures x >= 0.0 ==> r as real <= x < r as real + 1.0
    ensures x < 0.0 ==> r as real - 1.0 < x <= r as real
  {
    if x >= 0.0 then x.Floor else -((-x).Floor)
  }

  const IntOfNoneMessage: string :=
    "int() argument must be a string, a bytes-like object or a real number, not 'NoneType'"
  const FloatOfNoneMessage: string :=
    "float() argument must be a string or a real number, not 'NoneType'"

  /** Python's `int(v)`. */
  function PyInt(v: Scalar): (r: Result<int>)
    ensures v.Null? ==> r == Err(TypeError(IntOfNoneMessage))
    ensures v.Str? ==> r == Text.ParseInt(v.s)
  {
    match v
    case Number(x) => Ok(Trunc(x))
    case Str(s) => Text.ParseInt(s)
    case Null => Err(TypeError(IntOfNoneMessage))
  }

  /** Python's `float(v)`. */
  function PyFloat(v: Scalar): (r: Result<real>)
    ensures v.Null? ==> r.Err?
    ensures v.Number? ==> r == Ok(v.x)
  {
    match v
    case Number(x) => Ok(x)
    case Str(s) => Text.ParseDecimal(s)
    case Null => Err(TypeError(FloatOfNoneMessage))
  }

  /** A column value that a constructor turns into an `int` when it arrives as text. */
  datatype IntField = IntVal(i: int) | IntText(s: string)

  /** `int(s)` for text, the value itself otherwise. */
  function CoerceInt(f: IntField): (r: Result<int>)
    ensures f.IntVal? ==> r == Ok(f.i)
    ensures f.IntText? ==> r == Text.ParseInt(f.s)
  {
    match f
    case IntVal(i) => Ok(i)
    case IntText(s) => Text.ParseInt(s)
  }

  /** `bool(int(s))` for text; the flag's truthiness otherwise. */
  function CoerceBool(f: IntField): (r: Result<bool>)
    ensures f.IntVal? ==> r == Ok(f.i != 0)
    ensures f.IntText? ==> (r.Ok? <==> Text.ParseInt(f.s).Ok?)
    ensures f.IntText? && r.Ok? ==> r.value == (Text.ParseInt(f.s).value != 0)
  {
    match f
    case IntVal(i) => Ok(i != 0)
    case IntText(s) =>
      var n :- Text.ParseInt(s);
      Ok(n != 0)
  }

  // ---------------------------------------------------------------------------
  // DPOINT

  datatype DPoint = DPoint(
    name: string,
    datpid: int,
    length: int,
    isMwd: bool,
    ltbAddr: int,
    description: string,
    time: Option<real>,
    depth: Option<real>)

  /** The identity of a data point: description and the two overrides are not part of it. */
  datatype PointKey = PointKey(name: string, datpid: int, ltbAddr: int, isMwd: bool, length: int)

  function KeyOf(p: DPoint): PointKey {
    PointKey(p.name, p.datpid, p.ltbAddr, p.isMwd, p.length)
  }

  /** Constructs a data point, converting textual id, length, flag and address. */
  function MakeDPoint(
    name: string, datpid: IntField, length: IntField, isMwd: IntField, ltbAddr: IntField,
    description: string): (r: Result<DPoint>)
    ensures r.Ok? <==> CoerceInt(datpid).Ok? && CoerceInt(length).Ok?
                       && CoerceBool(isMwd).Ok? && CoerceInt(ltbAddr).Ok?
    ensures r.Ok? ==> r.value == DPoint(name, CoerceInt(datpid).value, CoerceInt(length).value,
                                        CoerceBool(isMwd).value, CoerceInt(ltbAddr).value,
                                        description, None, None)
    ensures CoerceInt(datpid).Err? ==> r == Err(CoerceInt(datpid).error)
  {
    var d :- CoerceInt(datpid);
    var l :- CoerceInt(length);
    var m :- CoerceBool(isMwd);
    var a :- CoerceInt(ltbAddr);
    Ok(DPoint(name, d, l, m, a, description, None, None))
  }

  // ---------------------------------------------------------------------------
  // TOOL

  datatype Tool = Tool(
    toolId: string,
    displayName: string,
    ltbAddr: int,
    isMwd: bool,
    dpointSuffix: string,
    version: Option<string>,
    size: Option<string>,
    trSpacing: Scalar,
    rtBlocksize: Scalar)

  /** The identity of a tool: version, size, spacing and block size are not part of it. */
  datatype ToolKey = ToolKey(toolId: string, displayName: string, ltbAddr: int, isMwd: bool, dpointSuffix: string)

  function ToolKeyOf(t: Tool): ToolKey {
    ToolKey(t.toolId, t.displayName, t.ltbAddr, t.isMwd, t.dpointSuffix)
  }

  /** Constructs a tool; the flag is converted before the address, as the constructor does. */
  function MakeTool(
    toolId: string, displayName: string, ltbAddr: IntField, isMwd: IntField,
    dpointSuffix: string, version: Option<string>): (r: Result<Tool>)
    ensures r.Ok? <==> CoerceBool(isMwd).Ok? && CoerceInt(ltbAddr).Ok?
    ensures r.Ok? ==> r.value == Tool(toolId, displayName, CoerceInt(ltbAddr).value,
                                      CoerceBool(isMwd).value, dpointSuffix, version, None, Null, Null)
    ensures CoerceBool(isMwd).Err? ==> r == Err(CoerceBool(isMwd).error)
  {
    var m :- CoerceBool(isMwd);
    var a :- CoerceInt(ltbAddr);
    Ok(Tool(toolId, displayName, a, m, dpointSuffix, version, None, Null, Null))
  }

  // ---------------------------------------------------------------------------
  // Equality and hashing

  /** The right-hand side of `==`: a data point, a tool, or any other object. */
  datatype Operand = PointOperand(p: DPoint) | ToolOperand(t: Tool) | OtherOperand

  /** `DPOINT.__eq__`. */
  predicate PointEquals(self: DPoint, other: Operand) {
    other.PointOperand? && KeyOf(self) == KeyOf(other.p)
  }

  /** `TOOL.__eq__`. */
  predicate ToolEquals(self: Tool, other: Operand) {
    other.ToolOperand? && ToolKeyOf(self) == ToolKeyOf(other.t)
  }

  /** `DPOINT.__hash__`, with the interpreter's tuple hash as a parameter. */
  function PointHash(p: DPoint, tupleHash: PointKey -> int): int {
    tupleHash(KeyOf(p))
  }

  /** `TOOL.__hash__`, with the interpreter's tuple hash as a parameter. */
  function ToolHash(t: Tool, tupleHash: ToolKey -> int): int {
    tupleHash(ToolKeyOf(t))
  }

  /** Two points are equal exactly when the five identity fields agree. */
  lemma PointEqualityFields(a: DPoint, b: DPoint)
    ensures PointEquals(a, PointOperand(b)) <==>
      a.name == b.name && a.datpid == b.datpid && a.ltbAddr == b.ltbAddr
      && a.isMwd == b.isMwd && a.length == b.length
  {}

  /** Description and the time and depth overrides never affect equality. */
  lemma PointEqualityIgnoresOverrides(a: DPoint, description: string, time: Option<real>, depth: Option<real>)
    ensures PointEquals(a, PointOperand(a.(description := description, time := time, depth := depth)))
  {}

  /** A data point never equals a tool or any other kind of object. */
  lemma PointNeverEqualsOthers(a: DPoint, t: Tool)
    ensures !PointEquals(a, ToolOperand(t)) && !PointEquals(a, OtherOperand)
  {}

  /** Point equality is an equivalence relation. */
  lemma PointEqualityEquivalence(a: DPoint, b: DPoint, c: DPoint)
    ensures PointEquals(a, PointOperand(a))
    ensures PointEquals(a, PointOperand(b)) ==> PointEquals(b, PointOperand(a))
    ensures PointEquals(a, PointOperand(b)) && PointEquals(b, PointOperand(c)) ==> PointEquals(a, PointOperand(c))
  {}

  /** Equal points hash equal, whatever tuple hash the interpreter uses. */
  lemma EqualPointsHashEqual(a: DPoint, b: DPoint, tupleHash: PointKey -> int)
    requires PointEquals(a, PointOperand(b))
    ensures PointHash(a, tupleHash) == PointHash(b, tupleHash)
  {}

  /** Two tools are equal exactly when the five identity fields agree. */
  lemma ToolEqualityFields(a: Tool, b: Tool)
    ensures ToolEquals(a, ToolOperand(b)) <==>
      a.toolId == b.toolId && a.displayName == b.displayName && a.ltbAddr == b.ltbAddr
      && a.isMwd == b.isMwd && a.dpointSuffix == b.dpointSuffix
  {}

  /** Version, size, spacing and block size never affect tool equality. */
  lemma ToolEqualityIgnoresConfiguration(a: Tool, version: Option<string>, size: Option<string>, spacing: Scalar, block: Scalar)
    ensures ToolEquals(a, ToolOperand(a.(version := version, size := size, trSpacing := spacing, rtBlocksize := block)))
  {}

  /** A tool never equals a data point or any other kind of object. */
  lemma ToolNeverEqualsOthers(t: Tool, p: DPoint)
    ensures !ToolEquals(t, PointOperand(p)) && !ToolEquals(t, OtherOperand)
  {}

  /** Equal tools hash equal, whatever tuple hash the interpreter uses. */
  lemma EqualToolsHashEqual(a: Tool, b: Tool, tupleHash: ToolKey -> int)
    requires ToolEquals(a, ToolOperand(b))
    ensures ToolHash(a, tupleHash) == ToolHash(b, tupleHash)
  {}

  // ---------------------------------------------------------------------------
  // FSL and UTILITY

  datatype Fsl = Fsl(
    description: Option<string>,
    bitrate: Option<real>,
    rop: Option<real>,
    nonorionUpdate: Option<real>,
    orionUpdate: Option<real>,
    r1Block: Scalar, r1Space: Scalar,
    r2Block: Scalar, r2Space: Scalar,
    r3Block: Scalar, r3Space: Scalar,
    minBoundsPct: int,
    maxBoundsPct: int,
    maxDpoints: int,
    mtf: seq<DPoint>,
    gtf: seq<DPoint>,
    rotary: seq<DPoint>)

  /** `FSL()` with every field at its default. */
  const DefaultFsl: Fsl := Fsl(
    Some(""), Some(6.0), Some(100.0), Some(1.0), Some(6.0),
    Null, Null, Null, Null, Null, Null,
    10, 50, 165, [], [], [])

  /** The FSL constructor's conversion of one numeric field: text is read with `float()`. */
  function FloatField(v: Scalar): (r: Result<Option<real>>)
    ensures v.Null? ==> r == Ok(None)
    ensures v.Number? ==> r == Ok(Some(v.x))
    ensures v.Str? ==> (r.Ok? <==> Text.ParseDecimal(v.s).Ok?)
    ensures v.Str? && r.Ok? ==> r.value == Some(Text.ParseDecimal(v.s).value)
  {
    match v
    case Number(x) => Ok(Some(x))
    case Null => Ok(None)
    case Str(s) =>
      var x :- Text.ParseDecimal(s);
      Ok(Some(x))
  }

  /** The UTILITY constructor's conversion of one numeric field: text is read with `int()`. */
  function IntegralField(v: Scalar): (r: Result<Option<real>>)
    ensures v.Null? ==> r == Ok(None)
    ensures v.Number? ==> r == Ok(Some(v.x))
    ensures v.Str? ==> (r.Ok? <==> Text.ParseInt(v.s).Ok?)
    ensures v.Str? && r.Ok? ==> r.value == Some(Text.ParseInt(v.s).value as real)
  {
    match v
    case Number(x) => Ok(Some(x))
    case Null => Ok(None)
    case Str(s) =>
      var n :- Text.ParseInt(s);
      Ok(Some(n as real))
  }

  /**
   * `FSL(description, bitrate, rop, nonorion_update, orion_update, mtf, gtf,
   * rotary, R1_block, ...)`: the post-init converts rop, bitrate and the two
   * update intervals, in that order; bounds and the point cap keep their defaults.
   */
  function MakeFsl(
    description: Option<string>, bitrate: Scalar, rop: Scalar, nonorion: Scalar, orion: Scalar,
    mtf: seq<DPoint>, gtf: seq<DPoint>, rotary: seq<DPoint>,
    r1Block: Scalar, r1Space: Scalar, r2Block: Scalar, r2Space: Scalar, r3Block: Scalar, r3Space: Scalar): (r: Result<Fsl>)
    ensures r.Ok? <==> FloatField(rop).Ok? && FloatField(bitrate).Ok? && FloatField(nonorion).Ok? && FloatField(orion).Ok?
    ensures FloatField(rop).Err? ==> r == Err(FloatField(rop).error)
    ensures r.Ok? ==>
      && r.value.rop == FloatField(rop).value && r.value.bitrate == FloatField(bitrate).value
      && r.value.nonorionUpdate == FloatField(nonorion).value && r.value.orionUpdate == FloatField(orion).value
      && r.value.description == description
      && r.value.mtf == mtf && r.value.gtf == gtf && r.value.rotary == rotary
      && r.value.minBoundsPct == 10 && r.value.maxBoundsPct == 50 && r.value.maxDpoints == 165
  {
    var ro :- FloatField(rop);
    var b :- FloatField(bitrate);
    var n :- FloatField(nonorion);
    var o :- FloatField(orion);
    Ok(Fsl(description, b, ro, n, o, r1Block, r1Space, r2Block, r2Space, r3Block, r3Space,
           DefaultFsl.minBoundsPct, DefaultFsl.maxBoundsPct, DefaultFsl.maxDpoints, mtf, gtf, rotary))
  }

  datatype Utility = Utility(
    description: Option<string>,
    bitrate: Option<real>,
    rop: Option<real>,
    utility: seq<DPoint>)

  /** `UTILITY()` with every field at its default. */
  const DefaultUtility: Utility := Utility(Some(""), Some(6.0), Some(100.0), [])

  /** `UTILITY(description, bitrate, rop, utility)`: the post-init converts rop, then bitrate, with `int()`. */
  function MakeUtility(description: Option<string>, bitrate: Scalar, rop: Scalar, utility: seq<DPoint>): (r: Result<Utility>)
    ensures r.Ok? <==> IntegralField(rop).Ok? && IntegralField(bitrate).Ok?
    ensures IntegralField(rop).Err? ==> r == Err(IntegralField(rop).error)
    ensures r.Ok? ==> r.value == Utility(description, IntegralField(bitrate).value, IntegralField(rop).value, utility)
  {
    var ro :- IntegralField(rop);
    var b :- IntegralField(bitrate);
    Ok(Utility(description, b, ro, utility))
  }

  /**
   * The same textual rate is accepted by FSL and refused by UTILITY: `float()`
   * reads a fractional numeral that `int()` rejects.
   */
  lemma FractionalRateSplitsFslAndUtility(s: string)
    requires Text.ParseDecimal(s).Ok? && Text.ParseInt(s).Err?
    ensures MakeFsl(None, Null, Str(s), Null, Null, [], [], [], Null, Null, Null, Null, Null, Null).Ok?
    ensures MakeUtility(None, Null, Str(s), []).Err?
  {}

  // ---------------------------------------------------------------------------
  // FRAME_REQUEST

  datatype FrameRequest = FrameRequest(
    uid: Option<string>,
    jobNumber: Option<string>,
    wellName: Option<string>,
    sectionSize: Option<string>,
    fsls: seq<Fsl>,
    utility: Utility,
    numOfFsl: int,
    odfRequired: bool,
    modfRequired: bool,
    provisionBha: bool,
    ddrBha: bool,
    hspmVersion: Option<string>,
    tools: seq<Tool>,
    odfFrame: seq<DPoint>,
    modfFrame: seq<seq<DPoint>>,
    ddsFrame: seq<DPoint>)
  {
    /** A request owns exactly six framesets. */
    predicate WellFormed() { |fsls| == 6 }
  }

  const DefaultCatalogFile: string := "RTDPointCatalog_2025_0.db"

  /** `FRAME_REQUEST(uid, job_number, well_name, section_size, fsl1..fsl6, utility)` with the remaining defaults. */
  function NewFrameRequest(
    uid: Option<string>, jobNumber: Option<string>, wellName: Option<string>, sectionSize: Option<string>,
    fsls: seq<Fsl>, utility: Utility): (r: FrameRequest)
    requires |fsls| == 6
    ensures r.WellFormed() && r.fsls == fsls && r.utility == utility
    ensures r.numOfFsl == 1
    ensures !r.odfRequired && !r.modfRequired && !r.provisionBha && !r.ddrBha
    ensures r.hspmVersion == Some(DefaultCatalogFile)
    ensures r.tools == [] && r.odfFrame == [] && r.modfFrame == [] && r.ddsFrame == []
  {
    FrameRequest(uid, jobNumber, wellName, sectionSize, fsls, utility, 1, false, false, false, false,
                 Some(DefaultCatalogFile), [], [], [], [])
  }
}

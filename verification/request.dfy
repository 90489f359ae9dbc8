/**
 * The JSON body of a frame request, after decoding, in the shape the core
 * reads it: the top-level fields, the six frameset slots `fsl1`..`fsl6`, and
 * inside each slot the fields that are themselves JSON text.
 */
module Request {
  import opened Wrappers
  import opened Models

  /** The `VERSION` of an entry of a frameset's `TOOLS` list. */
  datatype VersionField = NoVersion | NullVersion | VersionText(s: string)

  /** One entry of a `TOOLS` list: `{"NAME": ..., "VERSION": ...}`. */
  datatype ToolEntry = ToolEntry(name: Option<string>, version: VersionField)

  /** One entry of a `time` or `depth` list: `{"Name": ..., "Update": ...}`. */
  datatype NamedUpdate = NamedUpdate(name: string, update: Scalar)

  /** A field that holds JSON text: missing (or null), not valid JSON, or a decoded list. */
  datatype Json<T> = Missing | Malformed(msg: string) | Decoded(value: T)

  /** `json.loads(d.get(key))`. */
  function Loads<T>(j: Json<T>): (r: Result<T>)
    ensures j.Missing? ==> r == Err(TypeError(JsonNoneMessage))
    ensures j.Malformed? ==> r == Err(ValueError(j.msg))
    ensures j.Decoded? ==> r == Ok(j.value)
  {
    match j
    case Missing => Err(TypeError(JsonNoneMessage))
    case Malformed(m) => Err(ValueError(m))
    case Decoded(v) => Ok(v)
  }

  /** The fields of one frameset slot that the core reads; a missing field reads as `None`. */
  datatype FslData = FslData(
    time: seq<NamedUpdate>,
    depth: seq<NamedUpdate>,
    mtf: Json<seq<string>>,
    gtf: Json<seq<string>>,
    rot: Json<seq<string>>,
    tools: Json<seq<ToolEntry>>,
    util: Json<seq<string>>,
    nmr: Scalar,
    tf: Scalar,
    rop: Scalar,
    bitrate: Scalar,
    nonOrion: Scalar,
    orion: Scalar,
    description: Option<string>,
    r1Block: Scalar, r1Space: Scalar,
    r2Block: Scalar, r2Space: Scalar,
    r3Block: Scalar, r3Space: Scalar)

  /**
   * The value under `fslN`: no such key, `null`, an empty object, or an object
   * with at least one key (whose modelled fields may all be missing).
   */
  datatype Slot = NoSlot | NullSlot | EmptySlot | Filled(d: FslData)

  /** Python truthiness of a slot: only a non-empty object is truthy. */
  predicate SlotTruthy(s: Slot) {
    s.Filled?
  }

  /** `data.get("fslN", {})` seen as a dictionary; `null` has no `.get`. */
  function SlotDict(s: Slot): (r: Result<Option<FslData>>)
    ensures r.Err? <==> s.NullSlot?
    ensures r.Err? ==> r.error == AttributeError(NoneGetMessage)
    ensures r.Ok? ==> (r.value.Some? <==> s.Filled?)
    ensures s.Filled? ==> r == Ok(Some(s.d))
  {
    match s
    case NullSlot => Err(AttributeError(NoneGetMessage))
    case Filled(d) => Ok(Some(d))
    case _ => Ok(None)
  }

  /** The slot's object, when it is a non-empty one. */
  function SlotFields(s: Slot): (r: Option<FslData>)
    ensures r.Some? <==> s.Filled?
  {
    if s.Filled? then Some(s.d) else None
  }

  /** The request body. */
  datatype RequestData = RequestData(
    uid: Option<string>,
    jobNumber: Option<string>,
    wellName: Option<string>,
    sectionSize: Option<string>,
    fsls: seq<Slot>,
    numOfFsl: Scalar,
    modfRequired: Scalar,
    provisionBha: Scalar,
    ddrBha: Scalar,
    hspmVersion: Option<string>)

  /** `data.get(f"fsl{i + 1}")`; slots past the end of `fsls` are absent keys. */
  function SlotAt(data: RequestData, i: nat): (r: Slot)
    ensures i >= |data.fsls| ==> r == NoSlot
    ensures i < |data.fsls| ==> r == data.fsls[i]
  {
    if i < |data.fsls| then data.fsls[i] else NoSlot
  }

  /** `True if data.get(key) == "true" else False`: only the exact string is accepted. */
  predicate FlagTrue(v: Scalar) {
    v == Str("true")
  }
}

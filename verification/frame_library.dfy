/**
 * The frame library: name lists for the DDS frame (per MWD version), the ODF
 * frame and the MODF sets (per tool id and version), and how the tools of one
 * request draw on them.
 */
module FrameLibrary {
  import opened Wrappers
  import opened Models
  import Seqs

  datatype Library = Library(
    dds: map<string, seq<string>>,
    odf: map<string, map<string, seq<string>>>,
    modf: map<string, map<string, seq<seq<string>>>>)

  /** `DDS.get(version)`: nothing for an unknown or missing version. */
  function DdsEntry(lib: Library, version: Option<string>): Option<seq<string>> {
    if version.Some? && version.value in lib.dds then Some(lib.dds[version.value]) else None
  }

  predicate HasOdfEntry(lib: Library, t: Tool) {
    t.toolId in lib.odf && t.version.Some? && t.version.value in lib.odf[t.toolId]
  }

  /** `ODF.get(tool_id, {}).get(version, [])`. */
  function OdfEntry(lib: Library, t: Tool): seq<string> {
    if HasOdfEntry(lib, t) then lib.odf[t.toolId][t.version.value] else []
  }

  /** `MODF.get(tool_id, {}).get(version)`, with a missing entry read as no sets. */
  function ModfEntry(lib: Library, t: Tool): seq<seq<string>> {
    if t.toolId in lib.modf && t.version.Some? && t.version.value in lib.modf[t.toolId]
    then lib.modf[t.toolId][t.version.value] else []
  }

  function Elements(s: seq<string>): set<string> {
    set x | x in s
  }

  // ---------------------------------------------------------------------------
  // The ODF frame

  /**
   * One turn of the ODF loop: an empty accumulator takes the tool's entry;
   * otherwise the entry's names not yet present are appended, in entry order.
   */
  function OdfStep(odf: seq<string>, temp: seq<string>): seq<string> {
    if |odf| == 0 then temp else odf + Seqs.Without(temp, Elements(odf))
  }

  lemma OdfStepMembers(odf: seq<string>, temp: seq<string>, x: string)
    ensures x in OdfStep(odf, temp) <==> x in odf || x in temp
    ensures |odf| > 0 ==> odf <= OdfStep(odf, temp)
  {
    if |odf| > 0 {
      Seqs.WithoutMembership(temp, Elements(odf), x);
    }
  }

  /** The ODF loop over the remaining entries, starting from `acc`. */
  function UnionFold(acc: seq<string>, entries: seq<seq<string>>): (r: seq<string>)
    ensures forall x :: x in r <==> x in acc || exists i :: 0 <= i < |entries| && x in entries[i]
    ensures |acc| > 0 ==> acc <= r
    decreases |entries|
  {
    if |entries| == 0 then acc
    else
      var next := OdfStep(acc, entries[0]);
      forall x ensures x in next <==> x in acc || x in entries[0] {
        OdfStepMembers(acc, entries[0], x);
      }
      OdfStepMembers(acc, entries[0], "");
      assert forall i :: 1 <= i < |entries| ==> entries[i] == entries[1..][i - 1];
      UnionFold(next, entries[1..])
  }

  function OdfEntries(lib: Library, tools: seq<Tool>): (r: seq<seq<string>>)
    ensures |r| == |tools| && forall i :: 0 <= i < |tools| ==> r[i] == OdfEntry(lib, tools[i])
  {
    seq(|tools|, i requires 0 <= i < |tools| => OdfEntry(lib, tools[i]))
  }

  /**
   * The ODF names of a request: every name the library lists for any of the
   * request's tools, the first contributing tool's list leading. The library
   * is only read.
   */
  function Odf(lib: Library, tools: seq<Tool>): (r: seq<string>)
    ensures forall x :: x in r <==> exists i :: 0 <= i < |tools| && x in OdfEntry(lib, tools[i])
  {
    UnionFold([], OdfEntries(lib, tools))
  }

  /** The first tool with a non-empty ODF entry leads the ODF names. */
  lemma {:induction false} OdfLedByFirstEntry(lib: Library, tools: seq<Tool>, k: nat)
    requires k < |tools| && |OdfEntry(lib, tools[k])| > 0
    requires forall j :: 0 <= j < k ==> |OdfEntry(lib, tools[j])| == 0
    ensures OdfEntry(lib, tools[k]) <= Odf(lib, tools)
  {
    var es := OdfEntries(lib, tools);
    FoldEmptyPrefix(es, k);
  }

  lemma {:induction false} FoldEmptyPrefix(entries: seq<seq<string>>, k: nat)
    requires k < |entries| && |entries[k]| > 0
    requires forall j :: 0 <= j < k ==> |entries[j]| == 0
    ensures entries[k] <= UnionFold([], entries)
    decreases k
  {
    if k == 0 {
      assert UnionFold([], entries) == UnionFold(entries[0], entries[1..]);
    } else {
      assert UnionFold([], entries) == UnionFold([], entries[1..]);
      FoldEmptyPrefix(entries[1..], k - 1);
    }
  }

  // ---------------------------------------------------------------------------
  // The ODF loop as written: `odf = temp` aliases the library's own list

  /** Where the loop's `odf` list lives: inside the library entry it aliases, or in a list of its own. */
  datatype OdfCell = Aliased(toolId: string, version: string) | Own(items: seq<string>)

  function CellValue(lib: Library, c: OdfCell): seq<string> {
    match c
    case Aliased(id, v) => if id in lib.odf && v in lib.odf[id] then lib.odf[id][v] else []
    case Own(s) => s
  }

  /** Storing into the cell: an aliased list is the library entry itself. */
  function WriteCell(lib: Library, c: OdfCell, s: seq<string>): (Library, OdfCell) {
    match c
    case Aliased(id, v) =>
      var inner := if id in lib.odf then lib.odf[id] else map[];
      (lib.(odf := lib.odf[id := inner[v := s]]), c)
    case Own(_) => (lib, Own(s))
  }

  /** The loop as written, over the library as it stands, which it may change. */
  function OdfLoopAsWritten(lib: Library, c: OdfCell, tools: seq<Tool>): (Library, OdfCell)
    decreases |tools|
  {
    if |tools| == 0 then (lib, c)
    else
      var odf := CellValue(lib, c);
      var temp := OdfEntry(lib, tools[0]);
      var next :=
        if |odf| > 0 then WriteCell(lib, c, odf + Seqs.Without(temp, Elements(odf)))
        else if HasOdfEntry(lib, tools[0]) then (lib, Aliased(tools[0].toolId, tools[0].version.value))
        else (lib, Own([]));
      OdfLoopAsWritten(next.0, next.1, tools[1..])
  }

  /** The ODF names as written, and the library the loop leaves behind. */
  function OdfAsWritten(lib: Library, tools: seq<Tool>): (Library, seq<string>) {
    var end := OdfLoopAsWritten(lib, Own([]), tools);
    (end.0, CellValue(end.0, end.1))
  }

  const SampleToolA: Tool := Tool("A", "A", 1, false, "", Some("1"), None, Null, Null)
  const SampleToolB: Tool := Tool("B", "B", 2, false, "", Some("1"), None, Null, Null)
  const SampleLibrary: Library := Library(map[], map["A" := map["1" := ["a"]], "B" := map["1" := ["b"]]], map[])

  lemma WithoutOther(x: string, y: string)
    requires x != y
    ensures Seqs.Without([x], Elements([y])) == [x]
  {
    assert x !in Elements([y]);
    assert [x][1..] == [];
  }

  /**
   * Two tools with entries `[a]` and `[b]`: the first request gets `[a, b]`
   * and leaves `[a, b]` under the first tool, so a later request for that tool
   * alone gets `[a, b]` where its entry says `[a]`.
   */
  lemma OdfAsWrittenLeaks()
    ensures OdfAsWritten(SampleLibrary, [SampleToolA, SampleToolB]).1 == ["a", "b"]
    ensures OdfAsWritten(OdfAsWritten(SampleLibrary, [SampleToolA, SampleToolB]).0, [SampleToolA]).1 == ["a", "b"]
    ensures Odf(SampleLibrary, [SampleToolA]) == ["a"]
  {
    var lib := SampleLibrary;
    assert OdfEntry(lib, SampleToolA) == ["a"];
    assert OdfEntry(lib, SampleToolB) == ["b"];
    WithoutOther("b", "a");
    var s1 := OdfLoopAsWritten(lib, Own([]), [SampleToolA, SampleToolB]);
    assert [SampleToolA, SampleToolB][1..] == [SampleToolB];
    assert s1 == OdfLoopAsWritten(lib, Aliased("A", "1"), [SampleToolB]);
    assert CellValue(lib, Aliased("A", "1")) == ["a"];
    assert ["a"] + ["b"] == ["a", "b"];
    var lib2 := lib.(odf := lib.odf["A" := lib.odf["A"]["1" := ["a", "b"]]]);
    assert WriteCell(lib, Aliased("A", "1"), ["a", "b"]) == (lib2, Aliased("A", "1"));
    assert [SampleToolB][1..] == [];
    assert s1 == OdfLoopAsWritten(lib2, Aliased("A", "1"), []);
    assert s1 == (lib2, Aliased("A", "1"));
    assert OdfEntry(lib2, SampleToolA) == ["a", "b"];
    assert OdfLoopAsWritten(lib2, Own([]), [SampleToolA]) == (lib2, Aliased("A", "1"));
    assert OdfEntries(lib, [SampleToolA]) == [["a"]];
    assert [["a"]][1..] == [];
    assert UnionFold([], [["a"]]) == UnionFold(["a"], []);
  }

  // ---------------------------------------------------------------------------
  // The MODF sets

  /** The MODF sets of the first tool that has any. */
  function FirstModf(lib: Library, tools: seq<Tool>): (r: seq<seq<string>>)
    ensures |r| > 0 <==> exists i :: 0 <= i < |tools| && |ModfEntry(lib, tools[i])| > 0
    ensures |r| > 0 ==> exists i :: && 0 <= i < |tools| && r == ModfEntry(lib, tools[i])
                                    && forall j :: 0 <= j < i ==> |ModfEntry(lib, tools[j])| == 0
    decreases |tools|
  {
    if |tools| == 0 then []
    else if |ModfEntry(lib, tools[0])| > 0 then ModfEntry(lib, tools[0])
    else
      assert forall i :: 1 <= i < |tools| ==> tools[i] == tools[1..][i - 1];
      FirstModf(lib, tools[1..])
  }
}

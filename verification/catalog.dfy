/**
 * The read side of a catalog database: the `DPoint`, `Tool` and `ToolVersion`
 * tables as sequences of rows, and the three queries the resolvers issue.
 * A database file without the tables behaves as an empty catalog, because
 * every query catches the SQLite error and yields no rows.
 */
module Catalog {
  import opened Wrappers
  import Text
  import Seqs
  import opened Models

  datatype DPointRow = DPointRow(name: string, datpid: int, bits: int, ltbAddr: int, description: string)
  datatype ToolRow = ToolRow(toolId: string, displayName: string, ltbAddr: int, isMwd: bool, suffix: string)
  datatype VersionRow = VersionRow(toolId: string, version: string)

  datatype Catalog = Catalog(dpoints: seq<DPointRow>, tools: seq<ToolRow>, versions: seq<VersionRow>)

  const EmptyCatalog: Catalog := Catalog([], [], [])

  // ---------------------------------------------------------------------------
  // select_dpoints_from_db_with_tools

  /** One row of the inner join: the point's columns with the joined tool's MWD flag. */
  function JoinedPoint(d: DPointRow, t: ToolRow): DPoint {
    DPoint(d.name, d.datpid, d.bits, t.isMwd, d.ltbAddr, d.description, None, None)
  }

  /** The join condition and the two `IN` filters of the query. */
  predicate Selected(d: DPointRow, t: ToolRow, names: seq<string>, ltbs: seq<int>) {
    t.ltbAddr == d.ltbAddr && d.ltbAddr in ltbs && d.name in names
  }

  function JoinOne(d: DPointRow, tools: seq<ToolRow>, names: seq<string>, ltbs: seq<int>): (r: seq<DPoint>)
    ensures forall p :: p in r <==>
      exists j :: 0 <= j < |tools| && Selected(d, tools[j], names, ltbs) && p == JoinedPoint(d, tools[j])
    decreases |tools|
  {
    if |tools| == 0 then []
    else
      var rest := JoinOne(d, tools[1..], names, ltbs);
      assert forall j :: 1 <= j < |tools| ==> tools[j] == tools[1..][j - 1];
      if Selected(d, tools[0], names, ltbs) then [JoinedPoint(d, tools[0])] + rest else rest
  }

  /** The filtered inner join, point rows in table order and, for each, tool rows in table order. */
  function Join(dps: seq<DPointRow>, tools: seq<ToolRow>, names: seq<string>, ltbs: seq<int>): (r: seq<DPoint>)
    ensures forall p :: p in r <==>
      exists i, j :: 0 <= i < |dps| && 0 <= j < |tools| && Selected(dps[i], tools[j], names, ltbs)
                     && p == JoinedPoint(dps[i], tools[j])
    decreases |dps|
  {
    if |dps| == 0 then []
    else
      var rest := Join(dps[1..], tools, names, ltbs);
      assert forall i :: 1 <= i < |dps| ==> dps[i] == dps[1..][i - 1];
      JoinOne(dps[0], tools, names, ltbs) + rest
  }

  predicate SortedByName(s: seq<DPoint>) {
    forall i, j :: 0 <= i < j < |s| ==> Text.LexLe(s[i].name, s[j].name)
  }

  /** Places `p` before the first point whose name is not smaller. */
  function InsertByName(p: DPoint, s: seq<DPoint>): (r: seq<DPoint>)
    requires SortedByName(s)
    ensures SortedByName(r)
    ensures multiset(r) == multiset(s) + multiset{p}
    ensures |r| == |s| + 1
    ensures forall x :: x in r ==> x == p || x in s
    decreases |s|
  {
    if |s| == 0 then [p]
    else if Text.LexLe(p.name, s[0].name) then
      forall j | 0 <= j < |s| ensures Text.LexLe(p.name, s[j].name) {
        if j > 0 { Text.LexLeTrans(p.name, s[0].name, s[j].name); }
      }
      [p] + s
    else
      Text.LexLeTotal(p.name, s[0].name);
      var rest := InsertByName(p, s[1..]);
      forall x | x in rest ensures Text.LexLe(s[0].name, x.name) {
        if x != p {
          var j :| 0 <= j < |s[1..]| && s[1..][j] == x;
          assert s[j + 1] == x;
        }
      }
      assert s == [s[0]] + s[1..];
      [s[0]] + rest
  }

  /** A stable insertion sort by name: points with equal names keep their join order. */
  function SortByName(s: seq<DPoint>): (r: seq<DPoint>)
    ensures SortedByName(r)
    ensures multiset(r) == multiset(s)
    decreases |s|
  {
    if |s| == 0 then []
    else
      assert s == [s[0]] + s[1..];
      InsertByName(s[0], SortByName(s[1..]))
  }

  /**
   * `select_dpoints_from_db_with_tools(names, ltbs)`: the joined, filtered rows
   * ordered by name; an empty name or address list selects nothing.
   */
  function SelectDPoints(cat: Catalog, names: seq<string>, ltbs: seq<int>): (r: seq<DPoint>)
    ensures SortedByName(r)
    ensures multiset(r) == multiset(Join(cat.dpoints, cat.tools, names, ltbs))
    ensures forall p :: p in r <==>
      exists i, j :: 0 <= i < |cat.dpoints| && 0 <= j < |cat.tools|
                     && Selected(cat.dpoints[i], cat.tools[j], names, ltbs)
                     && p == JoinedPoint(cat.dpoints[i], cat.tools[j])
    ensures forall p :: p in r ==> p.name in names && p.ltbAddr in ltbs && p.time.None? && p.depth.None?
  {
    var joined := Join(cat.dpoints, cat.tools, names, ltbs);
    var r := SortByName(joined);
    assert forall p :: p in r <==> p in multiset(r);
    assert forall p :: p in joined <==> p in multiset(joined);
    r
  }

  // ---------------------------------------------------------------------------
  // select_tool_latest_version_from_db and the MAX(...) of select_tools_from_db

  /** The greatest version text of a tool under SQLite's binary collation; None when it has no version row. */
  function MaxVersion(versions: seq<VersionRow>, toolId: string): (r: Option<string>)
    ensures r.None? <==> forall k :: 0 <= k < |versions| ==> versions[k].toolId != toolId
    ensures r.Some? ==> exists k :: 0 <= k < |versions| && versions[k].toolId == toolId && versions[k].version == r.value
    ensures r.Some? ==> forall k :: 0 <= k < |versions| && versions[k].toolId == toolId ==> Text.LexLe(versions[k].version, r.value)
    decreases |versions|
  {
    if |versions| == 0 then None
    else
      var rest := MaxVersion(versions[1..], toolId);
      assert forall k :: 1 <= k < |versions| ==> versions[k] == versions[1..][k - 1];
      var v := versions[0].version;
      if versions[0].toolId != toolId then rest
      else match rest
        case None =>
          Text.LexLeRefl(v);
          Some(v)
        case Some(m) =>
          Text.LexLeTotal(m, v);
          if Text.LexLe(m, v) then
            forall k | 1 <= k < |versions| && versions[k].toolId == toolId
              ensures Text.LexLe(versions[k].version, v)
            {
              Text.LexLeTrans(versions[k].version, m, v);
            }
            Text.LexLeRefl(v);
            Some(v)
          else
            rest
  }

  // ---------------------------------------------------------------------------
  // select_tools_from_db

  /** `DisplayToolName IN (...)`; a null name in the list matches no row. */
  predicate Requested(t: ToolRow, names: seq<Option<string>>) {
    Some(t.displayName) in names
  }

  function RequestedRows(rows: seq<ToolRow>, names: seq<Option<string>>): (r: seq<ToolRow>)
    ensures forall t :: t in r <==> t in rows && Requested(t, names)
    decreases |rows|
  {
    if |rows| == 0 then []
    else
      assert forall t :: t in rows <==> t == rows[0] || t in rows[1..];
      (if Requested(rows[0], names) then [rows[0]] else []) + RequestedRows(rows[1..], names)
  }

  function ToolOfRow(t: ToolRow, version: Option<string>): Tool {
    Tool(t.toolId, t.displayName, t.ltbAddr, t.isMwd, t.suffix, version, None, Null, Null)
  }

  function ToolsOf(rows: seq<ToolRow>, versions: seq<VersionRow>): (r: seq<Tool>)
    ensures |r| == |rows|
    ensures forall k :: 0 <= k < |rows| ==> r[k] == ToolOfRow(rows[k], MaxVersion(versions, rows[k].toolId))
    decreases |rows|
  {
    if |rows| == 0 then []
    else [ToolOfRow(rows[0], MaxVersion(versions, rows[0].toolId))] + ToolsOf(rows[1..], versions)
  }

  /**
   * `select_tools_from_db(names)`: one tool per distinct requested tool row,
   * carrying the tool's greatest version (or none, through the left join).
   */
  function SelectTools(cat: Catalog, names: seq<Option<string>>): (r: seq<Tool>)
    ensures forall t :: t in r <==>
      exists row :: row in cat.tools && Requested(row, names) && t == ToolOfRow(row, MaxVersion(cat.versions, row.toolId))
    ensures forall i, j :: 0 <= i < j < |r| ==> r[i] != r[j]
  {
    var rows := Seqs.Dedup(RequestedRows(cat.tools, names));
    var r := ToolsOf(rows, cat.versions);
    forall t | t in r
      ensures exists row :: row in cat.tools && Requested(row, names) && t == ToolOfRow(row, MaxVersion(cat.versions, row.toolId))
    {
      var k :| 0 <= k < |r| && r[k] == t;
      assert rows[k] in rows;
    }
    forall row | row in cat.tools && Requested(row, names)
      ensures ToolOfRow(row, MaxVersion(cat.versions, row.toolId)) in r
    {
      var k :| 0 <= k < |rows| && rows[k] == row;
      assert r[k] == ToolOfRow(row, MaxVersion(cat.versions, row.toolId));
    }
    forall i, j | 0 <= i < j < |r| ensures r[i] != r[j] {
      assert rows[i] != rows[j];
      assert r[i].toolId != r[j].toolId || r[i].displayName != r[j].displayName || r[i].ltbAddr != r[j].ltbAddr
        || r[i].isMwd != r[j].isMwd || r[i].dpointSuffix != r[j].dpointSuffix;
    }
    r
  }
}

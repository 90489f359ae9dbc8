/**
 * The two data-point resolvers. `get_dpoint_list` rewrites the requested names
 * with the rule engine, looks them up in the catalog for the request's tools
 * and applies per-name time and depth overrides; `get_ordered_dpoint_list`
 * looks names up as given and returns one point per requested name, in the
 * requested order.
 */
module Resolver {
  import opened Wrappers
  import opened Models
  import opened Catalog
  import Rules

  /** `[tool.ltb_addr for tool in tools]`. */
  function Ltbs(tools: seq<Tool>): (r: seq<int>)
    ensures |r| == |tools|
    ensures forall k :: 0 <= k < |tools| ==> r[k] == tools[k].ltbAddr
    decreases |tools|
  {
    if |tools| == 0 then [] else [tools[0].ltbAddr] + Ltbs(tools[1..])
  }

  // ---------------------------------------------------------------------------
  // Overrides

  /** The per-name update intervals of one frameset, as the request carries them. */
  datatype Updates = Updates(time: map<string, Scalar>, depth: map<string, Scalar>)

  const NoUpdates: Updates := Updates(map[], map[])

  /** The time override a point receives: the name is listed and its value reads as a float. */
  predicate TimeApplies(p: DPoint, up: Updates) {
    p.name in up.time && PyFloat(up.time[p.name]).Ok?
  }

  /**
   * The depth override a point receives: a failed time conversion abandons the
   * point before its depth is looked at, and a falsy depth value is skipped.
   */
  predicate DepthApplies(p: DPoint, up: Updates) {
    && !(p.name in up.time && PyFloat(up.time[p.name]).Err?)
    && p.name in up.depth && Truthy(up.depth[p.name]) && PyFloat(up.depth[p.name]).Ok?
  }

  /** The body of the override loop for one point; a conversion error moves on to the next point. */
  function OverrideOne(p: DPoint, up: Updates): (r: DPoint)
    ensures KeyOf(r) == KeyOf(p) && r.description == p.description
    ensures r.time == if TimeApplies(p, up) then Some(PyFloat(up.time[p.name]).value) else p.time
    ensures r.depth == if DepthApplies(p, up) then Some(PyFloat(up.depth[p.name]).value) else p.depth
  {
    if p.name in up.time && PyFloat(up.time[p.name]).Err? then p
    else
      var timed := if p.name in up.time then p.(time := Some(PyFloat(up.time[p.name]).value)) else p;
      if p.name in up.depth && Truthy(up.depth[p.name]) then
        match PyFloat(up.depth[p.name])
        case Ok(d) => timed.(depth := Some(d))
        case Err(_) => timed
      else timed
  }

  /** `for dpoint in dpoints: ...`, entered only when some override is given. */
  function ApplyOverrides(ps: seq<DPoint>, up: Updates): (r: seq<DPoint>)
    ensures |r| == |ps|
    ensures forall i :: 0 <= i < |ps| ==> r[i] == if |up.time| == 0 && |up.depth| == 0 then ps[i] else OverrideOne(ps[i], up)
    decreases |ps|
  {
    if |up.time| == 0 && |up.depth| == 0 then ps
    else if |ps| == 0 then []
    else [OverrideOne(ps[0], up)] + ApplyOverrides(ps[1..], up)
  }

  /** Overrides change only the two override fields, so equality and order by name are kept. */
  lemma {:induction false} OverridesKeepIdentity(ps: seq<DPoint>, up: Updates)
    ensures forall i :: 0 <= i < |ps| ==> PointEquals(ApplyOverrides(ps, up)[i], PointOperand(ps[i]))
    ensures SortedByName(ps) ==> SortedByName(ApplyOverrides(ps, up))
  {
    var r := ApplyOverrides(ps, up);
    forall i | 0 <= i < |ps| ensures PointEquals(r[i], PointOperand(ps[i])) && r[i].name == ps[i].name {
      PointEqualityFields(r[i], ps[i]);
    }
  }

  /** Applying the same overrides a second time changes nothing. */
  lemma {:induction false} OverridesIdempotent(ps: seq<DPoint>, up: Updates)
    ensures ApplyOverrides(ApplyOverrides(ps, up), up) == ApplyOverrides(ps, up)
  {
    var r := ApplyOverrides(ps, up);
    var rr := ApplyOverrides(r, up);
    forall i | 0 <= i < |ps| ensures rr[i] == r[i] {
      if !(|up.time| == 0 && |up.depth| == 0) {
        var p := ps[i];
        assert r[i].name == p.name;
        assert TimeApplies(r[i], up) == TimeApplies(p, up);
        assert DepthApplies(r[i], up) == DepthApplies(p, up);
      }
    }
  }

  /** Every overridden point keeps the name and address of the point it came from. */
  lemma {:induction false} OverridesKeepPlace(ps: seq<DPoint>, up: Updates)
    ensures forall p :: p in ApplyOverrides(ps, up) ==> exists q :: q in ps && p.name == q.name && p.ltbAddr == q.ltbAddr
  {
    var r := ApplyOverrides(ps, up);
    forall p | p in r ensures exists q :: q in ps && p.name == q.name && p.ltbAddr == q.ltbAddr {
      var i :| 0 <= i < |r| && r[i] == p;
      assert ps[i] in ps;
    }
  }

  // ---------------------------------------------------------------------------
  // get_dpoint_list

  /**
   * `get_dpoint_list(names, tools, time_update, depth_update)`: the rule
   * engine's names, looked up for the tools' addresses, with the overrides
   * applied to the points found.
   */
  function GetDPointList(cat: Catalog, names: seq<string>, tools: seq<Tool>, up: Updates): (r: Result<seq<DPoint>>)
    ensures r.Err? <==> ("CS3PK_H_mp" in names || "CSSTAT_mp" in names) && !Rules.HasMp3(tools)
    ensures r.Err? ==> r.error == StopIteration
    ensures r.Ok? ==> Rules.ApplyRules(names, tools).Ok?
    ensures r.Ok? && Rules.ApplyRules(names, tools).Ok? ==>
              var sel := SelectDPoints(cat, Rules.ApplyRules(names, tools).value, Ltbs(tools));
              && |r.value| == |sel|
              && (forall i :: 0 <= i < |sel| ==> KeyOf(r.value[i]) == KeyOf(sel[i]))
              && SortedByName(r.value)
    ensures r.Ok? && Rules.ApplyRules(names, tools).Ok? ==> forall p :: p in r.value ==>
                        p.name in Rules.ApplyRules(names, tools).value && p.ltbAddr in Ltbs(tools)
    ensures r.Ok? && Rules.ApplyRules(names, tools).Ok? ==>
              var sel := SelectDPoints(cat, Rules.ApplyRules(names, tools).value, Ltbs(tools));
              forall i :: 0 <= i < |sel| && i < |r.value| ==>
                && r.value[i].time == (if TimeApplies(sel[i], up) then Some(PyFloat(up.time[sel[i].name]).value) else None)
                && r.value[i].depth == (if DepthApplies(sel[i], up) then Some(PyFloat(up.depth[sel[i].name]).value) else None)
  {
    Rules.RulesFailure(names, tools);
    Rules.RulesErrorIsStop(names, tools);
    var rewritten :- Rules.ApplyRules(names, tools);
    ResolvedPoints(cat, rewritten, tools, up);
    Ok(ApplyOverrides(SelectDPoints(cat, rewritten, Ltbs(tools)), up))
  }

  /** The points found for already rewritten names, with the overrides applied. */
  lemma {:induction false} ResolvedPoints(cat: Catalog, rewritten: seq<string>, tools: seq<Tool>, up: Updates)
    ensures var sel := SelectDPoints(cat, rewritten, Ltbs(tools));
            var r := ApplyOverrides(sel, up);
            && |r| == |sel|
            && (forall i :: 0 <= i < |sel| ==> KeyOf(r[i]) == KeyOf(sel[i]))
            && SortedByName(r)
            && (forall p :: p in r ==> p.name in rewritten && p.ltbAddr in Ltbs(tools))
            && forall i :: 0 <= i < |sel| && i < |r| ==>
                 && r[i].time == (if TimeApplies(sel[i], up) then Some(PyFloat(up.time[sel[i].name]).value) else None)
                 && r[i].depth == (if DepthApplies(sel[i], up) then Some(PyFloat(up.depth[sel[i].name]).value) else None)
  {
    var sel := SelectDPoints(cat, rewritten, Ltbs(tools));
    OverridesKeepIdentity(sel, up);
    OverridesKeepPlace(sel, up);
  }

  /** The join reads the requested names only through membership. */
  lemma {:induction false} JoinOneBySet(d: DPointRow, tools: seq<ToolRow>, a: seq<string>, b: seq<string>, ltbs: seq<int>)
    requires forall x :: x in a <==> x in b
    ensures JoinOne(d, tools, a, ltbs) == JoinOne(d, tools, b, ltbs)
    decreases |tools|
  {
    if |tools| > 0 {
      assert Selected(d, tools[0], a, ltbs) == Selected(d, tools[0], b, ltbs);
      JoinOneBySet(d, tools[1..], a, b, ltbs);
    }
  }

  lemma {:induction false} JoinBySet(dps: seq<DPointRow>, tools: seq<ToolRow>, a: seq<string>, b: seq<string>, ltbs: seq<int>)
    requires forall x :: x in a <==> x in b
    ensures Join(dps, tools, a, ltbs) == Join(dps, tools, b, ltbs)
    decreases |dps|
  {
    if |dps| > 0 {
      JoinOneBySet(dps[0], tools, a, b, ltbs);
      JoinBySet(dps[1..], tools, a, b, ltbs);
    }
  }

  /**
   * The order of the requested names never matters: two arrangements of the
   * same names resolve to the same points, or fail alike.
   */
  lemma {:induction false} GetDPointListIgnoresOrder(cat: Catalog, s: seq<string>, u: seq<string>, tools: seq<Tool>, up: Updates)
    requires multiset(s) == multiset(u)
    ensures GetDPointList(cat, s, tools, up) == GetDPointList(cat, u, tools, up)
  {
    Rules.RulesIgnoreOrder(s, u, tools);
    var rs := Rules.ApplyRules(s, tools);
    var ru := Rules.ApplyRules(u, tools);
    Rules.RulesFailure(s, tools);
    Rules.RulesFailure(u, tools);
    if rs.Ok? {
      assert forall x :: x in rs.value <==> x in multiset(rs.value);
      assert forall x :: x in ru.value <==> x in multiset(ru.value);
      JoinBySet(cat.dpoints, cat.tools, rs.value, ru.value, Ltbs(tools));
    }
  }

  // ---------------------------------------------------------------------------
  // get_ordered_dpoint_list

  /** `next(x for x in unique if name == x.name)`, without a default. */
  function FirstNamed(unique: seq<DPoint>, name: string): (r: Result<DPoint>)
    ensures r.Ok? <==> exists k :: 0 <= k < |unique| && unique[k].name == name
    ensures r.Err? ==> r.error == StopIteration
    ensures r.Ok? ==> exists k :: 0 <= k < |unique| && unique[k] == r.value && r.value.name == name
                                  && forall j :: 0 <= j < k ==> unique[j].name != name
    decreases |unique|
  {
    if |unique| == 0 then Err(StopIteration)
    else if unique[0].name == name then Ok(unique[0])
    else
      var r := FirstNamed(unique[1..], name);
      assert forall k :: 1 <= k < |unique| ==> unique[k] == unique[1..][k - 1];
      if r.Ok? then
        var k :| 0 <= k < |unique[1..]| && unique[1..][k] == r.value && r.value.name == name
                 && forall j :: 0 <= j < k ==> unique[1..][j].name != name;
        assert unique[k + 1] == r.value;
        r
      else r
  }

  /** One point per name, in the order of `names`; the first missing name stops the loop. */
  function PickEach(names: seq<string>, unique: seq<DPoint>): (r: Result<seq<DPoint>>)
    ensures r.Ok? <==> forall i :: 0 <= i < |names| ==> FirstNamed(unique, names[i]).Ok?
    ensures r.Err? ==> r.error == StopIteration
    ensures r.Ok? ==> |r.value| == |names| && forall i :: 0 <= i < |names| ==> r.value[i] == FirstNamed(unique, names[i]).value
    decreases |names|
  {
    if |names| == 0 then Ok([])
    else
      var p :- FirstNamed(unique, names[0]);
      var rest := PickEach(names[1..], unique);
      assert forall i :: 1 <= i < |names| ==> names[i] == names[1..][i - 1];
      if rest.Err? then Err(rest.error) else Ok([p] + rest.value)
  }

  /** Some catalog point of that name sits on a tool whose address is requested. */
  predicate Available(cat: Catalog, name: string, ltbs: seq<int>) {
    exists i, j :: 0 <= i < |cat.dpoints| && 0 <= j < |cat.tools| && cat.dpoints[i].name == name
                   && cat.tools[j].ltbAddr == cat.dpoints[i].ltbAddr && cat.dpoints[i].ltbAddr in ltbs
  }

  /** A requested name is found among the selected points exactly when the catalog has it for those addresses. */
  lemma {:induction false} FoundIffAvailable(cat: Catalog, names: seq<string>, ltbs: seq<int>, n: string)
    requires n in names
    ensures FirstNamed(SelectDPoints(cat, names, ltbs), n).Ok? <==> Available(cat, n, ltbs)
  {
    var unique := SelectDPoints(cat, names, ltbs);
    if FirstNamed(unique, n).Ok? {
      var k :| 0 <= k < |unique| && unique[k].name == n;
      assert unique[k] in unique;
    }
    if Available(cat, n, ltbs) {
      var a, b :| 0 <= a < |cat.dpoints| && 0 <= b < |cat.tools| && cat.dpoints[a].name == n
                  && cat.tools[b].ltbAddr == cat.dpoints[a].ltbAddr && cat.dpoints[a].ltbAddr in ltbs;
      assert Selected(cat.dpoints[a], cat.tools[b], names, ltbs);
      var p := JoinedPoint(cat.dpoints[a], cat.tools[b]);
      assert p in unique;
      var k :| 0 <= k < |unique| && unique[k] == p;
      assert unique[k].name == n;
    }
  }

  /**
   * `get_ordered_dpoint_list(names, tools)`: succeeds exactly when every name
   * is available for the tools, and then yields one point per name, in order,
   * each the first catalog match by name.
   */
  function GetOrderedDPointList(cat: Catalog, names: seq<string>, tools: seq<Tool>): (r: Result<seq<DPoint>>)
    ensures r.Ok? <==> forall i :: 0 <= i < |names| ==> Available(cat, names[i], Ltbs(tools))
    ensures r.Err? ==> r.error == StopIteration
    ensures r.Ok? ==> |r.value| == |names|
    ensures r.Ok? ==> forall i :: 0 <= i < |names| ==>
              && r.value[i].name == names[i] && r.value[i].ltbAddr in Ltbs(tools)
              && r.value[i].time.None? && r.value[i].depth.None?
              && FirstNamed(SelectDPoints(cat, names, Ltbs(tools)), names[i]).Ok?
              && r.value[i] == FirstNamed(SelectDPoints(cat, names, Ltbs(tools)), names[i]).value
  {
    var ltbs := Ltbs(tools);
    var unique := SelectDPoints(cat, names, ltbs);
    forall i | 0 <= i < |names|
      ensures FirstNamed(unique, names[i]).Ok? <==> Available(cat, names[i], ltbs)
    {
      FoundIffAvailable(cat, names, ltbs, names[i]);
    }
    var r := PickEach(names, unique);
    forall i | r.Ok? && 0 <= i < |names| ensures r.value[i] in unique {
      var k :| 0 <= k < |unique| && unique[k] == r.value[i] && r.value[i].name == names[i]
               && forall j :: 0 <= j < k ==> unique[j].name != names[i];
    }
    r
  }
}

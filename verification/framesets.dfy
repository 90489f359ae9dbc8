/**
 * Frameset assembly and reconciliation: building an FSL from one `fslN` slot
 * of the request (update intervals, the toolface and NMR rate rules, the three
 * point lists), collecting the tools and utility names over all six slots, and
 * folding the frame generator's answer for one frameset back into the FSL.
 */
module Framesets {
  import opened Wrappers
  import Seqs
  import opened Models
  import opened Catalog
  import opened Request
  import opened Resolver
  import Rules

  // ---------------------------------------------------------------------------
  // Update intervals

  /** `{item["Name"]: item["Update"] for item in items}`. */
  function UpdatesMap(items: seq<NamedUpdate>): (r: map<string, Scalar>)
    ensures forall k :: k in r <==> exists i :: 0 <= i < |items| && items[i].name == k
    decreases |items|
  {
    if |items| == 0 then map[]
    else
      var front := items[..|items| - 1];
      assert forall i :: 0 <= i < |front| ==> front[i] == items[i];
      UpdatesMap(front)[items[|items| - 1].name := items[|items| - 1].update]
  }

  /** In the comprehension the last entry for a name wins. */
  lemma {:induction false} UpdatesMapLastWins(items: seq<NamedUpdate>, i: nat)
    requires i < |items|
    requires forall j :: i < j < |items| ==> items[j].name != items[i].name
    ensures items[i].name in UpdatesMap(items) && UpdatesMap(items)[items[i].name] == items[i].update
    decreases |items|
  {
    if i < |items| - 1 {
      var front := items[..|items| - 1];
      assert front[i] == items[i];
      UpdatesMapLastWins(front, i);
    }
  }

  /** The names whose NMR rule sets the time to 1.15 times the NMR interval. */
  const NmrBlockNames: seq<string> := ["O_T2MRP_m", "O_T2SV1_m", "O_T2SV2_m", "T2LM2_m", "MRP2C_m", "MRF2C_m", "BFV2C_m"]

  /** The MagniSphere projection, which carries the update of four points. */
  const NmrProjectionNames: seq<string> := ["O_MR_PRJ8_m4", "O_MR_PRJ8_m4", "O_MR_PRJ8_m4", "O_MR_PRJ8_m4"]

  /** Toolface points that take the TF interval as it is. */
  const TfNames: seq<string> := ["mtf", "mtfs"]
  const TfSourceNames: seq<string> := ["ITFS_g", "GTFS_g", "CO_ITF_gdi"]
  const GtfNames: seq<string> := ["gtf", "gtfs"]

  /** Raw toolface components, which come in sets of four and replace `mtf`/`mtfs`. */
  const RawTfNames: seq<string> := ["hz", "hy", "gy", "gz", "rhz", "rhy", "rgy", "rgz"]
  const TfNameSet: set<string> := {"mtf", "mtfs"}

  /** The rotating-frame points that keep the catalog's own interval. */
  const RotSkipped: set<string> := {"GEN1_p", "GEN13_p", "ANNPRESS_p"}

  /** The three interval rules of `get_fsl_data`, each with the integer it was read with. */
  datatype RateRule = NmrRate(n: int) | MtfRate(n: int) | GtfRate(n: int)

  /** The interval a rule assigns to one name, if it assigns one. */
  function Rate(rule: RateRule, dp: string): (r: Option<Scalar>)
    ensures rule.NmrRate? ==> (r.Some? <==> dp in NmrBlockNames || dp in NmrProjectionNames)
    ensures rule.MtfRate? ==> (r.Some? <==> dp in TfNames || dp in TfSourceNames || dp in RawTfNames)
    ensures rule.GtfRate? ==> (r.Some? <==> dp in GtfNames)
  {
    match rule
    case NmrRate(n) =>
      if dp in NmrProjectionNames then Some(Number((n * 4) as real))
      else if dp in NmrBlockNames then Some(Number(n as real * 1.15))
      else None
    case MtfRate(n) =>
      if dp in RawTfNames then Some(Number((n * 4) as real))
      else if dp in TfNames || dp in TfSourceNames then Some(Number(n as real))
      else None
    case GtfRate(n) =>
      if dp in GtfNames then Some(Number(n as real)) else None
  }

  /** `for dpoint in names: if <rule applies>: time_update[dpoint] = <interval>`. */
  function Assign(names: seq<string>, rule: RateRule, time: map<string, Scalar>): (r: map<string, Scalar>)
    ensures forall k :: k in r <==> k in time || (k in names && Rate(rule, k).Some?)
    decreases |names|
  {
    if |names| == 0 then time
    else
      var dp := names[0];
      var t1 := if Rate(rule, dp).Some? then time[dp := Rate(rule, dp).value] else time;
      assert forall k :: k in names <==> k == dp || k in names[1..];
      Assign(names[1..], rule, t1)
  }

  /** Every name the rule applies to carries the rule's interval; every other entry is kept. */
  lemma {:induction false} AssignValues(names: seq<string>, rule: RateRule, time: map<string, Scalar>, k: string)
    ensures k in names && Rate(rule, k).Some? ==> Assign(names, rule, time)[k] == Rate(rule, k).value
    ensures k in time && !(k in names && Rate(rule, k).Some?) ==> Assign(names, rule, time)[k] == time[k]
    decreases |names|
  {
    if |names| > 0 {
      var dp := names[0];
      var t1 := if Rate(rule, dp).Some? then time[dp := Rate(rule, dp).value] else time;
      assert forall x :: x in names <==> x == dp || x in names[1..];
      AssignValues(names[1..], rule, t1, k);
    }
  }

  predicate NmrTimed(dp: string) {
    dp in NmrBlockNames || dp in NmrProjectionNames
  }

  predicate TfTimed(dp: string) {
    dp in TfNames || dp in TfSourceNames || dp in RawTfNames
  }

  /**
   * `int(fsl_data.get(key))` as the loop reads it: only at a name the rule
   * applies to, so a bad value fails exactly when some such name is listed.
   */
  function Lazily(v: Scalar, listed: bool): (r: Result<Option<int>>)
    ensures r.Err? <==> listed && PyInt(v).Err?
    ensures r.Err? ==> r.error == PyInt(v).error
    ensures r.Ok? ==> (r.value.Some? <==> PyInt(v).Ok?) && (r.value.Some? ==> r.value.value == PyInt(v).value)
  {
    match PyInt(v)
    case Ok(n) => Ok(Some(n))
    case Err(e) => if listed then Err(e) else Ok(None)
  }

  /** The time update after the NMR rule, entered only when `NMR` is truthy. */
  function NmrStage(rot: seq<string>, nmr: Scalar, time: map<string, Scalar>): (r: Result<map<string, Scalar>>)
    ensures r.Err? <==> Truthy(nmr) && PyInt(nmr).Err? && exists i :: 0 <= i < |rot| && NmrTimed(rot[i])
    ensures r.Err? ==> r.error == PyInt(nmr).error
    ensures r.Ok? ==> r.value == if Truthy(nmr) && PyInt(nmr).Ok? then Assign(rot, NmrRate(PyInt(nmr).value), time) else time
  {
    if !Truthy(nmr) then Ok(time)
    else
      var n :- Lazily(nmr, exists i :: 0 <= i < |rot| && NmrTimed(rot[i]));
      if n.Some? then Ok(Assign(rot, NmrRate(n.value), time)) else Ok(time)
  }

  predicate HasRawTf(s: seq<string>) {
    exists i :: 0 <= i < |s| && s[i] in RawTfNames
  }

  /** The MTF list as the loop leaves it: each raw component filters out `mtf` and `mtfs` again. */
  function FilterLoop(todo: seq<string>, names: seq<string>): (r: seq<string>)
    decreases |todo|
  {
    if |todo| == 0 then names
    else FilterLoop(todo[1..], if todo[0] in RawTfNames then Seqs.Without(names, TfNameSet) else names)
  }

  /** Repeated filtering is one filter, applied exactly when a raw component is listed. */
  lemma {:induction false} FilterLoopOnce(todo: seq<string>, names: seq<string>)
    ensures FilterLoop(todo, names) == if HasRawTf(todo) then Seqs.Without(names, TfNameSet) else names
    decreases |todo|
  {
    if |todo| > 0 {
      var next := if todo[0] in RawTfNames then Seqs.Without(names, TfNameSet) else names;
      FilterLoopOnce(todo[1..], next);
      assert HasRawTf(todo) <==> todo[0] in RawTfNames || HasRawTf(todo[1..]) by {
        assert forall i :: 1 <= i < |todo| ==> todo[i] == todo[1..][i - 1];
        if HasRawTf(todo[1..]) {
          var i :| 0 <= i < |todo[1..]| && todo[1..][i] in RawTfNames;
          assert todo[i + 1] in RawTfNames;
        }
      }
      Seqs.WithoutIdempotent(names, TfNameSet);
    }
  }

  predicate AnyListed(s: seq<string>, rule: RateRule) {
    exists i :: 0 <= i < |s| && Rate(rule, s[i]).Some?
  }

  /** The toolface loops over MTF and then GTF; both read the same `TF` value. */
  function TfStage(mtf: seq<string>, gtf: seq<string>, tf: Scalar, time: map<string, Scalar>): (r: Result<map<string, Scalar>>)
    ensures r.Err? <==> PyInt(tf).Err? && (AnyListed(mtf, MtfRate(0)) || AnyListed(gtf, GtfRate(0)))
    ensures r.Err? ==> r.error == PyInt(tf).error
    ensures r.Ok? && PyInt(tf).Ok? ==> r.value == Assign(gtf, GtfRate(PyInt(tf).value), Assign(mtf, MtfRate(PyInt(tf).value), time))
    ensures r.Ok? && PyInt(tf).Err? ==> r.value == time
  {
    var n :- Lazily(tf, AnyListed(mtf, MtfRate(0)) || AnyListed(gtf, GtfRate(0)));
    if n.Some? then Ok(Assign(gtf, GtfRate(n.value), Assign(mtf, MtfRate(n.value), time))) else Ok(time)
  }

  /** `x if x else default` for the six spacing fields. */
  function OrDefault(v: Scalar, default: real): (r: Scalar)
    ensures Truthy(v) ==> r == v
    ensures !Truthy(v) ==> r == Number(default)
  {
    if Truthy(v) then v else Number(default)
  }

  /** The names the MTF frame requests once the loop is done. */
  function RequestedMtf(mtf: seq<string>): (r: seq<string>)
    ensures HasRawTf(mtf) ==> "mtf" !in r && "mtfs" !in r
    ensures forall t :: t !in TfNameSet ==> (t in r <==> t in mtf)
    ensures forall t :: t in r ==> t in mtf
  {
    FilterLoopOnce(mtf, mtf);
    var r := FilterLoop(mtf, mtf);
    forall t | t in TfNameSet ensures t !in Seqs.Without(mtf, TfNameSet) {
      Seqs.WithoutExcludes(mtf, TfNameSet, t);
    }
    forall t ensures t in Seqs.Without(mtf, TfNameSet) <==> t in mtf && t !in TfNameSet {
      Seqs.WithoutMembership(mtf, TfNameSet, t);
    }
    r
  }

  // ---------------------------------------------------------------------------
  // get_fsl_data

  /** `ps` holds, in order, the identities of the points `get_dpoint_list` selects for `names`. */
  predicate Resolves(cat: Catalog, names: seq<string>, tools: seq<Tool>, ps: seq<DPoint>) {
    && Rules.ApplyRules(names, tools).Ok?
    && var sel := SelectDPoints(cat, Rules.ApplyRules(names, tools).value, Ltbs(tools));
       && |ps| == |sel|
       && forall i :: 0 <= i < |sel| ==> KeyOf(ps[i]) == KeyOf(sel[i])
  }

  /** A resolved list keeps its identities whatever overrides were applied to it. */
  lemma ResolvedIdentities(cat: Catalog, names: seq<string>, tools: seq<Tool>, up: Updates)
    requires GetDPointList(cat, names, tools, up).Ok?
    ensures Resolves(cat, names, tools, GetDPointList(cat, names, tools, up).value)
  {}

  /** Points whose name was taken out of the time update keep the catalog's interval. */
  lemma {:induction false} RemovedNamesKeepCatalogTime(cat: Catalog, names: seq<string>, tools: seq<Tool>,
                                                       time: map<string, Scalar>, depth: map<string, Scalar>, skip: set<string>)
    requires GetDPointList(cat, names, tools, Updates(time - skip, depth)).Ok?
    ensures forall p :: p in GetDPointList(cat, names, tools, Updates(time - skip, depth)).value && p.name in skip ==> p.time.None?
  {
    var up := Updates(time - skip, depth);
    var r := GetDPointList(cat, names, tools, up).value;
    var sel := SelectDPoints(cat, Rules.ApplyRules(names, tools).value, Ltbs(tools));
    forall p | p in r && p.name in skip ensures p.time.None? {
      var i :| 0 <= i < |r| && r[i] == p;
      assert KeyOf(r[i]) == KeyOf(sel[i]);
      assert !TimeApplies(sel[i], up);
    }
  }

  /** The time update after the NMR rule and the two toolface loops. */
  function TimeUpdate(d: FslData, mtf: seq<string>, gtf: seq<string>, rot: seq<string>): (r: Result<map<string, Scalar>>)
    ensures Truthy(d.nmr) && PyInt(d.nmr).Err? && (exists i :: 0 <= i < |rot| && NmrTimed(rot[i])) ==> r == Err(PyInt(d.nmr).error)
    ensures r.Ok? ==> NmrStage(rot, d.nmr, UpdatesMap(d.time)).Ok?
    ensures r.Ok? ==> TfStage(mtf, gtf, d.tf, NmrStage(rot, d.nmr, UpdatesMap(d.time)).value) == r
  {
    var time1 :- NmrStage(rot, d.nmr, UpdatesMap(d.time));
    TfStage(mtf, gtf, d.tf, time1)
  }

  /**
   * `get_fsl_data(fsl_data, tools)`: decodes the three frame lists, applies the
   * NMR and toolface interval rules to the time update, resolves MTF and GTF
   * with it and the rotating frame without the skipped names, and builds the FSL.
   */
  function GetFslData(cat: Catalog, d: FslData, tools: seq<Tool>): (r: Result<Fsl>)
    ensures Loads(d.mtf).Err? ==> r == Err(Loads(d.mtf).error)
    ensures Loads(d.mtf).Ok? && Loads(d.gtf).Err? ==> r == Err(Loads(d.gtf).error)
    ensures Loads(d.mtf).Ok? && Loads(d.gtf).Ok? && Loads(d.rot).Err? ==> r == Err(Loads(d.rot).error)
    ensures (&& d.mtf.Decoded? && d.gtf.Decoded? && d.rot.Decoded? && Truthy(d.nmr) && PyInt(d.nmr).Err?
             && exists i :: 0 <= i < |d.rot.value| && NmrTimed(d.rot.value[i]))
            ==> r == Err(PyInt(d.nmr).error)
    ensures r.Ok? ==> d.mtf.Decoded? && d.gtf.Decoded? && d.rot.Decoded?
    ensures r.Ok? ==> Resolves(cat, RequestedMtf(d.mtf.value), tools, r.value.mtf)
                      && Resolves(cat, d.gtf.value, tools, r.value.gtf)
                      && Resolves(cat, d.rot.value, tools, r.value.rotary)
    ensures r.Ok? ==> TimeUpdate(d, d.mtf.value, d.gtf.value, d.rot.value).Ok?
    ensures r.Ok? && TimeUpdate(d, d.mtf.value, d.gtf.value, d.rot.value).Ok? ==>
              var time := TimeUpdate(d, d.mtf.value, d.gtf.value, d.rot.value).value;
              && GetDPointList(cat, RequestedMtf(d.mtf.value), tools, Updates(time, UpdatesMap(d.depth))) == Ok(r.value.mtf)
              && GetDPointList(cat, d.gtf.value, tools, Updates(time, UpdatesMap(d.depth))) == Ok(r.value.gtf)
              && GetDPointList(cat, d.rot.value, tools, Updates(time - RotSkipped, UpdatesMap(d.depth))) == Ok(r.value.rotary)
    ensures r.Ok? ==> forall p :: p in r.value.rotary && p.name in RotSkipped ==> p.time.None?
    ensures r.Ok? ==> r.value.maxBoundsPct == (if HasRawTf(d.mtf.value) && |r.value.mtf| < 20 then 70 else 50)
    ensures r.Ok? ==> r.value.minBoundsPct == 10 && r.value.maxDpoints == 165
    ensures r.Ok? ==> && r.value.r1Block == OrDefault(d.r1Block, 2.0) && r.value.r1Space == OrDefault(d.r1Space, 100.0)
                      && r.value.r2Block == OrDefault(d.r2Block, 2.0) && r.value.r2Space == OrDefault(d.r2Space, 200.0)
                      && r.value.r3Block == OrDefault(d.r3Block, 2.0) && r.value.r3Space == OrDefault(d.r3Space, 300.0)
    ensures r.Ok? ==> && r.value.description == d.description
                      && FloatField(d.rop).Ok? && r.value.rop == FloatField(d.rop).value
                      && FloatField(d.bitrate).Ok? && r.value.bitrate == FloatField(d.bitrate).value
  {
    var mtf :- Loads(d.mtf);
    var gtf :- Loads(d.gtf);
    var rot :- Loads(d.rot);
    var depth := UpdatesMap(d.depth);
    var time2 :- TimeUpdate(d, mtf, gtf, rot);
    var mtfPts :- GetDPointList(cat, RequestedMtf(mtf), tools, Updates(time2, depth));
    var gtfPts :- GetDPointList(cat, gtf, tools, Updates(time2, depth));
    var rotPts :- GetDPointList(cat, rot, tools, Updates(time2 - RotSkipped, depth));
    ResolvedIdentities(cat, RequestedMtf(mtf), tools, Updates(time2, depth));
    ResolvedIdentities(cat, gtf, tools, Updates(time2, depth));
    ResolvedIdentities(cat, rot, tools, Updates(time2 - RotSkipped, depth));
    RemovedNamesKeepCatalogTime(cat, rot, tools, time2, depth, RotSkipped);
    var fsl :- MakeFsl(d.description, d.bitrate, d.rop, d.nonOrion, d.orion, mtfPts, gtfPts, rotPts,
                       OrDefault(d.r1Block, 2.0), OrDefault(d.r1Space, 100.0),
                       OrDefault(d.r2Block, 2.0), OrDefault(d.r2Space, 200.0),
                       OrDefault(d.r3Block, 2.0), OrDefault(d.r3Space, 300.0));
    Ok(if HasRawTf(mtf) && |fsl.mtf| < 20 then fsl.(maxBoundsPct := 70) else fsl)
  }

  /** A name no rule touches reaches the rewritten list only from the request. */
  lemma NameFromRequest(names: seq<string>, tools: seq<Tool>, t: string)
    requires Rules.ApplyRules(names, tools).Ok? && t !in Rules.Touched
    ensures t in Rules.ApplyRules(names, tools).value <==> t in names
  {
    Rules.RulesKeepOthers(names, tools);
    Seqs.WithoutMembership(Rules.ApplyRules(names, tools).value, Rules.Touched, t);
    Seqs.WithoutMembership(names, Rules.Touched, t);
  }

  /** A resolved point takes the time update's value for its name, when that value reads as a float. */
  lemma ResolvedTime(cat: Catalog, names: seq<string>, tools: seq<Tool>, up: Updates, p: DPoint, x: real)
    requires GetDPointList(cat, names, tools, up).Ok?
    requires p in GetDPointList(cat, names, tools, up).value
    requires p.name in up.time && up.time[p.name] == Number(x)
    ensures p.time == Some(x)
  {
    var r := GetDPointList(cat, names, tools, up).value;
    var sel := SelectDPoints(cat, Rules.ApplyRules(names, tools).value, Ltbs(tools));
    var i :| 0 <= i < |r| && r[i] == p;
    assert KeyOf(r[i]) == KeyOf(sel[i]);
  }

  /** The time update gives a listed toolface name the toolface interval. */
  lemma TfTime(d: FslData, mtf: seq<string>, gtf: seq<string>, rot: seq<string>, t: string)
    requires TimeUpdate(d, mtf, gtf, rot).Ok? && PyInt(d.tf).Ok? && t in mtf && TfTimed(t)
    ensures t in TimeUpdate(d, mtf, gtf, rot).value
    ensures TimeUpdate(d, mtf, gtf, rot).value[t] ==
              Number(if t in RawTfNames then (PyInt(d.tf).value * 4) as real else PyInt(d.tf).value as real)
  {
    var n := PyInt(d.tf).value;
    var time1 := NmrStage(rot, d.nmr, UpdatesMap(d.time)).value;
    var x := if t in RawTfNames then (n * 4) as real else n as real;
    var time1a := Assign(mtf, MtfRate(n), time1);
    assert Rate(MtfRate(n), t) == Some(Number(x));
    assert Rate(GtfRate(n), t).None? by { TfNotGtf(t); }
    AssignValues(mtf, MtfRate(n), time1, t);
    AssignValues(gtf, GtfRate(n), time1a, t);
  }

  /** One toolface point of the MTF frame and the interval it carries. */
  lemma TfPointTime(cat: Catalog, d: FslData, mtf: seq<string>, gtf: seq<string>, rot: seq<string>, tools: seq<Tool>, p: DPoint)
    requires TimeUpdate(d, mtf, gtf, rot).Ok? && PyInt(d.tf).Ok?
    requires var up := Updates(TimeUpdate(d, mtf, gtf, rot).value, UpdatesMap(d.depth));
             GetDPointList(cat, RequestedMtf(mtf), tools, up).Ok? && p in GetDPointList(cat, RequestedMtf(mtf), tools, up).value
    requires TfTimed(p.name)
    ensures p.time == Some(if p.name in RawTfNames then (PyInt(d.tf).value * 4) as real else PyInt(d.tf).value as real)
  {
    var n := PyInt(d.tf).value;
    var up := Updates(TimeUpdate(d, mtf, gtf, rot).value, UpdatesMap(d.depth));
    TimedNamesUntouched(p.name);
    NameFromRequest(RequestedMtf(mtf), tools, p.name);
    TfTime(d, mtf, gtf, rot, p.name);
    ResolvedTime(cat, RequestedMtf(mtf), tools, up, p, if p.name in RawTfNames then (n * 4) as real else n as real);
  }

  /**
   * The `TF` interval reaches the toolface points of the MTF frame: `mtf`,
   * `mtfs` and the three toolface sources take it as it is, the raw
   * components four times over.
   */
  lemma TfIntervalReachesMtf(cat: Catalog, d: FslData, tools: seq<Tool>)
    requires GetFslData(cat, d, tools).Ok? && PyInt(d.tf).Ok?
    ensures forall p :: p in GetFslData(cat, d, tools).value.mtf && (p.name in TfNames || p.name in TfSourceNames)
                        ==> p.time == Some(PyInt(d.tf).value as real)
    ensures forall p :: p in GetFslData(cat, d, tools).value.mtf && p.name in RawTfNames
                        ==> p.time == Some((PyInt(d.tf).value * 4) as real)
  {
    forall p | p in GetFslData(cat, d, tools).value.mtf && (p.name in TfNames || p.name in TfSourceNames)
      ensures p.time == Some(PyInt(d.tf).value as real)
    {
      TfNotRaw(p.name);
      TfPointTime(cat, d, d.mtf.value, d.gtf.value, d.rot.value, tools, p);
    }
    forall p | p in GetFslData(cat, d, tools).value.mtf && p.name in RawTfNames
      ensures p.time == Some((PyInt(d.tf).value * 4) as real)
    {
      TfPointTime(cat, d, d.mtf.value, d.gtf.value, d.rot.value, tools, p);
    }
  }

  /** No rule of the rule engine adds or drops a name that an interval rule times. */
  lemma TimedNamesUntouched(t: string)
    ensures TfTimed(t) || NmrTimed(t) || t in GtfNames ==> t !in Rules.Touched
  {}

  lemma TfNotGtf(t: string)
    ensures TfTimed(t) ==> t !in GtfNames
  {}

  lemma TfNotRaw(t: string)
    ensures t in TfNames || t in TfSourceNames ==> TfTimed(t) && t !in RawTfNames
  {}

  lemma NmrNotTf(t: string)
    ensures NmrTimed(t) ==> !TfTimed(t) && t !in GtfNames && t !in RotSkipped
    ensures t in NmrBlockNames ==> t !in NmrProjectionNames
  {}

  /** The time update gives a listed NMR name the NMR interval, and the toolface loops leave it. */
  lemma NmrTime(d: FslData, mtf: seq<string>, gtf: seq<string>, rot: seq<string>, t: string)
    requires TimeUpdate(d, mtf, gtf, rot).Ok? && Truthy(d.nmr) && PyInt(d.nmr).Ok? && t in rot && NmrTimed(t)
    ensures t in TimeUpdate(d, mtf, gtf, rot).value
    ensures TimeUpdate(d, mtf, gtf, rot).value[t] ==
              Number(if t in NmrProjectionNames then (PyInt(d.nmr).value * 4) as real else PyInt(d.nmr).value as real * 1.15)
  {
    var n := PyInt(d.nmr).value;
    var time0 := UpdatesMap(d.time);
    var time1 := NmrStage(rot, d.nmr, time0).value;
    var x := if t in NmrProjectionNames then (n * 4) as real else n as real * 1.15;
    NmrNotTf(t);
    NmrRateValue(n, t);
    AssignValues(rot, NmrRate(n), time0, t);
    assert time1 == Assign(rot, NmrRate(n), time0);
    TfKeepsNmr(mtf, gtf, d.tf, time1, t);
  }

  lemma NmrRateValue(n: int, t: string)
    requires NmrTimed(t)
    ensures Rate(NmrRate(n), t) == Some(Number(if t in NmrProjectionNames then (n * 4) as real else n as real * 1.15))
  {
  }

  /** The toolface loops leave an NMR-timed name's interval alone. */
  lemma TfKeepsNmr(mtf: seq<string>, gtf: seq<string>, tf: Scalar, time1: map<string, Scalar>, t: string)
    requires TfStage(mtf, gtf, tf, time1).Ok? && NmrTimed(t) && t in time1
    ensures t in TfStage(mtf, gtf, tf, time1).value && TfStage(mtf, gtf, tf, time1).value[t] == time1[t]
  {
    NmrNotTf(t);
    if PyInt(tf).Ok? {
      var m := PyInt(tf).value;
      var time1a := Assign(mtf, MtfRate(m), time1);
      assert Rate(MtfRate(m), t).None? && Rate(GtfRate(m), t).None?;
      AssignValues(mtf, MtfRate(m), time1, t);
      AssignValues(gtf, GtfRate(m), time1a, t);
    }
  }

  /** The same, once the skipped names are taken out of the time update. */
  lemma NmrTimeForRotary(d: FslData, mtf: seq<string>, gtf: seq<string>, rot: seq<string>, t: string)
    requires TimeUpdate(d, mtf, gtf, rot).Ok? && Truthy(d.nmr) && PyInt(d.nmr).Ok? && t in rot && NmrTimed(t)
    ensures t in TimeUpdate(d, mtf, gtf, rot).value - RotSkipped
    ensures (TimeUpdate(d, mtf, gtf, rot).value - RotSkipped)[t] ==
              Number(if t in NmrProjectionNames then (PyInt(d.nmr).value * 4) as real else PyInt(d.nmr).value as real * 1.15)
  {
    NmrNotTf(t);
    NmrTime(d, mtf, gtf, rot, t);
  }

  /** A resolved point whose name no rule touches was requested under that name. */
  lemma ResolvedFromRequest(cat: Catalog, names: seq<string>, tools: seq<Tool>, up: Updates, p: DPoint)
    requires GetDPointList(cat, names, tools, up).Ok? && p in GetDPointList(cat, names, tools, up).value
    requires p.name !in Rules.Touched
    ensures p.name in names
  {
    NameFromRequest(names, tools, p.name);
  }

  /** One NMR point of the rotating frame and the interval it carries. */
  lemma NmrPointTime(cat: Catalog, d: FslData, mtf: seq<string>, gtf: seq<string>, rot: seq<string>, tools: seq<Tool>, p: DPoint)
    requires TimeUpdate(d, mtf, gtf, rot).Ok? && Truthy(d.nmr) && PyInt(d.nmr).Ok?
    requires var up := Updates(TimeUpdate(d, mtf, gtf, rot).value - RotSkipped, UpdatesMap(d.depth));
             GetDPointList(cat, rot, tools, up).Ok? && p in GetDPointList(cat, rot, tools, up).value
    requires NmrTimed(p.name)
    ensures p.time == Some(if p.name in NmrProjectionNames then (PyInt(d.nmr).value * 4) as real else PyInt(d.nmr).value as real * 1.15)
  {
    var up := Updates(TimeUpdate(d, mtf, gtf, rot).value - RotSkipped, UpdatesMap(d.depth));
    TimedNamesUntouched(p.name);
    ResolvedFromRequest(cat, rot, tools, up, p);
    NmrTimeForRotary(d, mtf, gtf, rot, p.name);
    ResolvedTime(cat, rot, tools, up, p, if p.name in NmrProjectionNames then (PyInt(d.nmr).value * 4) as real else PyInt(d.nmr).value as real * 1.15);
  }

  /**
   * A truthy `NMR` interval reaches the NMR points of the rotating frame:
   * the NMR block points take 1.15 times it, the MagniSphere projection four times.
   */
  lemma NmrIntervalReachesRotary(cat: Catalog, d: FslData, tools: seq<Tool>)
    requires GetFslData(cat, d, tools).Ok? && Truthy(d.nmr) && PyInt(d.nmr).Ok?
    ensures forall p :: p in GetFslData(cat, d, tools).value.rotary && p.name in NmrBlockNames
                        ==> p.time == Some(PyInt(d.nmr).value as real * 1.15)
    ensures forall p :: p in GetFslData(cat, d, tools).value.rotary && p.name in NmrProjectionNames
                        ==> p.time == Some((PyInt(d.nmr).value * 4) as real)
  {
    forall p | p in GetFslData(cat, d, tools).value.rotary && p.name in NmrBlockNames
      ensures p.time == Some(PyInt(d.nmr).value as real * 1.15)
    {
      NmrNotTf(p.name);
      NmrPointTime(cat, d, d.mtf.value, d.gtf.value, d.rot.value, tools, p);
    }
    forall p | p in GetFslData(cat, d, tools).value.rotary && p.name in NmrProjectionNames
      ensures p.time == Some((PyInt(d.nmr).value * 4) as real)
    {
      NmrPointTime(cat, d, d.mtf.value, d.gtf.value, d.rot.value, tools, p);
    }
  }

  // ---------------------------------------------------------------------------
  // Tools and utility names over the six slots

  /** The six slots `fsl1`..`fsl6`, in order. */
  function Slots(data: RequestData): (r: seq<Slot>)
    ensures |r| == 6 && forall i :: 0 <= i < 6 ==> r[i] == SlotAt(data, i)
  {
    [SlotAt(data, 0), SlotAt(data, 1), SlotAt(data, 2), SlotAt(data, 3), SlotAt(data, 4), SlotAt(data, 5)]
  }

  /** A truthy slot contributes its decoded list; an absent, null or empty one is passed over. */
  predicate Fails<T>(f: Option<Json<seq<T>>>) {
    f.Some? && Loads(f.value).Err?
  }

  /** `for each slot: if slot: current = json.loads(slot.get(key)); if current: acc += current`. */
  function Collect<T(!new)>(fields: seq<Option<Json<seq<T>>>>): (r: Result<seq<T>>)
    ensures r.Err? <==> exists i :: 0 <= i < |fields| && Fails(fields[i])
    ensures r.Err? ==> exists i :: && 0 <= i < |fields| && Fails(fields[i])
                                   && r.error == Loads(fields[i].value).error
                                   && forall j :: 0 <= j < i ==> !Fails(fields[j])
    ensures r.Ok? ==> forall x :: x in r.value <==>
              exists i :: 0 <= i < |fields| && fields[i].Some? && fields[i].value.Decoded? && x in fields[i].value.value
    decreases |fields|
  {
    if |fields| == 0 then Ok([])
    else
      var head :- if fields[0].Some? then Loads(fields[0].value) else Ok([]);
      var rest := Collect(fields[1..]);
      assert forall i :: 1 <= i < |fields| ==> fields[i] == fields[1..][i - 1];
      if rest.Err? then
        var k :| && 0 <= k < |fields[1..]| && Fails(fields[1..][k])
                 && rest.error == Loads(fields[1..][k].value).error
                 && forall j :: 0 <= j < k ==> !Fails(fields[1..][j]);
        assert Fails(fields[k + 1]);
        Err(rest.error)
      else
        Ok(head + rest.value)
  }

  function ToolsFields(slots: seq<Slot>): (r: seq<Option<Json<seq<ToolEntry>>>>)
    ensures |r| == |slots| && forall i :: 0 <= i < |slots| ==> r[i] == if slots[i].Filled? then Some(slots[i].d.tools) else None
  {
    seq(|slots|, i requires 0 <= i < |slots| => if slots[i].Filled? then Some(slots[i].d.tools) else None)
  }

  function UtilFields(slots: seq<Slot>): (r: seq<Option<Json<seq<string>>>>)
    ensures |r| == |slots| && forall i :: 0 <= i < |slots| ==> r[i] == if slots[i].Filled? then Some(slots[i].d.util) else None
  {
    seq(|slots|, i requires 0 <= i < |slots| => if slots[i].Filled? then Some(slots[i].d.util) else None)
  }

  /** `get_frameset_tools(data)`: the `TOOLS` lists of the truthy slots, concatenated in slot order. */
  function GetFramesetTools(data: RequestData): (r: Result<seq<ToolEntry>>)
    ensures r.Err? <==> exists i :: 0 <= i < 6 && SlotAt(data, i).Filled? && Loads(SlotAt(data, i).d.tools).Err?
    ensures r.Ok? ==> forall e :: e in r.value <==>
              exists i :: 0 <= i < 6 && SlotAt(data, i).Filled? && SlotAt(data, i).d.tools.Decoded? && e in SlotAt(data, i).d.tools.value
  {
    var fields := ToolsFields(Slots(data));
    assert forall i :: 0 <= i < 6 ==> (Fails(fields[i]) <==> SlotAt(data, i).Filled? && Loads(SlotAt(data, i).d.tools).Err?);
    Collect(fields)
  }

  /**
   * `get_frameset_utility_dpoints(data)`: the `UTIL` names of the truthy slots,
   * each once. The source returns `list(set(...))`, whose order Python leaves
   * open; the model fixes first-seen order, and `UtilityOrderIrrelevant` shows
   * no consumer can tell the difference.
   */
  function GetFramesetUtilityDPoints(data: RequestData): (r: Result<seq<string>>)
    ensures r.Err? <==> exists i :: 0 <= i < 6 && SlotAt(data, i).Filled? && Loads(SlotAt(data, i).d.util).Err?
    ensures r.Ok? ==> Seqs.NoDuplicates(r.value)
    ensures r.Ok? ==> forall x :: x in r.value <==>
              exists i :: 0 <= i < 6 && SlotAt(data, i).Filled? && SlotAt(data, i).d.util.Decoded? && x in SlotAt(data, i).d.util.value
  {
    var fields := UtilFields(Slots(data));
    assert forall i :: 0 <= i < 6 ==> (Fails(fields[i]) <==> SlotAt(data, i).Filled? && Loads(SlotAt(data, i).d.util).Err?);
    var all :- Collect(fields);
    Ok(Seqs.Dedup(all))
  }

  /**
   * Any arrangement of the utility names, as `list(set(...))` may produce,
   * resolves to the same utility frame.
   */
  lemma UtilityOrderIrrelevant(cat: Catalog, data: RequestData, u: seq<string>, tools: seq<Tool>, up: Updates)
    requires GetFramesetUtilityDPoints(data).Ok?
    requires Seqs.NoDuplicates(u) && forall x :: x in u <==> x in GetFramesetUtilityDPoints(data).value
    ensures GetDPointList(cat, u, tools, up) == GetDPointList(cat, GetFramesetUtilityDPoints(data).value, tools, up)
  {
    Seqs.SameElementsSameMultiset(u, GetFramesetUtilityDPoints(data).value);
    GetDPointListIgnoresOrder(cat, u, GetFramesetUtilityDPoints(data).value, tools, up);
  }

  // ---------------------------------------------------------------------------
  // Folding the generator's answer back

  /** A key of the generator's answer for one frameset: absent, or present with a value. */
  datatype Field<T> = Absent | Present(value: T)

  /** The answer's `Parameters`: absent, `null`, or an object whose `ROP` may be absent. */
  datatype ParamsField = NoParams | NullParams | ParamsObj(rop: Field<Option<real>>)

  /** The generator's answer for one frameset, as far as the core reads it. */
  datatype FslOutput = FslOutput(parameters: ParamsField, mtf: Field<seq<string>>, gtf: Field<seq<string>>, rotary: Field<seq<string>>)

  const FloatGetMessage: string := "'float' object has no attribute 'get'"

  /** `fsl_data.get("Parameters", frame_set.rop).get("ROP", frame_set.rop)`. */
  function AnsweredRop(params: ParamsField, current: Option<real>): (r: Result<Option<real>>)
    ensures params.ParamsObj? ==> r == Ok(if params.rop.Present? then params.rop.value else current)
    ensures params.NullParams? ==> r == Err(AttributeError(NoneGetMessage))
    ensures params.NoParams? ==> r == Err(AttributeError(if current.None? then NoneGetMessage else FloatGetMessage))
  {
    match params
    case ParamsObj(rop) => Ok(if rop.Present? then rop.value else current)
    case NullParams => Err(AttributeError(NoneGetMessage))
    case NoParams => Err(AttributeError(if current.None? then NoneGetMessage else FloatGetMessage))
  }

  /**
   * `get_ordered_dpoint_list(fsl_data.get(key, current), tools)`. Without the
   * key the current points themselves are passed as names: the catalog query
   * cannot bind them and finds nothing, so any point stops the lookup.
   */
  function Reordered(cat: Catalog, f: Field<seq<string>>, current: seq<DPoint>, tools: seq<Tool>): (r: Result<seq<DPoint>>)
    ensures f.Present? ==> r == GetOrderedDPointList(cat, f.value, tools)
    ensures f.Absent? ==> r == if |current| == 0 then Ok([]) else Err(StopIteration)
  {
    match f
    case Present(names) => GetOrderedDPointList(cat, names, tools)
    case Absent => if |current| == 0 then Ok([]) else Err(StopIteration)
  }

  /**
   * `update_fsl(frame_set, fsl_data, tools)`: takes the ROP the generator
   * settled on and replaces each frame by the generator's names in the
   * generator's order; everything else about the frameset is kept.
   */
  function UpdateFsl(cat: Catalog, fs: Fsl, out: FslOutput, tools: seq<Tool>): (r: Result<Fsl>)
    ensures r.Ok? <==> && AnsweredRop(out.parameters, fs.rop).Ok?
                       && Reordered(cat, out.mtf, fs.mtf, tools).Ok?
                       && Reordered(cat, out.gtf, fs.gtf, tools).Ok?
                       && Reordered(cat, out.rotary, fs.rotary, tools).Ok?
    ensures AnsweredRop(out.parameters, fs.rop).Err? ==> r == Err(AnsweredRop(out.parameters, fs.rop).error)
    ensures r.Err? && AnsweredRop(out.parameters, fs.rop).Ok? ==> r.error == StopIteration
    ensures r.Ok? ==> r.value.rop == AnsweredRop(out.parameters, fs.rop).value
    ensures r.Ok? ==> r.value == fs.(rop := r.value.rop, mtf := r.value.mtf, gtf := r.value.gtf, rotary := r.value.rotary)
    ensures r.Ok? && out.mtf.Present? ==>
              |r.value.mtf| == |out.mtf.value| && forall i :: 0 <= i < |out.mtf.value| ==> r.value.mtf[i].name == out.mtf.value[i]
    ensures r.Ok? && out.gtf.Present? ==>
              |r.value.gtf| == |out.gtf.value| && forall i :: 0 <= i < |out.gtf.value| ==> r.value.gtf[i].name == out.gtf.value[i]
    ensures r.Ok? && out.rotary.Present? ==>
              |r.value.rotary| == |out.rotary.value| && forall i :: 0 <= i < |out.rotary.value| ==> r.value.rotary[i].name == out.rotary.value[i]
  {
    var rop :- AnsweredRop(out.parameters, fs.rop);
    var mtf :- Reordered(cat, out.mtf, fs.mtf, tools);
    var gtf :- Reordered(cat, out.gtf, fs.gtf, tools);
    var rotary :- Reordered(cat, out.rotary, fs.rotary, tools);
    Ok(fs.(rop := rop, mtf := mtf, gtf := gtf, rotary := rotary))
  }

  /** `update_utility(utility_frame, names, tools)`: the utility frame becomes the names in the given order. */
  function UpdateUtility(cat: Catalog, u: Utility, names: seq<string>, tools: seq<Tool>): (r: Result<Utility>)
    ensures r.Ok? <==> forall i :: 0 <= i < |names| ==> Available(cat, names[i], Ltbs(tools))
    ensures r.Err? ==> r.error == StopIteration
    ensures r.Ok? ==> r.value.description == u.description && r.value.bitrate == u.bitrate && r.value.rop == u.rop
    ensures r.Ok? ==> |r.value.utility| == |names| && forall i :: 0 <= i < |names| ==> r.value.utility[i].name == names[i]
  {
    var ps :- GetOrderedDPointList(cat, names, tools);
    Ok(u.(utility := ps))
  }

  /** Folding the same answer in twice gives the same frameset: the answer's names fix the frames. */
  lemma UpdateFslIdempotent(cat: Catalog, fs: Fsl, out: FslOutput, tools: seq<Tool>)
    requires UpdateFsl(cat, fs, out, tools).Ok?
    requires out.parameters.ParamsObj? && out.mtf.Present? && out.gtf.Present? && out.rotary.Present?
    ensures UpdateFsl(cat, UpdateFsl(cat, fs, out, tools).value, out, tools) == UpdateFsl(cat, fs, out, tools)
  {}
}

/**
 * The data-point rule engine: a fixed sequence of rewrites of a list of
 * data-point names, applied before the names are looked up in the catalog.
 * Each rewrite either drops one occurrence of a superseded name or appends a
 * companion name, keyed on the other names present and on the tools.
 */
module Rules {
  import opened Wrappers
  import opened Seqs
  import opened Models

  function DisplayNames(tools: seq<Tool>): (r: seq<string>)
    ensures |r| == |tools|
    ensures forall k :: 0 <= k < |tools| ==> r[k] == tools[k].displayName
    decreases |tools|
  {
    if |tools| == 0 then [] else [tools[0].displayName] + DisplayNames(tools[1..])
  }

  predicate HasMp3(tools: seq<Tool>) {
    exists k :: 0 <= k < |tools| && tools[k].displayName == "MP3"
  }

  /** `next(tool for tool in tools if tool.display_name == "MP3")`, without a default. */
  function FirstMp3(tools: seq<Tool>): (r: Result<Tool>)
    ensures r.Ok? <==> HasMp3(tools)
    ensures r.Err? ==> r.error == StopIteration
    ensures r.Ok? ==> exists k :: 0 <= k < |tools| && tools[k] == r.value && tools[k].displayName == "MP3"
                                  && forall j :: 0 <= j < k ==> tools[j].displayName != "MP3"
    decreases |tools|
  {
    if |tools| == 0 then Err(StopIteration)
    else if tools[0].displayName == "MP3" then Ok(tools[0])
    else
      var r := FirstMp3(tools[1..]);
      assert forall k :: 1 <= k < |tools| ==> tools[k] == tools[1..][k - 1];
      if r.Ok? then
        var k :| 0 <= k < |tools[1..]| && tools[1..][k] == r.value && tools[1..][k].displayName == "MP3"
                 && forall j :: 0 <= j < k ==> tools[1..][j].displayName != "MP3";
        assert tools[k + 1] == r.value;
        r
      else
        assert !HasMp3(tools[1..]);
        r
  }

  // ---------------------------------------------------------------------------
  // The rule table

  const RtaTools: set<string> := {"RTA", "CLNK"}

  /** A drop rule: one copy of `victim` goes when any name of `shadows` is present. */
  datatype Drop = Drop(victim: string, shadows: set<string>)

  /** The drop rules of `get_dpoint_list`, in source order. */
  const DropTable: seq<Drop> := [
    Drop("DDR_RT_1_r1", {"DDR_RT_2_r1", "DDR_RT_3_r1", "DDR_RT_4_r1"}),
    Drop("DDR_RT_1_r2", {"DDR_RT_2_r2", "DDR_RT_3_r2", "DDR_RT_4_r2"}),
    Drop("DDR_RT_1_r3", {"DDR_RT_2_r3", "DDR_RT_3_r3", "DDR_RT_4_r3"}),
    Drop("C_PKPO4_s", {"C_PKPO3_s"}),
    Drop("O_grcnt_c", {"GRCNTX_c", "GRCNT_c"}),
    Drop("O_RHOB_v", {"RHOB_v", "ROBB_v"}),
    Drop("O_DRHO_v", {"DRHO_v", "DRHB_v"})
  ]

  const TableVictims: set<string> :=
    {"DDR_RT_1_r1", "DDR_RT_1_r2", "DDR_RT_1_r3", "C_PKPO4_s", "O_grcnt_c", "O_RHOB_v", "O_DRHO_v"}

  const TableShadows: set<string> := {
    "DDR_RT_2_r1", "DDR_RT_3_r1", "DDR_RT_4_r1", "DDR_RT_2_r2", "DDR_RT_3_r2", "DDR_RT_4_r2",
    "DDR_RT_2_r3", "DDR_RT_3_r3", "DDR_RT_4_r3", "C_PKPO3_s", "GRCNTX_c", "GRCNT_c",
    "RHOB_v", "ROBB_v", "DRHO_v", "DRHB_v"
  }

  const SclpVersions: seq<string> := ["7.7", "8.4", "8.5", "8.7"]
  const AetVersions: seq<string> := ["8.5", "8.7"]
  const AetSizes: seq<string> := ["8.25", "6.75", "9.0"]

  /** Every name a rule may drop or append; all other names pass through untouched. */
  const Touched: set<string> := {
    "TF_b", "TFHI_b", "DDR_RT_1_r1", "DDR_RT_1_r2", "DDR_RT_1_r3", "C_PKPO4_s",
    "O_grcnt_c", "O_RHOB_v", "O_DRHO_v", "SCLP_mp", "AET_mp", "O_RBIT_gvr", "RESBIT_gvr"
  }

  /** Some name of `shadows` occurs in `s`. */
  predicate AnyIn(shadows: set<string>, s: seq<string>) {
    exists x :: x in shadows && x in s
  }

  /** `x in allowed` for an optional tool attribute; a missing value is in no list. */
  predicate OptIn(v: Option<string>, allowed: seq<string>) {
    v.Some? && v.value in allowed
  }

  // ---------------------------------------------------------------------------
  // The steps

  /** With an RTA or CLNK tool, one "TF_b" becomes a trailing "TFHI_b". */
  function TfRule(s: seq<string>, toolNames: seq<string>): (r: seq<string>)
    ensures multiset(r) == if AnyIn(RtaTools, toolNames) && "TF_b" in s
                           then multiset(s) - multiset{"TF_b"} + multiset{"TFHI_b"} else multiset(s)
  {
    if AnyIn(RtaTools, toolNames) && "TF_b" in s then RemoveFirst(s, "TF_b") + ["TFHI_b"] else s
  }

  /** One occurrence of `victim` is dropped when some name of `shadows` is present. */
  function DropShadowed(s: seq<string>, shadows: set<string>, victim: string): (r: seq<string>)
    ensures multiset(r) == if victim in s && AnyIn(shadows, s) then multiset(s) - multiset{victim} else multiset(s)
  {
    if victim in s && AnyIn(shadows, s) then RemoveFirst(s, victim) else s
  }

  /** "CS3PK_H_mp" with an allow-listed MP3 version brings "SCLP_mp" along, once. */
  function SclpRule(s: seq<string>, tools: seq<Tool>): (r: Result<seq<string>>)
    ensures r.Err? <==> "CS3PK_H_mp" in s && !HasMp3(tools)
    ensures r.Err? ==> r.error == StopIteration
    ensures r.Ok? ==> multiset(r.value) ==
                      if "CS3PK_H_mp" in s && OptIn(FirstMp3(tools).value.version, SclpVersions) && "SCLP_mp" !in s
                      then multiset(s) + multiset{"SCLP_mp"} else multiset(s)
  {
    if "CS3PK_H_mp" in s then
      var mp3 :- FirstMp3(tools);
      if OptIn(mp3.version, SclpVersions) && "SCLP_mp" !in s then Ok(s + ["SCLP_mp"]) else Ok(s)
    else Ok(s)
  }

  /** "CSSTAT_mp" with an allow-listed MP3 version and size brings "AET_mp" along, once. */
  function AetRule(s: seq<string>, tools: seq<Tool>): (r: Result<seq<string>>)
    ensures r.Err? <==> "CSSTAT_mp" in s && !HasMp3(tools)
    ensures r.Err? ==> r.error == StopIteration
    ensures r.Ok? ==> multiset(r.value) ==
                      if "CSSTAT_mp" in s && OptIn(FirstMp3(tools).value.version, AetVersions)
                         && OptIn(FirstMp3(tools).value.size, AetSizes) && "AET_mp" !in s
                      then multiset(s) + multiset{"AET_mp"} else multiset(s)
  {
    if "CSSTAT_mp" in s then
      var mp3 :- FirstMp3(tools);
      if OptIn(mp3.version, AetVersions) && OptIn(mp3.size, AetSizes) && "AET_mp" !in s
      then Ok(s + ["AET_mp"]) else Ok(s)
    else Ok(s)
  }

  /** One "O_RBIT_gvr" becomes a trailing "RESBIT_gvr". */
  function RbitRule(s: seq<string>): (r: seq<string>)
    ensures multiset(r) == if "O_RBIT_gvr" in s
                           then multiset(s) - multiset{"O_RBIT_gvr"} + multiset{"RESBIT_gvr"} else multiset(s)
  {
    if "O_RBIT_gvr" in s then RemoveFirst(s, "O_RBIT_gvr") + ["RESBIT_gvr"] else s
  }

  predicate Fires(d: Drop, s: seq<string>) {
    d.victim in s && AnyIn(d.shadows, s)
  }

  /** The drop rules applied one after the other. */
  function ApplyDrops(s: seq<string>, table: seq<Drop>): seq<string>
    decreases |table|
  {
    if |table| == 0 then s
    else ApplyDrops(DropShadowed(s, table[0].shadows, table[0].victim), table[1..])
  }

  /** The rewrites of `get_dpoint_list`, in source order. */
  function ApplyRules(s: seq<string>, tools: seq<Tool>): (r: Result<seq<string>>) {
    var s1 := TfRule(s, DisplayNames(tools));
    var s8 := ApplyDrops(s1, DropTable);
    var s9 :- SclpRule(s8, tools);
    var s10 :- AetRule(s9, tools);
    Ok(RbitRule(s10))
  }

  // ---------------------------------------------------------------------------
  // Reference: what the rule table does to the count of each name

  /** The rule of `table` whose victim is `t` fires on `s`. */
  predicate DropsName(table: seq<Drop>, s: seq<string>, t: string) {
    exists i :: 0 <= i < |table| && table[i].victim == t && Fires(table[i], s)
  }

  predicate TfFires(s: seq<string>, tools: seq<Tool>) {
    AnyIn(RtaTools, DisplayNames(tools)) && "TF_b" in s
  }

  /** One when `t` is `x` and `cond` holds; the contribution of one rule to the count of `t`. */
  function Hit(t: string, x: string, cond: bool): nat {
    if t == x && cond then 1 else 0
  }

  /** How many copies of `t` the rules drop from `s`: one when the rule for `t` fires, else none. */
  function Dropped(s: seq<string>, tools: seq<Tool>, t: string): nat {
    Hit(t, "TF_b", TfFires(s, tools))
    + (if DropsName(DropTable, s, t) then 1 else 0)
    + Hit(t, "O_RBIT_gvr", "O_RBIT_gvr" in s)
  }

  /** How many copies of `t` the rules append to `s`. */
  function Appended(s: seq<string>, tools: seq<Tool>, t: string): nat
    requires HasMp3(tools) || ("CS3PK_H_mp" !in s && "CSSTAT_mp" !in s)
  {
    Hit(t, "TFHI_b", TfFires(s, tools))
    + Hit(t, "SCLP_mp", "CS3PK_H_mp" in s && OptIn(FirstMp3(tools).value.version, SclpVersions) && "SCLP_mp" !in s)
    + Hit(t, "AET_mp", "CSSTAT_mp" in s && OptIn(FirstMp3(tools).value.version, AetVersions)
                       && OptIn(FirstMp3(tools).value.size, AetSizes) && "AET_mp" !in s)
    + Hit(t, "RESBIT_gvr", "O_RBIT_gvr" in s)
  }

  // ---------------------------------------------------------------------------
  // Proofs

  /** Victims are distinct, and no victim is a shadow of any rule. */
  predicate Independent(table: seq<Drop>) {
    && (forall i, j :: 0 <= i < j < |table| ==> table[i].victim != table[j].victim)
    && (forall i, j :: 0 <= i < |table| && 0 <= j < |table| ==> table[i].victim !in table[j].shadows)
  }

  lemma {:induction false} DropTableShape()
    ensures forall i :: 0 <= i < |DropTable| ==> DropTable[i].victim in TableVictims
    ensures forall i :: 0 <= i < |DropTable| ==> DropTable[i].shadows <= TableShadows
    ensures TableVictims !! TableShadows
    ensures Independent(DropTable)
  {
    forall i | 0 <= i < |DropTable|
      ensures DropTable[i].victim in TableVictims && DropTable[i].shadows <= TableShadows
    {
      assert i == 0 || i == 1 || i == 2 || i == 3 || i == 4 || i == 5 || i == 6;
    }
    forall i, j | 0 <= i < j < |DropTable| ensures DropTable[i].victim != DropTable[j].victim {
      assert i == 0 || i == 1 || i == 2 || i == 3 || i == 4 || i == 5;
      assert j == 1 || j == 2 || j == 3 || j == 4 || j == 5 || j == 6;
    }
  }

  /** Two lists with equal counts outside `except` agree on membership outside it. */
  lemma {:induction false} SameMembershipOutside(s: seq<string>, u: seq<string>, except: set<string>)
    requires forall t :: t !in except ==> multiset(u)[t] == multiset(s)[t]
    ensures forall t :: t !in except ==> (t in u <==> t in s)
  {
    forall t | t !in except ensures t in u <==> t in s {
      assert t in u <==> t in multiset(u);
      assert t in s <==> t in multiset(s);
    }
  }

  /** Rules whose names avoid `except` fire alike on two lists that agree outside `except`. */
  lemma {:induction false} DropsNameAgree(table: seq<Drop>, s: seq<string>, u: seq<string>, except: set<string>)
    requires forall t :: t !in except ==> (t in u <==> t in s)
    requires forall i :: 0 <= i < |table| ==> table[i].victim !in except && table[i].shadows !! except
    ensures forall i :: 0 <= i < |table| ==> (Fires(table[i], u) <==> Fires(table[i], s))
    ensures forall t :: DropsName(table, u, t) <==> DropsName(table, s, t)
  {
    forall i | 0 <= i < |table| ensures Fires(table[i], u) <==> Fires(table[i], s) {
      var d := table[i];
      if AnyIn(d.shadows, u) {
        var x :| x in d.shadows && x in u;
        assert x in s;
      }
      if AnyIn(d.shadows, s) {
        var x :| x in d.shadows && x in s;
        assert x in u;
      }
    }
  }

  /** Under independence, the rule for `t` is either the first rule or one of the rest. */
  lemma {:induction false} DropsNameSplit(table: seq<Drop>, s: seq<string>, t: string)
    requires |table| > 0 && Independent(table)
    ensures Independent(table[1..])
    ensures t == table[0].victim ==> (DropsName(table, s, t) <==> Fires(table[0], s)) && !DropsName(table[1..], s, t)
    ensures t != table[0].victim ==> (DropsName(table, s, t) <==> DropsName(table[1..], s, t))
  {
    var rest := table[1..];
    assert forall i :: 0 <= i < |rest| ==> rest[i] == table[i + 1];
    if DropsName(table, s, t) {
      var i :| 0 <= i < |table| && table[i].victim == t && Fires(table[i], s);
      if i > 0 { assert rest[i - 1] == table[i]; }
    }
    if DropsName(rest, s, t) {
      var i :| 0 <= i < |rest| && rest[i].victim == t && Fires(rest[i], s);
      assert table[i + 1] == rest[i];
    }
  }

  /** The count of one name after one drop rule. */
  lemma {:induction false} DropShadowedCount(s: seq<string>, d: Drop, t: string)
    ensures multiset(DropShadowed(s, d.shadows, d.victim))[t] ==
            multiset(s)[t] - (if t == d.victim && Fires(d, s) then 1 else 0)
  {}

  /** The count of one name after the first rule and then the rest. */
  lemma {:induction false} DropsCountStep(s: seq<string>, table: seq<Drop>, t: string)
    requires |table| > 0 && Independent(table)
    requires var u := DropShadowed(s, table[0].shadows, table[0].victim);
             forall x :: multiset(ApplyDrops(u, table[1..]))[x] ==
                         multiset(u)[x] - (if DropsName(table[1..], u, x) then 1 else 0)
    ensures multiset(ApplyDrops(s, table))[t] == multiset(s)[t] - (if DropsName(table, s, t) then 1 else 0)
  {
    var d := table[0];
    var rest := table[1..];
    var u := DropShadowed(s, d.shadows, d.victim);
    assert ApplyDrops(s, table) == ApplyDrops(u, rest);
    DropShadowedCount(s, d, t);
    DropsNameSplit(table, s, t);
    DropsNameSplit(table, u, t);
    if t != d.victim {
      forall x | x !in {d.victim} ensures multiset(u)[x] == multiset(s)[x] {
        DropShadowedCount(s, d, x);
      }
      SameMembershipOutside(s, u, {d.victim});
      assert forall i :: 0 <= i < |rest| ==> rest[i] == table[i + 1];
      DropsNameAgree(rest, s, u, {d.victim});
      assert DropsName(rest, u, t) <==> DropsName(rest, s, t);
    }
  }

  /** Applying independent drop rules drops one copy of each firing victim and nothing else. */
  lemma {:induction false} DropsCount(s: seq<string>, table: seq<Drop>)
    requires Independent(table)
    ensures forall t :: multiset(ApplyDrops(s, table))[t] ==
                       multiset(s)[t] - (if DropsName(table, s, t) then 1 else 0)
  {
    if |table| > 0 {
      DropsNameSplit(table, s, table[0].victim);
      DropsCount(DropShadowed(s, table[0].shadows, table[0].victim), table[1..]);
      forall t ensures multiset(ApplyDrops(s, table))[t] == multiset(s)[t] - (if DropsName(table, s, t) then 1 else 0) {
        DropsCountStep(s, table, t);
      }
    }
  }

  /** The names the TF rule and the drop table may change. */
  const EarlyTouched: set<string> := {"TF_b", "TFHI_b"} + TableVictims

  lemma {:induction false} LateNamesDistinct()
    ensures "CS3PK_H_mp" !in EarlyTouched && "CSSTAT_mp" !in EarlyTouched
    ensures "SCLP_mp" !in EarlyTouched && "AET_mp" !in EarlyTouched
    ensures "O_RBIT_gvr" !in EarlyTouched && "RESBIT_gvr" !in EarlyTouched
    ensures "CSSTAT_mp" != "SCLP_mp" && "AET_mp" != "SCLP_mp" && "O_RBIT_gvr" != "SCLP_mp"
    ensures "O_RBIT_gvr" != "AET_mp"
    ensures "TF_b" !in TableVictims && "TFHI_b" !in TableVictims
    ensures "TF_b" !in TableShadows && "TFHI_b" !in TableShadows
  {}

  /** The count of one name after the TF rule. */
  lemma {:induction false} TfRuleCount(s: seq<string>, toolNames: seq<string>, t: string)
    ensures var fires := AnyIn(RtaTools, toolNames) && "TF_b" in s;
            multiset(TfRule(s, toolNames))[t] == multiset(s)[t] - Hit(t, "TF_b", fires) + Hit(t, "TFHI_b", fires)
  {}

  lemma {:induction false} SclpRuleCount(s: seq<string>, tools: seq<Tool>, t: string)
    requires SclpRule(s, tools).Ok?
    ensures multiset(SclpRule(s, tools).value)[t] == multiset(s)[t] +
      Hit(t, "SCLP_mp", "CS3PK_H_mp" in s && OptIn(FirstMp3(tools).value.version, SclpVersions) && "SCLP_mp" !in s)
  {}

  lemma {:induction false} AetRuleCount(s: seq<string>, tools: seq<Tool>, t: string)
    requires AetRule(s, tools).Ok?
    ensures multiset(AetRule(s, tools).value)[t] == multiset(s)[t] +
      Hit(t, "AET_mp", "CSSTAT_mp" in s && OptIn(FirstMp3(tools).value.version, AetVersions)
                       && OptIn(FirstMp3(tools).value.size, AetSizes) && "AET_mp" !in s)
  {}

  lemma {:induction false} RbitRuleCount(s: seq<string>, t: string)
    ensures multiset(RbitRule(s))[t] == multiset(s)[t] - Hit(t, "O_RBIT_gvr", "O_RBIT_gvr" in s)
                                        + Hit(t, "RESBIT_gvr", "O_RBIT_gvr" in s)
  {}

  lemma {:induction false} MembershipByCount(s: seq<string>, u: seq<string>, t: string)
    requires multiset(u)[t] == multiset(s)[t]
    ensures t in u <==> t in s
  {
    assert t in u <==> t in multiset(u);
    assert t in s <==> t in multiset(s);
  }

  /** No rule of `table` drops or reads the names the TF rule changes. */
  predicate AvoidsTf(table: seq<Drop>) {
    forall i :: 0 <= i < |table| ==> table[i].victim !in {"TF_b", "TFHI_b"} && table[i].shadows !! {"TF_b", "TFHI_b"}
  }

  lemma {:induction false} DropTableAvoidsTf()
    ensures AvoidsTf(DropTable) && Independent(DropTable)
  {
    DropTableShape();
    LateNamesDistinct();
  }

  /** The TF rule changes no name the drop table reads. */
  lemma {:induction false} TfKeepsDrops(s: seq<string>, toolNames: seq<string>, table: seq<Drop>)
    requires AvoidsTf(table)
    ensures forall t :: DropsName(table, TfRule(s, toolNames), t) <==> DropsName(table, s, t)
  {
    var s1 := TfRule(s, toolNames);
    forall x | x !in {"TF_b", "TFHI_b"} ensures multiset(s1)[x] == multiset(s)[x] {
      TfRuleCount(s, toolNames, x);
    }
    SameMembershipOutside(s, s1, {"TF_b", "TFHI_b"});
    DropsNameAgree(table, s, s1, {"TF_b", "TFHI_b"});
  }

  lemma {:induction false} TfThenDrops(s: seq<string>, toolNames: seq<string>, table: seq<Drop>, t: string)
    requires Independent(table) && AvoidsTf(table)
    ensures var fires := AnyIn(RtaTools, toolNames) && "TF_b" in s;
            multiset(ApplyDrops(TfRule(s, toolNames), table))[t] ==
            multiset(s)[t] - Hit(t, "TF_b", fires) + Hit(t, "TFHI_b", fires) - (if DropsName(table, s, t) then 1 else 0)
  {
    TfRuleCount(s, toolNames, t);
    DropsCount(TfRule(s, toolNames), table);
    TfKeepsDrops(s, toolNames, table);
  }

  /** Through the TF rule and the drop table, the count of `t` falls by what those rules drop. */
  lemma {:induction false} EarlyCount(s: seq<string>, tools: seq<Tool>, t: string)
    ensures multiset(ApplyDrops(TfRule(s, DisplayNames(tools)), DropTable))[t] ==
            multiset(s)[t] - Hit(t, "TF_b", TfFires(s, tools)) + Hit(t, "TFHI_b", TfFires(s, tools))
            - (if DropsName(DropTable, s, t) then 1 else 0)
  {
    DropTableAvoidsTf();
    TfThenDrops(s, DisplayNames(tools), DropTable, t);
  }

  /** A name outside the early rules keeps its count, and so its membership, up to the MP3 rules. */
  lemma {:induction false} EarlyUnchanged(s: seq<string>, tools: seq<Tool>, t: string)
    requires t !in EarlyTouched
    ensures multiset(ApplyDrops(TfRule(s, DisplayNames(tools)), DropTable))[t] == multiset(s)[t]
    ensures t in ApplyDrops(TfRule(s, DisplayNames(tools)), DropTable) <==> t in s
  {
    EarlyCount(s, tools, t);
    DropTableShape();
    MembershipByCount(s, ApplyDrops(TfRule(s, DisplayNames(tools)), DropTable), t);
  }

  /** The intermediate lists of a successful run of the rule engine. */
  function Early(s: seq<string>, tools: seq<Tool>): seq<string> {
    ApplyDrops(TfRule(s, DisplayNames(tools)), DropTable)
  }

  lemma {:induction false} Stages(s: seq<string>, tools: seq<Tool>)
    requires ApplyRules(s, tools).Ok?
    ensures SclpRule(Early(s, tools), tools).Ok?
    ensures AetRule(SclpRule(Early(s, tools), tools).value, tools).Ok?
    ensures ApplyRules(s, tools).value == RbitRule(AetRule(SclpRule(Early(s, tools), tools).value, tools).value)
  {}

  /** The early rules leave every name the late rules read as it was. */
  lemma {:induction false} EarlyKeepsLateNames(s: seq<string>, tools: seq<Tool>)
    ensures var s8 := Early(s, tools);
            && ("CS3PK_H_mp" in s8 <==> "CS3PK_H_mp" in s) && ("SCLP_mp" in s8 <==> "SCLP_mp" in s)
            && ("CSSTAT_mp" in s8 <==> "CSSTAT_mp" in s) && ("AET_mp" in s8 <==> "AET_mp" in s)
            && ("O_RBIT_gvr" in s8 <==> "O_RBIT_gvr" in s)
  {
    LateNamesDistinct();
    EarlyUnchanged(s, tools, "CS3PK_H_mp");
    EarlyUnchanged(s, tools, "CSSTAT_mp");
    EarlyUnchanged(s, tools, "SCLP_mp");
    EarlyUnchanged(s, tools, "AET_mp");
    EarlyUnchanged(s, tools, "O_RBIT_gvr");
  }

  /** The SCLP rule only adds `SCLP_mp`. */
  lemma {:induction false} SclpKeepsLateNames(s8: seq<string>, tools: seq<Tool>)
    requires SclpRule(s8, tools).Ok?
    ensures var s9 := SclpRule(s8, tools).value;
            && ("CSSTAT_mp" in s9 <==> "CSSTAT_mp" in s8) && ("AET_mp" in s9 <==> "AET_mp" in s8)
            && ("O_RBIT_gvr" in s9 <==> "O_RBIT_gvr" in s8)
  {
    var s9 := SclpRule(s8, tools).value;
    LateNamesDistinct();
    SclpRuleCount(s8, tools, "CSSTAT_mp");
    SclpRuleCount(s8, tools, "AET_mp");
    SclpRuleCount(s8, tools, "O_RBIT_gvr");
    MembershipByCount(s8, s9, "CSSTAT_mp");
    MembershipByCount(s8, s9, "AET_mp");
    MembershipByCount(s8, s9, "O_RBIT_gvr");
  }

  /** The AET rule only adds `AET_mp`. */
  lemma {:induction false} AetKeepsRbit(s9: seq<string>, tools: seq<Tool>)
    requires AetRule(s9, tools).Ok?
    ensures "O_RBIT_gvr" in AetRule(s9, tools).value <==> "O_RBIT_gvr" in s9
  {
    LateNamesDistinct();
    AetRuleCount(s9, tools, "O_RBIT_gvr");
    MembershipByCount(s9, AetRule(s9, tools).value, "O_RBIT_gvr");
  }

  /** Every condition the late rules read has the same truth value on the input. */
  lemma {:induction false} LateConditions(s: seq<string>, tools: seq<Tool>)
    requires ApplyRules(s, tools).Ok?
    ensures var s8 := Early(s, tools);
            var s9 := SclpRule(s8, tools).value;
            var s10 := AetRule(s9, tools).value;
            && ("CS3PK_H_mp" in s8 <==> "CS3PK_H_mp" in s) && ("SCLP_mp" in s8 <==> "SCLP_mp" in s)
            && ("CSSTAT_mp" in s9 <==> "CSSTAT_mp" in s) && ("AET_mp" in s9 <==> "AET_mp" in s)
            && ("O_RBIT_gvr" in s10 <==> "O_RBIT_gvr" in s)
  {
    Stages(s, tools);
    var s8 := Early(s, tools);
    var s9 := SclpRule(s8, tools).value;
    EarlyKeepsLateNames(s, tools);
    SclpKeepsLateNames(s8, tools);
    AetKeepsRbit(s9, tools);
  }

  /** The count of one name after the whole rule engine. */
  lemma {:induction false} RulesCountAt(s: seq<string>, tools: seq<Tool>, t: string)
    requires ApplyRules(s, tools).Ok?
    ensures HasMp3(tools) || ("CS3PK_H_mp" !in s && "CSSTAT_mp" !in s)
    ensures multiset(ApplyRules(s, tools).value)[t] == multiset(s)[t] - Dropped(s, tools, t) + Appended(s, tools, t)
  {
    Stages(s, tools);
    LateConditions(s, tools);
    var s8 := Early(s, tools);
    var s9 := SclpRule(s8, tools).value;
    var s10 := AetRule(s9, tools).value;
    EarlyCount(s, tools, t);
    SclpRuleCount(s8, tools, t);
    AetRuleCount(s9, tools, t);
    RbitRuleCount(s10, t);
  }

  /**
   * The whole rule engine, name by name: it fails exactly when a trigger of
   * an MP3 rule is present without an MP3 tool, and otherwise drops at most
   * one copy of each superseded name and appends at most one companion.
   */
  lemma {:induction false} RulesCounts(s: seq<string>, tools: seq<Tool>)
    ensures ApplyRules(s, tools).Err? <==> ("CS3PK_H_mp" in s || "CSSTAT_mp" in s) && !HasMp3(tools)
    ensures ApplyRules(s, tools).Err? ==> ApplyRules(s, tools).error == StopIteration
    ensures ApplyRules(s, tools).Ok? ==> (HasMp3(tools) || ("CS3PK_H_mp" !in s && "CSSTAT_mp" !in s))
    ensures ApplyRules(s, tools).Ok? ==>
              forall t :: multiset(ApplyRules(s, tools).value)[t] ==
                          multiset(s)[t] - Dropped(s, tools, t) + Appended(s, tools, t)
  {
    var s8 := ApplyDrops(TfRule(s, DisplayNames(tools)), DropTable);
    LateNamesDistinct();
    EarlyUnchanged(s, tools, "CS3PK_H_mp");
    EarlyUnchanged(s, tools, "CSSTAT_mp");
    var sclp := SclpRule(s8, tools);
    if sclp.Ok? {
      SclpRuleCount(s8, tools, "CSSTAT_mp");
      MembershipByCount(s8, sclp.value, "CSSTAT_mp");
    }
    if ApplyRules(s, tools).Ok? {
      forall t ensures multiset(ApplyRules(s, tools).value)[t] == multiset(s)[t] - Dropped(s, tools, t) + Appended(s, tools, t) {
        RulesCountAt(s, tools, t);
      }
      RulesCountAt(s, tools, "");
    }
  }

  // ---------------------------------------------------------------------------
  // Order and the list-versus-set question

  lemma {:induction false} WithoutDrops(s: seq<string>, table: seq<Drop>, ex: set<string>)
    requires forall i :: 0 <= i < |table| ==> table[i].victim in ex
    ensures Without(ApplyDrops(s, table), ex) == Without(s, ex)
    decreases |table|
  {
    if |table| > 0 {
      WithoutRemoveFirst(s, table[0].victim, ex);
      assert forall i :: 0 <= i < |table[1..]| ==> table[1..][i] == table[i + 1];
      WithoutDrops(DropShadowed(s, table[0].shadows, table[0].victim), table[1..], ex);
    }
  }

  lemma {:induction false} WithoutTf(s: seq<string>, toolNames: seq<string>, ex: set<string>)
    requires "TF_b" in ex && "TFHI_b" in ex
    ensures Without(TfRule(s, toolNames), ex) == Without(s, ex)
  {
    WithoutRemoveFirst(s, "TF_b", ex);
    WithoutAppend(RemoveFirst(s, "TF_b"), "TFHI_b", ex);
  }

  lemma {:induction false} WithoutSclp(s: seq<string>, tools: seq<Tool>, ex: set<string>)
    requires "SCLP_mp" in ex && SclpRule(s, tools).Ok?
    ensures Without(SclpRule(s, tools).value, ex) == Without(s, ex)
  {
    WithoutAppend(s, "SCLP_mp", ex);
  }

  lemma {:induction false} WithoutAet(s: seq<string>, tools: seq<Tool>, ex: set<string>)
    requires "AET_mp" in ex && AetRule(s, tools).Ok?
    ensures Without(AetRule(s, tools).value, ex) == Without(s, ex)
  {
    WithoutAppend(s, "AET_mp", ex);
  }

  lemma {:induction false} WithoutRbit(s: seq<string>, ex: set<string>)
    requires "O_RBIT_gvr" in ex && "RESBIT_gvr" in ex
    ensures Without(RbitRule(s), ex) == Without(s, ex)
  {
    WithoutRemoveFirst(s, "O_RBIT_gvr", ex);
    WithoutAppend(RemoveFirst(s, "O_RBIT_gvr"), "RESBIT_gvr", ex);
  }

  lemma {:induction false} TouchedCovers()
    ensures "TF_b" in Touched && "TFHI_b" in Touched && "SCLP_mp" in Touched && "AET_mp" in Touched
    ensures "O_RBIT_gvr" in Touched && "RESBIT_gvr" in Touched
    ensures forall i :: 0 <= i < |DropTable| ==> DropTable[i].victim in Touched
  {
    DropTableShape();
  }

  /** Every name outside the rule table keeps its position relative to the others. */
  lemma {:induction false} RulesKeepOthers(s: seq<string>, tools: seq<Tool>)
    ensures ApplyRules(s, tools).Ok? ==> Without(ApplyRules(s, tools).value, Touched) == Without(s, Touched)
  {
    if ApplyRules(s, tools).Ok? {
      TouchedCovers();
      Stages(s, tools);
      var s1 := TfRule(s, DisplayNames(tools));
      var s8 := Early(s, tools);
      var s9 := SclpRule(s8, tools).value;
      var s10 := AetRule(s9, tools).value;
      WithoutTf(s, DisplayNames(tools), Touched);
      WithoutDrops(s1, DropTable, Touched);
      WithoutSclp(s8, tools, Touched);
      WithoutAet(s9, tools, Touched);
      WithoutRbit(s10, Touched);
    }
  }

  /** Drop rules read only membership, so lists with the same names fire the same rules. */
  lemma {:induction false} DropsNameBySet(table: seq<Drop>, s: seq<string>, u: seq<string>)
    requires forall x :: x in s <==> x in u
    ensures forall t :: DropsName(table, s, t) <==> DropsName(table, u, t)
  {
    forall i | 0 <= i < |table| ensures Fires(table[i], s) <==> Fires(table[i], u) {
      if AnyIn(table[i].shadows, s) {
        var x :| x in table[i].shadows && x in s;
        assert x in u;
      }
      if AnyIn(table[i].shadows, u) {
        var x :| x in table[i].shadows && x in u;
        assert x in s;
      }
    }
  }

  /** The reference counts read only which names occur. */
  lemma {:induction false} CountsBySet(s: seq<string>, u: seq<string>, tools: seq<Tool>, t: string)
    requires forall x :: x in s <==> x in u
    requires HasMp3(tools) || ("CS3PK_H_mp" !in s && "CSSTAT_mp" !in s)
    ensures Dropped(s, tools, t) == Dropped(u, tools, t)
    ensures Appended(s, tools, t) == Appended(u, tools, t)
  {
    DropsNameBySet(DropTable, s, u);
  }

  /** The rule engine fails on exactly the inputs that hold an MP3 trigger without an MP3 tool. */
  lemma {:induction false} RulesFailure(s: seq<string>, tools: seq<Tool>)
    ensures ApplyRules(s, tools).Err? <==> ("CS3PK_H_mp" in s || "CSSTAT_mp" in s) && !HasMp3(tools)
  {
    RulesCounts(s, tools);
  }

  /** The rule engine's only failure is the unguarded `next` of the MP3 rules. */
  lemma {:induction false} RulesErrorIsStop(s: seq<string>, tools: seq<Tool>)
    ensures ApplyRules(s, tools).Err? ==> ApplyRules(s, tools).error == StopIteration
  {
    var s8 := ApplyDrops(TfRule(s, DisplayNames(tools)), DropTable);
    if SclpRule(s8, tools).Ok? {
      assert AetRule(SclpRule(s8, tools).value, tools).Err? ==> AetRule(SclpRule(s8, tools).value, tools).error == StopIteration;
    }
  }

  lemma {:induction false} SameCountAt(s: seq<string>, u: seq<string>, tools: seq<Tool>, t: string)
    requires multiset(s) == multiset(u)
    requires ApplyRules(s, tools).Ok? && ApplyRules(u, tools).Ok?
    ensures multiset(ApplyRules(s, tools).value)[t] == multiset(ApplyRules(u, tools).value)[t]
  {
    assert forall x :: x in s <==> x in multiset(s);
    assert forall x :: x in u <==> x in multiset(u);
    RulesCountAt(s, tools, t);
    RulesCountAt(u, tools, t);
    CountsBySet(s, u, tools, t);
  }

  lemma {:induction false} SameFailure(s: seq<string>, u: seq<string>, tools: seq<Tool>)
    requires multiset(s) == multiset(u)
    ensures ApplyRules(s, tools).Err? <==> ApplyRules(u, tools).Err?
  {
    MembershipByCount(s, u, "CS3PK_H_mp");
    MembershipByCount(s, u, "CSSTAT_mp");
    RulesFailure(s, tools);
    RulesFailure(u, tools);
  }

  lemma {:induction false} SameOutput(s: seq<string>, u: seq<string>, tools: seq<Tool>)
    requires multiset(s) == multiset(u)
    requires ApplyRules(s, tools).Ok? && ApplyRules(u, tools).Ok?
    ensures multiset(ApplyRules(s, tools).value) == multiset(ApplyRules(u, tools).value)
  {
    var a := multiset(ApplyRules(s, tools).value);
    var b := multiset(ApplyRules(u, tools).value);
    forall t ensures a[t] == b[t] {
      SameCountAt(s, u, tools, t);
    }
  }

  /**
   * The rule engine's outcome depends only on which names occur and how often,
   * not on their order: two arrangements of the same names give the same
   * failure or the same names out.
   */
  lemma {:induction false} RulesIgnoreOrder(s: seq<string>, u: seq<string>, tools: seq<Tool>)
    requires multiset(s) == multiset(u)
    ensures ApplyRules(s, tools).Err? <==> ApplyRules(u, tools).Err?
    ensures ApplyRules(s, tools).Ok? ==> multiset(ApplyRules(s, tools).value) == multiset(ApplyRules(u, tools).value)
  {
    SameFailure(s, u, tools);
    if ApplyRules(s, tools).Ok? {
      SameOutput(s, u, tools);
    }
  }
}

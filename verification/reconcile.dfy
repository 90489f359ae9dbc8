/**
 * Reading the frame generator's answer back into the frame request: its
 * per-frameset error messages, the ROP it settled on for each frameset, the
 * frames it arranged, and the utility frame.
 */
module Reconcile {
  import opened Wrappers
  import Text
  import opened Models
  import opened Catalog
  import Framesets

  /** One entry of the generator's error dictionary: a frameset key and its messages; `""` stands for any falsy one. */
  datatype ErrorEntry = ErrorEntry(fsl: string, msgs: seq<string>)

  /** The answer's `utility` key: absent, `null`, or an object whose `utility` list may be absent or `null`. */
  datatype UtilityAnswer = NoUtility | NullUtility | UtilityObj(names: Option<seq<string>>)

  /**
   * What the generator returns, as far as the core reads it: for each of the
   * six framesets a truthy answer or nothing, the utility answer, and the error
   * dictionary, whose keys are distinct.
   */
  datatype Packed = Packed(fsls: seq<Option<Framesets.FslOutput>>, utility: UtilityAnswer, errors: seq<ErrorEntry>)

  /** `output.get("fslN")`, for `N = i + 1`. */
  function AnswerAt(p: Packed, i: nat): Option<Framesets.FslOutput> {
    if i < |p.fsls| then p.fsls[i] else None
  }

  function Answers(p: Packed, n: nat): (r: seq<Option<Framesets.FslOutput>>)
    ensures |r| == n && forall i :: 0 <= i < n ==> r[i] == AnswerAt(p, i)
  {
    seq(n, i requires 0 <= i < n => AnswerAt(p, i))
  }

  // ---------------------------------------------------------------------------
  // Errors

  /** The last truthy message: the one a dictionary comprehension over the messages keeps. */
  function LastTruthy(msgs: seq<string>): (r: Option<string>)
    ensures r.None? <==> forall i :: 0 <= i < |msgs| ==> msgs[i] == ""
    ensures r.Some? ==> exists i :: && 0 <= i < |msgs| && msgs[i] == r.value && r.value != ""
                                    && forall j :: i < j < |msgs| ==> msgs[j] == ""
  {
    var k := LastTruthyIndex(msgs);
    if k < 0 then None else Some(msgs[k])
  }

  /** Where the last truthy message sits, `-1` when there is none. */
  function LastTruthyIndex(msgs: seq<string>): (k: int)
    ensures -1 <= k < |msgs|
    ensures k >= 0 ==> msgs[k] != ""
    ensures forall j :: k < j < |msgs| ==> msgs[j] == ""
    decreases |msgs|
  {
    if |msgs| == 0 then -1
    else if msgs[|msgs| - 1] != "" then |msgs| - 1
    else
      var front := msgs[..|msgs| - 1];
      assert forall i :: 0 <= i < |front| ==> front[i] == msgs[i];
      LastTruthyIndex(front)
  }

  /**
   * `{fsl: msg for fsl, sub in errors.items() for msg in sub.values() if msg}`:
   * a frameset with any truthy message keeps its key's place and its last one.
   */
  function FlattenErrors(errors: seq<ErrorEntry>): (r: seq<(string, string)>)
    ensures |r| == 0 <==> forall i :: 0 <= i < |errors| ==> LastTruthy(errors[i].msgs).None?
    ensures forall p :: p in r <==> exists i :: 0 <= i < |errors| && p.0 == errors[i].fsl && LastTruthy(errors[i].msgs) == Some(p.1)
    ensures forall k :: 0 <= k < |r| ==> r[k].1 != ""
    decreases |errors|
  {
    if |errors| == 0 then []
    else
      var rest := FlattenErrors(errors[1..]);
      assert forall i :: 1 <= i < |errors| ==> errors[i] == errors[1..][i - 1];
      match LastTruthy(errors[0].msgs)
      case None => rest
      case Some(m) => [(errors[0].fsl, m)] + rest
  }

  /** `'\n'.join(f'{fsl.upper()}: {msg}' for fsl, msg in errors.items())`. */
  function ErrorReport(flat: seq<(string, string)>): string {
    Text.Join("\n", seq(|flat|, k requires 0 <= k < |flat| => Text.Upper(flat[k].0) + ": " + flat[k].1))
  }

  /** A single failed frameset is reported as its upper-cased key and its message. */
  lemma SingleErrorReport(fsl: string, msgs: seq<string>, m: string)
    requires LastTruthy(msgs) == Some(m)
    ensures ErrorReport(FlattenErrors([ErrorEntry(fsl, msgs)])) == Text.Upper(fsl) + ": " + m
  {
    var es := [ErrorEntry(fsl, msgs)];
    assert es[1..] == [];
    assert FlattenErrors(es) == [(fsl, m)];
  }

  // ---------------------------------------------------------------------------
  // Framesets

  /** `fslN.get("Parameters").get("ROP")`: no default on either lookup. */
  function StatusRop(params: Framesets.ParamsField): (r: Result<Option<real>>)
    ensures r.Err? <==> !params.ParamsObj?
    ensures r.Err? ==> r.error == AttributeError(NoneGetMessage)
    ensures params.ParamsObj? && params.rop.Present? ==> r == Ok(params.rop.value)
    ensures params.ParamsObj? && params.rop.Absent? ==> r == Ok(None)
  {
    match params
    case ParamsObj(rop) => Ok(if rop.Present? then rop.value else None)
    case _ => Err(AttributeError(NoneGetMessage))
  }

  /** One frameset: the updated frameset and whether its ROP was answered differently. */
  function FoldOne(cat: Catalog, fs: Fsl, out: Option<Framesets.FslOutput>, tools: seq<Tool>): (r: Result<(Fsl, bool)>)
    ensures out.None? ==> r == Ok((fs, false))
    ensures out.Some? ==> (r.Ok? <==> StatusRop(out.value.parameters).Ok? && Framesets.UpdateFsl(cat, fs, out.value, tools).Ok?)
    ensures out.Some? && StatusRop(out.value.parameters).Err? ==> r == Err(StatusRop(out.value.parameters).error)
    ensures out.Some? && StatusRop(out.value.parameters).Ok? && Framesets.UpdateFsl(cat, fs, out.value, tools).Err? ==>
              r == Err(Framesets.UpdateFsl(cat, fs, out.value, tools).error)
    ensures out.Some? && r.Ok? ==> r.value.0 == Framesets.UpdateFsl(cat, fs, out.value, tools).value
    ensures out.Some? && r.Ok? ==> (r.value.1 <==> StatusRop(out.value.parameters).value != fs.rop)
    ensures out.Some? && r.Ok? && out.value.parameters.rop.Present? ==> (r.value.1 <==> r.value.0.rop != fs.rop)
  {
    match out
    case None => Ok((fs, false))
    case Some(o) =>
      var rop :- StatusRop(o.parameters);
      var updated :- Framesets.UpdateFsl(cat, fs, o, tools);
      Ok((updated, rop != fs.rop))
  }

  /** The answers folded in order: the first failure stops the fold, and any changed ROP marks the whole. */
  function Folded(rs: seq<Result<(Fsl, bool)>>): (r: Result<(seq<Fsl>, bool)>)
    ensures r.Ok? <==> forall i :: 0 <= i < |rs| ==> rs[i].Ok?
    ensures r.Err? ==> exists i :: 0 <= i < |rs| && rs[i].Err? && r.error == rs[i].error && forall j :: 0 <= j < i ==> rs[j].Ok?
    ensures r.Ok? ==> |r.value.0| == |rs| && forall i :: 0 <= i < |rs| ==> r.value.0[i] == rs[i].value.0
    ensures r.Ok? ==> (r.value.1 <==> exists i :: 0 <= i < |rs| && rs[i].value.1)
    decreases |rs|
  {
    if |rs| == 0 then Ok(([], false))
    else
      match rs[0]
      case Err(e) => Err(e)
      case Ok(head) =>
        var rest := Folded(rs[1..]);
        assert forall i :: 1 <= i < |rs| ==> rs[i] == rs[1..][i - 1];
        if rest.Err? then
          var k :| 0 <= k < |rs[1..]| && rs[1..][k].Err? && rest.error == rs[1..][k].error && forall j :: 0 <= j < k ==> rs[1..][j].Ok?;
          assert rs[k + 1].Err? && rest.error == rs[k + 1].error;
          Err(rest.error)
        else
          var all := [head.0] + rest.value.0;
          assert forall i :: 1 <= i < |rs| ==> all[i] == rest.value.0[i - 1];
          Ok((all, head.1 || rest.value.1))
  }

  /** The six answers in order; the first failure stops the fold. */
  function FoldAll(cat: Catalog, fsls: seq<Fsl>, outs: seq<Option<Framesets.FslOutput>>, tools: seq<Tool>): (r: Result<(seq<Fsl>, bool)>)
    requires |outs| == |fsls|
    ensures r.Ok? <==> forall i :: 0 <= i < |fsls| ==> FoldOne(cat, fsls[i], outs[i], tools).Ok?
    ensures r.Err? ==> exists i :: && 0 <= i < |fsls| && FoldOne(cat, fsls[i], outs[i], tools).Err?
                                   && r.error == FoldOne(cat, fsls[i], outs[i], tools).error
                                   && forall j :: 0 <= j < i ==> FoldOne(cat, fsls[j], outs[j], tools).Ok?
    ensures r.Ok? ==> |r.value.0| == |fsls|
    ensures r.Ok? ==> forall i :: 0 <= i < |fsls| ==> r.value.0[i] == FoldOne(cat, fsls[i], outs[i], tools).value.0
    ensures r.Ok? ==> (r.value.1 <==> exists i :: 0 <= i < |fsls| && FoldOne(cat, fsls[i], outs[i], tools).value.1)
  {
    var rs := seq(|fsls|, i requires 0 <= i < |fsls| => FoldOne(cat, fsls[i], outs[i], tools));
    assert forall i :: 0 <= i < |fsls| ==> rs[i] == FoldOne(cat, fsls[i], outs[i], tools);
    Folded(rs)
  }

  // ---------------------------------------------------------------------------
  // Utility

  /** `output.get("utility", {}).get("utility")`, an absent or null list read as no names. */
  function UtilityNames(a: UtilityAnswer): (r: Result<seq<string>>)
    ensures r.Err? <==> a.NullUtility?
    ensures r.Err? ==> r.error == AttributeError(NoneGetMessage)
    ensures a.UtilityObj? && a.names.Some? ==> r == Ok(a.names.value)
    ensures r.Ok? && |r.value| > 0 ==> a.UtilityObj? && a.names == Some(r.value)
  {
    match a
    case NoUtility => Ok([])
    case NullUtility => Err(AttributeError(NoneGetMessage))
    case UtilityObj(names) => Ok(if names.Some? then names.value else [])
  }

  /** The utility frame after the answer: replaced by the answered names when there are any. */
  function FoldUtility(cat: Catalog, u: Utility, a: UtilityAnswer, tools: seq<Tool>): (r: Result<Utility>)
    ensures r.Ok? <==> UtilityNames(a).Ok? && (|UtilityNames(a).value| > 0 ==> Framesets.UpdateUtility(cat, u, UtilityNames(a).value, tools).Ok?)
    ensures r.Ok? && |UtilityNames(a).value| == 0 ==> r.value == u
    ensures r.Ok? && |UtilityNames(a).value| > 0 ==>
              && |r.value.utility| == |UtilityNames(a).value|
              && forall i :: 0 <= i < |r.value.utility| ==> r.value.utility[i].name == UtilityNames(a).value[i]
    ensures r.Ok? ==> r.value.description == u.description && r.value.bitrate == u.bitrate && r.value.rop == u.rop
  {
    var names :- UtilityNames(a);
    if |names| > 0 then Framesets.UpdateUtility(cat, u, names, tools) else Ok(u)
  }

  // ---------------------------------------------------------------------------
  // The whole answer

  /**
   * Any truthy error fails the request with every failed frameset's message;
   * otherwise each answered frameset is folded back, the status is 209 exactly
   * when some answered ROP differs from the requested one, and the utility
   * frame follows the answer's names.
   */
  function ReconcileAnswer(cat: Catalog, req: FrameRequest, p: Packed): (r: Result<(FrameRequest, int)>)
    ensures |FlattenErrors(p.errors)| > 0 ==> r == Err(ValueError(ErrorReport(FlattenErrors(p.errors))))
    ensures r.Ok? ==> |FlattenErrors(p.errors)| == 0
    ensures r.Ok? ==> r.value.1 == 200 || r.value.1 == 209
    ensures r.Ok? ==> (r.value.1 == 209 <==> exists i :: && 0 <= i < |req.fsls| && AnswerAt(p, i).Some?
                                                         && StatusRop(AnswerAt(p, i).value.parameters) != Ok(req.fsls[i].rop))
    ensures r.Ok? ==> |r.value.0.fsls| == |req.fsls|
    ensures r.Ok? ==> forall i :: 0 <= i < |req.fsls| && AnswerAt(p, i).None? ==> r.value.0.fsls[i] == req.fsls[i]
    ensures r.Ok? ==> forall i :: 0 <= i < |req.fsls| && AnswerAt(p, i).Some? ==>
              Framesets.UpdateFsl(cat, req.fsls[i], AnswerAt(p, i).value, req.tools) == Ok(r.value.0.fsls[i])
    ensures r.Ok? ==> FoldUtility(cat, req.utility, p.utility, req.tools) == Ok(r.value.0.utility)
    ensures r.Ok? ==> r.value.0 == req.(fsls := r.value.0.fsls, utility := r.value.0.utility)
  {
    var flat := FlattenErrors(p.errors);
    if |flat| > 0 then Err(ValueError(ErrorReport(flat))) else Reconciled(cat, req, p)
  }

  /** An answer without errors folded back into the request, with the status it earns. */
  function Reconciled(cat: Catalog, req: FrameRequest, p: Packed): (r: Result<(FrameRequest, int)>)
    ensures r.Ok? ==> r.value.1 == 200 || r.value.1 == 209
    ensures r.Ok? ==> (r.value.1 == 209 <==> exists i :: && 0 <= i < |req.fsls| && AnswerAt(p, i).Some?
                                                         && StatusRop(AnswerAt(p, i).value.parameters) != Ok(req.fsls[i].rop))
    ensures r.Ok? ==> |r.value.0.fsls| == |req.fsls|
    ensures r.Ok? ==> forall i :: 0 <= i < |req.fsls| && AnswerAt(p, i).None? ==> r.value.0.fsls[i] == req.fsls[i]
    ensures r.Ok? ==> forall i :: 0 <= i < |req.fsls| && AnswerAt(p, i).Some? ==>
              Framesets.UpdateFsl(cat, req.fsls[i], AnswerAt(p, i).value, req.tools) == Ok(r.value.0.fsls[i])
    ensures r.Ok? ==> FoldUtility(cat, req.utility, p.utility, req.tools) == Ok(r.value.0.utility)
    ensures r.Ok? ==> r.value.0 == req.(fsls := r.value.0.fsls, utility := r.value.0.utility)
  {
    var outs := Answers(p, |req.fsls|);
    var folded :- FoldAll(cat, req.fsls, outs, req.tools);
    var u :- FoldUtility(cat, req.utility, p.utility, req.tools);
    Ok((req.(fsls := folded.0, utility := u), if folded.1 then 209 else 200))
  }
}

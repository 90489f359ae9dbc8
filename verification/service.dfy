/**
 * The request lifecycle: `utility.main` (assemble, reconcile, export, record
 * the result) and the `/request_frames` endpoint that answers from the store,
 * or runs `main` once per uid and files its result or its failure.
 */
module Service {
  import opened Wrappers
  import Text
  import opened Models
  import Request
  import Catalog
  import FrameLibrary
  import Reconcile
  import Assembly
  import Export
  import Store
  import VersionMap

  /**
   * What the service process sees: the store files by name, the catalogs by
   * file, the catalog file last selected by any request (a process global),
   * and the frame library.
   */
  datatype World = World(
    stores: map<string, Store.Db>,
    catalogs: map<string, Catalog.Catalog>,
    selected: string,
    library: FrameLibrary.Library)

  /**
   * What the service draws on that lies outside the core: the export's clock
   * and host, the rendering of the run's body, the frame generator, and the
   * document signer.
   */
  datatype Deps = Deps(
    env: Export.Env,
    body: Export.Element -> string,
    packer: FrameRequest -> Reconcile.Packed,
    sign: string -> string)

  /** The declaration `ElementTree.tostring(..., xml_declaration=True)` puts first. */
  const XmlDeclaration: string := "<?xml version='1.0' encoding='utf-8'?>\n"
  const FailedPrefix: string := "FAILED | "
  const FailedSep: string := " | "

  const UidMissingMessage: string := "UID is missing in the request."
  const NotBuiltMessage: string := "Frame Generator was not able to build frame. Increase bit rate or reduce required update rates."
  const CachedMessage: string := "Frames generated successfully!"
  const BuiltMessage: string := "Frame generated successfully!"
  const IncompatibleMessage: string := "Unable to build frames for your request. Please check compatibility!"
  const InputMessage: string := "RTOF.json file didn't load correctly. Please check your input."

  /** The XML document of a run. */
  function Serialize(deps: Deps, e: Export.Element): (s: string)
    ensures Text.StartsWith(s, XmlDeclaration)
  {
    var s := XmlDeclaration + deps.body(e);
    assert s[..|XmlDeclaration|] == XmlDeclaration;
    s
  }

  /** A store file as the service opens it: a file never written has no table. */
  function StoreOf(w: World, file: string): Store.Db {
    if file in w.stores then w.stores[file] else Store.Db(None)
  }

  function WithStore(w: World, file: string, db: Store.Db): (v: World)
    ensures StoreOf(v, file) == db
    ensures forall f :: f != file ==> StoreOf(v, f) == StoreOf(w, f)
    ensures v.catalogs == w.catalogs && v.selected == w.selected && v.library == w.library
  {
    w.(stores := w.stores[file := db])
  }

  /** Export an assembled request and record its XML under the uid in the store of the selected catalog. */
  function Record(w: World, req: FrameRequest, status: int, uid: Option<string>, deps: Deps): (r: (World, Result<(string, int)>))
    requires req.WellFormed()
    ensures r.0.selected == w.selected && r.0.catalogs == w.catalogs && r.0.library == w.library
    ensures r.1.Ok? ==> Text.StartsWith(r.1.value.0, XmlDeclaration) && r.1.value.1 == status
    ensures r.1.Err? ==> r.0 == w
    ensures forall f :: f != w.selected ==> StoreOf(r.0, f) == StoreOf(w, f)
    ensures r.1.Ok? && uid.Some? ==>
              StoreOf(r.0, w.selected) == Store.Update(StoreOf(w, w.selected), uid.value, r.1.value.0, status)
    ensures r.1.Ok? && uid.None? ==> r.0 == w
  {
    match Export.ConvertToXml(req, deps.env)
    case Err(e) => (w, Err(e))
    case Ok(tree) =>
      var xml := Serialize(deps, tree);
      var w2 := if uid.Some? then WithStore(w, w.selected, Store.Update(StoreOf(w, w.selected), uid.value, xml, status)) else w;
      (w2, Ok((xml, status)))
  }

  /**
   * `utility.main(data)` in its corrected form: assemble and reconcile the
   * request, export it, and record the XML under the uid in the store of the
   * catalog selected now. The assembly is `Assembly.Assemble`, which selects
   * the label's catalog before resolving the tools and reads ODF lists
   * without changing the frame library. So the selection moves even when the
   * tools stage fails, and the library stays as it is; the code as written
   * (`Assembly.AssembleAsWritten`, `FrameLibrary.OdfAsWritten`) keeps the old
   * selection on a tools failure and can grow the library.
   */
  function UtilityMain(w: World, data: Request.RequestData, deps: Deps): (r: (World, Result<(string, int)>))
    ensures r.0.selected == Assembly.NextSelected(w.selected, data.hspmVersion)
    ensures r.0.catalogs == w.catalogs && r.0.library == w.library
    ensures r.1.Ok? ==> Text.StartsWith(r.1.value.0, XmlDeclaration) && (r.1.value.1 == 200 || r.1.value.1 == 209)
    ensures r.1.Err? ==> r.0.stores == w.stores
    ensures forall f :: f != r.0.selected ==> StoreOf(r.0, f) == StoreOf(w, f)
    ensures r.1.Ok? && data.uid.Some? ==>
              StoreOf(r.0, r.0.selected)
              == Store.Update(StoreOf(w, r.0.selected), data.uid.value, r.1.value.0, r.1.value.1)
  {
    var assembled := Assembly.Assemble(w.catalogs, w.selected, w.library, data, deps.packer);
    var w1 := w.(selected := assembled.0);
    assert forall f :: StoreOf(w1, f) == StoreOf(w, f);
    match assembled.1
    case Err(e) => (w1, Err(e))
    case Ok(o) => Record(w1, o.request, o.status, data.uid, deps)
  }

  /** The endpoint's JSON answer: status code, signed XML, message. */
  datatype Response = Response(status: int, xml: string, message: string)

  /** `str(e)` as the endpoint reports it: a JSON input that was never sent is named as such. */
  function ReportedMessage(e: Error): (m: string)
    ensures Text.Contains(Message(e), JsonNoneMessage) ==> m == InputMessage
    ensures !Text.Contains(Message(e), JsonNoneMessage) ==> m == Message(e)
  {
    if Text.Contains(Message(e), JsonNoneMessage) then InputMessage else Message(e)
  }

  /** The uid of a request, when it is truthy. */
  function UidOf(data: Request.RequestData): Option<string> {
    if data.uid.Some? && data.uid.value != "" then data.uid else None
  }

  /** The answer for a uid the store already holds; a recorded failure is cleared once reported. */
  function Replay(w: World, file: string, uid: string, row: Store.Row, deps: Deps): (r: (World, Response))
  {
    if row.content == "" then (w, Response(503, "", NotBuiltMessage))
    else if Text.StartsWith(row.content, FailedPrefix) then
      var msg := Text.SegmentAfter(row.content, FailedPrefix, FailedSep);
      (WithStore(w, file, Store.Remove(StoreOf(w, file), uid)), Response(406, "", msg))
    else (w, Response(row.status, deps.sign(row.content), CachedMessage))
  }

  /** A fresh uid: file a placeholder, run `main`, file its XML or its failure. */
  function Compute(w: World, file: string, uid: string, data: Request.RequestData, deps: Deps): (r: (World, Response))
  {
    var w1 := WithStore(w, file, Store.InsertUidWithNone(StoreOf(w, file), uid));
    var (w2, result) := UtilityMain(w1, data, deps);
    match result
    case Ok((xml, status)) =>
      if |xml| > 0 then
        (WithStore(w2, file, Store.Update(StoreOf(w2, file), uid, xml, status)), Response(status, deps.sign(xml), BuiltMessage))
      else
        (WithStore(w2, file, Store.Update(StoreOf(w2, file), uid, FailedPrefix + IncompatibleMessage, 406)),
         Response(406, "", IncompatibleMessage))
    case Err(e) =>
      var msg := ReportedMessage(e);
      (WithStore(w2, file, Store.Update(StoreOf(w2, file), uid, FailedPrefix + msg, 406)), Response(406, "", msg))
  }

  /**
   * `POST /request_frames`: a request without a uid is refused; a uid the
   * request's store already holds is answered from it; any other uid is
   * computed once and filed.
   */
  function RequestFrames(w: World, data: Request.RequestData, deps: Deps): (r: (World, Response))
    ensures UidOf(data).None? ==> r == (w, Response(400, "", UidMissingMessage))
    ensures UidOf(data).Some? ==>
              var file := VersionMap.StoreFor(data.hspmVersion);
              var past := Store.Load(StoreOf(w, file), UidOf(data).value);
              && (past.Some? ==> r == Replay(w, file, UidOf(data).value, past.value, deps))
              && (past.None? ==> r == Compute(w, file, UidOf(data).value, data, deps))
  {
    match UidOf(data)
    case None => (w, Response(400, "", UidMissingMessage))
    case Some(uid) =>
      var file := VersionMap.StoreFor(data.hspmVersion);
      match Store.Load(StoreOf(w, file), uid)
      case Some(row) => Replay(w, file, uid, row, deps)
      case None => Compute(w, file, uid, data, deps)
  }

  // ---------------------------------------------------------------------------
  // What the store holds

  /**
   * A well-kept row: a pending placeholder, a recorded failure with status
   * 406, or an XML document with status 200 or 209.
   */
  predicate RowOk(row: Store.Row) {
    || row == Store.Pending
    || (Text.StartsWith(row.content, FailedPrefix) && row.status == 406)
    || (Text.StartsWith(row.content, XmlDeclaration) && (row.status == 200 || row.status == 209))
  }

  ghost predicate StoreOk(db: Store.Db) {
    forall u :: Store.Load(db, u).Some? ==> RowOk(Store.Load(db, u).value)
  }

  ghost predicate WorldOk(w: World) {
    forall f :: StoreOk(StoreOf(w, f))
  }

  /** An XML document never reads as a pending row or a recorded failure. */
  lemma XmlIsNotFailure(s: string)
    requires Text.StartsWith(s, XmlDeclaration)
    ensures s != "" && !Text.StartsWith(s, FailedPrefix)
  {
    assert s[0] == s[..|XmlDeclaration|][0] == XmlDeclaration[0] == '<';
    assert FailedPrefix[0] == 'F';
  }

  lemma StartsWithPrefix(msg: string)
    ensures Text.StartsWith(FailedPrefix + msg, FailedPrefix)
  {
    assert (FailedPrefix + msg)[..|FailedPrefix|] == FailedPrefix;
  }

  /** No occurrence of the separator starts inside `FAILED` followed by ` |`. */
  lemma FailedHeadClear()
    ensures !Text.Contains("FAILED" + FailedSep[..|FailedSep| - 1], FailedSep)
  {
    var t := "FAILED" + FailedSep[..|FailedSep| - 1];
    assert t == "FAILED |";
    var middle := t[1..7];
    assert middle == "AILED " && '|' !in middle;
    forall i | 0 <= i <= |t| ensures !Text.StartsWith(t[i..], FailedSep) {
      if i + 3 <= |t| {
        assert t[i..][..3][1] == t[i + 1] == middle[i];
      }
    }
  }

  /** What `Replay` reports for a recorded failure is `split(" | ")[1]` of the stored text. */
  lemma ReplayedMessageIsSplit(content: string)
    requires Text.StartsWith(content, FailedPrefix)
    ensures |Text.Split(content, FailedSep)| > 1
    ensures Text.Split(content, FailedSep)[1] == Text.SegmentAfter(content, FailedPrefix, FailedSep)
  {
    assert FailedPrefix == "FAILED" + FailedSep;
    FailedHeadClear();
    Text.SegmentAfterIsSecondPiece(content, "FAILED", FailedSep);
  }

  /**
   * A recorded failure reads back, through `split(" | ")[1]`, as the message
   * filed with it, provided the message holds no separator of its own.
   */
  lemma FailureReadsBack(msg: string)
    requires !Text.Contains(msg, FailedSep)
    ensures |Text.Split(FailedPrefix + msg, FailedSep)| > 1
    ensures Text.Split(FailedPrefix + msg, FailedSep)[1] == msg
  {
    StartsWithPrefix(msg);
    ReplayedMessageIsSplit(FailedPrefix + msg);
    Text.SegmentAfterWhole(FailedPrefix, FailedSep, msg);
  }

  lemma UpdateKeepsOk(db: Store.Db, uid: string, content: string, status: int)
    requires StoreOk(db) && RowOk(Store.Row(content, status))
    ensures StoreOk(Store.Update(db, uid, content, status))
  {
    var d := Store.Update(db, uid, content, status);
    forall u | Store.Load(d, u).Some? ensures RowOk(Store.Load(d, u).value) {
      if u != uid {
        assert Store.Load(d, u) == Store.Load(db, u);
      }
    }
  }

  lemma InsertKeepsOk(db: Store.Db, uid: string)
    requires StoreOk(db)
    ensures StoreOk(Store.InsertUidWithNone(db, uid))
  {
    var d := Store.InsertUidWithNone(db, uid);
    forall u | Store.Load(d, u).Some? ensures RowOk(Store.Load(d, u).value) {
      if u != uid {
        assert Store.Load(d, u) == Store.Load(db, u);
      }
    }
  }

  lemma RemoveKeepsOk(db: Store.Db, uid: string)
    requires StoreOk(db)
    ensures StoreOk(Store.Remove(db, uid))
  {
    var d := Store.Remove(db, uid);
    forall u | Store.Load(d, u).Some? ensures RowOk(Store.Load(d, u).value) {
      assert Store.Load(d, u) == Store.Load(db, u);
    }
  }

  lemma WithStoreKeepsOk(w: World, file: string, db: Store.Db)
    requires WorldOk(w) && StoreOk(db)
    ensures WorldOk(WithStore(w, file, db))
  {
    var v := WithStore(w, file, db);
    forall f ensures StoreOk(StoreOf(v, f)) {
      if f != file {
        assert StoreOf(v, f) == StoreOf(w, f);
      }
    }
  }

  /** `main` files only XML documents with status 200 or 209. */
  lemma {:induction false} MainKeepsOk(w: World, data: Request.RequestData, deps: Deps)
    requires WorldOk(w)
    ensures WorldOk(UtilityMain(w, data, deps).0)
  {
    var r := UtilityMain(w, data, deps);
    var sel := r.0.selected;
    forall f ensures StoreOk(StoreOf(r.0, f)) {
      if f != sel || r.1.Err? || data.uid.None? {
        assert StoreOf(r.0, f) == StoreOf(w, f) by {
          if r.1.Err? {
            assert r.0.stores == w.stores;
          }
        }
      } else {
        assert StoreOk(StoreOf(w, sel));
        UpdateKeepsOk(StoreOf(w, sel), data.uid.value, r.1.value.0, r.1.value.1);
      }
    }
  }

  /**
   * Every store keeps only well-kept rows across any request; so a replayed
   * answer carries status 200, 209, 406 or 503, and a fresh one 200, 209 or
   * 406.
   */
  lemma {:induction false} RequestKeepsStoresOk(w: World, data: Request.RequestData, deps: Deps)
    requires WorldOk(w)
    ensures WorldOk(RequestFrames(w, data, deps).0)
    ensures RequestFrames(w, data, deps).1.status in {200, 209, 400, 406, 503}
  {
    var r := RequestFrames(w, data, deps);
    if UidOf(data).Some? {
      var uid := UidOf(data).value;
      var file := VersionMap.StoreFor(data.hspmVersion);
      var db := StoreOf(w, file);
      assert StoreOk(db);
      var past := Store.Load(db, uid);
      if past.Some? {
        var row := past.value;
        assert RowOk(row);
        if row.content != "" && Text.StartsWith(row.content, FailedPrefix) {
          RemoveKeepsOk(db, uid);
          WithStoreKeepsOk(w, file, Store.Remove(db, uid));
        } else if row.content != "" {
          if Text.StartsWith(row.content, XmlDeclaration) {
            XmlIsNotFailure(row.content);
          }
        }
      } else {
        InsertKeepsOk(db, uid);
        var w1 := WithStore(w, file, Store.InsertUidWithNone(db, uid));
        WithStoreKeepsOk(w, file, Store.InsertUidWithNone(db, uid));
        MainKeepsOk(w1, data, deps);
        var (w2, result) := UtilityMain(w1, data, deps);
        assert StoreOk(StoreOf(w2, file));
        match result
        case Ok((xml, status)) =>
          if |xml| > 0 {
            UpdateKeepsOk(StoreOf(w2, file), uid, xml, status);
            WithStoreKeepsOk(w2, file, Store.Update(StoreOf(w2, file), uid, xml, status));
          } else {
            StartsWithPrefix(IncompatibleMessage);
            UpdateKeepsOk(StoreOf(w2, file), uid, FailedPrefix + IncompatibleMessage, 406);
            WithStoreKeepsOk(w2, file, Store.Update(StoreOf(w2, file), uid, FailedPrefix + IncompatibleMessage, 406));
          }
        case Err(e) =>
          var msg := ReportedMessage(e);
          StartsWithPrefix(msg);
          UpdateKeepsOk(StoreOf(w2, file), uid, FailedPrefix + msg, 406);
          WithStoreKeepsOk(w2, file, Store.Update(StoreOf(w2, file), uid, FailedPrefix + msg, 406));
      }
    }
  }

  // ---------------------------------------------------------------------------
  // Asking twice

  /** The compatibility answer is never given: `main` either raises or returns a non-empty document. */
  lemma {:induction false} MainNeverEmpty(w: World, data: Request.RequestData, deps: Deps)
    ensures UtilityMain(w, data, deps).1.Ok? ==> |UtilityMain(w, data, deps).1.value.0| > 0
  {
    var r := UtilityMain(w, data, deps);
    if r.1.Ok? {
      XmlIsNotFailure(r.1.value.0);
    }
  }

  /**
   * A request that built its frames, asked again with the same uid and
   * catalog label, is answered from the store: the same status, the same
   * document signed, and nothing changes.
   */
  lemma {:induction false} SuccessIsReplayed(w: World, data: Request.RequestData, deps: Deps, deps2: Deps)
    requires UidOf(data).Some?
    requires StoreOf(w, VersionMap.StoreFor(data.hspmVersion)).table.Some?
    requires Store.Load(StoreOf(w, VersionMap.StoreFor(data.hspmVersion)), UidOf(data).value).None?
    requires UtilityMain(WithStore(w, VersionMap.StoreFor(data.hspmVersion),
                                   Store.InsertUidWithNone(StoreOf(w, VersionMap.StoreFor(data.hspmVersion)), UidOf(data).value)),
                         data, deps).1.Ok?
    ensures var (w1, first) := RequestFrames(w, data, deps);
            var (w2, second) := RequestFrames(w1, data, deps2);
            && first.message == BuiltMessage
            && second == Response(first.status, deps2.sign(Store.Load(StoreOf(w1, VersionMap.StoreFor(data.hspmVersion)), UidOf(data).value).value.content), CachedMessage)
            && w2 == w1
  {
    var uid := UidOf(data).value;
    var file := VersionMap.StoreFor(data.hspmVersion);
    var db := StoreOf(w, file);
    var wi := WithStore(w, file, Store.InsertUidWithNone(db, uid));
    var (wm, result) := UtilityMain(wi, data, deps);
    var (xml, status) := result.value;
    XmlIsNotFailure(xml);
    assert Store.Load(StoreOf(wi, file), uid) == Some(Store.Pending);
    assert Store.Load(StoreOf(wm, file), uid).Some? by {
      if file == wm.selected && data.uid.Some? {
        assert Store.Load(StoreOf(wm, file), uid).Some?;
      } else {
        assert StoreOf(wm, file) == StoreOf(wi, file);
      }
    }
    var w1 := WithStore(wm, file, Store.Update(StoreOf(wm, file), uid, xml, status));
    assert RequestFrames(w, data, deps) == (w1, Response(status, deps.sign(xml), BuiltMessage));
    assert Store.Load(StoreOf(w1, file), uid) == Some(Store.Row(xml, status));
  }

  /**
   * A request that failed with a message free of `" | "`, asked again with the
   * same uid and catalog label, gets the same message with status 406, and
   * its failure is cleared so that a third ask computes afresh.
   */
  lemma {:induction false} FailureIsReplayedOnce(w: World, data: Request.RequestData, deps: Deps, deps2: Deps)
    requires UidOf(data).Some?
    requires StoreOf(w, VersionMap.StoreFor(data.hspmVersion)).table.Some?
    requires Store.Load(StoreOf(w, VersionMap.StoreFor(data.hspmVersion)), UidOf(data).value).None?
    requires RequestFrames(w, data, deps).1.status == 406
    requires !Text.Contains(RequestFrames(w, data, deps).1.message, FailedSep)
    ensures var (w1, first) := RequestFrames(w, data, deps);
            var (w2, second) := RequestFrames(w1, data, deps2);
            && second == Response(406, "", first.message)
            && Store.Load(StoreOf(w2, VersionMap.StoreFor(data.hspmVersion)), UidOf(data).value).None?
  {
    var uid := UidOf(data).value;
    var file := VersionMap.StoreFor(data.hspmVersion);
    var db := StoreOf(w, file);
    var wi := WithStore(w, file, Store.InsertUidWithNone(db, uid));
    var (wm, result) := UtilityMain(wi, data, deps);
    assert Store.Load(StoreOf(wi, file), uid) == Some(Store.Pending);
    var (w1, first) := RequestFrames(w, data, deps);
    var msg := first.message;
    MainNeverEmpty(wi, data, deps);
    assert result.Err?;
    assert StoreOf(wm, file) == StoreOf(wi, file);
    assert w1 == WithStore(wm, file, Store.Update(StoreOf(wm, file), uid, FailedPrefix + msg, 406));
    assert Store.Load(StoreOf(w1, file), uid) == Some(Store.Row(FailedPrefix + msg, 406));
    Text.SegmentAfterWhole(FailedPrefix, FailedSep, msg);
    XmlIsNotFailure(XmlDeclaration);
  }
}

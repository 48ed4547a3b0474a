/**
 * The capture job's request handler: the caller gate, the camera query,
 * the per-camera capture (direct fetch for "roundshot" sources, render
 * then fetch for "verkada" sources) and the tally it returns.
 *
 * Every external effect is an oracle: the host name a URL parses to, the
 * reply to each fetch and render request, whether an upload or a record
 * insert succeeded and the public URL the store hands back. The model
 * records the calls the job makes, in order, and the snapshot rows that
 * end up stored.
 */
module CaptureRun {
  import opened Wrappers
  import opened JsString
  import opened CaptureGuards

  newtype byte = x: int | 0 <= x < 256

  /** A row of the `cameras` table. */
  datatype Camera = Camera(
    id: string, name: string, slug: string, sourceType: string, sourceUrl: string,
    isActive: bool, displayOrder: int)

  /** The reply to an image GET: the request itself failed, or a response whose body may be unreadable (None). */
  datatype ImageReply =
    | Unreachable
    | Reply(ok: bool, contentType: Option<string>, body: Option<seq<byte>>)

  /** The body of the render service's answer: not JSON, or JSON whose `renderUrl` may be absent (None). */
  datatype RenderBody = NotJson | Json(renderUrl: Option<string>)

  datatype RenderReply =
    | RenderUnreachable
    | Rendered(ok: bool, body: RenderBody)

  /** Everything the outside world answers while one camera is processed. */
  datatype CameraOracle = CameraOracle(
    direct: ImageReply,      // GET of a roundshot source_url
    render: RenderReply,     // POST to the render service for a verkada camera
    rendered: ImageReply,    // GET of the renderUrl
    uploadOk: bool,          // the storage upload neither returned an error nor threw
    publicUrl: string,       // what getPublicUrl returns for the key
    insertOk: bool)          // the snapshot insert neither returned an error nor threw

  const RenderEndpoint := "https://api.urlbox.io/v1/render/sync"

  /** The render service request: endpoint, bearer key and JSON body. */
  datatype RenderRequest = RenderRequest(
    endpoint: string, apiKey: string, url: string, width: nat, height: nat, format: string, delay: nat)

  /** A row inserted into `snapshots`. */
  datatype SnapshotRow = SnapshotRow(
    cameraId: string, imageUrl: string, capturedAt: string, timeSlot: string, fileSizeBytes: nat)

  /** An external call the job makes. */
  datatype Call =
    | Get(url: string)
    | RenderPost(request: RenderRequest)
    | Upload(key: string, bytes: seq<byte>, contentType: string, cacheControl: string)
    | Insert(row: SnapshotRow)

  /** One element of `results`. */
  datatype CaptureEntry = CaptureEntry(camera: string, success: bool)

  /** What processing one camera does: the entry it pushes (if any), the calls it makes, the row it stores. */
  datatype CameraRun = CameraRun(entry: Option<CaptureEntry>, calls: seq<Call>, row: Option<SnapshotRow>)

  /** What is fixed for a whole run: URL parser, render key, the ISO text of "now" and the slot. */
  datatype RunContext = RunContext(
    host: string -> Option<string>, urlboxKey: Option<string>, nowIso: string, timeSlot: string)

  function Failed(cam: Camera, calls: seq<Call>): CameraRun {
    CameraRun(Some(CaptureEntry(cam.name, false)), calls, None)
  }

  function CallFirst(c: Call, run: CameraRun): CameraRun {
    run.(calls := [c] + run.calls)
  }

  /** Upload under the run's key, ask for the public URL, insert the snapshot row. */
  function Store(cam: Camera, bytes: seq<byte>, o: CameraOracle, ctx: RunContext): CameraRun {
    var upload := Upload(StorageKey(cam.slug, ctx.nowIso), bytes, "image/jpeg", "3600");
    if !o.uploadOk then Failed(cam, [upload])
    else
      var row := SnapshotRow(cam.id, o.publicUrl, ctx.nowIso, ctx.timeSlot, |bytes|);
      if !o.insertOk then Failed(cam, [upload, Insert(row)])
      else CameraRun(Some(CaptureEntry(cam.name, true)), [upload, Insert(row)], Some(row))
  }

  /** The checks on a fetched image (status, content type, readable body, size), then Store. */
  function Accept(cam: Camera, reply: ImageReply, o: CameraOracle, ctx: RunContext): CameraRun {
    match reply
    case Unreachable => Failed(cam, [])
    case Reply(ok, contentType, body) =>
      if !ok then Failed(cam, [])
      else if !IsValidImageContentType(contentType) then Failed(cam, [])
      else if body.None? then Failed(cam, [])
      else if TooLarge(|body.value|) then Failed(cam, [])
      else Store(cam, body.value, o, ctx)
  }

  /** The render request for a camera's page: 1920×1080 JPEG, captured after a 15 s delay. */
  function RenderCall(cam: Camera, key: string): Call {
    RenderPost(RenderRequest(RenderEndpoint, key, cam.sourceUrl, 1920, 1080, "jpg", 15000))
  }

  /** A verkada camera: render its page, check the returned URL, fetch it. */
  function RenderAndFetch(cam: Camera, o: CameraOracle, ctx: RunContext): CameraRun {
    if ctx.urlboxKey.None? || ctx.urlboxKey.value == "" then Failed(cam, [])
    else
      var post := RenderCall(cam, ctx.urlboxKey.value);
      CallFirst(post,
        match o.render
        case RenderUnreachable => Failed(cam, [])
        case Rendered(ok, body) =>
          if !ok then Failed(cam, [])
          else match body
            case NotJson => Failed(cam, [])
            case Json(renderUrl) =>
              if renderUrl.None? || renderUrl.value == "" then Failed(cam, [])
              else if !IsAllowedDomain(ctx.host, renderUrl.value) then Failed(cam, [])
              else CallFirst(Get(renderUrl.value), Accept(cam, o.rendered, o, ctx)))
  }

  /** One iteration of the camera loop. */
  function ProcessCamera(cam: Camera, o: CameraOracle, ctx: RunContext): CameraRun {
    if !IsAllowedDomain(ctx.host, cam.sourceUrl) then Failed(cam, [])
    else if cam.sourceType == "roundshot" then CallFirst(Get(cam.sourceUrl), Accept(cam, o.direct, o, ctx))
    else if cam.sourceType == "verkada" then RenderAndFetch(cam, o, ctx)
    else CameraRun(None, [], None)
  }

  // ---------------------------------------------------------------------
  // Reference predicates for one camera
  // ---------------------------------------------------------------------

  /** A fetched image passes every check. */
  predicate ImageAcceptable(reply: ImageReply) {
    reply.Reply? && reply.ok && IsValidImageContentType(reply.contentType) &&
    reply.body.Some? && !TooLarge(|reply.body.value|)
  }

  /** The render service answered with an allowlisted renderUrl. */
  predicate RenderUsable(r: RenderReply, host: string -> Option<string>) {
    r.Rendered? && r.ok && r.body.Json? && r.body.renderUrl.Some? && r.body.renderUrl.value != "" &&
    IsAllowedDomain(host, r.body.renderUrl.value)
  }

  /** Every step a camera of its source type goes through succeeds. */
  predicate Succeeds(cam: Camera, o: CameraOracle, ctx: RunContext) {
    IsAllowedDomain(ctx.host, cam.sourceUrl) && o.uploadOk && o.insertOk &&
    ((cam.sourceType == "roundshot" && ImageAcceptable(o.direct)) ||
     (cam.sourceType == "verkada" && ctx.urlboxKey.Some? && ctx.urlboxKey.value != "" &&
      RenderUsable(o.render, ctx.host) && ImageAcceptable(o.rendered)))
  }

  /** A camera that passes the allowlist but has a source type the loop does not know. */
  predicate Silent(cam: Camera, host: string -> Option<string>) {
    IsAllowedDomain(host, cam.sourceUrl) && cam.sourceType != "roundshot" && cam.sourceType != "verkada"
  }

  /** The kind of each external call, for stating the order of steps. */
  datatype Step = GetStep | RenderStep | UploadStep | InsertStep

  function StepOf(c: Call): Step {
    match c
    case Get(_) => GetStep
    case RenderPost(_) => RenderStep
    case Upload(_, _, _, _) => UploadStep
    case Insert(_) => InsertStep
  }

  function Steps(calls: seq<Call>): (r: seq<Step>)
    ensures |r| == |calls|
    ensures forall k :: 0 <= k < |calls| ==> r[k] == StepOf(calls[k])
    decreases |calls|
  {
    if calls == [] then [] else [StepOf(calls[0])] + Steps(calls[1..])
  }

  /** The full order of steps for a source type. */
  function Pipeline(sourceType: string): seq<Step> {
    if sourceType == "roundshot" then [GetStep, UploadStep, InsertStep]
    else if sourceType == "verkada" then [RenderStep, GetStep, UploadStep, InsertStep]
    else []
  }

  predicate IsPrefix<T(==)>(p: seq<T>, s: seq<T>) {
    |p| <= |s| && s[..|p|] == p
  }

  // ---------------------------------------------------------------------
  // What one camera does
  // ---------------------------------------------------------------------

  lemma StoreFacts(cam: Camera, bytes: seq<byte>, o: CameraOracle, ctx: RunContext)
    ensures var run := Store(cam, bytes, o, ctx);
      && run.entry.Some? && run.entry.value.camera == cam.name
      && (run.entry.value.success <==> o.uploadOk && o.insertOk)
      && (run.row.Some? <==> run.entry.value.success)
      && IsPrefix(Steps(run.calls), [UploadStep, InsertStep]) && |run.calls| >= 1
      && run.calls[0] == Upload(StorageKey(cam.slug, ctx.nowIso), bytes, "image/jpeg", "3600")
      && (run.row.Some? ==> run.calls == [run.calls[0], Insert(run.row.value)] &&
                            run.row.value == SnapshotRow(cam.id, o.publicUrl, ctx.nowIso, ctx.timeSlot, |bytes|))
  {
  }

  lemma AcceptFacts(cam: Camera, reply: ImageReply, o: CameraOracle, ctx: RunContext)
    ensures var run := Accept(cam, reply, o, ctx);
      && run.entry.Some? && run.entry.value.camera == cam.name
      && (run.entry.value.success <==> ImageAcceptable(reply) && o.uploadOk && o.insertOk)
      && (run.row.Some? <==> run.entry.value.success)
      && IsPrefix(Steps(run.calls), [UploadStep, InsertStep])
      && (!ImageAcceptable(reply) ==> run.calls == [])
      && (run.row.Some? ==>
            && reply.Reply? && reply.body.Some?
            && run.calls == [Upload(StorageKey(cam.slug, ctx.nowIso), reply.body.value, "image/jpeg", "3600"), Insert(run.row.value)]
            && run.row.value == SnapshotRow(cam.id, o.publicUrl, ctx.nowIso, ctx.timeSlot, |reply.body.value|))
  {
    if ImageAcceptable(reply) {
      StoreFacts(cam, reply.body.value, o, ctx);
    }
  }

  /** Prepending a call shifts the step sequence by that call's step. */
  lemma StepsCallFirst(c: Call, run: CameraRun)
    ensures Steps(CallFirst(c, run).calls) == [StepOf(c)] + Steps(run.calls)
  {
  }

  /**
   * One camera pushes an entry unless it is Silent; the entry names the
   * camera; it is a success exactly when every step succeeded, and then
   * (only then) a row is stored.
   */
  lemma {:induction false} ProcessCameraOutcome(cam: Camera, o: CameraOracle, ctx: RunContext)
    ensures var run := ProcessCamera(cam, o, ctx);
      && (run.entry.None? <==> Silent(cam, ctx.host))
      && (run.entry.Some? ==> run.entry.value.camera == cam.name)
      && (run.entry == Some(CaptureEntry(cam.name, true)) <==> Succeeds(cam, o, ctx))
      && (run.row.Some? <==> Succeeds(cam, o, ctx))
  {
    if IsAllowedDomain(ctx.host, cam.sourceUrl) {
      if cam.sourceType == "roundshot" {
        AcceptFacts(cam, o.direct, o, ctx);
      } else if cam.sourceType == "verkada" && ctx.urlboxKey.Some? && ctx.urlboxKey.value != "" && RenderUsable(o.render, ctx.host) {
        AcceptFacts(cam, o.rendered, o, ctx);
      }
    }
  }

  /** A common first step keeps one sequence a prefix of the other. */
  lemma PrefixExtend(x: Step, p: seq<Step>, s: seq<Step>)
    requires IsPrefix(p, s)
    ensures IsPrefix([x] + p, [x] + s)
  {
    assert ([x] + s)[..|p| + 1] == [x] + s[..|p|];
  }

  /** An allowlisted roundshot camera fetches, then stores as far as it gets. */
  lemma RoundshotSteps(cam: Camera, o: CameraOracle, ctx: RunContext)
    requires IsAllowedDomain(ctx.host, cam.sourceUrl) && cam.sourceType == "roundshot"
    ensures IsPrefix(Steps(ProcessCamera(cam, o, ctx).calls), [GetStep, UploadStep, InsertStep])
  {
    var inner := Accept(cam, o.direct, o, ctx);
    AcceptFacts(cam, o.direct, o, ctx);
    StepsCallFirst(Get(cam.sourceUrl), inner);
    PrefixExtend(GetStep, Steps(inner.calls), [UploadStep, InsertStep]);
  }

  /** An allowlisted verkada camera with a render key and a usable render: render, fetch, then store. */
  lemma VerkadaUsableSteps(cam: Camera, o: CameraOracle, ctx: RunContext)
    requires IsAllowedDomain(ctx.host, cam.sourceUrl) && cam.sourceType == "verkada"
    requires ctx.urlboxKey.Some? && ctx.urlboxKey.value != "" && RenderUsable(o.render, ctx.host)
    ensures IsPrefix(Steps(ProcessCamera(cam, o, ctx).calls), [RenderStep, GetStep, UploadStep, InsertStep])
  {
    var post := RenderCall(cam, ctx.urlboxKey.value);
    var url := o.render.body.renderUrl.value;
    var inner := Accept(cam, o.rendered, o, ctx);
    AcceptFacts(cam, o.rendered, o, ctx);
    assert ProcessCamera(cam, o, ctx) == CallFirst(post, CallFirst(Get(url), inner));
    StepsCallFirst(Get(url), inner);
    StepsCallFirst(post, CallFirst(Get(url), inner));
    PrefixExtend(GetStep, Steps(inner.calls), [UploadStep, InsertStep]);
    PrefixExtend(RenderStep, [GetStep] + Steps(inner.calls), [GetStep, UploadStep, InsertStep]);
  }

  /** An unusable render answer stops the camera right after the render request. */
  lemma VerkadaUnusableSteps(cam: Camera, o: CameraOracle, ctx: RunContext)
    requires IsAllowedDomain(ctx.host, cam.sourceUrl) && cam.sourceType == "verkada"
    requires ctx.urlboxKey.Some? && ctx.urlboxKey.value != "" && !RenderUsable(o.render, ctx.host)
    ensures ProcessCamera(cam, o, ctx) == Failed(cam, [RenderCall(cam, ctx.urlboxKey.value)])
    ensures IsPrefix(Steps(ProcessCamera(cam, o, ctx).calls), [RenderStep, GetStep, UploadStep, InsertStep])
  {
    assert ProcessCamera(cam, o, ctx) == CallFirst(RenderCall(cam, ctx.urlboxKey.value), Failed(cam, []));
  }

  /**
   * The order of steps: the source URL is checked before any call, the
   * calls made are a prefix of the source type's pipeline, a Silent camera
   * makes none, and a verkada camera without a render key makes none.
   */
  lemma {:induction false} ProcessCameraSteps(cam: Camera, o: CameraOracle, ctx: RunContext)
    ensures var run := ProcessCamera(cam, o, ctx);
      && (!IsAllowedDomain(ctx.host, cam.sourceUrl) ==> run == Failed(cam, []))
      && IsPrefix(Steps(run.calls), Pipeline(cam.sourceType))
      && (cam.sourceType == "verkada" && (ctx.urlboxKey.None? || ctx.urlboxKey.value == "") ==> run.calls == [])
      && (cam.sourceType == "verkada" && IsAllowedDomain(ctx.host, cam.sourceUrl) && !RenderUsable(o.render, ctx.host) &&
          ctx.urlboxKey.Some? && ctx.urlboxKey.value != "" ==>
            run == Failed(cam, [RenderCall(cam, ctx.urlboxKey.value)]))
  {
    if IsAllowedDomain(ctx.host, cam.sourceUrl) {
      if cam.sourceType == "roundshot" {
        RoundshotSteps(cam, o, ctx);
      } else if cam.sourceType == "verkada" && ctx.urlboxKey.Some? && ctx.urlboxKey.value != "" {
        if RenderUsable(o.render, ctx.host) {
          VerkadaUsableSteps(cam, o, ctx);
        } else {
          VerkadaUnusableSteps(cam, o, ctx);
        }
      }
    }
  }

  /** Every URL that is fetched passes the allowlist, the source URL and the renderUrl alike. */
  lemma {:induction false} ProcessCameraFetchesAllowed(cam: Camera, o: CameraOracle, ctx: RunContext)
    ensures forall c :: c in ProcessCamera(cam, o, ctx).calls && c.Get? ==> IsAllowedDomain(ctx.host, c.url)
  {
    var run := ProcessCamera(cam, o, ctx);
    if IsAllowedDomain(ctx.host, cam.sourceUrl) {
      if cam.sourceType == "roundshot" {
        AcceptFacts(cam, o.direct, o, ctx);
        assert run.calls == [Get(cam.sourceUrl)] + Accept(cam, o.direct, o, ctx).calls;
      } else if cam.sourceType == "verkada" && ctx.urlboxKey.Some? && ctx.urlboxKey.value != "" && RenderUsable(o.render, ctx.host) {
        AcceptFacts(cam, o.rendered, o, ctx);
        var post := RenderCall(cam, ctx.urlboxKey.value);
        assert run.calls == [post, Get(o.render.body.renderUrl.value)] + Accept(cam, o.rendered, o, ctx).calls;
      }
    }
  }

  /** What a stored row holds: this camera, the run's time, the slot, the public URL and the size of the bytes uploaded just before. */
  lemma {:induction false} ProcessCameraRow(cam: Camera, o: CameraOracle, ctx: RunContext)
    ensures var run := ProcessCamera(cam, o, ctx);
      run.row.Some? ==>
        && run.row.value.cameraId == cam.id && run.row.value.imageUrl == o.publicUrl
        && run.row.value.capturedAt == ctx.nowIso && run.row.value.timeSlot == ctx.timeSlot
        && run.row.value.fileSizeBytes <= MaxImageSize
        && |run.calls| >= 2 && run.calls[|run.calls| - 1] == Insert(run.row.value)
        && var up := run.calls[|run.calls| - 2];
           up == Upload(StorageKey(cam.slug, ctx.nowIso), up.bytes, "image/jpeg", "3600") &&
           |up.bytes| == run.row.value.fileSizeBytes
  {
    var run := ProcessCamera(cam, o, ctx);
    if IsAllowedDomain(ctx.host, cam.sourceUrl) {
      if cam.sourceType == "roundshot" {
        AcceptFacts(cam, o.direct, o, ctx);
      } else if cam.sourceType == "verkada" && ctx.urlboxKey.Some? && ctx.urlboxKey.value != "" && RenderUsable(o.render, ctx.host) {
        AcceptFacts(cam, o.rendered, o, ctx);
      }
    }
  }

  // ---------------------------------------------------------------------
  // The camera loop as a specification
  // ---------------------------------------------------------------------

  /** The accumulated `results`, the calls made and the rows stored. */
  datatype Tally = Tally(results: seq<CaptureEntry>, calls: seq<Call>, rows: seq<SnapshotRow>)

  function Record(t: Tally, run: CameraRun): Tally {
    Tally(t.results + (if run.entry.Some? then [run.entry.value] else []),
          t.calls + run.calls,
          t.rows + (if run.row.Some? then [run.row.value] else []))
  }

  /** The loop over `cams` in order; camera k sees oracle(k). */
  function RunCameras(cams: seq<Camera>, oracle: nat -> CameraOracle, ctx: RunContext): Tally
    decreases |cams|
  {
    if cams == [] then Tally([], [], [])
    else Record(RunCameras(cams[..|cams| - 1], oracle, ctx), ProcessCamera(cams[|cams| - 1], oracle(|cams| - 1), ctx))
  }

  /** `results.filter(r => r.success).length`. */
  function SuccessCount(results: seq<CaptureEntry>): (n: nat)
    ensures n <= |results|
    decreases |results|
  {
    if results == [] then 0
    else SuccessCount(results[..|results| - 1]) + (if results[|results| - 1].success then 1 else 0)
  }

  /** How many cameras are Silent. */
  function SilentCount(cams: seq<Camera>, host: string -> Option<string>): nat
    decreases |cams|
  {
    if cams == [] then 0
    else SilentCount(cams[..|cams| - 1], host) + (if Silent(cams[|cams| - 1], host) then 1 else 0)
  }

  /** How many cameras succeed at every step. */
  function SucceedCount(cams: seq<Camera>, oracle: nat -> CameraOracle, ctx: RunContext): nat
    decreases |cams|
  {
    if cams == [] then 0
    else SucceedCount(cams[..|cams| - 1], oracle, ctx) + (if Succeeds(cams[|cams| - 1], oracle(|cams| - 1), ctx) then 1 else 0)
  }

  lemma SuccessCountAppend(rs: seq<CaptureEntry>, e: CaptureEntry)
    ensures SuccessCount(rs + [e]) == SuccessCount(rs) + (if e.success then 1 else 0)
  {
    assert (rs + [e])[..|rs|] == rs;
  }

  /**
   * The tally: `processed` counts every camera except the Silent ones,
   * `successful` counts exactly the cameras whose every step succeeded,
   * and there is one stored row per success.
   */
  lemma {:induction false} TallyCounts(cams: seq<Camera>, oracle: nat -> CameraOracle, ctx: RunContext)
    ensures var t := RunCameras(cams, oracle, ctx);
      && |t.results| + SilentCount(cams, ctx.host) == |cams|
      && SuccessCount(t.results) == SucceedCount(cams, oracle, ctx)
      && |t.rows| == SuccessCount(t.results)
    decreases |cams|
  {
    if cams != [] {
      var n := |cams| - 1;
      TallyCounts(cams[..n], oracle, ctx);
      var run := ProcessCamera(cams[n], oracle(n), ctx);
      ProcessCameraOutcome(cams[n], oracle(n), ctx);
      var before := RunCameras(cams[..n], oracle, ctx);
      if run.entry.Some? {
        SuccessCountAppend(before.results, run.entry.value);
      } else {
        assert before.results + [] == before.results;
      }
    }
  }

  /** Across the run: every fetched URL is allowlisted and every row carries the run's time and slot. */
  lemma {:induction false} RunInvariants(cams: seq<Camera>, oracle: nat -> CameraOracle, ctx: RunContext)
    ensures var t := RunCameras(cams, oracle, ctx);
      && (forall c :: c in t.calls && c.Get? ==> IsAllowedDomain(ctx.host, c.url))
      && (forall r :: r in t.rows ==> r.capturedAt == ctx.nowIso && r.timeSlot == ctx.timeSlot && r.fileSizeBytes <= MaxImageSize)
    decreases |cams|
  {
    if cams != [] {
      var n := |cams| - 1;
      RunInvariants(cams[..n], oracle, ctx);
      ProcessCameraFetchesAllowed(cams[n], oracle(n), ctx);
      ProcessCameraRow(cams[n], oracle(n), ctx);
    }
  }

  // ---------------------------------------------------------------------
  // The handler
  // ---------------------------------------------------------------------

  datatype Request = Request(httpMethod: string, authorization: Option<string>)

  /** Environment values read by the handler. */
  datatype Env = Env(webhookSecret: Option<string>, urlboxKey: Option<string>)

  /** The answer to the query for active cameras ordered by display_order. */
  datatype CameraQuery =
    | QueryThrew                           // the client or the query threw
    | QueryError                           // the query returned an error
    | QueryData(cameras: Option<seq<Camera>>)   // rows (None: a null data field)

  datatype Response =
    | Preflight                            // OPTIONS: CORS headers only
    | Unauthorized                         // 401
    | CamerasUnavailable                   // 500 "Failed to fetch cameras"
    | InternalError                        // 500, generic message
    | Completed(processed: nat, successful: nat)   // 200 with the two counts

  function Status(r: Response): nat {
    match r
    case Preflight => 200
    case Unauthorized => 401
    case CamerasUnavailable => 500
    case InternalError => 500
    case Completed(_, _) => 200
  }

  /** The handler. `nowMs` and `nowIso` are `now.getTime()` and `now.toISOString()` for the one `now` of the run. */
  method Capture(req: Request, env: Env, query: CameraQuery, nowMs: int, nowIso: string,
                 host: string -> Option<string>, oracle: nat -> CameraOracle)
    returns (resp: Response, calls: seq<Call>, rows: seq<SnapshotRow>)
    ensures req.httpMethod == "OPTIONS" ==> resp == Preflight
    ensures req.httpMethod != "OPTIONS" && !Authorized(env.webhookSecret, req.authorization) ==> resp == Unauthorized
    ensures resp.Completed? <==> req.httpMethod != "OPTIONS" && Authorized(env.webhookSecret, req.authorization) && query.QueryData?
    ensures req.httpMethod != "OPTIONS" && Authorized(env.webhookSecret, req.authorization) && query.QueryError? ==> resp == CamerasUnavailable
    ensures req.httpMethod != "OPTIONS" && Authorized(env.webhookSecret, req.authorization) && query.QueryThrew? ==> resp == InternalError
    ensures Status(resp) == 500 <==> req.httpMethod != "OPTIONS" && Authorized(env.webhookSecret, req.authorization) && !query.QueryData?
    ensures !resp.Completed? ==> calls == [] && rows == []
    ensures resp.Completed? ==>
      var cams := query.cameras.GetOr([]);
      var ctx := RunContext(host, env.urlboxKey, nowIso, TimeSlot(nowMs));
      && resp.processed + SilentCount(cams, host) == |cams|
      && resp.successful == SucceedCount(cams, oracle, ctx) == |rows|
      && resp.successful <= resp.processed <= |cams|
      && calls == RunCameras(cams, oracle, ctx).calls && rows == RunCameras(cams, oracle, ctx).rows
    ensures forall c :: c in calls && c.Get? ==> IsAllowedDomain(host, c.url)
    ensures forall r :: r in rows ==> r.capturedAt == nowIso && r.timeSlot == TimeSlot(nowMs)
  {
    calls, rows := [], [];
    if req.httpMethod == "OPTIONS" {
      return Preflight, calls, rows;
    }
    if !Authorized(env.webhookSecret, req.authorization) {
      return Unauthorized, calls, rows;
    }
    match query {
      case QueryThrew =>
        return InternalError, calls, rows;
      case QueryError =>
        return CamerasUnavailable, calls, rows;
      case QueryData(data) =>
        var cams := data.GetOr([]);
        var results: seq<CaptureEntry> := [];
        var ctx := RunContext(host, env.urlboxKey, nowIso, TimeSlot(nowMs));
        var i := 0;
        while i < |cams|
          invariant 0 <= i <= |cams|
          invariant Tally(results, calls, rows) == RunCameras(cams[..i], oracle, ctx)
        {
          var run := ProcessCamera(cams[i], oracle(i), ctx);
          if run.entry.Some? {
            results := results + [run.entry.value];
          }
          calls := calls + run.calls;
          if run.row.Some? {
            rows := rows + [run.row.value];
          }
          assert cams[..i + 1][..i] == cams[..i];
          i := i + 1;
        }
        assert cams[..i] == cams;
        TallyCounts(cams, oracle, ctx);
        RunInvariants(cams, oracle, ctx);
        resp := Completed(|results|, SuccessCount(results));
    }
  }
}

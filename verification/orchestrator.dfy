/** `testServers` of utils/speedtest.js: the four steps against one server
    (server information, download, upload, ping), each failure recorded in
    `errors` while the other steps still run, and the summary entry when
    all four fail. */
module Orchestrator {

  import opened Support
  import opened JsValues
  import opened Probes

  /** An entry of `config.servers`; an empty `name` stands for a missing one. */
  datatype ServerConfig = ServerConfig(name: string, url: string)

  /** The `config.test` values the steps read. */
  datatype TestSettings = TestSettings(uploadSize: nat, smallUploadSize: nat, pingCount: int, downloadTimeout: nat)

  /** What the server and the network deliver to one run: the body of
      `GET /backend/getIP.php`, the download response, the two upload
      attempts, the outcome of the `i`-th ping request, and the draws of
      `Math.random()`. */
  datatype Transport = Transport(
    info: Result<JsValue>,
    download: Result<seq<StreamEvent>>,
    uploadFull: Attempt,
    uploadSmall: Attempt,
    pings: nat -> PingOutcome,
    random: nat -> real)

  /** The object `testServers` returns: the record `saveResult` stores and
      the `errors` list. */
  datatype SpeedTestResult = SpeedTestResult(record: Record, errors: seq<string>)

  const InfoPrefix: string := "获取服务器信息失败: "
  const DownloadPrefix: string := "下载测试失败: "
  const UploadPrefix: string := "上传测试失败: "
  const PingPrefix: string := "ping测试失败: "

  /** The entry the outer `catch` adds for the error thrown when all four steps failed. */
  function SummaryText(stepErrors: seq<string>): string
  {
    "总体测试失败: " + "所有测试都失败了: " + Join(stepErrors, ", ")
  }

  /** The `errors` entry of a failed step, if it failed. */
  function StepError<T>(prefix: string, r: Result<T>): (e: seq<string>)
    ensures |e| <= 1
    ensures e == [] <==> r.Ok?
  {
    if r.Ok? then [] else [prefix + ErrorMessage(r.error)]
  }

  /** `server.name || server.url`. */
  function DisplayName(server: ServerConfig): string
  {
    if server.name != "" then server.name else server.url
  }

  /** The outcomes of the four steps. */
  datatype Outcomes = Outcomes(
    info: Result<JsValue>,
    download: Result<Measured>,
    upload: Result<Measured>,
    ping: Result<PingStats>)

  function StepOutcomes(settings: TestSettings, t: Transport): Outcomes
  {
    Outcomes(
      t.info,
      DownloadSpec(t.download, settings.downloadTimeout * 1000),
      UploadSpec(settings.uploadSize, settings.smallUploadSize, t.uploadFull, t.uploadSmall),
      PingSpec(settings.pingCount, t.pings))
  }

  predicate AllFailed(o: Outcomes)
  {
    o.info.Err? && o.download.Err? && o.upload.Err? && o.ping.Err?
  }

  /** How many of the four steps failed. */
  function FailedSteps(o: Outcomes): nat
  {
    (if o.info.Err? then 1 else 0) + (if o.download.Err? then 1 else 0)
    + (if o.upload.Err? then 1 else 0) + (if o.ping.Err? then 1 else 0)
  }

  /** The record and the errors a run with these step outcomes yields. */
  function Assemble(server: ServerConfig, o: Outcomes): SpeedTestResult
  {
    var stepErrors := StepError(InfoPrefix, o.info) + StepError(DownloadPrefix, o.download)
      + StepError(UploadPrefix, o.upload) + StepError(PingPrefix, o.ping);
    SpeedTestResult(
      Record(
        Str(DisplayName(server)),
        Str(server.url),
        if o.download.Ok? then Num(o.download.value.speed) else Null,
        if o.upload.Ok? then Num(o.upload.value.speed) else Null,
        if o.ping.Ok? then Num(Finite(o.ping.value.ping)) else Null,
        if o.ping.Ok? then Num(Finite(o.ping.value.jitter)) else Null,
        if o.info.Ok? then o.info.value else Null),
      if |stepErrors| == 4 then stepErrors + [SummaryText(stepErrors)] else stepErrors)
  }

  /** What `testServers` resolves with. */
  function TestServersSpec(server: ServerConfig, settings: TestSettings, t: Transport): SpeedTestResult
  {
    Assemble(server, StepOutcomes(settings, t))
  }

  /** `testServers`: the result object starts with every measurement null and
      no errors; each step either fills its fields or appends its error. */
  method TestServers(server: ServerConfig, settings: TestSettings, t: Transport) returns (result: SpeedTestResult)
    ensures result == TestServersSpec(server, settings, t)
  {
    ghost var o := StepOutcomes(settings, t);
    var record := Record(Str(DisplayName(server)), Str(server.url), Null, Null, Null, Null, Null);
    var errors: seq<string> := [];

    match t.info {
      case Ok(data) => record := record.(server_info := data);
      case Err(e) => errors := errors + [InfoPrefix + ErrorMessage(e)];
    }
    assert errors == StepError(InfoPrefix, o.info);

    var downloadTestResult := PerformDownloadTest(t.download, settings.downloadTimeout * 1000);
    match downloadTestResult {
      case Ok(m) => record := record.(download_speed := Num(m.speed));
      case Err(e) => errors := errors + [DownloadPrefix + ErrorMessage(e)];
    }
    assert errors == StepError(InfoPrefix, o.info) + StepError(DownloadPrefix, o.download);

    var uploadTestResult := PerformUploadTest(settings.uploadSize, settings.smallUploadSize, t.uploadFull, t.uploadSmall, t.random);
    match uploadTestResult {
      case Ok(m) => record := record.(upload_speed := Num(m.speed));
      case Err(e) => errors := errors + [UploadPrefix + ErrorMessage(e)];
    }
    assert errors == StepError(InfoPrefix, o.info) + StepError(DownloadPrefix, o.download)
      + StepError(UploadPrefix, o.upload);

    var pingTestResult := PerformPingTest(settings.pingCount, t.pings);
    match pingTestResult {
      case Ok(stats) => record := record.(ping := Num(Finite(stats.ping)), jitter := Num(Finite(stats.jitter)));
      case Err(e) => errors := errors + [PingPrefix + ErrorMessage(e)];
    }
    assert errors == StepError(InfoPrefix, o.info) + StepError(DownloadPrefix, o.download)
      + StepError(UploadPrefix, o.upload) + StepError(PingPrefix, o.ping);

    if |errors| == 4 {
      errors := errors + [SummaryText(errors)];
    }
    result := SpeedTestResult(record, errors);
  }

  /** Every failure leaves one entry, in step order, and only a total failure
      adds the fifth, summary entry. */
  lemma ErrorsCountFailedSteps(server: ServerConfig, o: Outcomes)
    ensures AllFailed(o) ==> |Assemble(server, o).errors| == 5
    ensures !AllFailed(o) ==> |Assemble(server, o).errors| == FailedSteps(o) < 4
    ensures o.info.Err? ==> Assemble(server, o).errors[0] == InfoPrefix + ErrorMessage(o.info.error)
    ensures AllFailed(o) ==> Assemble(server, o).errors[4] == SummaryText(Assemble(server, o).errors[..4])
    ensures Assemble(server, o).errors[..FailedSteps(o)] ==
      StepError(InfoPrefix, o.info) + StepError(DownloadPrefix, o.download)
      + StepError(UploadPrefix, o.upload) + StepError(PingPrefix, o.ping)
  {
    var steps := StepError(InfoPrefix, o.info) + StepError(DownloadPrefix, o.download)
      + StepError(UploadPrefix, o.upload) + StepError(PingPrefix, o.ping);
    assert (steps + [SummaryText(steps)])[..|steps|] == steps;
  }

  /** Each measurement field is set exactly when its own step succeeded, to
      what that step measured; the name falls back to the url. */
  lemma FieldsReflectSteps(server: ServerConfig, o: Outcomes)
    ensures var r := Assemble(server, o).record;
      && r.server_name == Str(DisplayName(server))
      && (r.download_speed == Null <==> o.download.Err?)
      && (o.download.Ok? ==> r.download_speed == Num(o.download.value.speed))
      && (r.upload_speed == Null <==> o.upload.Err?)
      && (o.upload.Ok? ==> r.upload_speed == Num(o.upload.value.speed))
      && (r.ping == Null <==> o.ping.Err?) && (r.jitter == Null <==> o.ping.Err?)
      && (o.ping.Ok? ==> r.ping == Num(Finite(o.ping.value.ping)) && r.jitter == Num(Finite(o.ping.value.jitter)))
      && (o.info.Err? ==> r.server_info == Null)
      && (o.info.Ok? ==> r.server_info == o.info.value)
      && r.server_url == Str(server.url)
  {
  }

  /** A step's failure does not disturb what another step recorded: changing
      only the download's outcome leaves the upload, ping and info fields alone. */
  lemma StepsDoNotInterfere(server: ServerConfig, o: Outcomes, download: Result<Measured>)
    ensures var a := Assemble(server, o).record;
      var b := Assemble(server, o.(download := download)).record;
      a.upload_speed == b.upload_speed && a.ping == b.ping && a.jitter == b.jitter
      && a.server_info == b.server_info && a.server_name == b.server_name && a.server_url == b.server_url
  {
  }

  /** When every step fails the record keeps only the name and the url, and
      the summary lists the four step errors in order. */
  lemma TotalFailureKeepsNothing(server: ServerConfig, o: Outcomes)
    requires AllFailed(o)
    ensures var res := Assemble(server, o);
      && res.record.download_speed == Null && res.record.upload_speed == Null
      && res.record.ping == Null && res.record.jitter == Null && res.record.server_info == Null
      && res.errors[4] == SummaryText([InfoPrefix + ErrorMessage(o.info.error), DownloadPrefix + ErrorMessage(o.download.error),
           UploadPrefix + ErrorMessage(o.upload.error), PingPrefix + ErrorMessage(o.ping.error)])
  {
    assert StepError(InfoPrefix, o.info) + StepError(DownloadPrefix, o.download)
      + StepError(UploadPrefix, o.upload) + StepError(PingPrefix, o.ping)
      == [InfoPrefix + ErrorMessage(o.info.error), DownloadPrefix + ErrorMessage(o.download.error),
          UploadPrefix + ErrorMessage(o.upload.error), PingPrefix + ErrorMessage(o.ping.error)];
  }

  // ---------------------------------------------------------------------------
  // The code as written

  /** How the promise `testServers` returns settles. */
  datatype Completion = Returned(result: SpeedTestResult) | Rejected(message: string)

  /** The `TypeError` a call of a non-function value raises. */
  const NotAFunctionText: string := "error is not a function"

  /** `testServers` as written: every `catch (error)` binding shadows the
      imported `error` logger, so the first statement of each handler calls
      the caught error object and throws a `TypeError`, which the next
      handler up meets in turn. A failure of any step therefore rejects the
      whole call, and a failed full-size upload never reaches its fallback. */
  function TestServersAsWritten(server: ServerConfig, settings: TestSettings, t: Transport): (c: Completion)
    ensures c.Returned? ==> c.result == TestServersSpec(server, settings, t)
  {
    var o := StepOutcomes(settings, t);
    if o.info.Err? || o.download.Err? || t.uploadFull.AttemptFailed? || o.ping.Err? then Rejected(NotAFunctionText)
    else Returned(TestServersSpec(server, settings, t))
  }

  /** As written, a failed full-size upload rejects the run even though the
      small payload succeeds; the intended flow records the small payload's
      speed, marked partial by the upload step, and reports no error. */
  lemma FallbackUnreachableAsWritten(server: ServerConfig, settings: TestSettings, t: Transport)
    requires t.uploadFull.AttemptFailed? && t.uploadSmall.Completed?
    ensures TestServersAsWritten(server, settings, t) == Rejected(NotAFunctionText)
    ensures TestServersSpec(server, settings, t).record.upload_speed ==
      Num(SpeedMbps(PayloadBytes(settings.smallUploadSize), t.uploadSmall.elapsedMs))
    ensures var o := StepOutcomes(settings, t);
      TestServersSpec(server, settings, t).errors ==
        StepError(InfoPrefix, o.info) + StepError(DownloadPrefix, o.download) + StepError(PingPrefix, o.ping)
  {
    var o := StepOutcomes(settings, t);
    assert o.upload.Ok?;
    assert StepError(UploadPrefix, o.upload) == [];
  }

  /** The intended flow always resolves: whatever fails, the caller gets the
      record with every failure listed. As written that holds only when no
      step fails. */
  lemma AsWrittenResolvesOnlyWithoutFailures(server: ServerConfig, settings: TestSettings, t: Transport)
    ensures TestServersAsWritten(server, settings, t).Returned? <==>
      FailedSteps(StepOutcomes(settings, t)) == 0 && t.uploadFull.Completed?
    ensures TestServersAsWritten(server, settings, t).Returned? ==> TestServersSpec(server, settings, t).errors == []
  {
  }
}

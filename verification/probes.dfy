/** The three measurements of utils/speedtest.js run against one server:
    the streamed download, the upload with its smaller fallback, and the
    ping series with its jitter. The HTTP client is replaced by what it
    delivers: the events of the download stream, the outcome of each
    upload attempt and of each ping request, with the elapsed times the
    code reads from `Date.now()`. */
module Probes {

  import opened Support
  import opened JsValues

  /** Why a measurement gave up; `Failure` carries the message of an error
      raised by the transport. */
  datatype ProbeError =
    | Failure(message: string)
    | DownloadTimedOut
    | TooManyPingFailures(failed: nat, count: int)
    | AllPingsFailed

  /** The `message` of the error a measurement rejects with. */
  function ErrorMessage(e: ProbeError): string
  {
    match e
    case Failure(m) => m
    case DownloadTimedOut => "下载测试超时"
    case TooManyPingFailures(f, c) => "超过一半的ping请求失败 (" + IntToString(f) + "/" + IntToString(c) + ")"
    case AllPingsFailed => "所有ping请求都失败了"
  }

  datatype Result<T> = Ok(value: T) | Err(error: ProbeError)

  /** What the download and the upload resolve with: the speed in Mbps and,
      for a partial measurement, the note explaining it. */
  datatype Measured = Measured(speed: JsNumber, partial: bool, note: Option<string>)

  /** What the ping test resolves with. */
  datatype PingStats = PingStats(ping: real, jitter: real, partial: bool, note: Option<string>)

  // ---------------------------------------------------------------------------
  // Speed

  /** A number that is not below zero: NaN and +Infinity included. */
  predicate NotNegative(n: JsNumber)
  {
    match n
    case Finite(x) => x >= 0.0
    case NegInfinity => false
    case _ => true
  }

  /** `(bytes * 8) / ((ms / 1000) * 1000000)` in JavaScript arithmetic: a
      zero duration gives Infinity, or NaN when nothing was transferred. */
  function SpeedMbps(bytes: nat, elapsedMs: nat): (speed: JsNumber)
    ensures NotNegative(speed)
    ensures speed.Finite? <==> elapsedMs > 0
    ensures speed.Finite? ==> speed.r >= 0.0 && (speed.r == 0.0 <==> bytes == 0)
    ensures speed.NotANumber? <==> bytes == 0 && elapsedMs == 0
  {
    if elapsedMs > 0 then Finite((bytes * 8) as real / ((elapsedMs * 1000) as real))
    else if bytes > 0 then PosInfinity
    else NotANumber
  }

  // ---------------------------------------------------------------------------
  // Download

  /** What the response stream and the timeout timer deliver, in order. Each
      settling event carries the milliseconds elapsed since the stream
      handlers were installed. */
  datatype StreamEvent =
    | Data(length: nat)
    | End(elapsedMs: nat)
    | StreamError(message: string, elapsedMs: nat)
    | TimerFired(elapsedMs: nat)

  /** The position of the first event that is not a data chunk, or the length
      of the trace when there is none. */
  function FirstSettle(events: seq<StreamEvent>): (p: nat)
    ensures p <= |events|
    ensures p < |events| ==> !events[p].Data?
    ensures forall j :: 0 <= j < p ==> events[j].Data?
  {
    if events == [] then 0
    else if !events[0].Data? then 0
    else 1 + FirstSettle(events[1..])
  }

  /** The bytes the data chunks of the trace carry. */
  function Received(events: seq<StreamEvent>): nat
  {
    if events == [] then 0
    else
      var last := events[|events| - 1];
      Received(events[..|events| - 1]) + (if last.Data? then last.length else 0)
  }

  /** The promise's value when event `e` settles it after `bytes` bytes have
      arrived: `end` resolves with the full speed; a stream error or the timer
      resolve with a partial speed when some bytes arrived and reject otherwise. */
  function SettleOn(e: StreamEvent, bytes: nat): (r: Result<Measured>)
    requires !e.Data?
    ensures r.Ok? ==> NotNegative(r.value.speed)
    ensures r.Ok? ==> (r.value.partial <==> !e.End?) && (r.value.note.Some? <==> r.value.partial)
    ensures r.Err? <==> !e.End? && bytes == 0
  {
    match e
    case End(ms) => Ok(Measured(SpeedMbps(bytes, ms), false, None))
    case StreamError(m, ms) =>
      if bytes > 0 then Ok(Measured(SpeedMbps(bytes, ms), true, Some("下载测试出错，返回部分结果: " + m)))
      else Err(Failure(m))
    case TimerFired(ms) =>
      if bytes > 0 then Ok(Measured(SpeedMbps(bytes, ms), true, Some("下载测试超时，返回部分结果")))
      else Err(DownloadTimedOut)
  }

  /** The download's outcome: a failed request rejects with its error;
      otherwise the first event that is not a chunk decides. When the trace
      ends before any such event the timer is still pending, and it fires
      after `timeoutMs` with every chunk of the trace received. */
  function DownloadSpec(response: Result<seq<StreamEvent>>, timeoutMs: nat): (r: Result<Measured>)
    ensures r.Ok? ==> NotNegative(r.value.speed)
  {
    match response
    case Err(e) => Err(e)
    case Ok(events) =>
      var p := FirstSettle(events);
      if p < |events| then SettleOn(events[p], Received(events[..p]))
      else SettleOn(TimerFired(timeoutMs), Received(events))
  }

  /** A promise settles once: later calls of `resolve` and `reject` are ignored. */
  function Settle(settled: Option<Result<Measured>>, v: Result<Measured>): (s: Option<Result<Measured>>)
    ensures s.Some?
    ensures settled.Some? ==> s == settled
  {
    if settled.Some? then settled else Some(v)
  }

  /** The three facts `FirstSettle` ensures determine it. */
  lemma FirstSettleUnique(events: seq<StreamEvent>, p: nat)
    requires p <= |events|
    requires forall j :: 0 <= j < p ==> events[j].Data?
    requires p < |events| ==> !events[p].Data?
    ensures FirstSettle(events) == p
  {
  }

  lemma FirstSettleOfPrefix(events: seq<StreamEvent>, k: nat)
    requires k < |events|
    ensures FirstSettle(events[..k + 1]) ==
      if FirstSettle(events[..k]) < k then FirstSettle(events[..k])
      else if events[k].Data? then k + 1 else k
  {
    var p := FirstSettle(events[..k]);
    var next := events[..k + 1];
    assert forall j :: 0 <= j < k ==> next[j] == events[..k][j];
    if p < k {
      FirstSettleUnique(next, p);
    } else if events[k].Data? {
      FirstSettleUnique(next, k + 1);
    } else {
      FirstSettleUnique(next, k);
    }
  }

  lemma ReceivedStep(events: seq<StreamEvent>, k: nat)
    requires k < |events|
    ensures Received(events[..k + 1]) == Received(events[..k]) + (if events[k].Data? then events[k].length else 0)
  {
    assert events[..k + 1][..k] == events[..k];
  }

  /** `performDownloadTest`: the handlers of the stream and of the timer run
      over the events in order. `timeoutMs` is `downloadTimeout * 1000`. */
  method PerformDownloadTest(response: Result<seq<StreamEvent>>, timeoutMs: nat) returns (r: Result<Measured>)
    ensures r == DownloadSpec(response, timeoutMs)
  {
    if response.Err? {
      return Err(response.error);
    }
    var events := response.value;
    var downloadedBytes: nat := 0;
    var timeoutOccurred := false;
    var timerCleared := false;
    var settled: Option<Result<Measured>> := None;
    for k := 0 to |events|
      invariant downloadedBytes == Received(events[..k])
      invariant settled.None? <==> FirstSettle(events[..k]) == k
      invariant settled.None? ==> !timeoutOccurred && !timerCleared
      invariant settled.Some? ==>
        && FirstSettle(events[..k]) < k
        && settled.value == SettleOn(events[FirstSettle(events[..k])], Received(events[..FirstSettle(events[..k])]))
    {
      FirstSettleOfPrefix(events, k);
      ReceivedStep(events, k);
      if settled.Some? {
        var p := FirstSettle(events[..k]);
        assert events[..k + 1][..p] == events[..k][..p];
      }
      match events[k]
      case Data(n) =>
        downloadedBytes := downloadedBytes + n;
      case End(ms) =>
        if !timeoutOccurred {
          timerCleared := true;
          settled := Settle(settled, Ok(Measured(SpeedMbps(downloadedBytes, ms), false, None)));
        }
      case StreamError(m, ms) =>
        timerCleared := true;
        if downloadedBytes > 0 {
          settled := Settle(settled, Ok(Measured(SpeedMbps(downloadedBytes, ms), true, Some("下载测试出错，返回部分结果: " + m))));
        } else {
          settled := Settle(settled, Err(Failure(m)));
        }
      case TimerFired(ms) =>
        if !timerCleared && !timeoutOccurred {
          timeoutOccurred := true;
          if downloadedBytes > 0 {
            settled := Settle(settled, Ok(Measured(SpeedMbps(downloadedBytes, ms), true, Some("下载测试超时，返回部分结果"))));
          } else {
            settled := Settle(settled, Err(DownloadTimedOut));
          }
        }
    }
    assert events[..|events|] == events;
    if settled.None? {
      // the timer is still pending, and fires
      if downloadedBytes > 0 {
        settled := Some(Ok(Measured(SpeedMbps(downloadedBytes, timeoutMs), true, Some("下载测试超时，返回部分结果"))));
      } else {
        settled := Some(Err(DownloadTimedOut));
      }
    }
    r := settled.value;
  }

  lemma ReceivedOfConcat(a: seq<StreamEvent>, b: seq<StreamEvent>)
    ensures Received(a + b) == Received(a) + Received(b)
    decreases |b|
  {
    if b != [] {
      var last := b[|b| - 1];
      assert (a + b)[..|a + b| - 1] == a + b[..|b| - 1];
      ReceivedOfConcat(a, b[..|b| - 1]);
    } else {
      assert a + b == a;
    }
  }

  /** Only the first event that is not a chunk counts: whatever follows it
      (an `end` after the timer fired, an error after `end`) changes nothing. */
  lemma DownloadDecidedByFirstSettle(pre: seq<StreamEvent>, e: StreamEvent, post: seq<StreamEvent>, timeoutMs: nat)
    requires forall j :: 0 <= j < |pre| ==> pre[j].Data?
    requires !e.Data?
    ensures DownloadSpec(Ok(pre + [e] + post), timeoutMs) == SettleOn(e, Received(pre))
  {
    var events := pre + [e] + post;
    assert forall j :: 0 <= j < |pre| ==> events[j] == pre[j];
    assert events[|pre|] == e;
    FirstSettleUnique(events, |pre|);
    assert events[..|pre|] == pre;
  }

  /** The download rejects exactly when nothing arrived before the stream
      failed or the timer fired; a stream that ends is always measured. */
  lemma DownloadFailsOnlyWithoutData(events: seq<StreamEvent>, timeoutMs: nat)
    ensures var p := FirstSettle(events);
      DownloadSpec(Ok(events), timeoutMs).Err? <==>
        Received(events[..p]) == 0 && (p == |events| || !events[p].End?)
  {
    var p := FirstSettle(events);
    if p == |events| {
      assert events[..p] == events;
    }
  }

  // ---------------------------------------------------------------------------
  // Upload

  /** The outcome of one `POST /backend/empty.php`. */
  datatype Attempt = Completed(elapsedMs: nat) | AttemptFailed(message: string)

  /** `size * 1024 * 1024`: a size in MB as bytes. */
  function PayloadBytes(sizeMb: nat): nat
  {
    sizeMb * 1024 * 1024
  }

  /** What `performUploadTest` resolves or rejects with: the full payload's
      speed; after a failure, the small payload's speed marked partial; when
      both fail, the FIRST attempt's error. */
  function UploadSpec(uploadSize: nat, smallUploadSize: nat, full: Attempt, small: Attempt): (r: Result<Measured>)
    ensures r.Err? <==> full.AttemptFailed? && small.AttemptFailed?
    ensures r.Err? ==> r.error == Failure(full.message)
    ensures r.Ok? ==> (r.value.partial <==> full.AttemptFailed?) && (r.value.note.Some? <==> r.value.partial)
    ensures r.Ok? && full.Completed? ==> r.value.speed == SpeedMbps(PayloadBytes(uploadSize), full.elapsedMs)
    ensures r.Ok? && full.AttemptFailed? ==> r.value.speed == SpeedMbps(PayloadBytes(smallUploadSize), small.elapsedMs)
  {
    match full
    case Completed(ms) => Ok(Measured(SpeedMbps(PayloadBytes(uploadSize), ms), false, None))
    case AttemptFailed(m) =>
      match small
      case Completed(ms) =>
        Ok(Measured(SpeedMbps(PayloadBytes(smallUploadSize), ms), true, Some("使用较小的数据包进行测试，可能不够准确")))
      case AttemptFailed(_) => Err(Failure(m))
  }

  /** A byte of a `Buffer`. */
  newtype byte = x: int | 0 <= x < 256

  /** `generateTestData`: a buffer of `size` bytes, byte `i` set from the
      `i`-th draw of `Math.random()` as `Math.floor(draw * 256)`, which the
      buffer stores modulo 256. */
  method GenerateTestData(size: nat, random: nat -> real) returns (data: array<byte>)
    ensures fresh(data) && data.Length == size
    ensures forall i :: 0 <= i < size ==> data[i] as int == (random(i) * 256.0).Floor % 256
  {
    data := new byte[size];
    for i := 0 to size
      invariant forall j :: 0 <= j < i ==> data[j] as int == (random(j) * 256.0).Floor % 256
    {
      data[i] := ((random(i) * 256.0).Floor % 256) as byte;
    }
  }

  /** A draw in [0, 1), as `Math.random()` gives, lands in the buffer unchanged. */
  lemma DrawFitsByte(draw: real)
    requires 0.0 <= draw < 1.0
    ensures 0 <= (draw * 256.0).Floor < 256
    ensures (draw * 256.0).Floor % 256 == (draw * 256.0).Floor
  {
  }

  /** `performUploadTest`: the full payload, then on failure the small one.
      `random` is the source of `Math.random()`; the payload's content does
      not influence the outcome. */
  method PerformUploadTest(uploadSize: nat, smallUploadSize: nat, full: Attempt, small: Attempt, random: nat -> real)
    returns (r: Result<Measured>)
    ensures r == UploadSpec(uploadSize, smallUploadSize, full, small)
  {
    var testData := GenerateTestData(PayloadBytes(uploadSize), random);
    match full
    case Completed(ms) =>
      r := Ok(Measured(SpeedMbps(testData.Length, ms), false, None));
    case AttemptFailed(m) =>
      var smallTestData := GenerateTestData(PayloadBytes(smallUploadSize), random);
      match small
      case Completed(ms) =>
        r := Ok(Measured(SpeedMbps(smallTestData.Length, ms), true, Some("使用较小的数据包进行测试，可能不够准确")));
      case AttemptFailed(_) =>
        r := Err(Failure(m));
  }

  // ---------------------------------------------------------------------------
  // Ping

  /** The outcome of one `GET /backend/empty.php`: its round trip in
      milliseconds, or a failure. */
  datatype PingOutcome = Reply(ms: nat) | NoReply

  /** The round trips of the first `n` requests that got a reply, in issue order. */
  function Samples(reply: nat -> PingOutcome, n: nat): (s: seq<nat>)
    ensures |s| <= n
  {
    if n == 0 then []
    else Samples(reply, n - 1) + (if reply(n - 1).Reply? then [reply(n - 1).ms] else [])
  }

  /** How many of the first `n` requests failed. */
  function Failures(reply: nat -> PingOutcome, n: nat): (f: nat)
    ensures f <= n
  {
    if n == 0 then 0
    else Failures(reply, n - 1) + (if reply(n - 1).NoReply? then 1 else 0)
  }

  function Sum(s: seq<nat>): (total: nat)
    ensures s == [] ==> total == 0
  {
    if s == [] then 0 else Sum(s[..|s| - 1]) + s[|s| - 1]
  }

  /** The average round trip. */
  function Mean(s: seq<nat>): (m: real)
    requires s != []
    ensures m >= 0.0
  {
    Sum(s) as real / |s| as real
  }

  function AbsDiff(a: nat, b: nat): nat
  {
    if a >= b then a - b else b - a
  }

  /** The sum of the distances between neighbouring round trips. */
  function AbsDiffSum(s: seq<nat>): nat
  {
    if |s| < 2 then 0
    else AbsDiffSum(s[..|s| - 1]) + AbsDiff(s[|s| - 1], s[|s| - 2])
  }

  /** The mean distance between neighbouring round trips; 0 for fewer than two. */
  function Jitter(s: seq<nat>): (j: real)
    ensures j >= 0.0
  {
    if |s| < 2 then 0.0 else AbsDiffSum(s) as real / (|s| - 1) as real
  }

  /** `calculateJitter`. */
  method CalculateJitter(pingTimes: seq<nat>) returns (j: real)
    ensures j == Jitter(pingTimes)
  {
    if |pingTimes| < 2 {
      return 0.0;
    }
    var sumOfDifferences: nat := 0;
    for i := 1 to |pingTimes|
      invariant sumOfDifferences == AbsDiffSum(pingTimes[..i])
    {
      assert pingTimes[..i + 1][..i] == pingTimes[..i];
      sumOfDifferences := sumOfDifferences + AbsDiff(pingTimes[i], pingTimes[i - 1]);
    }
    assert pingTimes[..|pingTimes|] == pingTimes;
    j := sumOfDifferences as real / (|pingTimes| - 1) as real;
  }

  /** The note of a ping series that lost some requests. */
  function PartialPingNote(failed: nat, pingCount: int): string
  {
    "部分ping请求失败 (" + IntToString(failed) + "/" + IntToString(pingCount) + ")"
  }

  /** The ping test's outcome for `pingCount` requests. The series stops at
      the first failure that makes the failures exceed half the count
      (rounded down); otherwise, with at least one reply, it reports their
      mean and jitter, partial when some request failed. */
  function PingSpec(pingCount: int, reply: nat -> PingOutcome): (r: Result<PingStats>)
    ensures r.Ok? ==> r.value.ping >= 0.0 && r.value.jitter >= 0.0
    ensures r.Ok? ==> (r.value.note.Some? <==> r.value.partial)
    ensures r.Ok? && pingCount > 0 ==> Failures(reply, pingCount) <= pingCount / 2
    ensures r.Err? ==> r.error == AllPingsFailed || (pingCount > 0 && r.error == TooManyPingFailures(pingCount / 2 + 1, pingCount))
  {
    var n: nat := if pingCount > 0 then pingCount else 0;
    var limit := pingCount / 2;
    if pingCount > 0 && Failures(reply, n) > limit then Err(TooManyPingFailures(limit + 1, pingCount))
    else
      var s := Samples(reply, n);
      if |s| == 0 then Err(AllPingsFailed)
      else
        var partial := |s| < pingCount;
        Ok(PingStats(Mean(s), Jitter(s), partial, if partial then Some(PartialPingNote(Failures(reply, n), pingCount)) else None))
  }

  lemma {:induction false} FailuresMonotone(reply: nat -> PingOutcome, m: nat, n: nat)
    requires m <= n
    ensures Failures(reply, m) <= Failures(reply, n)
    decreases n - m
  {
    if m < n {
      FailuresMonotone(reply, m, n - 1);
    }
  }

  /** Every request either replied or failed. */
  lemma {:induction false} SamplesAndFailuresPartition(reply: nat -> PingOutcome, n: nat)
    ensures |Samples(reply, n)| + Failures(reply, n) == n
  {
    if n > 0 {
      SamplesAndFailuresPartition(reply, n - 1);
    }
  }

  /** `performPingTest`: the requests in order, counting failures and
      stopping early, then the mean and the jitter of the replies. */
  method PerformPingTest(pingCount: int, reply: nat -> PingOutcome) returns (r: Result<PingStats>)
    ensures r == PingSpec(pingCount, reply)
  {
    var pingTimes: seq<nat> := [];
    var failedPings: nat := 0;
    var i: nat := 0;
    while i < pingCount
      decreases pingCount - i
      invariant pingCount > 0 ==> i <= pingCount
      invariant pingCount <= 0 ==> i == 0
      invariant pingTimes == Samples(reply, i) && failedPings == Failures(reply, i)
      invariant pingCount > 0 ==> failedPings <= pingCount / 2
    {
      match reply(i) {
        case Reply(ms) =>
          pingTimes := pingTimes + [ms];
        case NoReply =>
          failedPings := failedPings + 1;
          if failedPings > pingCount / 2 {
            FailuresMonotone(reply, i + 1, pingCount);
            return Err(TooManyPingFailures(failedPings, pingCount));
          }
      }
      i := i + 1;
    }
    ghost var n: nat := if pingCount > 0 then pingCount else 0;
    assert i == n;
    assert !(pingCount > 0 && Failures(reply, n) > pingCount / 2);
    if |pingTimes| == 0 {
      return Err(AllPingsFailed);
    }
    var averagePing := Sum(pingTimes) as real / |pingTimes| as real;
    assert averagePing == Mean(pingTimes);
    var jitter := CalculateJitter(pingTimes);
    var partial := |pingTimes| < pingCount;
    r := Ok(PingStats(averagePing, jitter, partial,
      if partial then Some(PartialPingNote(failedPings, pingCount)) else None));
  }

  /** A completed series is partial exactly when some request failed, and
      then its note counts the failures. */
  lemma PingPartialIffSomeFailed(pingCount: int, reply: nat -> PingOutcome)
    requires pingCount > 0 && PingSpec(pingCount, reply).Ok?
    ensures PingSpec(pingCount, reply).value.partial <==> Failures(reply, pingCount) > 0
    ensures PingSpec(pingCount, reply).value.partial ==>
      PingSpec(pingCount, reply).value.note == Some(PartialPingNote(Failures(reply, pingCount), pingCount))
  {
    SamplesAndFailuresPartition(reply, pingCount);
  }

  /** "All pings failed" is reported only for a non-positive count: with a
      positive count, losing every request always trips the early stop first. */
  lemma AllPingsFailedOnlyWithoutPings(pingCount: int, reply: nat -> PingOutcome)
    ensures PingSpec(pingCount, reply) == Err(AllPingsFailed) <==> pingCount <= 0
  {
    if pingCount > 0 {
      SamplesAndFailuresPartition(reply, pingCount);
    }
  }

  /** Requests beyond the first `n` do not affect what the first `n` report. */
  lemma {:induction false} PrefixDetermines(r1: nat -> PingOutcome, r2: nat -> PingOutcome, n: nat)
    requires forall i :: 0 <= i < n ==> r1(i) == r2(i)
    ensures Samples(r1, n) == Samples(r2, n) && Failures(r1, n) == Failures(r2, n)
  {
    if n > 0 {
      PrefixDetermines(r1, r2, n - 1);
    }
  }

  /** Once the failures exceed half the count, the outcome is fixed: the
      requests the early stop skips cannot change it. */
  lemma PingIgnoresOutcomesAfterAbort(pingCount: int, r1: nat -> PingOutcome, r2: nat -> PingOutcome, k: nat)
    requires 0 < k <= pingCount && Failures(r1, k) > pingCount / 2
    requires forall i :: 0 <= i < k ==> r1(i) == r2(i)
    ensures PingSpec(pingCount, r1) == PingSpec(pingCount, r2) == Err(TooManyPingFailures(pingCount / 2 + 1, pingCount))
  {
    PrefixDetermines(r1, r2, k);
    FailuresMonotone(r1, k, pingCount);
    FailuresMonotone(r2, k, pingCount);
  }

  lemma {:induction false} SumBounds(s: seq<nat>, lo: nat, hi: nat)
    requires forall i :: 0 <= i < |s| ==> lo <= s[i] <= hi
    ensures |s| * lo <= Sum(s) <= |s| * hi
  {
    if s != [] {
      SumBounds(s[..|s| - 1], lo, hi);
      assert |s| * lo == (|s| - 1) * lo + lo;
      assert |s| * hi == (|s| - 1) * hi + hi;
    }
  }

  /** The average lies between the smallest and the largest round trip. */
  lemma MeanWithinBounds(s: seq<nat>, lo: nat, hi: nat)
    requires s != []
    requires forall i :: 0 <= i < |s| ==> lo <= s[i] <= hi
    ensures lo as real <= Mean(s) <= hi as real
  {
    SumBounds(s, lo, hi);
    QuotientBounds(Sum(s), |s|, lo, hi);
  }

  lemma DivMono(a: real, b: real, m: real)
    requires m > 0.0 && a <= b
    ensures a / m <= b / m
  {
    assert b / m - a / m == (b - a) / m;
  }

  lemma CastMul(a: nat, b: nat)
    ensures (a * b) as real == a as real * b as real
  {
  }

  lemma CancelFactor(a: real, m: real)
    requires m > 0.0
    ensures a * m / m == a
  {
  }

  lemma QuotientBounds(t: nat, n: nat, lo: nat, hi: nat)
    requires n > 0 && n * lo <= t <= n * hi
    ensures lo as real <= t as real / n as real <= hi as real
  {
    var m := n as real;
    CastMul(n, lo);
    CastMul(n, hi);
    DivMono(lo as real * m, t as real, m);
    DivMono(t as real, hi as real * m, m);
    CancelFactor(lo as real, m);
    CancelFactor(hi as real, m);
  }

  lemma {:induction false} AbsDiffSumBound(s: seq<nat>, lo: nat, hi: nat)
    requires |s| >= 1 && lo <= hi
    requires forall i :: 0 <= i < |s| ==> lo <= s[i] <= hi
    ensures AbsDiffSum(s) <= (|s| - 1) * (hi - lo)
  {
    if |s| >= 2 {
      AbsDiffSumBound(s[..|s| - 1], lo, hi);
      assert (|s| - 1) * (hi - lo) == (|s| - 2) * (hi - lo) + (hi - lo);
    }
  }

  /** The jitter never exceeds the spread of the round trips. */
  lemma JitterBoundedBySpread(s: seq<nat>, lo: nat, hi: nat)
    requires s != [] && lo <= hi
    requires forall i :: 0 <= i < |s| ==> lo <= s[i] <= hi
    ensures Jitter(s) <= (hi - lo) as real
  {
    if |s| >= 2 {
      AbsDiffSumBound(s, lo, hi);
      QuotientBounds(AbsDiffSum(s), |s| - 1, 0, hi - lo);
    }
  }

  /** Equal round trips have no jitter. */
  lemma JitterOfConstantIsZero(s: seq<nat>, v: nat)
    requires forall i :: 0 <= i < |s| ==> s[i] == v
    ensures Jitter(s) == 0.0
  {
    if |s| >= 1 {
      AbsDiffSumBound(s, v, v);
    }
  }
}

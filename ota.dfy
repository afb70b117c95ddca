/** The firmware download task (main/ota.c). The HTTPS OTA driver is an
    input: whether `begin` succeeds, the results of successive `perform`
    calls, whether complete data was received, whether `finish` succeeds,
    and the two readings of the microsecond timer. */
module Ota {
  /** MAX_RETRIES and LOG_PROGRESS_INTERVAL. */
  const MaxRetries: nat := 5
  const LogProgressInterval: nat := 100
  /** Delay at the end of every iteration that does not leave the loop. */
  const RetryDelayMs: nat := 1000

  /** What esp_https_ota_perform returns: still in progress, ESP_OK, or another error. */
  datatype Perform = InProgress | Done | Failed(code: int)

  /** How the download loop ended; Running when the given results ran out
      before the loop left (the source loop would go on calling perform). */
  datatype LoopExit = Completed | RetriesExhausted | Running

  /** The loop's counters when it stops: perform calls made, `retries`,
      `loop_count`, the loop_count values at which progress was logged. */
  datatype LoopResult = LoopResult(calls: nat, retries: nat, loopCount: nat, progressLogs: seq<nat>, exit: LoopExit)

  /** The end of the task. */
  datatype Verdict =
    | BeginFailed
    | StillDownloading
    | IncompleteData
    | FinishFailed
    | Restarted(hours: int, minutes: int, seconds: int)

  datatype OtaReport = OtaReport(loop: LoopResult, delays: seq<nat>, finishCalled: bool, verdict: Verdict)

  /** The loop from perform call i on, with the counters reached so far. */
  function PerformLoop(outs: seq<Perform>, i: nat, retries: nat, loopCount: nat, logs: seq<nat>): LoopResult
    requires i <= |outs|
    decreases |outs| - i
  {
    if i == |outs| then LoopResult(i, retries, loopCount, logs, Running)
    else match outs[i]
      case InProgress =>
        PerformLoop(outs, i + 1, retries, loopCount + 1,
                    if loopCount % LogProgressInterval == 0 then logs + [loopCount] else logs)
      case Failed(_) =>
        if retries + 1 > MaxRetries then LoopResult(i + 1, retries + 1, loopCount, logs, RetriesExhausted)
        else PerformLoop(outs, i + 1, retries + 1, loopCount, logs)
      case Done => LoopResult(i + 1, retries, loopCount, logs, Completed)
  }

  /** Number of error results. */
  function Errors(s: seq<Perform>): nat
  {
    if s == [] then 0 else (if s[0].Failed? then 1 else 0) + Errors(s[1..])
  }

  /** Number of in-progress results. */
  function Progressing(s: seq<Perform>): nat
  {
    if s == [] then 0 else (if s[0] == InProgress then 1 else 0) + Progressing(s[1..])
  }

  /** The loop_count values below n that are multiples of 100: 0, 100, ... */
  function ProgressMarks(n: nat): seq<nat>
  {
    seq((n + LogProgressInterval - 1) / LogProgressInterval, i => LogProgressInterval * i)
  }

  lemma {:induction false} CountsSnoc(s: seq<Perform>, x: Perform)
    ensures Errors(s + [x]) == Errors(s) + (if x.Failed? then 1 else 0)
    ensures Progressing(s + [x]) == Progressing(s) + (if x == InProgress then 1 else 0)
    decreases |s|
  {
    if s == [] {
      assert s + [x] == [x];
    } else {
      assert (s + [x])[1..] == s[1..] + [x];
      CountsSnoc(s[1..], x);
    }
  }

  lemma ProgressMarksSnoc(n: nat)
    ensures ProgressMarks(n + 1) == if n % LogProgressInterval == 0 then ProgressMarks(n) + [n] else ProgressMarks(n)
  {
    var k := (n + LogProgressInterval - 1) / LogProgressInterval;
    if n % LogProgressInterval == 0 {
      assert n == LogProgressInterval * k;
      assert (n + LogProgressInterval) / LogProgressInterval == k + 1;
    } else {
      assert (n + LogProgressInterval) / LogProgressInterval == k;
    }
  }

  /** The counters the loop has reached after its first `calls` perform
      calls: `retries` counts the errors among them, `loop_count` the
      in-progress results, progress was logged exactly at loop_count 0, 100,
      200, ...; no ESP_OK came before the last call and at most five errors
      came before it. */
  ghost predicate Consistent(outs: seq<Perform>, r: LoopResult)
  {
    && r.calls <= |outs|
    && r.retries == Errors(outs[..r.calls])
    && r.loopCount == Progressing(outs[..r.calls])
    && r.progressLogs == ProgressMarks(r.loopCount)
    && (forall j :: 0 <= j < r.calls - 1 ==> outs[j] != Done)
    && (r.calls > 0 ==> Errors(outs[..r.calls - 1]) <= MaxRetries)
  }

  /** Why the loop stopped: on ESP_OK, on an error that was the sixth, or
      because the results ran out with neither ESP_OK nor a sixth error. */
  ghost predicate ExitJustified(outs: seq<Perform>, r: LoopResult)
  {
    && (r.exit == Completed ==> r.calls > 0 && r.calls <= |outs| && outs[r.calls - 1] == Done)
    && (r.exit == RetriesExhausted ==> r.calls > 0 && r.calls <= |outs| && outs[r.calls - 1].Failed? && r.retries == MaxRetries + 1)
    && (r.exit == Running ==> r.calls == |outs| && r.retries <= MaxRetries && forall j :: 0 <= j < |outs| ==> outs[j] != Done)
  }

  /** One more result keeps the counters consistent. */
  lemma ConsistentStep(outs: seq<Perform>, i: nat, retries: nat, loopCount: nat, logs: seq<nat>)
    requires i < |outs| && outs[i] != Done && retries <= MaxRetries
    requires Consistent(outs, LoopResult(i, retries, loopCount, logs, Running))
    requires forall j :: 0 <= j < i ==> outs[j] != Done
    ensures outs[i] == InProgress ==>
      Consistent(outs, LoopResult(i + 1, retries, loopCount + 1,
                                  if loopCount % LogProgressInterval == 0 then logs + [loopCount] else logs, Running))
    ensures outs[i].Failed? ==>
      Consistent(outs, LoopResult(i + 1, retries + 1, loopCount, logs, Running))
  {
    CountsSnoc(outs[..i], outs[i]);
    assert outs[..i + 1] == outs[..i] + [outs[i]];
    assert outs[..i + 1][..i] == outs[..i];
    ProgressMarksSnoc(loopCount);
  }

  lemma {:induction false} PerformLoopMeaning(outs: seq<Perform>, i: nat, retries: nat, loopCount: nat, logs: seq<nat>)
    requires i <= |outs|
    requires Consistent(outs, LoopResult(i, retries, loopCount, logs, Running))
    requires retries <= MaxRetries
    requires forall j :: 0 <= j < i ==> outs[j] != Done
    ensures Consistent(outs, PerformLoop(outs, i, retries, loopCount, logs))
    ensures ExitJustified(outs, PerformLoop(outs, i, retries, loopCount, logs))
    decreases |outs| - i
  {
    if i == |outs| {
      assert outs[..i] == outs;
    } else if outs[i] == InProgress {
      var logs' := if loopCount % LogProgressInterval == 0 then logs + [loopCount] else logs;
      assert PerformLoop(outs, i, retries, loopCount, logs) == PerformLoop(outs, i + 1, retries, loopCount + 1, logs');
      ConsistentStep(outs, i, retries, loopCount, logs);
      PerformLoopMeaning(outs, i + 1, retries, loopCount + 1, logs');
    } else if outs[i].Failed? {
      ConsistentStep(outs, i, retries, loopCount, logs);
      if retries + 1 <= MaxRetries {
        assert PerformLoop(outs, i, retries, loopCount, logs) == PerformLoop(outs, i + 1, retries + 1, loopCount, logs);
        PerformLoopMeaning(outs, i + 1, retries + 1, loopCount, logs);
      } else {
        assert PerformLoop(outs, i, retries, loopCount, logs) == LoopResult(i + 1, retries + 1, loopCount, logs, RetriesExhausted);
      }
    } else {
      assert PerformLoop(outs, i, retries, loopCount, logs) == LoopResult(i + 1, retries, loopCount, logs, Completed);
      ConsistentDone(outs, i, retries, loopCount, logs);
    }
  }

  /** ESP_OK as the next result ends the loop with consistent counters. */
  lemma ConsistentDone(outs: seq<Perform>, i: nat, retries: nat, loopCount: nat, logs: seq<nat>)
    requires i < |outs| && outs[i] == Done && retries <= MaxRetries
    requires Consistent(outs, LoopResult(i, retries, loopCount, logs, Running))
    requires forall j :: 0 <= j < i ==> outs[j] != Done
    ensures Consistent(outs, LoopResult(i + 1, retries, loopCount, logs, Completed))
  {
    CountsSnoc(outs[..i], outs[i]);
    assert outs[..i + 1] == outs[..i] + [outs[i]];
    assert outs[..i + 1][..i] == outs[..i];
  }

  /** The loop run from its initial counters (all zero): its counters are
      consistent with the results it consumed, and it stopped on ESP_OK, on
      exactly the sixth error, or when the results ran out. */
  lemma LoopFromStart(outs: seq<Perform>)
    ensures Consistent(outs, PerformLoop(outs, 0, 0, 0, []))
    ensures ExitJustified(outs, PerformLoop(outs, 0, 0, 0, []))
    ensures var r := PerformLoop(outs, 0, 0, 0, []);
      r.exit == RetriesExhausted <==> r.retries == MaxRetries + 1
  {
    assert outs[..0] == [];
    PerformLoopMeaning(outs, 0, 0, 0, []);
    var r := PerformLoop(outs, 0, 0, 0, []);
    if r.exit == Completed {
      CountsSnoc(outs[..r.calls - 1], outs[r.calls - 1]);
      assert outs[..r.calls - 1] + [outs[r.calls - 1]] == outs[..r.calls];
    }
  }

  /** Six errors in a row abort the loop after exactly six calls; five are tolerated. */
  lemma SixthErrorAborts(codes: seq<int>)
    requires |codes| == 6
    ensures var outs := seq(6, i requires 0 <= i < 6 => Failed(codes[i]));
      var r := PerformLoop(outs, 0, 0, 0, []);
      r.exit == RetriesExhausted && r.calls == 6 && r.retries == 6
  {
    var outs := seq(6, i requires 0 <= i < 6 => Failed(codes[i]));
    assert PerformLoop(outs, 0, 0, 0, []) == PerformLoop(outs, 1, 1, 0, []);
    assert PerformLoop(outs, 1, 1, 0, []) == PerformLoop(outs, 2, 2, 0, []);
    assert PerformLoop(outs, 2, 2, 0, []) == PerformLoop(outs, 3, 3, 0, []);
    assert PerformLoop(outs, 3, 3, 0, []) == PerformLoop(outs, 4, 4, 0, []);
    assert PerformLoop(outs, 4, 4, 0, []) == PerformLoop(outs, 5, 5, 0, []);
    assert PerformLoop(outs, 5, 5, 0, []) == LoopResult(6, 6, 0, [], RetriesExhausted);
  }

  /** Progress never costs a retry: any number of in-progress results
      followed by ESP_OK completes the download with no retries used. */
  lemma ProgressThenDoneCompletes(n: nat)
    ensures var outs := seq(n, _ => InProgress) + [Done];
      var r := PerformLoop(outs, 0, 0, 0, []);
      r.exit == Completed && r.calls == n + 1 && r.retries == 0 && r.loopCount == n
  {
    var outs := seq(n, _ => InProgress) + [Done];
    LoopFromStart(outs);
    var r := PerformLoop(outs, 0, 0, 0, []);
    assert outs[n] == Done;
    assert forall j :: 0 <= j < n ==> outs[j] == InProgress;
    assert r.calls == n + 1;
    assert outs[..r.calls] == outs;
    NoErrors(outs);
    CountProgress(n);
  }

  lemma {:induction false} NoErrors(s: seq<Perform>)
    requires forall j :: 0 <= j < |s| ==> !s[j].Failed?
    ensures Errors(s) == 0
    decreases |s|
  {
    if s != [] {
      NoErrors(s[1..]);
    }
  }

  lemma {:induction false} CountProgress(n: nat)
    ensures Progressing(seq(n, _ => InProgress) + [Done]) == n
  {
    if n > 0 {
      var s := seq(n, _ => InProgress) + [Done];
      assert s[1..] == seq(n - 1, _ => InProgress) + [Done];
      CountProgress(n - 1);
    }
  }

  /** C's `/` and `%` on int truncate toward zero. */
  function CDiv(a: int, b: int): int
    requires b > 0
  {
    if a >= 0 then a / b else -((-a) / b)
  }

  function CRem(a: int, b: int): int
    requires b > 0
  {
    a - b * CDiv(a, b)
  }

  /** The hh:mm:ss split of the duration in the success message: for a
      non-negative number of seconds it recombines to that number, with
      minutes and seconds below 60. */
  function SplitDuration(durationS: int): (r: (int, int, int))
    ensures durationS >= 0 ==>
      && r.0 * 3600 + r.1 * 60 + r.2 == durationS
      && r.0 >= 0 && 0 <= r.1 < 60 && 0 <= r.2 < 60
  {
    var hours := CDiv(durationS, 3600);
    var minutes := CDiv(CRem(durationS, 3600), 60);
    var seconds := CRem(durationS, 60);
    if durationS >= 0 then
      SplitNonNegative(durationS);
      (hours, minutes, seconds)
    else
      (hours, minutes, seconds)
  }

  /** For d >= 0, C's operators are Dafny's, and d % 60 is the seconds left
      over after whole hours and minutes. */
  lemma SplitNonNegative(d: nat)
    ensures CDiv(d, 3600) == d / 3600 && CRem(d, 3600) == d % 3600
    ensures CDiv(d % 3600, 60) == (d % 3600) / 60 && CRem(d, 60) == d % 60
    ensures (d / 3600) * 3600 + ((d % 3600) / 60) * 60 + d % 60 == d
    ensures 0 <= (d % 3600) / 60 < 60
  {
    var q, r := d / 3600, d % 3600;
    var m, sec := r / 60, r % 60;
    assert r == 60 * m + sec;
    assert d == 60 * (60 * q + m) + sec;
    ModUnique(d, 60 * q + m, sec);
  }

  lemma ModUnique(d: nat, k: nat, s: nat)
    requires s < 60 && d == 60 * k + s
    ensures d % 60 == s
  {
  }

  /** ota_task. */
  method OtaTask(beginOk: bool, outs: seq<Perform>, completeData: bool, finishOk: bool, startUs: int, endUs: int)
    returns (report: OtaReport)
    ensures !beginOk ==> report == OtaReport(LoopResult(0, 0, 0, [], Running), [], false, BeginFailed)
    ensures beginOk ==> report.loop == PerformLoop(outs, 0, 0, 0, [])
    ensures beginOk && report.loop.exit != Running ==> report.loop.calls > 0
    ensures beginOk ==>
      var waited := if report.loop.exit == Running then report.loop.calls else report.loop.calls - 1;
      report.delays == seq(waited, _ => RetryDelayMs)
    ensures report.finishCalled <==> beginOk && report.loop.exit != Running && completeData
    ensures report.verdict.Restarted? <==> report.finishCalled && finishOk
    ensures beginOk && report.loop.exit == Running ==> report.verdict == StillDownloading
    ensures beginOk && report.loop.exit != Running && !completeData ==> report.verdict == IncompleteData
    ensures report.finishCalled && !finishOk ==> report.verdict == FinishFailed
    ensures report.verdict.Restarted? ==>
      var d := SplitDuration(CDiv(endUs - startUs, 1000000));
      report.verdict == Restarted(d.0, d.1, d.2)
  {
    if !beginOk {
      return OtaReport(LoopResult(0, 0, 0, [], Running), [], false, BeginFailed);
    }
    var i, retries, loopCount := 0, 0, 0;
    var logs: seq<nat> := [];
    var exit := Running;
    var delays: seq<nat> := [];
    while i < |outs| && exit == Running
      invariant i <= |outs|
      invariant exit == Running ==> PerformLoop(outs, i, retries, loopCount, logs) == PerformLoop(outs, 0, 0, 0, [])
      invariant exit == Running ==> delays == seq(i, _ => RetryDelayMs)
      invariant exit != Running ==> LoopResult(i, retries, loopCount, logs, exit) == PerformLoop(outs, 0, 0, 0, [])
      invariant exit != Running ==> i > 0 && delays == seq(i - 1, _ => RetryDelayMs)
    {
      var err := outs[i];
      i := i + 1;
      match err {
        case InProgress =>
          if loopCount % LogProgressInterval == 0 {
            logs := logs + [loopCount];
          }
          loopCount := loopCount + 1;
        case Failed(_) =>
          retries := retries + 1;
          if retries > MaxRetries {
            exit := RetriesExhausted;
          }
        case Done =>
          exit := Completed;
      }
      if exit == Running {
        delays := delays + [RetryDelayMs];
      }
    }
    var loop := LoopResult(i, retries, loopCount, logs, exit);
    if exit == Running {
      return OtaReport(loop, delays, false, StillDownloading);
    }
    if completeData {
      if finishOk {
        var durationUs := endUs - startUs;
        var durationS := CDiv(durationUs, 1000000);
        var hms := SplitDuration(durationS);
        report := OtaReport(loop, delays, true, Restarted(hms.0, hms.1, hms.2));
      } else {
        report := OtaReport(loop, delays, true, FinishFailed);
      }
    } else {
      report := OtaReport(loop, delays, false, IncompleteData);
    }
  }
}

/**
  The deep scanner (`components/Scanner.tsx`): a button starts a simulated
  scan, and a 300 ms timer advances it one step at a time, reporting a
  critical finding at step 10, a warning at step 15 and finishing at step 20.
  The timer becomes a `Tick` the caller applies, carrying the clock reading
  `now` that stamps a finding.
 */
module Scanner {
  import opened Types

  /** The files the status line cycles through. */
  const MockFiles: seq<string> := [
    "/system/bin/su",
    "/data/data/com.suspicious.app/databases/user_data.db",
    "/sdcard/Download/update_fix_v2.apk",
    "/proc/3412/maps",
    "/system/framework/framework.jar"
  ]

  const CheckingSuffix: string := " [Checking Signature...]"

  /** The status line once the scan is over ("scan complete"). */
  const DoneLabel: string := "اكتمل الفحص"

  /** The step at which the timer stops itself. */
  const LastStep: nat := 20

  /**
    The panel's state: the `scanning`, `progress` and `currentFile` hooks,
    the findings list, and the step counter the running timer keeps.
   */
  datatype ScanState = ScanState(
    scanning: bool,
    progress: int,
    step: nat,
    statusLine: string,
    results: seq<ScanResult>)

  /** The state before the first click. */
  const Initial: ScanState := ScanState(false, 0, 0, "", [])

  /**
    Before the first click nothing runs: timer firings change nothing, and
    the first press starts a scan at 0% with an empty status line and no
    findings.
   */
  lemma FirstPress(times: seq<int>)
    ensures Run(Initial, times) == Initial
    ensures PressScan(Initial) == ScanState(true, 0, 0, "", [])
  {
    FinishedScanIsStable(Initial, times);
  }

  /** The finding reported at step 10. */
  function HiddenServiceFinding(now: int): ScanResult {
    ScanResult("1", "com.suspicious.app", Process, now, Critical,
               "Hidden background service attempting unauthorized upload.")
  }

  /** The finding reported at step 15. */
  function SelfSignedFinding(now: int): ScanResult {
    ScanResult("2", "update_fix_v2.apk", File, now, Warning,
               "Self-signed certificate detected, permission mismatch.")
  }

  /** The status line while step `step` runs: one of the mock files, cycling. */
  function FileLabel(step: nat): string {
    MockFiles[step % |MockFiles|] + CheckingSuffix
  }

  /** `startScan`: progress and findings are cleared; the status line keeps its old text until the first step. */
  function StartScan(s: ScanState): (r: ScanState)
    ensures r.scanning && r.progress == 0 && r.step == 0 && r.results == []
    ensures r.statusLine == s.statusLine
  {
    ScanState(true, 0, 0, s.statusLine, [])
  }

  /** A click on the scan button, which is disabled while a scan runs. */
  function PressScan(s: ScanState): (r: ScanState)
    ensures s.scanning ==> r == s
    ensures !s.scanning ==> r == StartScan(s)
  {
    if s.scanning then s else StartScan(s)
  }

  /** The findings the step with number `step` adds. */
  function FindingsAt(step: nat, now: int): seq<ScanResult> {
    (if step == 10 then [HiddenServiceFinding(now)] else []) +
    (if step == 15 then [SelfSignedFinding(now)] else [])
  }

  /**
    One firing of the scan timer. Without a running scan there is no timer,
    so nothing changes.
   */
  function Tick(s: ScanState, now: int): (r: ScanState)
    ensures !s.scanning ==> r == s
    ensures s.scanning ==> r.step == s.step + 1 && r.results == s.results + FindingsAt(r.step, now)
    ensures s.scanning ==> (r.scanning <==> r.step < LastStep)
    ensures s.scanning && 0 <= s.progress <= 100 ==> s.progress <= r.progress <= 100
    ensures s.scanning && !r.scanning ==> r.progress == 100 && r.statusLine == DoneLabel
  {
    if !s.scanning then s
    else
      var step := s.step + 1;
      var results := s.results + FindingsAt(step, now);
      if step >= LastStep then ScanState(false, 100, step, DoneLabel, results)
      else
        var progress := if s.progress + 5 < 100 then s.progress + 5 else 100;
        ScanState(true, progress, step, FileLabel(step), results)
  }

  /** The timer fired once per clock reading in `times`, in order. */
  function Run(s: ScanState, times: seq<int>): ScanState
    decreases |times|
  {
    if times == [] then s else Tick(Run(s, times[..|times| - 1]), times[|times| - 1])
  }

  /** What the findings list holds once `n` steps have run at the clock readings in `times`. */
  function FindingsSoFar(times: seq<int>): seq<ScanResult> {
    (if |times| >= 10 then [HiddenServiceFinding(times[9])] else []) +
    (if |times| >= 15 then [SelfSignedFinding(times[14])] else [])
  }

  /** Each step adds to the findings so far exactly what that step reports. */
  lemma FindingsSoFarStep(times: seq<int>)
    requires times != []
    ensures FindingsSoFar(times)
         == FindingsSoFar(times[..|times| - 1]) + FindingsAt(|times|, times[|times| - 1])
  {
    var prefix := times[..|times| - 1];
    if |times| > 10 { assert prefix[9] == times[9]; }
    if |times| > 15 { assert prefix[14] == times[14]; }
  }

  /** The state the scan reaches after `k` steps, as the panel shows it. */
  function AfterSteps(s0: ScanState, times: seq<int>): ScanState
    requires |times| <= LastStep
  {
    var k := |times|;
    ScanState(k < LastStep, 5 * k, k,
              if k == 0 then s0.statusLine else if k < LastStep then FileLabel(k) else DoneLabel,
              FindingsSoFar(times))
  }

  /**
    A scan part way through: after `k` ticks (at most 20) the step counter is
    `k`, the progress bar shows `5k` percent, the scan still runs before step
    20, and the findings are those of steps 10 and 15 if reached.
   */
  lemma {:induction false} ScanAfterSteps(s0: ScanState, times: seq<int>)
    requires |times| <= LastStep
    ensures Run(StartScan(s0), times) == AfterSteps(s0, times)
    decreases |times|
  {
    if times != [] {
      var prefix, now := times[..|times| - 1], times[|times| - 1];
      ScanAfterSteps(s0, prefix);
      FindingsSoFarStep(times);
      var prev := AfterSteps(s0, prefix);
      assert Run(StartScan(s0), times) == Tick(prev, now);
      assert prev.scanning && prev.step == |prefix| && prev.progress == 5 * |prefix|;
    }
  }

  /** Once finished, the timer is gone: further ticks change nothing. */
  lemma {:induction false} FinishedScanIsStable(s: ScanState, times: seq<int>)
    requires !s.scanning
    ensures Run(s, times) == s
    decreases |times|
  {
    if times != [] {
      FinishedScanIsStable(s, times[..|times| - 1]);
    }
  }

  /**
    A full scan ends idle at 100% with "scan complete" shown and exactly two
    findings: the critical hidden service, then the self-signed package.
   */
  lemma CompletedScan(s0: ScanState, times: seq<int>)
    requires |times| == LastStep
    ensures Run(StartScan(s0), times)
         == ScanState(false, 100, LastStep, DoneLabel,
                      [HiddenServiceFinding(times[9]), SelfSignedFinding(times[14])])
  {
    ScanAfterSteps(s0, times);
  }

  /** Pressing the button during a scan neither restarts it nor clears its findings. */
  lemma PressDuringScanIsIgnored(s0: ScanState, times: seq<int>)
    requires |times| < LastStep
    ensures PressScan(Run(StartScan(s0), times)) == Run(StartScan(s0), times)
  {
    ScanAfterSteps(s0, times);
  }

  /** A new scan after a finished one starts from an empty findings list again. */
  lemma RescanClearsFindings(s0: ScanState, first: seq<int>, second: seq<int>)
    requires |first| == LastStep && |second| < 10
    ensures Run(PressScan(Run(StartScan(s0), first)), second).results == []
  {
    ScanAfterSteps(s0, first);
    ScanAfterSteps(Run(StartScan(s0), first), second);
  }
}

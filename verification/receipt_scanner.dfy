/**
 The simulated receipt scan (src/components/ReceiptScanner.tsx): choosing a
 file starts a scan, a timer advances the progress by ten points per tick
 until it reaches 100, a follow-up then marks the scan complete, and "Scan
 Another Receipt" dismisses the result.

 Only the state transitions are modelled; the 300 ms interval and the 500 ms
 follow-up are the order in which the transitions are applied.
 */
module ReceiptScanner {

  /** The component's three pieces of state. */
  datatype ScanState = ScanState(isScanning: bool, scanProgress: int, scanComplete: bool)

  /** The state the component mounts with. */
  const Idle: ScanState := ScanState(false, 0, false)

  /** Progress points added per tick, and the progress at which a scan is done. */
  const Step: int := 10
  const Done: int := 100

  /** `handleFileChange`: nothing happens without a file; with one, a fresh scan starts. */
  function ChooseFile(s: ScanState, hasFile: bool): (t: ScanState)
    ensures !hasFile ==> t == s
    ensures hasFile ==> t.isScanning && t.scanProgress == 0 && !t.scanComplete
  {
    if !hasFile then s else ScanState(true, 0, false)
  }

  /**
   The progress updater of one tick: ten more points, held at exactly 100 once
   that is reached or passed.
   */
  function NextProgress(prev: int): (next: int)
    ensures next <= Done
    ensures prev + Step < Done ==> next == prev + Step
    ensures prev + Step >= Done ==> next == Done
    ensures next == Done <==> prev + Step >= Done
  {
    var candidate := prev + Step;
    if candidate >= Done then Done else candidate
  }

  /** One tick's new state, and whether it stopped the timer and scheduled completion. */
  datatype TickResult = TickResult(state: ScanState, finished: bool)

  /** One tick of the interval: only the progress moves. */
  function Tick(s: ScanState): (r: TickResult)
    ensures r.state.isScanning == s.isScanning && r.state.scanComplete == s.scanComplete
    ensures r.finished <==> r.state.scanProgress == Done
    ensures 0 <= s.scanProgress ==> 0 <= r.state.scanProgress <= Done
    ensures s.scanProgress < r.state.scanProgress || s.scanProgress >= Done
  {
    var next := NextProgress(s.scanProgress);
    TickResult(s.(scanProgress := next), next == Done)
  }

  /** The follow-up scheduled by the finishing tick: the scan is over and complete. */
  function CompleteScan(s: ScanState): (t: ScanState)
    ensures !t.isScanning && t.scanComplete
    ensures t.scanProgress == s.scanProgress
  {
    s.(isScanning := false, scanComplete := true)
  }

  /** "Scan Another Receipt": dismiss the result and change nothing else. */
  function ScanAnother(s: ScanState): (t: ScanState)
    ensures !t.scanComplete
    ensures t.isScanning == s.isScanning && t.scanProgress == s.scanProgress
  {
    s.(scanComplete := false)
  }

  /** The progress after `n` ticks starting from `progress`. */
  function Ticks(progress: int, n: nat): int
    decreases n
  {
    if n == 0 then progress else Ticks(NextProgress(progress), n - 1)
  }

  /** After at least one tick the progress is the clamped sum of all steps. */
  lemma {:induction false} TicksClamped(progress: int, n: nat)
    requires n >= 1
    ensures Ticks(progress, n) == if progress + Step * n >= Done then Done else progress + Step * n
    decreases n
  {
    if n > 1 {
      TicksClamped(NextProgress(progress), n - 1);
    }
  }

  /**
   From a fresh scan, the progress stays within 0..100, is 10 per tick before
   the tenth tick, and is 100 from the tenth tick on.
   */
  lemma TicksFromZero(n: nat)
    ensures 0 <= Ticks(0, n) <= Done
    ensures n < 10 ==> Ticks(0, n) == Step * n
    ensures n >= 10 ==> Ticks(0, n) == Done
  {
    if n >= 1 {
      TicksClamped(0, n);
    }
  }

  /**
   A whole scan: choose a file, let the interval tick until it stops itself,
   then run the follow-up. The timer fires exactly ten times and the scan ends
   complete at 100.
   */
  method Scan(s: ScanState) returns (t: ScanState, ticks: nat)
    ensures t == ScanState(false, Done, true)
    ensures ticks == 10
  {
    t := ChooseFile(s, true);
    ticks := 0;
    var finished := false;
    while !finished
      invariant t.isScanning && !t.scanComplete
      invariant 0 <= ticks <= 10
      invariant !finished ==> t.scanProgress == Step * ticks && ticks < 10
      invariant finished ==> t.scanProgress == Done && ticks == 10
      decreases 10 - ticks
    {
      var r := Tick(t);
      t := r.state;
      finished := r.finished;
      ticks := ticks + 1;
    }
    t := CompleteScan(t);
  }

  /** Which panel the component shows. */
  datatype Panel = UploadPanel | ProgressPanel(percent: int) | CompletePanel

  /**
   The rendered panel: the completion message wins, then the progress bar
   while scanning, otherwise the upload controls (the only place a file can be
   chosen).
   */
  function View(s: ScanState): (p: Panel)
    ensures p == CompletePanel <==> s.scanComplete
    ensures p.ProgressPanel? <==> s.isScanning && !s.scanComplete
    ensures p.ProgressPanel? ==> p.percent == s.scanProgress
    ensures p == UploadPanel <==> !s.isScanning && !s.scanComplete
  {
    if s.scanComplete then CompletePanel
    else if s.isScanning then ProgressPanel(s.scanProgress)
    else UploadPanel
  }

  /**
   One full cycle from the mounted state: a scan ends on the completion panel,
   and "Scan Another Receipt" brings the upload controls back with the
   progress left at 100.
   */
  method ScanCycle() returns (afterScan: ScanState, afterDismiss: ScanState)
    ensures View(Idle) == UploadPanel
    ensures View(afterScan) == CompletePanel
    ensures View(afterDismiss) == UploadPanel
    ensures afterDismiss == ScanState(false, Done, false)
  {
    var ticks;
    afterScan, ticks := Scan(Idle);
    afterDismiss := ScanAnother(afterScan);
  }
}

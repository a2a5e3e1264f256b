/** `scripts/gstreamer_preview.py`: capture one frame at a time with a
    `gst-launch-1.0` run, count the frames, and give up after five failures
    in a row.  What each capture attempt does is a parameter. */
module Gstreamer {

  const MAX_ERRORS: nat := 5

  /** What one turn of the loop meets: the capture command exits with a
      status, runs past its three-second timeout, or cannot be launched;
      or the turn raises some other exception, or a keyboard interrupt. */
  datatype Attempt = Exited(code: int) | TimedOut | LaunchFailed | Raised | Interrupted

  /** A line the script prints (standard output and error together). */
  datatype Line =
    | PreviewStarting | Frame(n: nat) | CaptureError | TooManyFailures(max: nat)
    | LoopError | PreviewInterrupted | PreviewStopped | TotalFrames(n: nat)

  /** `capture_frame`: true exactly when the command exits with status 0;
      a launch failure also prints an error. */
  function CaptureFrame(a: Attempt): (r: (bool, seq<Line>))
    requires !a.Raised? && !a.Interrupted?
    ensures r.0 <==> a == Exited(0)
    ensures r.1 == (if a.LaunchFailed? then [CaptureError] else [])
  {
    match a
    case Exited(code) => (code == 0, [])
    case TimedOut => (false, [])
    case LaunchFailed => (false, [CaptureError])
  }

  /** The loop's variables and the lines printed so far; `stopped` once the
      loop has broken out. */
  datatype Loop = Loop(frameCount: nat, errorCount: nat, out: seq<Line>, stopped: bool)

  /** One turn of the `while True` loop. */
  function Turn(l: Loop, a: Attempt): Loop
    requires !l.stopped
  {
    if a.Interrupted? then l.(out := l.out + [PreviewInterrupted], stopped := true)
    else if a.Raised? then
      var e := l.errorCount + 1;
      Loop(l.frameCount, e, l.out + [LoopError], e >= MAX_ERRORS)
    else
      var (success, lines) := CaptureFrame(a);
      if success then
        var n := l.frameCount + 1;
        Loop(n, 0, l.out + lines + (if n % 10 == 0 then [Frame(n)] else []), false)
      else
        var e := l.errorCount + 1;
        if e >= MAX_ERRORS then Loop(l.frameCount, e, l.out + lines + [TooManyFailures(MAX_ERRORS)], true)
        else Loop(l.frameCount, e, l.out + lines, false)
  }

  /** The loop after the first `n` attempts; attempts after it has broken
      out are never made. */
  function Turns(attempts: seq<Attempt>, n: nat): Loop
    requires n <= |attempts|
  {
    if n == 0 then Loop(0, 0, [PreviewStarting], false)
    else
      var l := Turns(attempts, n - 1);
      if l.stopped then l else Turn(l, attempts[n - 1])
  }

  /** An attempt that is not a successful capture. */
  predicate Failed(a: Attempt) {
    !a.Interrupted? && a != Exited(0)
  }

  /** The number of successful captures among the first `n` attempts. */
  function Successes(attempts: seq<Attempt>, n: nat): nat
    requires n <= |attempts|
  {
    if n == 0 then 0 else Successes(attempts, n - 1) + (if attempts[n - 1] == Exited(0) then 1 else 0)
  }

  /** While the loop runs, the error count is the number of failures since
      the last success and stays below five, and the frame count is the
      number of successes; once it stops, nothing changes any more. */
  lemma {:induction false} TurnsInvariant(attempts: seq<Attempt>, n: nat)
    requires n <= |attempts|
    ensures var l := Turns(attempts, n);
      && l.frameCount <= Successes(attempts, n)
      && (!l.stopped ==> l.errorCount < MAX_ERRORS && l.frameCount == Successes(attempts, n))
      && (!l.stopped ==> forall i :: 0 <= i < n ==> !attempts[i].Interrupted?)
      && (!l.stopped && l.errorCount > 0 ==> Failed(attempts[n - 1]))
      && (!l.stopped && 0 < n && attempts[n - 1] == Exited(0) ==> l.errorCount == 0)
  {
    if n > 0 {
      TurnsInvariant(attempts, n - 1);
    }
  }

  /** Five failures in a row stop the loop, however it began. */
  lemma {:induction false} FiveFailuresStop(attempts: seq<Attempt>, k: nat, j: nat)
    requires k + j <= |attempts| && j <= MAX_ERRORS
    requires forall i :: k <= i < k + j ==> Failed(attempts[i])
    ensures Turns(attempts, k + j).stopped || Turns(attempts, k + j).errorCount >= j
  {
    if j > 0 {
      FiveFailuresStop(attempts, k, j - 1);
    }
  }

  /** Once the loop has stopped, later attempts change nothing. */
  lemma {:induction false} StoppedStays(attempts: seq<Attempt>, i: nat, n: nat)
    requires i <= n <= |attempts| && Turns(attempts, i).stopped
    ensures Turns(attempts, n) == Turns(attempts, i)
  {
    if n > i {
      StoppedStays(attempts, i, n - 1);
    }
  }

  /** One turn keeps the lines printed before it; a frame report it adds
      is for the count it reached, a multiple of ten.  A successful capture
      counts one more frame and, when that count is a multiple of ten,
      prints exactly its report; any other attempt counts no frame. */
  lemma TurnOutput(l: Loop, a: Attempt)
    requires !l.stopped
    ensures var l' := Turn(l, a);
      && |l'.out| >= |l.out| && l'.out[..|l.out|] == l.out && l'.frameCount >= l.frameCount
      && forall i :: |l.out| <= i < |l'.out| && l'.out[i].Frame? ==> l'.out[i].n == l'.frameCount && l'.frameCount % 10 == 0
    ensures var l' := Turn(l, a);
      && (a == Exited(0) ==>
            l'.frameCount == l.frameCount + 1 && !l'.stopped
            && (l'.frameCount % 10 == 0 ==> l'.out == l.out + [Frame(l'.frameCount)]))
      && (a != Exited(0) ==> l'.frameCount == l.frameCount)
  {
  }

  /** The output starts with `PREVIEW_STARTING`, keeps every line once
      printed, and reports frames only at multiples of ten. */
  lemma {:induction false} TurnsOutput(attempts: seq<Attempt>, n: nat)
    requires n <= |attempts|
    ensures var l := Turns(attempts, n);
      && |l.out| >= 1 && l.out[0] == PreviewStarting
      && forall i :: 0 <= i < |l.out| && l.out[i].Frame? ==> l.out[i].n % 10 == 0 && 0 < l.out[i].n <= l.frameCount
  {
    if n > 0 {
      TurnsOutput(attempts, n - 1);
      var l := Turns(attempts, n - 1);
      if !l.stopped {
        TurnOutput(l, attempts[n - 1]);
        var l' := Turn(l, attempts[n - 1]);
        forall i | 0 <= i < |l'.out| && l'.out[i].Frame?
          ensures l'.out[i].n % 10 == 0 && 0 < l'.out[i].n <= l'.frameCount
        {
          if i < |l.out| {
            assert l'.out[i] == l.out[..|l.out|][i];
          }
        }
        assert l'.out[0] == l'.out[..|l.out|][0];
      }
    }
  }

  /** Every tenth frame counted is reported: the status line promised
      every ten frames is printed for each multiple of ten reached. */
  lemma {:induction false} TurnsReportEveryTenth(attempts: seq<Attempt>, n: nat, k: nat)
    requires n <= |attempts|
    requires 0 < k <= Turns(attempts, n).frameCount && k % 10 == 0
    ensures Frame(k) in Turns(attempts, n).out
  {
    assert n > 0;
    var l := Turns(attempts, n - 1);
    if !l.stopped {
      TurnOutput(l, attempts[n - 1]);
      var l' := Turn(l, attempts[n - 1]);
      if k <= l.frameCount {
        TurnsReportEveryTenth(attempts, n - 1, k);
        var j :| 0 <= j < |l.out| && l.out[j] == Frame(k);
        assert l'.out[j] == l'.out[..|l.out|][j];
      } else {
        assert l'.out == l.out + [Frame(k)];
      }
    } else {
      TurnsReportEveryTenth(attempts, n - 1, k);
    }
  }

  /** `main` after the output directory exists, over the attempts that
      arrive.  When the loop breaks out, `PREVIEW_STOPPED` and the total
      follow; if the attempts run out first, the loop is still running. */
  method PreviewLoop(attempts: seq<Attempt>) returns (out: seq<Line>, frameCount: nat, stopped: bool)
    ensures var l := Turns(attempts, |attempts|);
      && frameCount == l.frameCount && stopped == l.stopped
      && out == l.out + (if stopped then [PreviewStopped, TotalFrames(frameCount)] else [])
  {
    out := [PreviewStarting];
    frameCount := 0;
    var errorCount: nat := 0;
    stopped := false;
    var i := 0;
    while i < |attempts| && !stopped
      invariant i <= |attempts|
      invariant Turns(attempts, i) == Loop(frameCount, errorCount, out, stopped)
      decreases |attempts| - i
    {
      if attempts[i].Interrupted? {
        out := out + [PreviewInterrupted];
        stopped := true;
      } else if attempts[i].Raised? {
        out := out + [LoopError];
        errorCount := errorCount + 1;
        if errorCount >= MAX_ERRORS {
          stopped := true;
        }
      } else {
        var (success, lines) := CaptureFrame(attempts[i]);
        out := out + lines;
        if success {
          frameCount := frameCount + 1;
          errorCount := 0;
          if frameCount % 10 == 0 {
            out := out + [Frame(frameCount)];
          }
        } else {
          errorCount := errorCount + 1;
          if errorCount >= MAX_ERRORS {
            out := out + [TooManyFailures(MAX_ERRORS)];
            stopped := true;
          }
        }
      }
      i := i + 1;
    }
    if stopped {
      StoppedStays(attempts, i, |attempts|);
      out := out + [PreviewStopped, TotalFrames(frameCount)];
    }
  }

  /** A loop that has stopped broke out at one turn `n`, on an interrupt
      or with exactly five errors in a row, and has stayed as it was since. */
  lemma {:induction false} BreakTurn(attempts: seq<Attempt>, m: nat) returns (n: nat)
    requires m <= |attempts| && Turns(attempts, m).stopped
    ensures 0 < n <= m && !Turns(attempts, n - 1).stopped && Turns(attempts, n) == Turns(attempts, m)
    ensures attempts[n - 1].Interrupted? || Turns(attempts, n).errorCount == MAX_ERRORS
  {
    if Turns(attempts, m - 1).stopped {
      n := BreakTurn(attempts, m - 1);
    } else {
      TurnsInvariant(attempts, m - 1);
      n := m;
    }
  }
}

/** `scripts/libcamera_preview.py`: a GStreamer pipeline keeps overwriting one
    JPEG file, a monitor loop counts frames by the file's modification time,
    and `stop` terminates the pipeline's process group and removes the file.
    Processes and signals are abstract: the child is `NoChild`, `Live` or
    `Gone` (its pid no longer names it), and what `stop` does to it is a log
    of actions; what the system answers is a parameter. */
module Libcamera {

  /** A line the script prints (standard output and error together). */
  datatype Line =
    | PreviewStarting | PreviewReady | Frame(n: nat) | NoNewFrames
    | PreviewStopped(frames: nat) | PreviewInterrupted | StartError | MonitorError
    | PipelineFailed | FailedToStart

  /** The pipeline process, as `self.process` / `self.process_pid` see it. */
  datatype Child = NoChild | Live(pid: nat) | Gone(pid: nat)

  /** What `stop` does to the outside world. */
  datatype Action = Term(pgid: nat) | Kill(pgid: nat) | KillPid(pid: nat) | RemoveFile

  /** The answers `stop` gets: whether `killpg(pgid, SIGTERM)` still finds
      the group, and whether the process then exits within the one-second
      wait. */
  datatype StopEnv = StopEnv(termFindsGroup: bool, exitsOnTerm: bool)

  /** The child, the output file and the actions after one `stop`. */
  datatype StopOutcome = StopOutcome(child: Child, fileExists: bool, actions: seq<Action>)

  /** The temp-file cleanup at the end of `stop`. */
  function Cleanup(fileExists: bool): seq<Action> {
    if fileExists then [RemoveFile] else []
  }

  /** `stop` as written.  With no child it only removes the file.  With a
      live child it sends TERM to its group (the child leads its own group),
      then KILL if the child does not exit within a second; if TERM finds
      the group already gone it returns before removing the file.  With a
      child that is gone, `getpgid` fails and the fallback kills the pid
      with `kill -9`.  The process attributes are never cleared. */
  function StopAsWritten(child: Child, fileExists: bool, env: StopEnv): (r: StopOutcome)
    ensures child.NoChild? ==> r.actions == Cleanup(fileExists) && !r.fileExists
    ensures child.Live? && !env.termFindsGroup ==> r.actions == [] && r.fileExists == fileExists
    ensures child.Live? && env.termFindsGroup ==>
      r.actions == [Term(child.pid)] + (if env.exitsOnTerm then [] else [Kill(child.pid)]) + Cleanup(fileExists)
    ensures child.Gone? ==> r.actions == [KillPid(child.pid)] + Cleanup(fileExists)
    ensures r.child == (if child.Live? then Gone(child.pid) else child)
  {
    match child
    case NoChild => StopOutcome(NoChild, false, Cleanup(fileExists))
    case Live(pid) =>
      if !env.termFindsGroup then StopOutcome(Gone(pid), fileExists, [])
      else
        var signals := [Term(pid)] + (if env.exitsOnTerm then [] else [Kill(pid)]);
        StopOutcome(Gone(pid), false, signals + Cleanup(fileExists))
    case Gone(pid) => StopOutcome(Gone(pid), false, [KillPid(pid)] + Cleanup(fileExists))
  }

  /** A second `stop` after one that terminated the child (the signal
      handler's, then the one in `main`'s `finally`) kills the stale pid
      again with `kill -9`, whatever process now has it. */
  lemma StopTwiceKillsStalePid(pid: nat, fileExists: bool, first: StopEnv, second: StopEnv)
    requires first.termFindsGroup
    ensures var r1 := StopAsWritten(Live(pid), fileExists, first);
      var r2 := StopAsWritten(r1.child, r1.fileExists, second);
      KillPid(pid) in r2.actions
  {
    var r1 := StopAsWritten(Live(pid), fileExists, first);
    var r2 := StopAsWritten(r1.child, r1.fileExists, second);
    assert r2.actions[0] == KillPid(pid);
  }

  /** `stop` as intended: the same actions, and the process is forgotten
      once it has been dealt with. */
  function Stop(child: Child, fileExists: bool, env: StopEnv): (r: StopOutcome)
    ensures r.child == NoChild
    ensures r.actions == StopAsWritten(child, fileExists, env).actions
    ensures r.fileExists == StopAsWritten(child, fileExists, env).fileExists
  {
    StopAsWritten(child, fileExists, env).(child := NoChild)
  }

  /** Stopping twice is the same as stopping once: the second call sends no
      signal, and it removes the file only if the first call left it. */
  lemma StopIdempotent(child: Child, fileExists: bool, first: StopEnv, second: StopEnv)
    ensures var r1 := Stop(child, fileExists, first);
      var r2 := Stop(r1.child, r1.fileExists, second);
      && r2.actions == Cleanup(r1.fileExists) && !r2.fileExists && r2.child == NoChild
      && forall i :: 0 <= i < |r2.actions| ==> r2.actions[i] == RemoveFile
  {
  }

  /** TERM always comes before KILL, KILL only after a TERM the child did
      not obey, and the file goes last. */
  lemma StopOrder(child: Child, fileExists: bool, env: StopEnv)
    ensures var a := Stop(child, fileExists, env).actions;
      && (forall i :: 0 <= i < |a| && a[i].Kill? ==> i == 1 && a[0] == Term(a[i].pgid) && !env.exitsOnTerm)
      && (forall i :: 0 <= i < |a| && a[i] == RemoveFile ==> i == |a| - 1)
      && (child.NoChild? ==> forall i :: 0 <= i < |a| ==> a[i] == RemoveFile)
  {
  }

  /** The signals a run sends go to one process group, TERM at most once,
      and never as a bare `kill -9` of a pid. */
  predicate SignalsOnly(a: seq<Action>, pid: nat) {
    && (forall i :: 0 <= i < |a| ==> !a[i].KillPid? && (a[i].Term? || a[i].Kill? ==> a[i].pgid == pid))
    && (forall i, j :: 0 <= i < j < |a| && a[i].Term? ==> !a[j].Term?)
  }

  /** A stop of the live child keeps to that; a stop with no child sends
      nothing, so it can follow anything that does. */
  lemma StopSignals(prefix: seq<Action>, child: Child, fileExists: bool, env: StopEnv, pid: nat)
    requires child == Live(pid) || child == NoChild
    requires child == Live(pid) ==> forall i :: 0 <= i < |prefix| ==> prefix[i] == RemoveFile
    requires SignalsOnly(prefix, pid)
    ensures SignalsOnly(prefix + Stop(child, fileExists, env).actions, pid)
  {
  }

  // ---------------------------------------------------------------------------
  // One tick of monitor_frames

  /** What a tick of `monitor_frames` finds: no file, or the file with its
      modification time. */
  datatype Reading = Absent | Present(mtime: int)

  /** The counters a tick updates and the lines printed so far. */
  datatype Monitor = Monitor(frameCount: nat, lastMtime: int, noChange: nat, out: seq<Line>)

  /** One tick: a new modification time is one more frame, reported every
      20 frames; an unchanged one is one more stale tick, and after more than
      100 of them in a row a warning is printed and the count restarts; a
      missing file changes nothing. */
  function Tick(m: Monitor, r: Reading): (m': Monitor)
    ensures m'.frameCount >= m.frameCount && m'.frameCount <= m.frameCount + 1
    ensures m.noChange <= 100 ==> m'.noChange <= 100
    ensures |m'.out| >= |m.out| && m'.out[..|m.out|] == m.out
  {
    match r
    case Absent => m
    case Present(t) =>
      if t != m.lastMtime then
        var n := m.frameCount + 1;
        Monitor(n, t, 0, m.out + (if n % 20 == 0 then [Frame(n)] else []))
      else if m.noChange + 1 > 100 then
        Monitor(m.frameCount, m.lastMtime, 0, m.out + [NoNewFrames])
      else
        Monitor(m.frameCount, m.lastMtime, m.noChange + 1, m.out)
  }

  /** The cases of a tick, each with exactly what it changes. */
  lemma TickCases(m: Monitor, r: Reading)
    ensures r.Absent? ==> Tick(m, r) == m
    ensures r.Present? && r.mtime != m.lastMtime ==>
      && Tick(m, r).frameCount == m.frameCount + 1 && Tick(m, r).lastMtime == r.mtime && Tick(m, r).noChange == 0
      && (Frame(m.frameCount + 1) in Tick(m, r).out[|m.out|..] <==> (m.frameCount + 1) % 20 == 0)
    ensures r.Present? && r.mtime == m.lastMtime ==>
      && Tick(m, r).frameCount == m.frameCount && Tick(m, r).lastMtime == m.lastMtime
      && (m.noChange >= 100 ==> Tick(m, r).noChange == 0 && Tick(m, r).out == m.out + [NoNewFrames])
      && (m.noChange < 100 ==> Tick(m, r).noChange == m.noChange + 1 && Tick(m, r).out == m.out)
  {
    if r.Present? && r.mtime != m.lastMtime {
      var m' := Tick(m, r);
      assert m'.out[|m.out|..] == (if (m.frameCount + 1) % 20 == 0 then [Frame(m.frameCount + 1)] else []);
    }
  }

  /** Every frame report a tick adds is for a multiple of 20 frames, and
      for the frame count the tick reached. */
  lemma TickReports(m: Monitor, r: Reading)
    ensures forall i :: |m.out| <= i < |Tick(m, r).out| && Tick(m, r).out[i].Frame? ==>
      Tick(m, r).out[i].n % 20 == 0 && Tick(m, r).out[i].n == Tick(m, r).frameCount
  {
  }

  /** The ticks of the first `n` events, skipping those that are not
      readings. */
  function Ticks(m: Monitor, events: seq<Event>, n: nat): Monitor
    requires n <= |events|
  {
    if n == 0 then m
    else
      var before := Ticks(m, events, n - 1);
      if events[n - 1].Read? then Tick(before, events[n - 1].r) else before
  }

  /** Over any number of ticks: the frame count never falls, the stale
      count stays at most 100, earlier lines are kept, and every new frame
      report is for a multiple of 20 frames, never more than were counted. */
  lemma {:induction false} TicksInvariant(m: Monitor, events: seq<Event>, n: nat)
    requires n <= |events| && m.noChange <= 100
    ensures var m' := Ticks(m, events, n);
      && m.frameCount <= m'.frameCount && m'.noChange <= 100
      && |m'.out| >= |m.out| && m'.out[..|m.out|] == m.out
      && forall i :: |m.out| <= i < |m'.out| && m'.out[i].Frame? ==>
           m'.out[i].n % 20 == 0 && m.frameCount < m'.out[i].n <= m'.frameCount
  {
    if n > 0 {
      TicksInvariant(m, events, n - 1);
      var before := Ticks(m, events, n - 1);
      if events[n - 1].Read? {
        TickReports(before, events[n - 1].r);
        var after := Tick(before, events[n - 1].r);
        assert after.out[..|before.out|] == before.out;
        assert after.out[..|m.out|] == before.out[..|m.out|];
      }
    }
  }

  /** Each tick that sees a new modification time adds exactly one frame. */
  function Changes(m: Monitor, events: seq<Event>, n: nat): nat
    requires n <= |events|
  {
    if n == 0 then 0
    else
      var before := Ticks(m, events, n - 1);
      Changes(m, events, n - 1)
        + (if events[n - 1].Read? && events[n - 1].r.Present? && events[n - 1].r.mtime != before.lastMtime then 1 else 0)
  }

  /** The frame count is the number of ticks that saw the file change. */
  lemma {:induction false} FramesAreChanges(m: Monitor, events: seq<Event>, n: nat)
    requires n <= |events|
    ensures Ticks(m, events, n).frameCount == m.frameCount + Changes(m, events, n)
  {
    if n > 0 {
      FramesAreChanges(m, events, n - 1);
    }
  }

  /** What the monitor loop sees next: a reading, an error inside the loop
      body, or a SIGTERM/SIGINT (the handler stops the preview, prints
      `PREVIEW_INTERRUPTED` and exits). */
  datatype Event = Read(r: Reading) | Failure | Signal(env: StopEnv)

  class LibcameraPreview {
    var running: bool
    var shutdownRequested: bool
    var child: Child
    var frameCount: nat
    var lastMtime: int
    /** Whether the output file exists. */
    var fileExists: bool
    var out: seq<Line>
    var actions: seq<Action>

    /** `__init__`: nothing started, no frame, no shutdown requested. */
    constructor (fileExists: bool)
      ensures !running && !shutdownRequested && child == NoChild
      ensures frameCount == 0 && lastMtime == 0 && this.fileExists == fileExists
      ensures out == [] && actions == []
    {
      running := false;
      shutdownRequested := false;
      child := NoChild;
      frameCount := 0;
      lastMtime := 0;
      this.fileExists := fileExists;
      out := [];
      actions := [];
    }

    /** `stop`, in its intended form: the loop flags drop, the child is
        signalled as `Stop` says and forgotten. */
    method StopPreview(env: StopEnv)
      modifies this
      ensures !running && shutdownRequested
      ensures var r := Stop(old(child), old(fileExists), env);
        child == r.child && fileExists == r.fileExists && actions == old(actions) + r.actions
      ensures frameCount == old(frameCount) && lastMtime == old(lastMtime) && out == old(out)
    {
      running := false;
      shutdownRequested := true;
      var r := Stop(child, fileExists, env);
      child := r.child;
      fileExists := r.fileExists;
      actions := actions + r.actions;
    }

    /** `start`: when the process cannot be started, an error and `stop`;
        otherwise the child runs, `PREVIEW_STARTING` is printed, and after
        the warm-up `PREVIEW_READY` follows exactly when the output file
        exists and is not empty; if not, `stop` runs and the result is false. */
    method Start(spawned: bool, pid: nat, readyAfterWarmUp: bool, env: StopEnv) returns (ok: bool)
      requires child == NoChild
      modifies this
      ensures ok <==> spawned && readyAfterWarmUp
      ensures ok ==> (running && child == Live(pid) && out == old(out) + [PreviewStarting, PreviewReady]
        && actions == old(actions))
      ensures !ok && spawned ==> (!running && out == old(out) + [PreviewStarting, PipelineFailed]
        && actions == old(actions) + Stop(Live(pid), old(fileExists), env).actions)
      ensures !spawned ==> (!running && out == old(out) + [StartError]
        && actions == old(actions) + Cleanup(old(fileExists)))
      ensures !ok ==> child == NoChild
      ensures frameCount == old(frameCount) && lastMtime == old(lastMtime)
    {
      if !spawned {
        out := out + [StartError];
        StopPreview(env);
        return false;
      }
      child := Live(pid);
      running := true;
      out := out + [PreviewStarting];
      if readyAfterWarmUp {
        fileExists := true;
        out := out + [PreviewReady];
        return true;
      }
      out := out + [PipelineFailed];
      StopPreview(env);
      return false;
    }

    /** `monitor_frames` over the events that arrive while it runs.  Each
        reading is one tick (`Ticks`); the loop ends when `stop` has dropped
        the flags or on an error, and then `PREVIEW_STOPPED (n frames)` is
        printed (`ended`); a signal's handler stops the preview and prints
        `PREVIEW_INTERRUPTED`, and the exit it raises leaves the loop without
        the final line (`exited`).  Otherwise every event was a reading and
        the loop is still running.  `handled` is how many events it took. */
    method MonitorFrames(events: seq<Event>) returns (handled: nat, ended: bool, exited: bool)
      modifies this
      ensures handled <= |events| && !(ended && exited)
      ensures forall j :: 0 <= j < handled - 1 ==> events[j].Read?
      ensures var m := Ticks(Monitor(old(frameCount), old(lastMtime), 0, old(out)), events, handled);
        && frameCount == m.frameCount && lastMtime == m.lastMtime
        && (exited ==> out == m.out + [PreviewInterrupted] && 0 < handled && events[handled - 1].Signal?)
        && (ended && 0 < handled && events[handled - 1].Failure? ==> out == m.out + [MonitorError, PreviewStopped(frameCount)])
        && (ended && !(0 < handled && events[handled - 1].Failure?) ==> out == m.out + [PreviewStopped(frameCount)])
        && (!ended && !exited ==> out == m.out && handled == |events| && running && !shutdownRequested)
      ensures ended ==> (0 < handled && events[handled - 1].Failure?) || !old(running) || old(shutdownRequested)
      ensures exited ==> child == NoChild && actions == old(actions) + Stop(old(child), old(fileExists), events[handled - 1].env).actions
      ensures !exited ==> child == old(child) && actions == old(actions)
      ensures |out| >= |old(out)| && out[..|old(out)|] == old(out)
    {
      var noChange: nat := 0;
      handled := 0;
      ended, exited := false, false;
      while handled < |events| && running && !shutdownRequested
        invariant handled <= |events|
        invariant forall j :: 0 <= j < handled ==> events[j].Read?
        invariant Monitor(frameCount, lastMtime, noChange, out) == Ticks(Monitor(old(frameCount), old(lastMtime), 0, old(out)), events, handled)
        invariant running == old(running) && shutdownRequested == old(shutdownRequested)
        invariant child == old(child) && actions == old(actions) && fileExists == old(fileExists)
        decreases |events| - handled
      {
        var e := events[handled];
        handled := handled + 1;
        match e
        case Read(r) =>
          var m := Tick(Monitor(frameCount, lastMtime, noChange, out), r);
          frameCount, lastMtime, noChange, out := m.frameCount, m.lastMtime, m.noChange, m.out;
        case Failure =>
          out := out + [MonitorError];
          ended := true;
          break;
        case Signal(env) =>
          OnSignal(env);
          TicksInvariant(Monitor(old(frameCount), old(lastMtime), 0, old(out)), events, handled);
          return handled, false, true;
      }
      if handled < |events| || !running || shutdownRequested {
        ended := true;
      }
      if ended {
        out := out + [PreviewStopped(frameCount)];
      }
      TicksInvariant(Monitor(old(frameCount), old(lastMtime), 0, old(out)), events, handled);
    }

    /** `signal_handler`: stop the preview, then `PREVIEW_INTERRUPTED`. */
    method OnSignal(env: StopEnv)
      modifies this
      ensures !running && shutdownRequested
      ensures out == old(out) + [PreviewInterrupted] && frameCount == old(frameCount) && lastMtime == old(lastMtime)
      ensures actions == old(actions) + Stop(old(child), old(fileExists), env).actions
      ensures child == NoChild
    {
      StopPreview(env);
      out := out + [PreviewInterrupted];
    }
  }

  /** `main` once the output file is given: start the preview; when it is
      ready, monitor it and in any case `stop` it afterwards, so a signal
      leads to a second `stop`; when it is not, report the failure with exit
      status 1.  Whatever happens, the child is forgotten at the end and the
      only signals sent are TERM, at most once, and KILL to its group. */
  method RunPreview(fileExists: bool, spawned: bool, pid: nat, readyAfterWarmUp: bool, startEnv: StopEnv,
                    events: seq<Event>, finalEnv: StopEnv)
    returns (preview: LibcameraPreview, status: int)
    ensures status == (if spawned && readyAfterWarmUp then 0 else 1)
    ensures preview.child == NoChild && !preview.running
    ensures SignalsOnly(preview.actions, pid)
    ensures |preview.out| > 0 && preview.out[0] == (if spawned then PreviewStarting else StartError)
    ensures status == 1 ==> preview.out[|preview.out| - 1] == FailedToStart
  {
    preview := new LibcameraPreview(fileExists);
    var started := preview.Start(spawned, pid, readyAfterWarmUp, startEnv);
    if !started {
      StopSignals([], Live(pid), fileExists, startEnv, pid);
      preview.out := preview.out + [FailedToStart];
      return preview, 1;
    }
    assert preview.out[0] == PreviewStarting && preview.actions == [];
    var handled, ended, exited := preview.MonitorFrames(events);
    assert preview.out[..1] == [PreviewStarting];
    var afterMonitor := preview.actions;
    if exited {
      StopSignals([], Live(pid), true, events[handled - 1].env, pid);
    }
    StopSignals(afterMonitor, preview.child, preview.fileExists, finalEnv, pid);
    preview.StopPreview(finalEnv);
    assert preview.out[..1] == [PreviewStarting];
    return preview, 0;
  }
}

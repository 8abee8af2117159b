/** The launcher (`index.js`): it spawns the bot as a child process and
    spawns it again each time the child closes asking for a restart, then
    stages the dashboard server, the background health monitor and the
    startup notification on timers. Process events are inputs; timers are
    recorded as the times at which they fire. */
module Supervisor {
  import opened Environment
  import UptimeMonitor

  /** A command line the launcher runs. */
  datatype Command = Command(program: string, args: seq<string>)

  /** The bot's child process: `node Goat.js`. */
  const BotCommand: Command := Command("node", ["Goat.js"])

  /** How a child closed: with an exit code, or killed by a signal (the
      `close` event then reports `null`). */
  datatype CloseCode = Exited(code: int) | Signalled

  /** The exit code that asks for a relaunch. */
  const RestartCode: int := 2

  /** `code == 2`: `null` is loosely equal only to `null` and `undefined`. */
  predicate RequestsRestart(c: CloseCode)
  {
    c.Exited? && c.code == RestartCode
  }

  /** Whether a bot child is running, and how many have been spawned. */
  datatype Phase = Running | Stopped
  datatype State = State(phase: Phase, spawns: nat)

  /** The launcher after its children closed with `codes`, one after the
      other. A child that closes with 2 is replaced at once; any other code
      leaves no child, so later codes cannot occur and are ignored. */
  function Run(codes: seq<CloseCode>): (s: State)
    ensures 1 <= s.spawns <= |codes| + 1
    ensures s.phase.Stopped? ==> codes != []
  {
    if codes == [] then State(Running, 1)
    else
      var s := Run(codes[..|codes| - 1]);
      if s.phase.Stopped? then s
      else if RequestsRestart(codes[|codes| - 1]) then State(Running, s.spawns + 1)
      else State(Stopped, s.spawns)
  }

  /** The length of the run of restart requests at the start of `codes`. */
  function LeadingRestarts(codes: seq<CloseCode>): (n: nat)
    ensures n <= |codes|
  {
    if codes != [] && RequestsRestart(codes[0]) then 1 + LeadingRestarts(codes[1..]) else 0
  }

  lemma {:induction false} LeadingRestartsAppend(p: seq<CloseCode>, t: seq<CloseCode>)
    ensures (forall i :: 0 <= i < |p| ==> RequestsRestart(p[i])) ==> LeadingRestarts(p + t) == |p| + LeadingRestarts(t)
    ensures (exists i :: 0 <= i < |p| && !RequestsRestart(p[i])) ==> LeadingRestarts(p + t) == LeadingRestarts(p)
    decreases |p|
  {
    if p != [] {
      assert (p + t)[0] == p[0];
      assert (p + t)[1..] == p[1..] + t;
      LeadingRestartsAppend(p[1..], t);
      if exists i :: 0 <= i < |p| && !RequestsRestart(p[i]) {
        var i :| 0 <= i < |p| && !RequestsRestart(p[i]);
        if i > 0 {
          assert !RequestsRestart(p[1..][i - 1]);
        }
      } else {
        assert forall i :: 0 <= i < |p[1..]| ==> RequestsRestart(p[1..][i]) by {
          forall i | 0 <= i < |p[1..]| ensures RequestsRestart(p[1..][i]) {
            assert p[1..][i] == p[i + 1];
          }
        }
      }
    } else {
      assert p + t == t;
    }
  }

  /** The bot is spawned once, plus once for every restart request before the
      first other close code; it is still running exactly when every child
      so far asked for a restart. */
  lemma {:induction false} SpawnCount(codes: seq<CloseCode>)
    ensures Run(codes).spawns == 1 + LeadingRestarts(codes)
    ensures Run(codes).phase.Running? <==> forall i :: 0 <= i < |codes| ==> RequestsRestart(codes[i])
  {
    if codes != [] {
      var n := |codes| - 1;
      var p, c := codes[..n], codes[n];
      assert codes == p + [c];
      SpawnCount(p);
      LeadingRestartsAppend(p, [c]);
      assert LeadingRestarts([c]) == (if RequestsRestart(c) then 1 else 0) by {
        assert [c][1..] == [];
      }
      assert forall i :: 0 <= i < |p| ==> p[i] == codes[i];
      if Run(p).phase.Stopped? {
        var i :| 0 <= i < |p| && !RequestsRestart(p[i]);
        assert LeadingRestarts(codes) == LeadingRestarts(p);
      } else {
        LeadingRestartsAppend(p, []);
        assert p + [] == p;
        assert LeadingRestarts(codes) == |p| + LeadingRestarts([c]);
      }
    }
  }

  /** A close that is not a restart request ends the sequence of children. */
  lemma {:induction false} StopIsFinal(codes: seq<CloseCode>, later: seq<CloseCode>)
    requires Run(codes).phase.Stopped?
    ensures Run(codes + later) == Run(codes)
    decreases |later|
  {
    if later != [] {
      var n := |later| - 1;
      assert (codes + later)[..|codes + later| - 1] == codes + later[..n];
      StopIsFinal(codes, later[..n]);
    } else {
      assert codes + later == codes;
    }
  }

  /** `startProject` and the `close` handler it installs on every child. */
  class Launcher {
    var phase: Phase
    /** The commands spawned so far, in order. */
    var spawned: seq<Command>

    function Snapshot(): State
      reads this
    {
      State(phase, |spawned|)
    }

    /** Every spawn runs the bot's command. */
    ghost predicate Valid()
      reads this
    {
      |spawned| >= 1 && forall i :: 0 <= i < |spawned| ==> spawned[i] == BotCommand
    }

    /** The first `startProject()`. */
    constructor ()
      ensures Valid() && Snapshot() == Run([])
      ensures spawned == [BotCommand]
    {
      phase := Running;
      spawned := [BotCommand];
    }

    /** The running child closed with `code`: with 2 exactly one new child of
        the same command is spawned; with anything else none is. */
    method OnClose(code: CloseCode)
      requires Valid() && phase.Running?
      modifies this
      ensures Valid()
      ensures spawned == old(spawned) + (if RequestsRestart(code) then [BotCommand] else [])
      ensures phase.Running? <==> RequestsRestart(code)
    {
      if code.Exited? && code.code == RestartCode {
        spawned := spawned + [BotCommand];
      } else {
        phase := Stopped;
      }
    }
  }

  /** The launcher driven through a sequence of close events. */
  method Supervise(codes: seq<CloseCode>) returns (launcher: Launcher)
    ensures launcher.Valid() && launcher.Snapshot() == Run(codes)
  {
    launcher := new Launcher();
    var i := 0;
    while i < |codes|
      invariant 0 <= i <= |codes|
      invariant launcher.Valid() && launcher.Snapshot() == Run(codes[..i])
    {
      if launcher.phase.Running? {
        launcher.OnClose(codes[i]);
      }
      assert codes[..i + 1][..i] == codes[..i];
      i := i + 1;
    }
    assert codes[..i] == codes;
  }

  // ---------------------------------------------------------------------
  // Staged startup

  /** `startBackgroundMonitoring`: the monitor is loaded only when
      `config.json` can be read and `uptimeMonitor.enable` is truthy. */
  predicate MonitorEnabled(file: ConfigFile)
  {
    file.Loaded? && file.config.uptimeMonitor.Some? && Truthy(file.config.uptimeMonitor.value.enable)
  }

  const DashboardDelayMs: nat := 8000
  const ServicesDelayMs: nat := 12000
  const MonitoringDelayMs: nat := 2000
  const NotificationDelayMs: nat := 3000
  const MonitorLoadDelayMs: nat := 5000

  datatype Stage =
    | SpawnBot
    | LoadDashboard
    | StartServices
    | CheckMonitorConfig
    | StartupNotification
    | LoadMonitor
    | FirstHealthCheck

  datatype Timed = Timed(at: nat, stage: Stage)

  predicate Chronological(t: seq<Timed>)
  {
    forall i, j :: 0 <= i < j < |t| ==> t[i].at <= t[j].at
  }

  predicate Happens(t: seq<Timed>, s: Stage)
  {
    exists i :: 0 <= i < |t| && t[i].stage == s
  }

  /** When each stage of the start-up happens, in milliseconds after launch,
      with `file` the configuration as read when monitoring starts. */
  function StartupTimeline(file: ConfigFile): (t: seq<Timed>)
    ensures Chronological(t)
    ensures Happens(t, LoadMonitor) <==> MonitorEnabled(file)
    ensures Happens(t, FirstHealthCheck) <==> MonitorEnabled(file)
    ensures forall i, j :: 0 <= i < |t| && 0 <= j < |t| && t[i].stage == LoadDashboard && t[j].stage == FirstHealthCheck ==>
      t[i].at < t[j].at
  {
    var services := ServicesDelayMs;
    var monitoring := services + MonitoringDelayMs;
    var load := monitoring + MonitorLoadDelayMs;
    var common := [Timed(0, SpawnBot), Timed(DashboardDelayMs, LoadDashboard), Timed(services, StartServices),
                   Timed(monitoring, CheckMonitorConfig), Timed(services + NotificationDelayMs, StartupNotification)];
    var t := if MonitorEnabled(file) then common + [Timed(load, LoadMonitor), Timed(load + UptimeMonitor.StartDelayMs, FirstHealthCheck)]
             else common;
    assert forall i :: 0 <= i < |common| ==> common[i].stage != LoadMonitor && common[i].stage != FirstHealthCheck;
    assert MonitorEnabled(file) ==> t[5].stage == LoadMonitor && t[6].stage == FirstHealthCheck;
    t
  }

  /** Every health probe of the monitor happens after the dashboard server
      that answers it was loaded. */
  lemma ProbesFollowDashboard(file: ConfigFile, k: nat)
    requires MonitorEnabled(file)
    ensures DashboardDelayMs < ServicesDelayMs + MonitoringDelayMs + MonitorLoadDelayMs + UptimeMonitor.ProbeTime(k)
    ensures StartupTimeline(file)[6] == Timed(ServicesDelayMs + MonitoringDelayMs + MonitorLoadDelayMs + UptimeMonitor.ProbeTime(0), FirstHealthCheck)
  {
  }

  lemma StartupExamples(file: ConfigFile)
    requires MonitorEnabled(file)
    ensures StartupTimeline(file) ==
      [Timed(0, SpawnBot), Timed(8000, LoadDashboard), Timed(12000, StartServices), Timed(14000, CheckMonitorConfig),
       Timed(15000, StartupNotification), Timed(19000, LoadMonitor), Timed(21000, FirstHealthCheck)]
  {
  }
}

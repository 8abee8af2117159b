/** The background uptime monitor: the statistics record every health probe
    updates, the fan-out of a notification to the bot owners with its pacing
    and success count, and the bounded retry around that fan-out. The HTTP
    probe, the messaging API and the clock are inputs: each probe's outcome
    and time, each send's result and each attempt's result are given. */
module UptimeMonitor {
  import opened Wrappers
  import opened Environment

  /** The period of `setInterval(checkBotHealth, …)`. */
  const HealthCheckIntervalMs: nat := 5 * 1000
  /** The period of `setInterval(pingExternalUrl, …)`. */
  const ExternalPingIntervalMs: nat := 5 * 60 * 1000
  /** The delay before `startUptimeMonitoring` runs once the module is loaded. */
  const StartDelayMs: nat := 2000
  /** The timeout of the health probe. */
  const ProbeTimeoutMs: nat := 10000
  /** The pause after each delivered owner message. */
  const PacingDelayMs: nat := 1000
  /** `maxRetries` of `attemptNotificationWithRetry`. */
  const MaxRetries: int := 5
  /** The delay before each retry. */
  const RetryDelayMs: nat := 10000
  /** The fallback for the `BOT_URL` environment variable. */
  const DefaultBotUrl: string := "https://florabot-uptime-monitor.web.app"

  // ---------------------------------------------------------------------
  // Health statistics

  datatype PingStatus = Pending | Success | Failed
  datatype BotStatus = Checking | Online | Offline

  /** How the GET of `http://127.0.0.1:3001/ping` ended: a response axios
      accepts, or an error (network, timeout, non-2xx status) with its message. */
  datatype Outcome = Responded | Failure(message: string)

  /** One finished probe and the `Date.now()` it recorded. */
  datatype Probe = Probe(outcome: Outcome, at: int)

  /** The fields of the `uptimeStats` object. */
  datatype Stats = Stats(
    startTime: int,
    totalPings: nat,
    successfulPings: nat,
    failedPings: nat,
    lastPingTime: Option<int>,
    lastPingStatus: PingStatus,
    lastError: Option<string>,
    botStatus: BotStatus,
    firstSuccessNotified: bool)

  /** The bot status that goes with a ping status. */
  function StatusFor(p: PingStatus): BotStatus
  {
    match p
    case Pending => Checking
    case Success => Online
    case Failed => Offline
  }

  /** What every reachable statistics record satisfies: the total is the sum
      of the two counters, the startup flag is set exactly when some probe
      succeeded, and the status fields describe the last probe. */
  ghost predicate Consistent(s: Stats)
  {
    && s.totalPings == s.successfulPings + s.failedPings
    && (s.firstSuccessNotified <==> s.successfulPings > 0)
    && (s.lastPingStatus == Pending <==> s.totalPings == 0)
    && (s.lastPingTime.None? <==> s.totalPings == 0)
    && (s.lastError.Some? <==> s.lastPingStatus == Failed)
    && (s.lastPingStatus == Success ==> s.successfulPings > 0)
    && (s.lastPingStatus == Failed ==> s.failedPings > 0)
    && s.botStatus == StatusFor(s.lastPingStatus)
  }

  /** The record as the module creates it at `startTime`. */
  function InitialStats(startTime: int): (s: Stats)
    ensures Consistent(s)
  {
    Stats(startTime, 0, 0, 0, None, Pending, None, Checking, false)
  }

  /** The record after one probe: the success branch or the `catch` branch,
      then the `finally` increment of `totalPings`. */
  function Record(s: Stats, p: Probe): Stats
  {
    match p.outcome
    case Responded =>
      s.(lastPingTime := Some(p.at), lastPingStatus := Success, successfulPings := s.successfulPings + 1,
         botStatus := Online, lastError := None, firstSuccessNotified := true, totalPings := s.totalPings + 1)
    case Failure(message) =>
      s.(lastPingTime := Some(p.at), lastPingStatus := Failed, failedPings := s.failedPings + 1,
         botStatus := Offline, lastError := Some(message), totalPings := s.totalPings + 1)
  }

  /** A probe adds one to the total and one to exactly one of the two
      counters, keeps the record consistent and never clears the startup flag. */
  lemma RecordStep(s: Stats, p: Probe)
    ensures var r := Record(s, p);
      && r.totalPings == s.totalPings + 1
      && (if p.outcome.Responded?
          then r.successfulPings == s.successfulPings + 1 && r.failedPings == s.failedPings
          else r.failedPings == s.failedPings + 1 && r.successfulPings == s.successfulPings)
      && (s.firstSuccessNotified ==> r.firstSuccessNotified)
      && r.startTime == s.startTime
      && (Consistent(s) ==> Consistent(r))
  {
  }

  /** The record after a sequence of probes, oldest first. */
  function Replay(s: Stats, probes: seq<Probe>): Stats
  {
    if probes == [] then s else Record(Replay(s, probes[..|probes| - 1]), probes[|probes| - 1])
  }

  /** The number of probes that got a response. */
  function Successes(probes: seq<Probe>): nat
  {
    if probes == [] then 0
    else Successes(probes[..|probes| - 1]) + (if probes[|probes| - 1].outcome.Responded? then 1 else 0)
  }

  /** The number of probes at which the one-time "bot is healthy" message is
      logged: a successful probe that finds the startup flag still clear. */
  function StartupLogs(s: Stats, probes: seq<Probe>): nat
  {
    if probes == [] then 0
    else
      var before := Replay(s, probes[..|probes| - 1]);
      StartupLogs(s, probes[..|probes| - 1])
        + (if probes[|probes| - 1].outcome.Responded? && !before.firstSuccessNotified then 1 else 0)
  }

  /** From the initial record, the total counts every probe, the success
      counter the successful ones and the failure counter the rest; the record
      stays consistent, and its status fields describe the last probe. */
  lemma {:induction false} ReplayFromStart(startTime: int, probes: seq<Probe>)
    ensures var s := Replay(InitialStats(startTime), probes);
      && Consistent(s)
      && s.startTime == startTime
      && s.totalPings == |probes|
      && s.successfulPings == Successes(probes)
      && s.failedPings == |probes| - Successes(probes)
      && (s.firstSuccessNotified <==> Successes(probes) > 0)
      && (probes != [] ==> s.lastPingTime == Some(probes[|probes| - 1].at))
      && (probes != [] ==> s.lastPingStatus == (if probes[|probes| - 1].outcome.Responded? then Success else Failed))
  {
    if probes != [] {
      var init := probes[..|probes| - 1];
      ReplayFromStart(startTime, init);
      RecordStep(Replay(InitialStats(startTime), init), probes[|probes| - 1]);
    }
  }

  /** Counters only grow along any sequence of probes, the total by exactly
      one per probe, and nothing resets the startup flag. */
  lemma {:induction false} CountersNeverDecrease(s: Stats, probes: seq<Probe>)
    ensures var r := Replay(s, probes);
      && r.totalPings == s.totalPings + |probes|
      && r.successfulPings >= s.successfulPings
      && r.failedPings >= s.failedPings
      && (s.firstSuccessNotified ==> r.firstSuccessNotified)
  {
    if probes != [] {
      var init := probes[..|probes| - 1];
      CountersNeverDecrease(s, init);
      RecordStep(Replay(s, init), probes[|probes| - 1]);
    }
  }

  /** The startup message is logged once if some probe succeeds and never
      otherwise, however the probes flap. */
  lemma {:induction false} StartupLoggedOnce(startTime: int, probes: seq<Probe>)
    ensures StartupLogs(InitialStats(startTime), probes) == if Successes(probes) > 0 then 1 else 0
  {
    if probes != [] {
      var init := probes[..|probes| - 1];
      StartupLoggedOnce(startTime, init);
      ReplayFromStart(startTime, init);
    }
  }

  /** The shared `uptimeStats` object, whose fields each probe overwrites. */
  class UptimeStats {
    var startTime: int
    var totalPings: nat
    var successfulPings: nat
    var failedPings: nat
    var lastPingTime: Option<int>
    var lastPingStatus: PingStatus
    var lastError: Option<string>
    var botStatus: BotStatus
    var firstSuccessNotified: bool

    function Snapshot(): Stats
      reads this
    {
      Stats(startTime, totalPings, successfulPings, failedPings, lastPingTime,
            lastPingStatus, lastError, botStatus, firstSuccessNotified)
    }

    ghost predicate Valid()
      reads this
    {
      Consistent(Snapshot())
    }

    /** The object literal of the module, created at `Date.now()` = `now`. */
    constructor (now: int)
      ensures Valid() && Snapshot() == InitialStats(now)
    {
      startTime := now;
      totalPings, successfulPings, failedPings := 0, 0, 0;
      lastPingTime := None;
      lastPingStatus := Pending;
      lastError := None;
      botStatus := Checking;
      firstSuccessNotified := false;
    }

    /** `checkBotHealth` for a probe that ended with `outcome` at `now`:
        returns whether the bot answered and whether the one-time startup
        message was logged. */
    method CheckBotHealth(outcome: Outcome, now: int) returns (healthy: bool, startupLogged: bool)
      requires Valid()
      modifies this
      ensures Valid()
      ensures Snapshot() == Record(old(Snapshot()), Probe(outcome, now))
      ensures healthy == outcome.Responded?
      ensures startupLogged == (outcome.Responded? && !old(firstSuccessNotified))
    {
      RecordStep(Snapshot(), Probe(outcome, now));
      match outcome {
        case Responded =>
          lastPingTime := Some(now);
          lastPingStatus := Success;
          successfulPings := successfulPings + 1;
          botStatus := Online;
          lastError := None;
          startupLogged := !firstSuccessNotified;
          if !firstSuccessNotified {
            firstSuccessNotified := true;
          }
          healthy := true;
        case Failure(message) =>
          lastPingTime := Some(now);
          lastPingStatus := Failed;
          failedPings := failedPings + 1;
          botStatus := Offline;
          lastError := Some(message);
          startupLogged := false;
          healthy := false;
      }
      totalPings := totalPings + 1;
    }
  }

  /** The time, after the module is loaded, of the `k`-th health probe
      (the first runs at once when monitoring starts, the rest on the interval). */
  function ProbeTime(k: nat): (t: nat)
    ensures t >= StartDelayMs
    ensures k == 0 ==> t == StartDelayMs
    ensures k > 0 ==> t == ProbeTime(k - 1) + HealthCheckIntervalMs
  {
    StartDelayMs + k * HealthCheckIntervalMs
  }

  /** `pingExternalUrl` sends its request only when `BOT_URL` is set to
      something other than the built-in default; an empty variable falls back
      to the default, as `||` does. */
  function PingsExternalUrl(botUrlVariable: Option<string>): (pings: bool)
    ensures pings ==> botUrlVariable.Some? && botUrlVariable.value != [] && botUrlVariable.value != DefaultBotUrl
    ensures botUrlVariable.Some? && botUrlVariable.value != [] && botUrlVariable.value != DefaultBotUrl ==> pings
  {
    var url := if botUrlVariable.Some? && botUrlVariable.value != [] then botUrlVariable.value else DefaultBotUrl;
    url != DefaultBotUrl
  }

  // ---------------------------------------------------------------------
  // Finding the messaging API

  /** The API slots in the order `sendNotificationToOwners` looks at them. */
  function ApiSlots(g: Globals): seq<Option<Api>>
  {
    [g.goatBotApi, g.utilsApi, g.globalApi]
  }

  predicate Usable(slot: Option<Api>)
  {
    slot.Some? && slot.value.canSend
  }

  /** The index of the first slot holding an object with a `sendMessage`
      function. */
  function FirstUsable(slots: seq<Option<Api>>): (r: Option<nat>)
    ensures r.Some? ==> r.value < |slots| && Usable(slots[r.value])
    ensures r.Some? ==> forall j :: 0 <= j < r.value ==> !Usable(slots[j])
    ensures r.None? <==> forall j :: 0 <= j < |slots| ==> !Usable(slots[j])
  {
    if slots == [] then None
    else if Usable(slots[0]) then Some(0)
    else match FirstUsable(slots[1..])
      case None => None
      case Some(k) => Some(k + 1)
  }

  /** The API `sendNotificationToOwners` uses, if any: `GoatBot.api`, else
      `utils.api`, else the global `api`, whichever can send first. */
  function FindBotApi(g: Globals): (api: Option<Api>)
    ensures api.Some? ==> api.value.canSend
    ensures api.None? <==> !Usable(g.goatBotApi) && !Usable(g.utilsApi) && !Usable(g.globalApi)
    ensures Usable(g.goatBotApi) ==> api == g.goatBotApi
    ensures !Usable(g.goatBotApi) && Usable(g.utilsApi) ==> api == g.utilsApi
    ensures !Usable(g.goatBotApi) && !Usable(g.utilsApi) && Usable(g.globalApi) ==> api == g.globalApi
  {
    var slots := ApiSlots(g);
    assert slots[0] == g.goatBotApi && slots[1] == g.utilsApi && slots[2] == g.globalApi;
    assert Usable(slots[0]) ==> FirstUsable(slots) == Some(0);
    assert !Usable(slots[0]) && Usable(slots[1]) ==> FirstUsable(slots) == Some(1);
    assert !Usable(slots[0]) && !Usable(slots[1]) && Usable(slots[2]) ==> FirstUsable(slots) == Some(2);
    match FirstUsable(slots)
    case None => None
    case Some(k) => slots[k]
  }

  // ---------------------------------------------------------------------
  // Notifying the owners

  /** What the fan-out does, in order: a send to one owner and its result,
      or a pause. */
  datatype Step = Sent(recipient: string, delivered: bool) | Paused(ms: nat)

  /** One loop iteration: the send, then the pause if it was delivered. */
  function SendStep(owner: string, delivered: bool): seq<Step>
  {
    [Sent(owner, delivered)] + (if delivered then [Paused(PacingDelayMs)] else [])
  }

  /** The steps of the loop over `owners` when the k-th send yields `replies[k]`. */
  function PacedTrace(owners: seq<string>, replies: seq<bool>): seq<Step>
    requires |owners| == |replies|
  {
    if owners == [] then []
    else PacedTrace(owners[..|owners| - 1], replies[..|replies| - 1]) + SendStep(owners[|owners| - 1], replies[|replies| - 1])
  }

  /** The number of delivered sends. */
  function Delivered(replies: seq<bool>): nat
  {
    if replies == [] then 0
    else Delivered(replies[..|replies| - 1]) + (if replies[|replies| - 1] then 1 else 0)
  }

  /** The owners a trace sends to, in order. */
  function Recipients(trace: seq<Step>): seq<string>
  {
    if trace == [] then []
    else Recipients(trace[..|trace| - 1]) + (if trace[|trace| - 1].Sent? then [trace[|trace| - 1].recipient] else [])
  }

  /** The number of pauses in a trace. */
  function Pauses(trace: seq<Step>): nat
  {
    if trace == [] then 0
    else Pauses(trace[..|trace| - 1]) + (if trace[|trace| - 1].Paused? then 1 else 0)
  }

  lemma {:induction false} RecipientsAppend(a: seq<Step>, b: seq<Step>)
    ensures Recipients(a + b) == Recipients(a) + Recipients(b)
    ensures Pauses(a + b) == Pauses(a) + Pauses(b)
    decreases |b|
  {
    if b == [] {
      assert a + b == a;
    } else {
      var b' := b[..|b| - 1];
      assert (a + b)[..|a + b| - 1] == a + b';
      RecipientsAppend(a, b');
    }
  }

  lemma SendStepCounts(owner: string, delivered: bool)
    ensures Recipients(SendStep(owner, delivered)) == [owner]
    ensures Pauses(SendStep(owner, delivered)) == if delivered then 1 else 0
  {
    var step := SendStep(owner, delivered);
    var first := [Sent(owner, delivered)];
    assert first[..0] == [];
    assert Recipients(first) == [owner] && Pauses(first) == 0;
    if delivered {
      assert step[..1] == first;
    } else {
      assert step == first;
    }
  }

  /** Every owner is sent to exactly once, in list order, whatever the
      replies. */
  lemma {:induction false} EveryOwnerTriedOnce(owners: seq<string>, replies: seq<bool>)
    requires |owners| == |replies|
    ensures Recipients(PacedTrace(owners, replies)) == owners
  {
    if owners != [] {
      var n := |owners| - 1;
      var o', r' := owners[..n], replies[..n];
      EveryOwnerTriedOnce(o', r');
      var prefix := PacedTrace(o', r');
      var step := SendStep(owners[n], replies[n]);
      assert PacedTrace(owners, replies) == prefix + step;
      RecipientsAppend(prefix, step);
      SendStepCounts(owners[n], replies[n]);
      assert o' + [owners[n]] == owners;
    }
  }

  /** There is one pause per delivered send, so the number of deliveries
      never exceeds the number of owners. */
  lemma {:induction false} OnePausePerDelivery(owners: seq<string>, replies: seq<bool>)
    requires |owners| == |replies|
    ensures Pauses(PacedTrace(owners, replies)) == Delivered(replies)
    ensures Delivered(replies) <= |owners|
  {
    if owners != [] {
      var n := |owners| - 1;
      var o', r' := owners[..n], replies[..n];
      OnePausePerDelivery(o', r');
      var prefix := PacedTrace(o', r');
      var step := SendStep(owners[n], replies[n]);
      assert PacedTrace(owners, replies) == prefix + step;
      RecipientsAppend(prefix, step);
      SendStepCounts(owners[n], replies[n]);
      assert Delivered(replies) == Delivered(r') + (if replies[n] then 1 else 0);
    }
  }

  /** A trace in which a pause comes right after each delivered send and
      nowhere else. */
  ghost predicate PausesOnlyAfterDelivery(t: seq<Step>)
  {
    forall i {:trigger t[i]} :: 0 <= i < |t| ==>
      && (t[i].Paused? ==> i > 0 && t[i - 1].Sent? && t[i - 1].delivered && t[i].ms == PacingDelayMs)
      && (t[i].Sent? ==> (t[i].delivered <==> i + 1 < |t| && t[i + 1].Paused?))
  }

  /** The pacing wait follows a delivered send and never a failed one. */
  lemma {:induction false} PacingFollowsDelivery(owners: seq<string>, replies: seq<bool>)
    requires |owners| == |replies|
    ensures PausesOnlyAfterDelivery(PacedTrace(owners, replies))
  {
    if owners != [] {
      var o', r' := owners[..|owners| - 1], replies[..|replies| - 1];
      PacingFollowsDelivery(o', r');
      var before := PacedTrace(o', r');
      var step := SendStep(owners[|owners| - 1], replies[|replies| - 1]);
      var t := before + step;
      assert PacedTrace(owners, replies) == t;
      forall i | 0 <= i < |t|
        ensures t[i].Paused? ==> i > 0 && t[i - 1].Sent? && t[i - 1].delivered && t[i].ms == PacingDelayMs
        ensures t[i].Sent? ==> (t[i].delivered <==> i + 1 < |t| && t[i + 1].Paused?)
      {
        if i < |before| - 1 {
          assert t[i] == before[i] && t[i + 1] == before[i + 1];
          assert i > 0 ==> t[i - 1] == before[i - 1];
        } else if i == |before| - 1 {
          assert t[i] == before[i] && t[i + 1] == step[0];
          assert i > 0 ==> t[i - 1] == before[i - 1];
        } else if i == |before| {
          assert t[i] == step[0];
          assert |step| == 2 ==> t[i + 1] == step[1];
        } else {
          assert t[i] == step[1] && t[i - 1] == step[0];
        }
      }
    }
  }

  /** `sendNotificationToOwners`: fails without sending when the configuration
      cannot be read, lists no owner, or no API with a `sendMessage` function is
      found; otherwise sends to every owner in order, pausing after each
      delivery, and reports whether at least one send was delivered.
      `replies[k]` is the result of the send to the k-th owner. */
  method SendNotificationToOwners(file: ConfigFile, globals: Globals, replies: seq<bool>)
    returns (ok: bool, successCount: nat, trace: seq<Step>)
    requires |replies| == |Owners(file)|
    ensures Owners(file) == [] || FindBotApi(globals).None? ==> !ok && successCount == 0 && trace == []
    ensures Owners(file) != [] && FindBotApi(globals).Some? ==>
      && trace == PacedTrace(Owners(file), replies)
      && successCount == Delivered(replies)
      && ok == (successCount > 0)
  {
    if file.Unreadable? {
      return false, 0, [];
    }
    var admins := file.config.adminBot;
    if admins.None? || |admins.value| == 0 {
      return false, 0, [];
    }
    var botApi := FindBotApi(globals);
    if botApi.None? {
      return false, 0, [];
    }
    var owners := admins.value;
    successCount, trace := 0, [];
    var i := 0;
    while i < |owners|
      invariant 0 <= i <= |owners|
      invariant trace == PacedTrace(owners[..i], replies[..i])
      invariant successCount == Delivered(replies[..i])
    {
      assert owners[..i + 1][..i] == owners[..i] && replies[..i + 1][..i] == replies[..i];
      if replies[i] {
        successCount := successCount + 1;
        trace := trace + [Sent(owners[i], true), Paused(PacingDelayMs)];
      } else {
        trace := trace + [Sent(owners[i], false)];
      }
      i := i + 1;
    }
    assert owners[..i] == owners && replies[..i] == replies;
    ok := successCount > 0;
  }

  // ---------------------------------------------------------------------
  // Retrying

  /** The number of attempts `attemptNotificationWithRetry` makes when it is
      entered with `retryCount` as attempt number `k` and `succeeds(j)` is the
      result of attempt `j`: it stops at the first success, and after a failure
      goes on only while the retry count is below `MaxRetries`. */
  function RetryAttempts(retryCount: int, succeeds: nat -> bool, k: nat): (n: nat)
    ensures n > k
    ensures forall j :: k <= j < n - 1 ==> !succeeds(j)
    ensures succeeds(n - 1) || retryCount + (n - 1 - k) >= MaxRetries
    ensures n - 1 - k <= if retryCount < MaxRetries then MaxRetries - retryCount else 0
    decreases if retryCount < MaxRetries then MaxRetries - retryCount else 0
  {
    if succeeds(k) || retryCount >= MaxRetries then k + 1
    else RetryAttempts(retryCount + 1, succeeds, k + 1)
  }

  /** `attemptNotificationWithRetry(message, retryCount)`, its timer-driven
      self-calls unrolled into a loop: returns the number of attempts, the
      delays waited between them and whether the last attempt delivered. */
  method AttemptNotificationWithRetry(retryCount: int, succeeds: nat -> bool)
    returns (attempts: nat, delays: seq<nat>, delivered: bool)
    ensures attempts == RetryAttempts(retryCount, succeeds, 0)
    ensures delivered == succeeds(attempts - 1)
    ensures |delays| == attempts - 1 && forall i :: 0 <= i < |delays| ==> delays[i] == RetryDelayMs
  {
    var r := retryCount;
    attempts := 1;
    delivered := succeeds(0);
    delays := [];
    while !delivered && r < MaxRetries
      invariant attempts >= 1 && r == retryCount + attempts - 1
      invariant delivered == succeeds(attempts - 1)
      invariant |delays| == attempts - 1 && forall i :: 0 <= i < |delays| ==> delays[i] == RetryDelayMs
      invariant RetryAttempts(retryCount, succeeds, 0) == RetryAttempts(r, succeeds, attempts - 1)
      decreases MaxRetries - r
    {
      delays := delays + [RetryDelayMs];
      r := r + 1;
      attempts := attempts + 1;
      delivered := succeeds(attempts - 1);
    }
  }

  /** With a channel that always fails, a call entered with retry count
      `r <= 5` makes exactly `6 - r` attempts; one entered above the limit
      makes one. */
  lemma AlwaysFailingAttempts(retryCount: int, succeeds: nat -> bool)
    requires forall j :: !succeeds(j)
    ensures RetryAttempts(retryCount, succeeds, 0) == if retryCount <= MaxRetries then MaxRetries + 1 - retryCount else 1
  {
  }

  /** The attempts stop at the first success when it comes within the limit. */
  lemma StopsAtFirstSuccess(retryCount: int, succeeds: nat -> bool, first: nat)
    requires succeeds(first) && forall j :: 0 <= j < first ==> !succeeds(j)
    requires retryCount + first <= MaxRetries
    ensures RetryAttempts(retryCount, succeeds, 0) == first + 1
  {
  }
}

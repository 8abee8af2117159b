/** The bot's own dashboard server (`bot-uptime-endpoint.js`): the
    `HH:MM:SS` uptime the `/` page is rendered with, the counter the page's
    script keeps updating from it, and the used-memory figure. */
module BotUptimeEndpoint {
  import opened Wrappers
  import opened JsText

  /** Hours, minutes and seconds of an uptime; there is no day field. */
  datatype Clock = Clock(hours: nat, minutes: nat, seconds: nat)

  /** `Math.floor(process.uptime())`. */
  function ServerSeconds(processUptime: real): (s: nat)
    requires processUptime >= 0.0
    ensures s as real <= processUptime < s as real + 1.0
  {
    processUptime.Floor
  }

  /** The fields of a whole number of seconds. Hours are not wrapped at 24:
      they keep growing with the uptime. */
  function ClockOf(s: nat): (c: Clock)
    ensures c.minutes < 60 && c.seconds < 60
    ensures c.hours * 3600 + c.minutes * 60 + c.seconds == s
    ensures c.hours >= 24 <==> s >= 86400
  {
    Clock(s / 3600, (s % 3600) / 60, s % 60)
  }

  /** The fields are the only ones with minutes and seconds below 60 that
      add up to `s`. */
  lemma ClockIsUnique(s: nat, c: Clock)
    requires c.minutes < 60 && c.seconds < 60
    requires c.hours * 3600 + c.minutes * 60 + c.seconds == s
    ensures c == ClockOf(s)
  {
    var r := c.minutes * 60 + c.seconds;
    assert 0 <= r < 3600;
    assert s / 3600 == c.hours && s % 3600 == r;
    assert r / 60 == c.minutes && r % 60 == c.seconds;
    assert s % 60 == c.seconds by {
      assert s == 60 * (c.hours * 60 + c.minutes) + c.seconds;
    }
  }

  const ClockSeparators: seq<string> := [":", ":", ""]

  /** Each field rendered with `padStart(2, '0')`, joined by ':'. */
  function RenderClock(c: Clock): string
  {
    Template([c.hours, c.minutes, c.seconds], ClockSeparators, 2)
  }

  /** The rendered clock can be read back into its fields. */
  lemma RenderClockReadsBack(c: Clock)
    ensures ReadTemplate(RenderClock(c), ClockSeparators) == Some([c.hours, c.minutes, c.seconds])
  {
    assert Separating(ClockSeparators) by {
      assert ClockSeparators[0] == ":" && ClockSeparators[1] == ":" && ClockSeparators[2] == "";
    }
    TemplateRoundTrip([c.hours, c.minutes, c.seconds], ClockSeparators, 2);
  }

  /** Every field is at least two characters wide, and the digits of the
      field are kept whole behind the padding. */
  lemma ClockFieldsArePadded(n: nat)
    ensures |PadStart(NatToString(n), 2, '0')| >= 2
    ensures NatToString(n) <= PadStart(NatToString(n), 2, '0')[|PadStart(NatToString(n), 2, '0')| - |NatToString(n)|..]
  {
  }

  /** The uptime the `/` page is rendered with. */
  function DashboardUptime(processUptime: real): string
    requires processUptime >= 0.0
  {
    RenderClock(ClockOf(ServerSeconds(processUptime)))
  }

  /** The page shows a clock whose fields add up to the whole seconds of the
      process uptime. */
  lemma DashboardShowsUptime(processUptime: real)
    requires processUptime >= 0.0
    ensures var c := ClockOf(processUptime.Floor);
      ReadTemplate(DashboardUptime(processUptime), ClockSeparators) == Some([c.hours, c.minutes, c.seconds]) &&
      (c.hours * 3600 + c.minutes * 60 + c.seconds) as real <= processUptime < (c.hours * 3600 + c.minutes * 60 + c.seconds + 1) as real
  {
    RenderClockReadsBack(ClockOf(processUptime.Floor));
  }

  lemma DashboardExample()
    ensures ClockOf(90061) == Clock(25, 1, 1)
    ensures ClockOf(59) == Clock(0, 0, 59)
    ensures ClockOf(3600) == Clock(1, 0, 0)
  {
  }

  // ---------------------------------------------------------------------
  // The page's counter

  /** `startTime`: the page's clock when it loaded, less the server's uptime. */
  function PageStartTime(loadMs: int, serverSeconds: nat): int
  {
    loadMs - serverSeconds * 1000
  }

  /** `Math.floor((now - startTime) / 1000)`. */
  function ClientSeconds(startMs: int, nowMs: int): (seconds: nat)
    requires nowMs >= startMs
    ensures seconds * 1000 <= nowMs - startMs < (seconds + 1) * 1000
  {
    (nowMs - startMs) / 1000
  }

  /** What `updateUptime` writes into the page. */
  function UpdateUptime(startMs: int, nowMs: int): string
    requires nowMs >= startMs
  {
    RenderClock(ClockOf(ClientSeconds(startMs, nowMs)))
  }

  /** The counter shows a clock of the whole seconds elapsed since `startMs`. */
  lemma CounterShowsElapsed(startMs: int, nowMs: int)
    requires nowMs >= startMs
    ensures var c := ClockOf((nowMs - startMs) / 1000);
      ReadTemplate(UpdateUptime(startMs, nowMs), ClockSeparators) == Some([c.hours, c.minutes, c.seconds]) &&
      (c.hours * 3600 + c.minutes * 60 + c.seconds) * 1000 <= nowMs - startMs < (c.hours * 3600 + c.minutes * 60 + c.seconds + 1) * 1000
  {
    RenderClockReadsBack(ClockOf((nowMs - startMs) / 1000));
  }

  /** The counter continues from the server's count: `elapsedMs` after the
      page loaded it shows the server's seconds plus the whole seconds
      elapsed. */
  lemma CounterContinuesServer(loadMs: int, elapsedMs: nat, serverSeconds: nat)
    ensures ClientSeconds(PageStartTime(loadMs, serverSeconds), loadMs + elapsedMs) == serverSeconds + elapsedMs / 1000
  {
    var d := loadMs + elapsedMs - PageStartTime(loadMs, serverSeconds);
    assert d == serverSeconds * 1000 + elapsedMs;
    assert d / 1000 == serverSeconds + elapsedMs / 1000;
  }

  /** Within the first second the page shows the text the server rendered. */
  lemma FirstSecondShowsServerText(loadMs: int, elapsedMs: nat, serverSeconds: nat)
    requires elapsedMs < 1000
    ensures UpdateUptime(PageStartTime(loadMs, serverSeconds), loadMs + elapsedMs) == RenderClock(ClockOf(serverSeconds))
  {
    var start, now := PageStartTime(loadMs, serverSeconds), loadMs + elapsedMs;
    CounterContinuesServer(loadMs, elapsedMs, serverSeconds);
    assert ClientSeconds(start, now) == serverSeconds;
  }

  // ---------------------------------------------------------------------
  // Memory

  /** `totalMem - freeMem`: used and free memory make up the total. */
  function UsedMemory(totalBytes: nat, freeBytes: nat): (used: int)
    ensures used + freeBytes == totalBytes
    ensures freeBytes <= totalBytes ==> 0 <= used <= totalBytes
  {
    totalBytes - freeBytes
  }
}

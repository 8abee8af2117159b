# FloraBot uptime monitor and supervisor, modelled in Dafny

FloraBot is a chat bot that is kept alive by a small self-healing layer:

- a launcher (`index.js`) spawns the bot as a child process, spawns it again whenever it exits with code 2, and stages the dashboard server and a background health monitor on timers;
- the health monitor (`uptime-monitor.js`) probes the bot's `/ping` route every five seconds. It keeps a shared statistics record, and it can fan a message out to the bot's owners, with a bounded retry;
- the dashboard server (`uptime.js`) samples memory and disk usage. At 95% it alerts the owners. At 97% it notifies them and exits its process with code 2. It also reports the machine's uptime and address, and relays the contact form to the owners;
- two small endpoints (`bot-uptime-endpoint.js`, `ping-endpoint.js`) render the process uptime as `HH:MM:SS` and as `{d}d {h}h {m}m`.

The model keeps each rule and leaves the I/O as inputs:

- a probe outcome, a per-owner send result or a retry attempt's result is a parameter;
- the `df` output and the network-interface list are parameters;
- the configuration file and the global API slots are parameters;
- a timer is recorded as the time at which it fires.

Files:

- `wrappers.dfy`: `Option`.
- `js_math.dfy`: JavaScript numbers (a real or NaN), `%` on reals, and the floor/modulo lemmas behind the uptime fields.
- `js_text.dfy`: the string built-ins the source relies on, each with the reader or writer that inverts it:
  - number to decimal text, `padStart`;
  - `parseInt`, `replace('%', '')`, `split(/\s+/)`;
  - template literals.
- `environment.dfy`: `config.json`, JavaScript truthiness, and the global slots holding the messaging API.
- `uptime_monitor.dfy`: `uptime-monitor.js`.
- `uptime.dfy`: `uptime.js`.
- `supervisor.dfy`: `index.js`.
- `bot_uptime_endpoint.dfy`: `bot-uptime-endpoint.js`.
- `ping_endpoint.dfy`: `ping-endpoint.js`.

Where the code does something other than its comments and log messages suggest, the model follows the code:

- **Retries.** `attemptNotificationWithRetry` retries while the retry count is below 5. Entered with count 0, it makes up to six attempts, not five in total (`UptimeMonitor.AlwaysFailingAttempts`). No caller of it appears in the code either.
- **Launcher exit.** After a child exits with a code other than 2, the launcher does not relaunch it. Nothing in `index.js` makes the launcher itself exit: the dashboard server it loaded keeps the process alive. The model records the stop and no exit.
- **Restart guard.** There is no `restartInProgress` flag. The restart path simply returns before the alert check, so one evaluation never does both, but nothing stops a later evaluation during the two-second grace period from starting a second restart.
- **Restart exit.** The launcher in `index.js` relaunches only its own `node Goat.js` child when that child closes with code 2. So the exit with code 2 restarts the bot only if `uptime.js` runs inside that child. The files modelled do not establish this, and `startUptime.js`, the other launcher of `uptime.js`, only logs the exit code. The model records the scheduled exit and does not connect it to the launcher.
- **Owner helpers.** The four owner helpers of `uptime.js` look only at `global.GoatBot.api`, and accept an empty `adminBot` list. The health monitor's dispatcher instead tries three API slots and refuses an empty list.

## Model

| member | source | states |
|---|---|---|
| Environment.Truthy | index.js:47 | JavaScript truthiness of a JSON value: `undefined`, `null`, `false`, `0` and `""` are falsy, everything else (objects and arrays included) is truthy; the same test guards the contact route at uptime.js:861 (its consequences are stated by `Supervisor.StartupTimeline` and `Uptime.ContactOwnerRoute`) |
| Environment.Printable | uptime.js:220-223 | whether `${v}` yields text: it throws only for an object whose own `toString` is not a function (the inherited `valueOf` then returns the object, not a primitive), or for an array holding such an object (its consequences are stated by `Uptime.HandleContactOwner`) |
| Environment.Owners | uptime.js:92-106 | the `config.adminBot` list the owner loops iterate; an unreadable `config.json` or a missing list gives no owners (its consequences are stated by `Uptime.FanOutReach` and `Uptime.Channel`) |
| UptimeMonitor.Record | uptime-monitor.js:96-123 | the update of the statistics record by one probe: the success branch or the `catch` branch, then the `finally` increment of the total (its properties are stated by `RecordStep`) |
| UptimeMonitor.InitialStats | uptime-monitor.js:10-20 | the zeroed record is consistent: total = successes + failures, the startup flag is clear, and the status is pending until the first probe |
| UptimeMonitor.RecordStep | uptime-monitor.js:86-125 | one probe adds exactly 1 to the total and to exactly one of the success/failure counters, never clears the startup flag, and keeps the record consistent |
| UptimeMonitor.ReplayFromStart | uptime-monitor.js:86-125 | from the initial record, after any sequence of probes: total = number of probes, successes = number answered, failures = the rest, the startup flag is set iff some probe succeeded, the last probe time is recorded, the last status is that of the last probe, and the record stays consistent |
| UptimeMonitor.CountersNeverDecrease | uptime-monitor.js:96-123 | along any sequence of probes the counters only grow, the total by exactly one per probe, and the startup flag is never reset |
| UptimeMonitor.StartupLoggedOnce | uptime-monitor.js:104-109 | the one-time "bot is healthy" log fires exactly once if any probe succeeds and never otherwise, however the probes flap |
| UptimeMonitor.UptimeStats.constructor | uptime-monitor.js:10-20 | the shared record starts as the zeroed, consistent record |
| UptimeMonitor.UptimeStats.CheckBotHealth | uptime-monitor.js:86-125 | on success: status success, bot online, error cleared; on failure: status failed, bot offline, error message stored; total +1 in both cases; the startup log fires only when the flag was clear; the record stays consistent |
| UptimeMonitor.ProbeTime | uptime-monitor.js:150-164 | the first probe runs exactly 2 s after the module loads, and each later one 5 s after the previous |
| UptimeMonitor.PingsExternalUrl | uptime-monitor.js:128-138 | the external keep-alive request is sent iff `BOT_URL` is set, non-empty and different from the built-in default |
| UptimeMonitor.FirstUsable | uptime-monitor.js:49-57 | picks the first slot holding an API with a `sendMessage` function, and none when no slot has one |
| UptimeMonitor.FindBotApi | uptime-monitor.js:49-62 | the dispatcher uses `GoatBot.api` if it can send, else `utils.api` if it can send, else `api` if it can send; the API found can send, and none is found iff no slot can send |
| UptimeMonitor.PacedTrace | uptime-monitor.js:64-74 | the steps of the owner loop: for each owner in order a send, and a one-second pause only after a delivered send (its properties are stated by `EveryOwnerTriedOnce`, `OnePausePerDelivery` and `PacingFollowsDelivery`) |
| UptimeMonitor.EveryOwnerTriedOnce | uptime-monitor.js:64-77 | every owner is sent to exactly once, in list order, whatever the replies: a failed send does not stop the loop |
| UptimeMonitor.OnePausePerDelivery | uptime-monitor.js:64-77 | there is one pacing pause per delivered send, and the deliveries never exceed the number of owners |
| UptimeMonitor.PacingFollowsDelivery | uptime-monitor.js:66-73 | the 1-second pacing pause comes right after each delivered send and never after a failed one |
| UptimeMonitor.SendNotificationToOwners | uptime-monitor.js:40-83 | returns false without sending when there is no readable config, no owner or no usable API; otherwise sends to each owner in order, counts the deliveries and returns `count > 0` |
| UptimeMonitor.RetryAttempts | uptime-monitor.js:23-37 | attempts stop at the first success; every earlier attempt failed; after a failure retries go on only while the retry count is below 5 |
| UptimeMonitor.AttemptNotificationWithRetry | uptime-monitor.js:23-37 | the retry loop makes exactly the attempts `RetryAttempts` describes, waits 10 s between attempts and reports the last attempt's result |
| UptimeMonitor.AlwaysFailingAttempts | uptime-monitor.js:24-31 | with sends that always fail, a call entered with retry count r ≤ 5 makes exactly 6 − r attempts |
| UptimeMonitor.StopsAtFirstSuccess | uptime-monitor.js:25-33 | when the first success comes within the limit, the attempts stop right there |
| JsMath.AtLeast | uptime.js:72-86 | JavaScript `>=` against a threshold: false for NaN, so an unreadable reading passes no threshold (its consequences are stated by `Uptime.Decide` and `Uptime.UnreadableDiskMeansMemoryOnly`) |
| Uptime.Decide | uptime.js:67-87 | restart iff memory ≥ 97 or disk ≥ 97, with exit code 2 after 2000 ms; alert iff not restarting and memory ≥ 95 or disk ≥ 95; NaN passes no threshold |
| Uptime.EscalationIsMonotone | uptime.js:72-86 | higher readings never lead to a milder action |
| Uptime.QuietBelowAlert | uptime.js:72-86 | with both readings below 95 there is neither alert nor restart |
| Uptime.EitherResourceSuffices | uptime.js:84-86 | either resource alone decides: the other one below 95 does not change the action |
| Uptime.PolicyExamples | uptime.js:67-87 | 94.9/10 gives nothing, 95/10 an alert, 97/10 a restart with code 2 after 2000 ms, 20/96 an alert, and NaN/NaN nothing |
| Uptime.Channel | uptime.js:93-95 | the helpers send only through `global.GoatBot.api`, and only when `config.json` is readable and has an `adminBot` entry; no other API slot is tried |
| Uptime.Deliveries | uptime.js:105-112 | the per-owner sends of the loop: one send per owner |
| Uptime.DeliveriesInOrder | uptime.js:105-112 | each owner is tried exactly once, in list order; a send is delivered iff the API can send and that owner's send succeeded; a failure does not stop the loop |
| Uptime.FanOut | uptime.js:90-119 | what a helper sends: nothing without a channel, otherwise one send per owner |
| Uptime.FanOutReach | uptime.js:90-119 | with no `GoatBot.api`, no `adminBot` or an unreadable config nothing is sent; otherwise every owner gets the notice once, in order |
| Uptime.SendToEachOwner | uptime.js:106-112 | the per-owner loop with its try/catch produces the in-order deliveries |
| Uptime.NotifyOwners | uptime.js:91-118 | the send loop is reached iff the channel exists, and the sends are the fan-out of the notice |
| Uptime.SendAlertToOwners | uptime.js:90-119 | sends the system alert, carrying both readings, to the owners as the fan-out describes |
| Uptime.SendRestartNotification | uptime.js:170-201 | sends the automatic-restart notice, carrying both readings, as the fan-out describes, and swallows every failure |
| Uptime.HandleContactOwner | uptime.js:213-243 | returns true iff the send loop is reached, whatever the per-owner results: there is a channel and name, email and message can all be turned into text; sends the contact message as the fan-out describes, and nothing when a field cannot be turned into text (the template at line 221 throws into the catch at 239-241) |
| Uptime.SendVisitorInfoToOwners | uptime.js:122-167 | returns true iff the send loop is reached; sends the visitor notice as the fan-out describes |
| Uptime.CheckSystemAlerts | uptime.js:67-87 | on the restart path the exit (code 2, 2000 ms) is scheduled whatever the notification did, and no alert is sent; otherwise an alert is sent exactly when the policy says so, and nothing below 95 |
| Uptime.ReadDisk | uptime.js:16-28 | a failed `df`, or a line with fewer than five fields, reads as 0% and "N/A"; a parsed percentage is a whole number or NaN |
| Uptime.DfLineReading | uptime.js:21-24 | a six-field `df` line, its columns padded with blank runs of any widths, reads back as its use% value (first '%' removed, parsed as an integer) and its used-space field |
| Uptime.WrappedDfLineReading | uptime.js:21-24 | a `df` line that starts with blanks because the filesystem name was wrapped onto the line before still reads back as its use% value and used-space field, shifted by the leading empty field |
| Uptime.UsePercentField | uptime.js:23 | a use% field `"<n>%"` reads as n after `replace('%', '')` and `parseInt` |
| Uptime.ShortDfLine | uptime.js:19-28 | a line too short to have field 4 reads as 0% and "N/A" |
| Uptime.UnreadableDiskMeansMemoryOnly | uptime.js:17-31 | when the disk cannot be read, the alert policy acts on memory alone |
| Uptime.IsExternalIPv4 | uptime.js:39 | `net.family === 'IPv4' && !net.internal`: only the string "IPv4" matches, so a numeric family 4 does not (its consequences are stated by `Uptime.FirstExternalIsFirst` and `Uptime.SelectedAddressCases`) |
| Uptime.FirstExternal | uptime.js:38-43 | the entry found is a non-internal IPv4 entry of the interface |
| Uptime.FirstExternalIsFirst | uptime.js:38-43 | it is the first such entry, and none is found iff the interface has none |
| Uptime.LastWithExternal | uptime.js:37-44 | the interface found has a non-internal IPv4 entry |
| Uptime.LastWithExternalIsLast | uptime.js:37-44 | no later interface has one, and none is found iff no interface has one |
| Uptime.SelectedAddress | uptime.js:35-44 | the reported address: "N/A" when no interface has a non-internal IPv4 entry, otherwise the first such entry of the last interface that has one (its properties are stated by `SelectedAddressCases`) |
| Uptime.SelectIpAddress | uptime.js:35-44 | the nested loop, where `break` leaves only the inner loop, returns the first external IPv4 address of the last interface that has one, else "N/A" |
| Uptime.SelectedAddressCases | uptime.js:35-44 | the result is "N/A" when no interface has an external IPv4 entry, and otherwise is the address of such an entry |
| Uptime.ContactOwnerRoute | uptime.js:858-876 | 400 with no sends when name, email or message is falsy; otherwise the handler's sends, then 200 iff there is a channel and every field can be turned into text, and 500 with no sends otherwise |
| Uptime.UptimeFields | uptime.js:203-208 | hours < 24, minutes < 60, secs < 60, and days·86400 + hours·3600 + minutes·60 + secs = floor(seconds) |
| Uptime.FormatUptime | uptime.js:203-210 | the `{d}d {h}h {m}m {s}s` text reads back as the four fields, which recompose floor(seconds) |
| Uptime.GetSystemInfo | uptime.js:9-64 | the reply carries the disk reading, the formatted uptime and the selected address; the alert policy runs on memory and the parsed disk percentage on every call: the restart notice goes out and the exit (code 2 after 2000 ms) is scheduled iff it says restart, the alert goes out iff it says alert, and nothing is sent otherwise |
| Supervisor.RequestsRestart | index.js:31 | `code == 2`: true only for an exit with code 2, false for any other code and for the `null` of a signalled child (its consequences are stated by `Supervisor.Launcher.OnClose` and `Supervisor.SpawnCount`) |
| Supervisor.Run | index.js:23-36 | the state of the launcher after a sequence of close codes: between 1 and one more than the number of codes spawns, and stopped only after some close |
| Supervisor.LeadingRestarts | index.js:23-36 | the leading run of restart requests is no longer than the sequence of close codes |
| Supervisor.LeadingRestartsAppend | index.js:23-36 | how the leading run of restart requests behaves when codes are appended |
| Supervisor.SpawnCount | index.js:23-36 | over any sequence of close codes the bot is spawned 1 + (leading run of code-2 closes) times; it is still running iff every close so far was code 2 |
| Supervisor.StopIsFinal | index.js:30-35 | after a close with a code other than 2 nothing more happens |
| Supervisor.Launcher.constructor | index.js:23-28 | `startProject` spawns `node Goat.js` once and is running |
| Supervisor.Launcher.OnClose | index.js:30-35 | code 2 spawns exactly one new child of the same command; any other code, or a signal (`null`), spawns none and stops |
| Supervisor.Supervise | index.js:23-36 | the launcher driven by a sequence of close events ends in the state `Run` gives, with every spawn running `node Goat.js` |
| Supervisor.MonitorEnabled | index.js:44-47 | the monitor is started only when `config.json` can be read and `uptimeMonitor.enable` is truthy (its consequences are stated by `StartupTimeline`) |
| Supervisor.StartupTimeline | index.js:44-85 | the stages happen in time order; the monitor is loaded, and probes, iff `config.uptimeMonitor.enable` is truthy in a readable config; the dashboard loads before the first probe |
| Supervisor.ProbesFollowDashboard | index.js:64-85 | every health probe of the monitor comes after the dashboard server was loaded |
| Supervisor.StartupExamples | index.js:60-85 | with monitoring enabled: spawn at 0, dashboard at 8 s, services at 12 s, config check at 14 s, notification at 15 s, monitor at 19 s, first probe at 21 s |
| BotUptimeEndpoint.ServerSeconds | bot-uptime-endpoint.js:67 | the whole seconds of the process uptime, at most one second short of it |
| BotUptimeEndpoint.ClockOf | bot-uptime-endpoint.js:67-70 | minutes < 60, seconds < 60, hours·3600 + minutes·60 + seconds = s, and hours reach 24 and beyond (no wrap) iff s ≥ 86400 |
| BotUptimeEndpoint.ClockIsUnique | bot-uptime-endpoint.js:67-70 | the fields are the only ones with minutes and seconds below 60 that add up to s |
| BotUptimeEndpoint.RenderClock | bot-uptime-endpoint.js:376 | the fields rendered with `padStart(2, '0')` and joined by ':' (its properties are stated by `RenderClockReadsBack`) |
| BotUptimeEndpoint.RenderClockReadsBack | bot-uptime-endpoint.js:376 | the zero-padded `HH:MM:SS` text reads back as the three fields |
| BotUptimeEndpoint.DashboardUptime | bot-uptime-endpoint.js:67-70 | the clock the `/` page is rendered with, from the floored process uptime |
| BotUptimeEndpoint.DashboardShowsUptime | bot-uptime-endpoint.js:67-70 | the page's clock reads back as fields that add up to the whole seconds of the process uptime, within one second of it |
| BotUptimeEndpoint.PageStartTime | bot-uptime-endpoint.js:472 | `startTime`: the page's clock at load less the server's uptime in milliseconds (its consequences are stated by `CounterContinuesServer` and `FirstSecondShowsServerText`) |
| BotUptimeEndpoint.ClientSeconds | bot-uptime-endpoint.js:476-477 | `Math.floor((now - startTime) / 1000)`: the whole seconds elapsed, within one second of the elapsed milliseconds |
| BotUptimeEndpoint.UpdateUptime | bot-uptime-endpoint.js:472-487 | what the page's `updateUptime` writes, from the milliseconds since the computed start time |
| BotUptimeEndpoint.CounterShowsElapsed | bot-uptime-endpoint.js:472-487 | the counter reads back as fields that add up to the whole seconds elapsed since the start time, within one second of it |
| BotUptimeEndpoint.ClockFieldsArePadded | bot-uptime-endpoint.js:376 | every field is at least two characters wide, and its digits are kept whole behind the padding |
| BotUptimeEndpoint.DashboardExample | bot-uptime-endpoint.js:67-70 | 90061 s is 25:01:01, 59 s is 00:00:59, and 3600 s is 01:00:00 |
| BotUptimeEndpoint.CounterContinuesServer | bot-uptime-endpoint.js:472-487 | the page's counter shows the server's seconds plus the whole seconds elapsed since the page loaded |
| BotUptimeEndpoint.FirstSecondShowsServerText | bot-uptime-endpoint.js:472-487 | within the first second after loading, the counter shows the same text as the server rendered |
| BotUptimeEndpoint.UsedMemory | bot-uptime-endpoint.js:10-13 | used + free = total, and 0 ≤ used ≤ total when free ≤ total |
| PingEndpoint.SpanOf | ping-endpoint.js:7-10 | hours < 24, minutes < 60, and days·86400 + hours·3600 + minutes·60 ≤ uptime < that + 60 (seconds are dropped) |
| PingEndpoint.RenderSpan | ping-endpoint.js:15 | the `{d}d {h}h {m}m` text reads back as the three fields |
| PingEndpoint.Ping | ping-endpoint.js:6-23 | the reply's status is "ok", its service is "flora-bot" and its version is "1.5.35"; it carries the raw uptime and the timestamp; its uptime text reads back as whole days, hours and minutes that do not exceed the uptime |
| PingEndpoint.PingExamples | ping-endpoint.js:7-10 | 90061.5 s gives 1 d 1 h 1 m, and 59.9 s gives 0 d 0 h 0 m |
| JsMath.Trunc | uptime.js:204-207 | `Math.trunc`: the whole number within 1 of x on the side of 0, the integer part JavaScript's `%` works with |
| JsMath.Rem | uptime.js:205-207 | JavaScript's `%`: the remainder has the sign of the dividend and is smaller than the divisor in magnitude |
| JsMath.FloorOfQuotient | uptime.js:204 | `Math.floor(x / n)` of a non-negative x is the integer quotient of floor(x) |
| JsMath.FloorOfRemainder | uptime.js:207 | `x % n` of a non-negative x is non-negative, and its floor is floor(x) mod n |
| JsMath.FloorOfRemainderQuotient | uptime.js:205-206 | `Math.floor((x % m) / n)` is (floor(x) mod m) div n |
| JsMath.SplitSeconds | uptime.js:203-208 | the day/hour/minute/second fields of a whole number of seconds are each below their modulus and recompose it |
| JsMath.FlooredDayFields | ping-endpoint.js:7-10 | the floored JavaScript fields of a non-negative uptime equal the integer fields of its floor |
| JsText.NatToString | uptime.js:209 | a number's decimal text is non-empty digits, with a leading '0' only for 0 |
| JsText.NatToStringValue | uptime.js:209 | reading the decimal text back gives the number |
| JsText.NatToStringInjective | uptime.js:209 | different numbers have different texts |
| JsText.PadStart | bot-uptime-endpoint.js:376 | `padStart` fills with the pad on the left up to the width, never truncates, and keeps the text as a suffix |
| JsText.ZeroPaddingValue | bot-uptime-endpoint.js:376 | zero padding keeps a digit string's value |
| JsText.DigitRun | uptime.js:23 | the longest prefix of digits |
| JsText.DigitRunOf | uptime.js:23 | a digit string followed by a non-digit is read up to the non-digit |
| JsText.SkipWhitespaceRun | uptime.js:22-23 | `parseInt` and `split` skip exactly a leading run of white space |
| JsText.ParseInt | uptime.js:23 | `parseInt` gives a whole number, or NaN exactly when nothing can be read after the white space and the optional sign: no decimal digit there, or, after a `0x`/`0X` prefix, no hexadecimal digit |
| JsText.ParseIntOfNat | uptime.js:23 | `parseInt` reads back a decimal rendering followed by a non-digit |
| JsText.RemoveFirst | uptime.js:23 | `replace('%', '')` with a one-character pattern removes only the first occurrence (its properties are stated by `RemoveFirstLength` and `RemoveFirstOccurrence`) |
| JsText.RemoveFirstLength | uptime.js:23 | `replace('%', '')` leaves text without '%' unchanged and otherwise removes one character |
| JsText.RemoveFirstOccurrence | uptime.js:23 | the character removed is the first '%' |
| JsText.SplitOnWhitespace | uptime.js:22 | `split(/\s+/)`: the fields between maximal runs of white space, with an empty first or last field for a run at the start or end (its properties are stated by `SplitFrom`, `SplitJoinedLine` and `LeadingBlanksSplit`) |
| JsText.SplitFrom | uptime.js:22 | `split(/\s+/)` yields at least one field, and no field contains white space |
| JsText.SplitJoinedLine | uptime.js:22 | a line of fields separated by blank runs of any widths and ending in a newline splits into those fields plus a trailing empty one |
| JsText.LeadingBlanksSplit | uptime.js:22 | blanks in front of a line add one empty first field |
| JsText.Template | uptime.js:209 | a template literal of numbers, each padded with '0' to a width and followed by its suffix (its partner is `ReadTemplate`, and `TemplateRoundTrip` relates them) |
| JsText.TemplateRoundTrip | uptime.js:209 | every rendering of numbers with separating suffixes can be read back into the numbers |

## Left out

- The HTML, CSS and browser scripts of both dashboards are left out. Only the uptime arithmetic of the page's `updateUptime` is modelled.
- Express routing and `app.listen` are left out, along with the other routes (`/ping` of `uptime.js`, `/health`, `/uptime`, `/api/system`). They only echo raw values.
- The visitor route's own body is left out: header parsing and the ip-api geolocation lookup. Only the helper it calls is modelled.
- All HTTP calls are inputs: the health probe, the external keep-alive ping, and the per-owner `sendMessage` calls.
- `df`, the `os.*` reads, `process.uptime()`, `Date.now()` and `spawn` are inputs or recorded events.
- `startUptime.js` is not part of this model. It is process plumbing: spawning a child and forwarding signals to it.
- Timers are modelled as sequential steps, or as recorded delays and firing times. Overlapping probes, and alerts running concurrently with the system-info reply, are not modelled.
- The floating-point memory percentage and the `toFixed` / `parseFloat` / `Math.round` conversions are left out. The memory percentage enters the policy as a given number.
- All uptime arithmetic (`Math.floor`, `/` and `%` in `formatUptime`, `/ping` and the dashboards) is done on exact reals, not on binary doubles. Rounding of a double near a field boundary is not modelled.
- Uptime.CheckSystemAlerts: assumes every `await api.sendMessage(...)` settles, by delivering or by failing, because the model's per-owner replies are booleans. A send that never settles would keep `sendRestartNotification` from returning, and the exit scheduled at uptime.js:77 would never be reached; the model always schedules it on the restart path.
- Uptime.GetSystemInfo: makes the same assumption about sends, for the same reason.
- Message texts, `toLocaleString`, `hostname`, console logging, the module-level configuration log and the signal handlers are left out. A notice records only which helper sent it and the values it carries.
- A close event is only possible while a child is running. Close codes that arrive after the launcher stopped are ignored.
- JsText.ParseInt: only `parseInt` without a radix is modelled. Numbers above 1e21 are not given exponent notation. Digits are read exactly, without rounding to a double.
- JsText.PadStart: only a one-character pad is modelled, which is all the source uses.
- BotUptimeEndpoint.UpdateUptime: modelled only for a page clock that does not run backwards past the page's start time, where JavaScript would produce negative fields.
- PingEndpoint.Ping: the `memory` object of the reply (rounded heap sizes) is left out.
- Uptime.GetSystemInfo: only the fields computed from the core's rules are modelled. The host name, platform, CPU count, memory strings, load average and timestamp are left out.
- Interface entries whose `family` is the number 4, which some Node versions report, are treated as not IPv4: only the string "IPv4" matches, as in the source.

/** The dashboard server's rules (`uptime.js`): the two-tier resource policy
    that alerts the owners at 95% and restarts the bot at 97%, the owner
    fan-out shared by its four notification helpers, the reading of the
    `df` line, the choice of the IPv4 address, the validation of the contact
    form and the rendering of the machine's uptime. Every OS read, command
    output and per-owner send result is an input. */
module Uptime {
  import opened Wrappers
  import opened JsMath
  import opened JsText
  import opened Environment

  const AlertThreshold: real := 95.0
  const RestartThreshold: real := 97.0
  /** The exit code `process.exit` is called with on the restart path; it is also the close code on which the launcher relaunches its `Goat.js` child. */
  const RestartExitCode: int := 2
  /** How long the restart path waits before exiting, in milliseconds. */
  const RestartGraceMs: nat := 2000

  // ---------------------------------------------------------------------
  // The resource policy

  datatype Action = NoAction | Alert | Restart(exitCode: int, graceMs: nat)

  /** What one reading of memory and disk usage (in percent) leads to. A
      value that is not a number (a failed `parseInt`) passes no threshold. */
  function Decide(memory: Number, disk: Number): (a: Action)
    ensures a.Restart? <==> AtLeast(memory, RestartThreshold) || AtLeast(disk, RestartThreshold)
    ensures a.Alert? <==> !a.Restart? && (AtLeast(memory, AlertThreshold) || AtLeast(disk, AlertThreshold))
    ensures a.Restart? ==> a == Restart(RestartExitCode, RestartGraceMs)
  {
    if AtLeast(memory, RestartThreshold) || AtLeast(disk, RestartThreshold) then
      Restart(RestartExitCode, RestartGraceMs)
    else if AtLeast(memory, AlertThreshold) || AtLeast(disk, AlertThreshold) then
      Alert
    else
      NoAction
  }

  function Severity(a: Action): nat
  {
    match a
    case NoAction => 0
    case Alert => 1
    case Restart(_, _) => 2
  }

  /** `a` passes every threshold that `b` passes. */
  predicate NoLower(a: Number, b: Number)
  {
    b.NaN? || (a.Finite? && a.value >= b.value)
  }

  /** Higher usage never leads to a milder action. */
  lemma EscalationIsMonotone(memory: Number, disk: Number, memory': Number, disk': Number)
    requires NoLower(memory', memory) && NoLower(disk', disk)
    ensures Severity(Decide(memory, disk)) <= Severity(Decide(memory', disk'))
  {
  }

  /** With both readings below 95%, nothing happens. */
  lemma QuietBelowAlert(memory: Number, disk: Number)
    requires !AtLeast(memory, AlertThreshold) && !AtLeast(disk, AlertThreshold)
    ensures Decide(memory, disk) == NoAction
  {
  }

  /** Either resource alone is enough: the decision is the one for the
      higher reading with the other resource idle. */
  lemma EitherResourceSuffices(memory: Number, disk: Number)
    ensures !AtLeast(disk, AlertThreshold) ==> Decide(memory, disk) == Decide(memory, NaN)
    ensures !AtLeast(memory, AlertThreshold) ==> Decide(memory, disk) == Decide(NaN, disk)
  {
  }

  lemma PolicyExamples()
    ensures Decide(Finite(94.9), Finite(10.0)) == NoAction
    ensures Decide(Finite(95.0), Finite(10.0)) == Alert
    ensures Decide(Finite(96.99), Finite(96.99)) == Alert
    ensures Decide(Finite(97.0), Finite(10.0)) == Restart(2, 2000)
    ensures Decide(Finite(20.0), Finite(96.0)) == Alert
    ensures Decide(Finite(20.0), Finite(97.0)) == Restart(2, 2000)
    ensures Decide(NaN, NaN) == NoAction
  {
  }

  // ---------------------------------------------------------------------
  // The owner fan-out

  /** The message each helper sends; the text itself is not modelled, only
      which helper sent it and the values it carries. */
  datatype Notice =
    | SystemAlert(memory: Number, disk: Number)
    | AutomaticRestart(memory: Number, disk: Number)
    | ContactMessage(name: JsonValue, email: JsonValue, message: JsonValue)
    | VisitorInfo(ip: string)

  /** One attempted send: to whom, what, and whether it got through. */
  datatype Delivery = Delivery(owner: string, notice: Notice, delivered: bool)

  /** The API the helpers send through: `global.GoatBot.api`, provided
      `config.json` can be read and has an `adminBot` entry (an empty list is
      truthy and passes). Unlike the health monitor, no other slot is tried. */
  function Channel(file: ConfigFile, globals: Globals): (channel: Option<Api>)
    ensures channel.Some? ==> channel == globals.goatBotApi && file.Loaded? && file.config.adminBot.Some?
    ensures channel.None? ==> file.Unreadable? || file.config.adminBot.None? || globals.goatBotApi.None?
  {
    if file.Loaded? && file.config.adminBot.Some? then globals.goatBotApi else None
  }

  /** The sends of the loop over `owners`, in order. A send goes through when
      the API's `sendMessage` is a function and the reply for that owner is a
      success; a failing send is caught and the loop goes on. */
  function Deliveries(api: Api, owners: seq<string>, notice: Notice, replies: seq<bool>): (log: seq<Delivery>)
    requires |replies| == |owners|
    ensures |log| == |owners|
  {
    if owners == [] then []
    else
      var n := |owners| - 1;
      Deliveries(api, owners[..n], notice, replies[..n]) + [Delivery(owners[n], notice, api.canSend && replies[n])]
  }

  /** Every owner is tried exactly once, in list order, whatever the other
      sends did. */
  lemma {:induction false} DeliveriesInOrder(api: Api, owners: seq<string>, notice: Notice, replies: seq<bool>)
    requires |replies| == |owners|
    ensures |Deliveries(api, owners, notice, replies)| == |owners|
    ensures forall i :: 0 <= i < |owners| ==>
      Deliveries(api, owners, notice, replies)[i] == Delivery(owners[i], notice, api.canSend && replies[i])
  {
    if owners != [] {
      var n := |owners| - 1;
      DeliveriesInOrder(api, owners[..n], notice, replies[..n]);
    }
  }

  /** What a helper sends for `notice`, with `replies` the outcome of each
      owner's send. */
  function FanOut(file: ConfigFile, globals: Globals, notice: Notice, replies: seq<bool>): (log: seq<Delivery>)
    requires |replies| == |Owners(file)|
    ensures Channel(file, globals).None? ==> log == []
    ensures Channel(file, globals).Some? ==> |log| == |Owners(file)|
  {
    match Channel(file, globals)
    case None => []
    case Some(api) => Deliveries(api, Owners(file), notice, replies)
  }

  /** No API, no `adminBot` or an unreadable `config.json`: nothing is sent.
      Otherwise every owner is tried once, in order. */
  lemma FanOutReach(file: ConfigFile, globals: Globals, notice: Notice, replies: seq<bool>)
    requires |replies| == |Owners(file)|
    ensures file.Unreadable? || globals.goatBotApi.None? || file.config.adminBot.None? ==>
      FanOut(file, globals, notice, replies) == []
    ensures Channel(file, globals).Some? ==>
      |FanOut(file, globals, notice, replies)| == |Owners(file)| &&
      forall i :: 0 <= i < |Owners(file)| ==>
        FanOut(file, globals, notice, replies)[i].owner == Owners(file)[i] &&
        FanOut(file, globals, notice, replies)[i].notice == notice
  {
    if Channel(file, globals).Some? {
      DeliveriesInOrder(Channel(file, globals).value, Owners(file), notice, replies);
    }
  }

  /** The `for ... of config.adminBot` loop with its per-owner try/catch. */
  method SendToEachOwner(api: Api, owners: seq<string>, notice: Notice, replies: seq<bool>) returns (log: seq<Delivery>)
    requires |replies| == |owners|
    ensures log == Deliveries(api, owners, notice, replies)
  {
    log := [];
    var i := 0;
    while i < |owners|
      invariant 0 <= i <= |owners|
      invariant log == Deliveries(api, owners[..i], notice, replies[..i])
    {
      log := log + [Delivery(owners[i], notice, api.canSend && replies[i])];
      assert owners[..i + 1][..i] == owners[..i];
      assert replies[..i + 1][..i] == replies[..i];
      i := i + 1;
    }
    assert owners[..i] == owners && replies[..i] == replies;
  }

  /** The body the four helpers share: returns whether the send loop was
      reached, and the sends made. */
  method NotifyOwners(file: ConfigFile, globals: Globals, notice: Notice, replies: seq<bool>) returns (reached: bool, log: seq<Delivery>)
    requires |replies| == |Owners(file)|
    ensures reached <==> Channel(file, globals).Some?
    ensures log == FanOut(file, globals, notice, replies)
  {
    var channel := Channel(file, globals);
    if channel.None? {
      return false, [];
    }
    log := SendToEachOwner(channel.value, Owners(file), notice, replies);
    reached := true;
  }

  method SendAlertToOwners(file: ConfigFile, globals: Globals, memory: Number, disk: Number, replies: seq<bool>) returns (log: seq<Delivery>)
    requires |replies| == |Owners(file)|
    ensures log == FanOut(file, globals, SystemAlert(memory, disk), replies)
  {
    var _, l := NotifyOwners(file, globals, SystemAlert(memory, disk), replies);
    log := l;
  }

  method SendRestartNotification(file: ConfigFile, globals: Globals, memory: Number, disk: Number, replies: seq<bool>) returns (log: seq<Delivery>)
    requires |replies| == |Owners(file)|
    ensures log == FanOut(file, globals, AutomaticRestart(memory, disk), replies)
  {
    var _, l := NotifyOwners(file, globals, AutomaticRestart(memory, disk), replies);
    log := l;
  }

  /** Returns true whenever the send loop is reached, even if every send
      failed; false when there is no API, no owner list or no readable
      configuration, and false with no sends when a field cannot be turned
      into text, because building the message then throws into the outer
      `catch`. */
  method HandleContactOwner(file: ConfigFile, globals: Globals, name: JsonValue, email: JsonValue, message: JsonValue, replies: seq<bool>)
    returns (ok: bool, log: seq<Delivery>)
    requires |replies| == |Owners(file)|
    ensures ok <==> Channel(file, globals).Some? && Printable(name) && Printable(email) && Printable(message)
    ensures Printable(name) && Printable(email) && Printable(message) ==>
      log == FanOut(file, globals, ContactMessage(name, email, message), replies)
    ensures !(Printable(name) && Printable(email) && Printable(message)) ==> log == []
  {
    if Channel(file, globals).None? {
      return false, [];
    }
    if !Printable(name) || !Printable(email) || !Printable(message) {
      return false, [];
    }
    ok, log := NotifyOwners(file, globals, ContactMessage(name, email, message), replies);
  }

  method SendVisitorInfoToOwners(file: ConfigFile, globals: Globals, ip: string, replies: seq<bool>)
    returns (ok: bool, log: seq<Delivery>)
    requires |replies| == |Owners(file)|
    ensures ok <==> Channel(file, globals).Some?
    ensures log == FanOut(file, globals, VisitorInfo(ip), replies)
  {
    ok, log := NotifyOwners(file, globals, VisitorInfo(ip), replies);
  }

  // ---------------------------------------------------------------------
  // Acting on the policy

  /** The delayed `process.exit` the restart path leaves behind. */
  datatype ScheduledExit = ScheduledExit(code: int, afterMs: nat)

  /** The restart path notifies the owners and schedules the exit, whatever
      the notification did, and never sends the alert; the alert path sends
      the alert; below both thresholds nothing is sent. */
  method CheckSystemAlerts(file: ConfigFile, globals: Globals, memory: Number, disk: Number, replies: seq<bool>)
    returns (log: seq<Delivery>, exit: Option<ScheduledExit>)
    requires |replies| == |Owners(file)|
    ensures exit.Some? <==> AtLeast(memory, RestartThreshold) || AtLeast(disk, RestartThreshold)
    ensures exit.Some? ==> exit.value == ScheduledExit(RestartExitCode, RestartGraceMs)
    ensures exit.Some? ==> log == FanOut(file, globals, AutomaticRestart(memory, disk), replies)
    ensures exit.None? ==> log == (if Decide(memory, disk).Alert? then FanOut(file, globals, SystemAlert(memory, disk), replies) else [])
    ensures forall d :: d in log ==> !d.notice.SystemAlert? || Decide(memory, disk).Alert?
  {
    var action := Decide(memory, disk);
    if action.Restart? {
      log := SendRestartNotification(file, globals, memory, disk, replies);
      exit := Some(ScheduledExit(action.exitCode, action.graceMs));
      FanOutReach(file, globals, AutomaticRestart(memory, disk), replies);
      return;
    }
    exit := None;
    if action.Alert? {
      log := SendAlertToOwners(file, globals, memory, disk, replies);
    } else {
      log := [];
    }
  }

  // ---------------------------------------------------------------------
  // The disk reading

  /** The used space and percentage read from the last line of `df -h /`. */
  datatype DiskReading = DiskReading(percent: Number, usage: string)

  /** Field 2 is the used space; field 4, with its first '%' removed, is
      parsed as the percentage. A failed command (None), or a line with
      fewer than five fields (reading field 4 throws), gives 0 and "N/A". */
  function ReadDisk(dfOutput: Option<string>): (r: DiskReading)
    ensures dfOutput.None? ==> r == DiskReading(Finite(0.0), "N/A")
    ensures r.percent.Finite? ==> r.percent.value == (r.percent.value.Floor as real)
  {
    match dfOutput
    case None => DiskReading(Finite(0.0), "N/A")
    case Some(line) =>
      var fields := SplitOnWhitespace(line);
      if |fields| < 5 then DiskReading(Finite(0.0), "N/A")
      else DiskReading(ParseInt(RemoveFirst(fields[4], '%')), fields[2])
  }

  /** The use% field `"<n>%"` reads as `n`. */
  lemma UsePercentField(percent: nat)
    ensures ParseInt(RemoveFirst(NatToString(percent) + "%", '%')) == Finite(percent as real)
  {
    var digits := NatToString(percent);
    assert '%' !in digits;
    RemoveFirstOccurrence(digits, '%', []);
    assert digits + ['%'] + [] == digits + "%";
    assert digits + [] == digits;
    ParseIntOfNat(percent, []);
  }

  /** A `df` line of six fields (filesystem, size, used, available, use%,
      mount point) separated by blank runs of any widths is read as its use%
      and used fields. */
  lemma DfLineReading(fields: seq<string>, seps: seq<string>, percent: nat)
    requires |fields| == 6 && |seps| == 5 && Gaps(seps)
    requires forall i :: 0 <= i < 6 ==> fields[i] != [] && NoWhitespace(fields[i])
    requires fields[4] == NatToString(percent) + "%"
    ensures ReadDisk(Some(Join(fields, seps) + "\n")) == DiskReading(Finite(percent as real), fields[2])
  {
    SplitJoinedLine(fields, seps);
    var split := SplitOnWhitespace(Join(fields, seps) + "\n");
    assert split == fields + [""];
    assert split[4] == fields[4] && split[2] == fields[2];
    UsePercentField(percent);
  }

  /** When a long filesystem name pushes the numbers onto a line of their
      own, that line starts with blanks; the empty field this leaves in front
      shifts the five remaining columns so that field 4 is still the use% and
      field 2 the used space. */
  lemma WrappedDfLineReading(lead: string, fields: seq<string>, seps: seq<string>, percent: nat)
    requires lead != [] && AllWhitespace(lead)
    requires |fields| == 5 && |seps| == 4 && Gaps(seps)
    requires forall i :: 0 <= i < 5 ==> fields[i] != [] && NoWhitespace(fields[i])
    requires fields[3] == NatToString(percent) + "%"
    ensures ReadDisk(Some(lead + Join(fields, seps) + "\n")) == DiskReading(Finite(percent as real), fields[1])
  {
    var line := Join(fields, seps) + "\n";
    assert lead + Join(fields, seps) + "\n" == lead + line;
    assert line[0] == fields[0][0];
    LeadingBlanksSplit(lead, line);
    SplitJoinedLine(fields, seps);
    var split := SplitOnWhitespace(lead + line);
    assert split == [""] + (fields + [""]);
    assert split[4] == fields[3] && split[2] == fields[1];
    UsePercentField(percent);
  }

  /** A `df` line too short to hold a use% field reads as 0 and "N/A". */
  lemma ShortDfLine(line: string)
    requires |SplitOnWhitespace(line)| < 5
    ensures ReadDisk(Some(line)) == DiskReading(Finite(0.0), "N/A")
  {
  }

  /** When the disk cannot be read, the policy acts on memory alone. */
  lemma UnreadableDiskMeansMemoryOnly(memory: Number, dfOutput: Option<string>)
    requires dfOutput.None? || |SplitOnWhitespace(dfOutput.value)| < 5
    ensures Decide(memory, ReadDisk(dfOutput).percent) == Decide(memory, NaN)
  {
  }

  // ---------------------------------------------------------------------
  // The IPv4 address

  /** One address of a network interface, as `os.networkInterfaces()` lists it. */
  datatype NetEntry = NetEntry(family: string, internal: bool, address: string)
  datatype NetworkInterface = NetworkInterface(name: string, entries: seq<NetEntry>)

  predicate IsExternalIPv4(e: NetEntry)
  {
    e.family == "IPv4" && !e.internal
  }

  /** The position of the first external IPv4 entry. */
  function FirstExternal(entries: seq<NetEntry>): (k: Option<nat>)
    ensures k.Some? ==> k.value < |entries| && IsExternalIPv4(entries[k.value])
  {
    if entries == [] then None
    else if IsExternalIPv4(entries[0]) then Some(0)
    else match FirstExternal(entries[1..])
      case None => None
      case Some(k) => Some(k + 1)
  }

  /** The entry found is the first external IPv4 entry, and none is found
      exactly when there is none. */
  lemma {:induction false} FirstExternalIsFirst(entries: seq<NetEntry>)
    ensures FirstExternal(entries).None? <==> forall j :: 0 <= j < |entries| ==> !IsExternalIPv4(entries[j])
    ensures FirstExternal(entries).Some? ==> forall j :: 0 <= j < FirstExternal(entries).value ==> !IsExternalIPv4(entries[j])
  {
    if entries != [] && !IsExternalIPv4(entries[0]) {
      var rest := entries[1..];
      FirstExternalIsFirst(rest);
      assert forall j :: 1 <= j < |entries| ==> entries[j] == rest[j - 1];
    }
  }

  /** The position of the last interface that has an external IPv4 entry. */
  function LastWithExternal(interfaces: seq<NetworkInterface>): (i: Option<nat>)
    ensures i.Some? ==> i.value < |interfaces| && FirstExternal(interfaces[i.value].entries).Some?
  {
    if interfaces == [] then None
    else
      var n := |interfaces| - 1;
      if FirstExternal(interfaces[n].entries).Some? then Some(n)
      else LastWithExternal(interfaces[..n])
  }

  /** The interface found is the last one with an external IPv4 entry, and
      none is found exactly when no interface has one. */
  lemma {:induction false} LastWithExternalIsLast(interfaces: seq<NetworkInterface>)
    ensures LastWithExternal(interfaces).None? ==>
      forall j :: 0 <= j < |interfaces| ==> FirstExternal(interfaces[j].entries).None?
    ensures (forall j :: 0 <= j < |interfaces| ==> FirstExternal(interfaces[j].entries).None?) ==>
      LastWithExternal(interfaces).None?
    ensures LastWithExternal(interfaces).Some? ==>
      forall j :: LastWithExternal(interfaces).value < j < |interfaces| ==> FirstExternal(interfaces[j].entries).None?
  {
    if interfaces != [] {
      var n := |interfaces| - 1;
      if FirstExternal(interfaces[n].entries).None? {
        var earlier := interfaces[..n];
        assert LastWithExternal(interfaces) == LastWithExternal(earlier);
        LastWithExternalIsLast(earlier);
        forall j | 0 <= j < n
          ensures interfaces[j] == earlier[j]
        {
        }
        if LastWithExternal(earlier).Some? {
          var v := LastWithExternal(earlier).value;
          forall j | v < j < |interfaces|
            ensures FirstExternal(interfaces[j].entries).None?
          {
            if j < n {
              assert FirstExternal(earlier[j].entries).None?;
            }
          }
        }
      }
    }
  }

  /** The address the dashboard reports: "N/A" when no interface has an
      external IPv4 entry, and otherwise the first such entry of the LAST
      interface that has one, since the search stops only the inner loop. */
  function SelectedAddress(interfaces: seq<NetworkInterface>): string
  {
    match LastWithExternal(interfaces)
    case None => "N/A"
    case Some(i) => interfaces[i].entries[FirstExternal(interfaces[i].entries).value].address
  }

  /** The search over interfaces and their entries, where `break` leaves only
      the inner loop and a later interface overwrites the address. */
  method SelectIpAddress(interfaces: seq<NetworkInterface>) returns (ip: string)
    ensures ip == SelectedAddress(interfaces)
  {
    ip := "N/A";
    var i := 0;
    while i < |interfaces|
      invariant 0 <= i <= |interfaces|
      invariant ip == SelectedAddress(interfaces[..i])
    {
      var entries := interfaces[i].entries;
      FirstExternalIsFirst(entries);
      var j := 0;
      while j < |entries|
        invariant 0 <= j <= |entries|
        invariant forall k :: 0 <= k < j ==> !IsExternalIPv4(entries[k])
        invariant ip == SelectedAddress(interfaces[..i])
      {
        if IsExternalIPv4(entries[j]) {
          ip := entries[j].address;
          break;
        }
        j := j + 1;
      }
      assert interfaces[..i + 1][..i] == interfaces[..i];
      assert interfaces[..i + 1][i] == interfaces[i];
      i := i + 1;
    }
    assert interfaces[..i] == interfaces;
  }

  /** The reported address is "N/A" exactly when no interface has an
      external IPv4 entry; otherwise it is such an entry's address. */
  lemma SelectedAddressCases(interfaces: seq<NetworkInterface>)
    ensures (forall j, k :: 0 <= j < |interfaces| && 0 <= k < |interfaces[j].entries| ==> !IsExternalIPv4(interfaces[j].entries[k]))
            ==> SelectedAddress(interfaces) == "N/A"
    ensures LastWithExternal(interfaces).Some? ==>
      exists j, k :: 0 <= j < |interfaces| && 0 <= k < |interfaces[j].entries| &&
        IsExternalIPv4(interfaces[j].entries[k]) && interfaces[j].entries[k].address == SelectedAddress(interfaces)
  {
    LastWithExternalIsLast(interfaces);
    if LastWithExternal(interfaces).Some? {
      var j := LastWithExternal(interfaces).value;
      var k := FirstExternal(interfaces[j].entries).value;
      assert IsExternalIPv4(interfaces[j].entries[k]);
    } else {
      forall j | 0 <= j < |interfaces|
        ensures forall k :: 0 <= k < |interfaces[j].entries| ==> !IsExternalIPv4(interfaces[j].entries[k])
      {
        FirstExternalIsFirst(interfaces[j].entries);
      }
    }
  }

  // ---------------------------------------------------------------------
  // The contact form

  /** `POST /api/contact-owner`: 400 before any send when a field is falsy;
      otherwise 200 when the handler reached its send loop and 500 when it
      did not (no channel, or a field that cannot be turned into text). */
  method ContactOwnerRoute(file: ConfigFile, globals: Globals, name: JsonValue, email: JsonValue, message: JsonValue, replies: seq<bool>)
    returns (status: int, log: seq<Delivery>)
    requires |replies| == |Owners(file)|
    ensures !(Truthy(name) && Truthy(email) && Truthy(message)) ==> status == 400 && log == []
    ensures Truthy(name) && Truthy(email) && Truthy(message) ==>
      var printable := Printable(name) && Printable(email) && Printable(message);
      log == (if printable then FanOut(file, globals, ContactMessage(name, email, message), replies) else []) &&
      (status == 200 <==> Channel(file, globals).Some? && printable) &&
      (status == 500 <==> !(Channel(file, globals).Some? && printable))
  {
    if !Truthy(name) || !Truthy(email) || !Truthy(message) {
      return 400, [];
    }
    var ok;
    ok, log := HandleContactOwner(file, globals, name, email, message, replies);
    status := if ok then 200 else 500;
  }

  // ---------------------------------------------------------------------
  // The machine's uptime

  datatype UptimeParts = UptimeParts(days: nat, hours: nat, minutes: nat, secs: nat)

  /** `Math.floor` of `seconds / 86400`, `(seconds % 86400) / 3600`,
      `(seconds % 3600) / 60` and `seconds % 60`, on a non-negative uptime:
      the fields of its whole seconds, each below its modulus. */
  function UptimeFields(seconds: real): (p: UptimeParts)
    requires seconds >= 0.0
    ensures p.hours < 24 && p.minutes < 60 && p.secs < 60
    ensures p.days * 86400 + p.hours * 3600 + p.minutes * 60 + p.secs == seconds.Floor
  {
    FlooredDayFields(seconds);
    UptimeParts((seconds / 86400 as real).Floor, (Rem(seconds, 86400 as real) / 3600 as real).Floor,
                (Rem(seconds, 3600 as real) / 60 as real).Floor, Rem(seconds, 60 as real).Floor)
  }

  const UptimeSuffixes: seq<string> := ["d ", "h ", "m ", "s"]

  /** `"{days}d {hours}h {minutes}m {secs}s"`: the text reads back as the
      four fields, which recompose the whole seconds. */
  function FormatUptime(seconds: real): (text: string)
    requires seconds >= 0.0
    ensures var p := UptimeFields(seconds);
      ReadTemplate(text, UptimeSuffixes) == Some([p.days, p.hours, p.minutes, p.secs]) &&
      p.days * 86400 + p.hours * 3600 + p.minutes * 60 + p.secs == seconds.Floor
  {
    var p := UptimeFields(seconds);
    assert Separating(UptimeSuffixes) by {
      forall i | 0 <= i < 4
        ensures UptimeSuffixes[i] != [] && !IsDigit(UptimeSuffixes[i][0])
      {
      }
    }
    TemplateRoundTrip([p.days, p.hours, p.minutes, p.secs], UptimeSuffixes, 0);
    Template([p.days, p.hours, p.minutes, p.secs], UptimeSuffixes, 0)
  }

  // ---------------------------------------------------------------------
  // GET /api/system-info

  /** The fields of the system-info reply this model computes. */
  datatype SystemInfo = SystemInfo(diskUsage: string, diskUsagePercent: Number, uptime: string, uptimeSeconds: real, ipAddress: string)

  /** Reads the disk, runs the alert policy on memory and the parsed disk
      percentage, and picks the IPv4 address. */
  method GetSystemInfo(file: ConfigFile, globals: Globals, uptimeSeconds: real, memory: Number,
                       dfOutput: Option<string>, interfaces: seq<NetworkInterface>, replies: seq<bool>)
    returns (info: SystemInfo, alerts: seq<Delivery>, exit: Option<ScheduledExit>)
    requires uptimeSeconds >= 0.0 && |replies| == |Owners(file)|
    ensures info == SystemInfo(ReadDisk(dfOutput).usage, ReadDisk(dfOutput).percent,
                               FormatUptime(uptimeSeconds), uptimeSeconds, SelectedAddress(interfaces))
    ensures exit.Some? <==> Decide(memory, ReadDisk(dfOutput).percent).Restart?
    ensures exit.Some? ==> exit.value == ScheduledExit(RestartExitCode, RestartGraceMs)
    ensures var disk := ReadDisk(dfOutput).percent;
      alerts == match Decide(memory, disk)
                case Restart(_, _) => FanOut(file, globals, AutomaticRestart(memory, disk), replies)
                case Alert => FanOut(file, globals, SystemAlert(memory, disk), replies)
                case NoAction => []
  {
    var disk := ReadDisk(dfOutput);
    alerts, exit := CheckSystemAlerts(file, globals, memory, disk.percent, replies);
    var ip := SelectIpAddress(interfaces);
    info := SystemInfo(disk.usage, disk.percent, FormatUptime(uptimeSeconds), uptimeSeconds, ip);
  }
}

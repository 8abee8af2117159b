/** The `/ping` route (`ping-endpoint.js`): its reply and the
    `"{d}d {h}h {m}m"` uptime it carries. */
module PingEndpoint {
  import opened Wrappers
  import opened JsMath
  import opened JsText

  const Service: string := "flora-bot"
  const Version: string := "1.5.35"

  datatype Span = Span(days: nat, hours: nat, minutes: nat)

  /** `Math.floor` of `s / 86400`, `(s % 86400) / 3600` and
      `(s % 3600) / 60` on the unfloored uptime: the leftover seconds are
      dropped, not rounded. */
  function SpanOf(uptimeSeconds: real): (p: Span)
    requires uptimeSeconds >= 0.0
    ensures p.hours < 24 && p.minutes < 60
    ensures var whole := p.days * 86400 + p.hours * 3600 + p.minutes * 60;
      whole as real <= uptimeSeconds < (whole + 60) as real
  {
    FlooredDayFields(uptimeSeconds);
    Span((uptimeSeconds / 86400 as real).Floor, (Rem(uptimeSeconds, 86400 as real) / 3600 as real).Floor,
         (Rem(uptimeSeconds, 3600 as real) / 60 as real).Floor)
  }

  const SpanSuffixes: seq<string> := ["d ", "h ", "m"]

  /** `"{days}d {hours}h {minutes}m"`, which reads back as the three fields. */
  function RenderSpan(p: Span): (text: string)
    ensures ReadTemplate(text, SpanSuffixes) == Some([p.days, p.hours, p.minutes])
  {
    assert Separating(SpanSuffixes) by {
      forall i | 0 <= i < 3
        ensures SpanSuffixes[i] != [] && !IsDigit(SpanSuffixes[i][0])
      {
      }
    }
    TemplateRoundTrip([p.days, p.hours, p.minutes], SpanSuffixes, 0);
    Template([p.days, p.hours, p.minutes], SpanSuffixes, 0)
  }

  /** The JSON body of the reply; `memory` is not modelled. */
  datatype PingReply = PingReply(status: string, timestamp: string, uptime: string, uptimeSeconds: real,
                                 service: string, version: string)

  /** The reply to `GET /ping` at `timestamp`, for the process uptime. */
  function Ping(uptimeSeconds: real, timestamp: string): (r: PingReply)
    requires uptimeSeconds >= 0.0
    ensures r.status == "ok" && r.service == Service && r.version == Version
    ensures r.uptimeSeconds == uptimeSeconds && r.timestamp == timestamp
    ensures var p := SpanOf(uptimeSeconds);
      ReadTemplate(r.uptime, SpanSuffixes) == Some([p.days, p.hours, p.minutes]) &&
      (p.days * 86400 + p.hours * 3600 + p.minutes * 60) as real <= uptimeSeconds
  {
    PingReply("ok", timestamp, RenderSpan(SpanOf(uptimeSeconds)), uptimeSeconds, Service, Version)
  }

  lemma PingExamples()
    ensures SpanOf(90061.5) == Span(1, 1, 1)
    ensures SpanOf(59.9) == Span(0, 0, 0)
  {
    FlooredDayFields(90061.5);
    FlooredDayFields(59.9);
  }
}

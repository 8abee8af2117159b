/** The JavaScript string built-ins the monitor uses, restricted to the way it
    uses them: turning a non-negative integer into decimal text (template
    literals and `toString`), `padStart` with a one-character pad,
    `replace` of the first occurrence of a character, `parseInt` without a
    radix, and `split(/\s+/)`. The readers `DigitRun` and `ReadTemplate` are
    the inverses against which the renderings are proved. */
module JsText {
  import opened Wrappers
  import opened JsMath

  // ---------------------------------------------------------------------
  // Characters

  predicate IsDigit(c: char)
  {
    '0' <= c <= '9'
  }

  predicate AllDigits(s: string)
  {
    forall i :: 0 <= i < |s| ==> IsDigit(s[i])
  }

  function DigitValue(c: char): nat
    requires IsDigit(c)
  {
    c as int - '0' as int
  }

  function DigitChar(d: nat): (c: char)
    requires d < 10
    ensures IsDigit(c) && DigitValue(c) == d
  {
    ('0' as int + d) as char
  }

  predicate IsHexDigit(c: char)
  {
    IsDigit(c) || 'a' <= c <= 'f' || 'A' <= c <= 'F'
  }

  function HexDigitValue(c: char): (d: nat)
    requires IsHexDigit(c)
    ensures d < 16
  {
    if IsDigit(c) then DigitValue(c)
    else if 'a' <= c <= 'f' then c as int - 'a' as int + 10
    else c as int - 'A' as int + 10
  }

  /** The characters `\s` matches in a JavaScript regular expression, which
      are also those `parseInt` skips: WhiteSpace and LineTerminator of
      ECMAScript. */
  predicate IsWhitespace(c: char)
  {
    c == ' ' || c == '\t' || c == '\n' || c == '\r' || c == '\U{000B}' || c == '\U{000C}'
    || c == '\U{00A0}' || c == '\U{1680}' || ('\U{2000}' <= c <= '\U{200A}')
    || c == '\U{2028}' || c == '\U{2029}' || c == '\U{202F}' || c == '\U{205F}'
    || c == '\U{3000}' || c == '\U{FEFF}'
  }

  predicate NoWhitespace(s: string)
  {
    forall i :: 0 <= i < |s| ==> !IsWhitespace(s[i])
  }

  predicate AllWhitespace(s: string)
  {
    forall i :: 0 <= i < |s| ==> IsWhitespace(s[i])
  }

  // ---------------------------------------------------------------------
  // Decimal rendering and reading

  /** The decimal text JavaScript gives a non-negative integer (below 1e21,
      where it would switch to exponent notation). */
  function NatToString(n: nat): (s: string)
    ensures s != [] && AllDigits(s)
    ensures s[0] == '0' <==> n == 0
    ensures n == 0 ==> s == "0"
  {
    if n < 10 then [DigitChar(n)] else NatToString(n / 10) + [DigitChar(n % 10)]
  }

  /** The value of a string of decimal digits, most significant first. */
  function DigitsValue(s: string): nat
    requires AllDigits(s)
  {
    if s == [] then 0 else DigitsValue(s[..|s| - 1]) * 10 + DigitValue(s[|s| - 1])
  }

  /** Reading back the rendering of `n` gives `n`. */
  lemma {:induction false} NatToStringValue(n: nat)
    ensures DigitsValue(NatToString(n)) == n
  {
    if n >= 10 {
      var s := NatToString(n);
      assert s[..|s| - 1] == NatToString(n / 10);
      NatToStringValue(n / 10);
    }
  }

  /** Two numbers with the same rendering are equal. */
  lemma NatToStringInjective(a: nat, b: nat)
    requires NatToString(a) == NatToString(b)
    ensures a == b
  {
    NatToStringValue(a);
    NatToStringValue(b);
  }

  /** `'0'` characters in front of a digit string do not change its value. */
  lemma {:induction false} LeadingZerosValue(z: string, s: string)
    requires forall i :: 0 <= i < |z| ==> z[i] == '0'
    requires AllDigits(s)
    ensures AllDigits(z + s) && DigitsValue(z + s) == DigitsValue(s)
  {
    if s == [] {
      assert z + s == z;
      ZerosValue(z);
    } else {
      var t := z + s;
      assert t[..|t| - 1] == z + s[..|s| - 1];
      LeadingZerosValue(z, s[..|s| - 1]);
    }
  }

  lemma {:induction false} ZerosValue(z: string)
    requires forall i :: 0 <= i < |z| ==> z[i] == '0'
    ensures AllDigits(z) && DigitsValue(z) == 0
  {
    if z != [] {
      ZerosValue(z[..|z| - 1]);
    }
  }

  /** `s.padStart(width, pad)` for a one-character pad: the pad is repeated in
      front until the text is `width` long; longer text is left as it is. */
  function PadStart(s: string, width: nat, pad: char): (r: string)
    ensures |r| == if |s| < width then width else |s|
    ensures r[|r| - |s|..] == s
    ensures forall i :: 0 <= i < |r| - |s| ==> r[i] == pad
  {
    if |s| >= width then s else seq(width - |s|, _ => pad) + s
  }

  /** Zero padding keeps a digit string a digit string with the same value. */
  lemma ZeroPaddingValue(s: string, width: nat)
    requires AllDigits(s)
    ensures AllDigits(PadStart(s, width, '0'))
    ensures DigitsValue(PadStart(s, width, '0')) == DigitsValue(s)
  {
    var r := PadStart(s, width, '0');
    var z := r[..|r| - |s|];
    assert r == z + s;
    LeadingZerosValue(z, s);
  }

  /** The longest prefix of `s` made of decimal digits. */
  function DigitRun(s: string): (w: string)
    ensures |w| <= |s| && w == s[..|w|] && AllDigits(w)
    ensures |w| < |s| ==> !IsDigit(s[|w|])
  {
    if s != [] && IsDigit(s[0]) then [s[0]] + DigitRun(s[1..]) else []
  }

  /** The digit run of a digit string followed by a non-digit is that string. */
  lemma {:induction false} DigitRunOf(w: string, t: string)
    requires AllDigits(w)
    requires t == [] || !IsDigit(t[0])
    ensures DigitRun(w + t) == w
  {
    if w == [] {
      assert w + t == t;
    } else {
      assert (w + t)[0] == w[0];
      assert (w + t)[1..] == w[1..] + t;
      DigitRunOf(w[1..], t);
      assert [w[0]] + w[1..] == w;
    }
  }

  /** The longest prefix of `s` made of hexadecimal digits. */
  function HexRun(s: string): (w: string)
    ensures |w| <= |s| && w == s[..|w|]
    ensures forall i :: 0 <= i < |w| ==> IsHexDigit(w[i])
  {
    if s != [] && IsHexDigit(s[0]) then [s[0]] + HexRun(s[1..]) else []
  }

  function HexValue(s: string): nat
    requires forall i :: 0 <= i < |s| ==> IsHexDigit(s[i])
  {
    if s == [] then 0 else HexValue(s[..|s| - 1]) * 16 + HexDigitValue(s[|s| - 1])
  }

  /** `s` without its leading white space: what is left is shorter and does
      not start with white space (`SkipWhitespaceRun` says what is dropped). */
  function SkipWhitespace(s: string): (t: string)
    ensures |t| <= |s|
    ensures t == [] || !IsWhitespace(t[0])
  {
    if s != [] && IsWhitespace(s[0]) then SkipWhitespace(s[1..]) else s
  }

  /** `t` without one leading sign character. */
  function Unsigned(t: string): string
  {
    if t != [] && (t[0] == '-' || t[0] == '+') then t[1..] else t
  }

  /** The unsigned number `parseInt` reads at the start of `body`: base 16
      after a `0x`/`0X` prefix, base 10 otherwise; None when no digit follows. */
  function Magnitude(body: string): Option<nat>
  {
    if |body| >= 2 && body[0] == '0' && (body[1] == 'x' || body[1] == 'X') then
      var w := HexRun(body[2..]);
      if w == [] then None else Some(HexValue(w))
    else
      var w := DigitRun(body);
      if w == [] then None else Some(DigitsValue(w))
  }

  /** `parseInt(s)` with no radix: leading white space is skipped, one `+` or
      `-` is allowed, a `0x`/`0X` prefix selects base 16, and the longest run
      of digits that follows is read; no digit at all gives NaN. */
  function ParseInt(s: string): (r: Number)
    ensures r.Finite? ==> r.value == r.value.Floor as real
    ensures r.NaN? <==> Magnitude(Unsigned(SkipWhitespace(s))).None?
  {
    var t := SkipWhitespace(s);
    match Magnitude(Unsigned(t))
    case None => NaN
    case Some(m) => Finite((if t[0] == '-' then -(m as int) else m as int) as real)
  }

  /** A decimal digit string followed by a non-digit is read in base 10,
      unless it is a lone `0` before an `x`. */
  lemma MagnitudeOfDigits(d: string, t: string)
    requires d != [] && AllDigits(d)
    requires d[0] == '0' ==> |d| == 1
    requires t == [] || !IsDigit(t[0])
    requires d[0] == '0' && t != [] ==> t[0] != 'x' && t[0] != 'X'
    ensures Magnitude(d + t) == Some(DigitsValue(d))
  {
    var body := d + t;
    if |body| >= 2 && body[0] == '0' {
      assert body[1] == t[0];
    }
    DigitRunOf(d, t);
  }

  /** `parseInt` reads back the decimal rendering of `n` when what follows it
      cannot be taken for more digits or a hexadecimal prefix. */
  lemma ParseIntOfNat(n: nat, t: string)
    requires t == [] || !IsDigit(t[0])
    requires n == 0 && t != [] ==> t[0] != 'x' && t[0] != 'X'
    ensures ParseInt(NatToString(n) + t) == Finite(n as real)
  {
    var d := NatToString(n);
    var s := d + t;
    assert s[0] == d[0] && IsDigit(s[0]);
    assert SkipWhitespace(s) == s;
    assert Unsigned(s) == s;
    MagnitudeOfDigits(d, t);
    NatToStringValue(n);
  }

  // ---------------------------------------------------------------------
  // Replacing and splitting

  /** `s.replace(c, "")` for a one-character pattern: only the first
      occurrence is removed. */
  function RemoveFirst(s: string, c: char): string
  {
    if s == [] then []
    else if s[0] == c then s[1..]
    else [s[0]] + RemoveFirst(s[1..], c)
  }

  /** Text without `c` is left unchanged; otherwise exactly one character
      goes. */
  lemma {:induction false} RemoveFirstLength(s: string, c: char)
    ensures c !in s ==> RemoveFirst(s, c) == s
    ensures c in s ==> |RemoveFirst(s, c)| == |s| - 1
  {
    if s != [] && s[0] != c {
      RemoveFirstLength(s[1..], c);
      assert c in s ==> c in s[1..] by {
        if c in s {
          var k :| 0 <= k < |s| && s[k] == c;
          assert s[1..][k - 1] == c;
        }
      }
      assert c in s[1..] ==> c in s by {
        if c in s[1..] {
          var k :| 0 <= k < |s[1..]| && s[1..][k] == c;
          assert s[k + 1] == c;
        }
      }
      assert s == [s[0]] + s[1..];
    }
  }

  /** What `RemoveFirst` removes is the first occurrence of `c`. */
  lemma {:induction false} RemoveFirstOccurrence(w: string, c: char, t: string)
    requires c !in w
    ensures RemoveFirst(w + [c] + t, c) == w + t
  {
    var u := w + [c] + t;
    if w == [] {
      assert u == [c] + t && u[0] == c && u[1..] == t;
    } else {
      assert u[0] == w[0] && w[0] != c;
      assert u[1..] == w[1..] + [c] + t;
      RemoveFirstOccurrence(w[1..], c, t);
      assert RemoveFirst(u, c) == [w[0]] + (w[1..] + t);
      assert [w[0]] + (w[1..] + t) == w + t;
    }
  }

  /** Splitting of `s` on runs of white space, with `field` the part of the
      current field read so far. */
  function SplitFrom(s: string, field: string): (r: seq<string>)
    requires NoWhitespace(field)
    ensures r != []
    ensures forall i :: 0 <= i < |r| ==> NoWhitespace(r[i])
    decreases |s|
  {
    if s == [] then [field]
    else if IsWhitespace(s[0]) then [field] + SplitFrom(SkipWhitespace(s[1..]), [])
    else SplitFrom(s[1..], field + [s[0]])
  }

  /** `s.split(/\s+/)`: the fields between maximal runs of white space; a run
      at the start or at the end yields an empty first or last field. */
  function SplitOnWhitespace(s: string): seq<string>
  {
    SplitFrom(s, [])
  }

  /** Fields with `seps[i]` between field `i` and field `i + 1`. */
  function Join(fields: seq<string>, seps: seq<string>): (s: string)
    requires |fields| >= 1 && |seps| == |fields| - 1
  {
    fields[0] + (if |fields| == 1 then [] else seps[0] + Join(fields[1..], seps[1..]))
  }

  /** Gaps as `df` pads its columns: each a non-empty run of white space, of
      any width. */
  predicate Gaps(seps: seq<string>)
  {
    forall i :: 0 <= i < |seps| ==> seps[i] != [] && AllWhitespace(seps[i])
  }

  lemma {:induction false} SplitReadsWord(w: string, t: string, field: string)
    requires NoWhitespace(w) && NoWhitespace(field)
    ensures SplitFrom(w + t, field) == SplitFrom(t, field + w)
    decreases |w|
  {
    if w == [] {
      assert w + t == t && field + w == field;
    } else {
      assert (w + t)[0] == w[0] && (w + t)[1..] == w[1..] + t;
      SplitReadsWord(w[1..], t, field + [w[0]]);
      assert field + [w[0]] + w[1..] == field + w;
    }
  }

  /** Exactly a leading run of white space is skipped. */
  lemma {:induction false} SkipWhitespaceRun(sep: string, t: string)
    requires AllWhitespace(sep)
    requires t == [] || !IsWhitespace(t[0])
    ensures SkipWhitespace(sep + t) == t
    decreases |sep|
  {
    if sep != [] {
      assert (sep + t)[1..] == sep[1..] + t;
      SkipWhitespaceRun(sep[1..], t);
    } else {
      assert sep + t == t;
    }
  }

  /** A word ended by a newline splits into the word and an empty field. */
  lemma LastWordSplit(w: string, field: string)
    requires NoWhitespace(w) && NoWhitespace(field)
    ensures SplitFrom(w + "\n", field) == [field + w, ""]
  {
    SplitReadsWord(w, "\n", field);
    var f := field + w;
    assert "\n"[0] == '\n' && IsWhitespace('\n');
    assert "\n"[1..] == [] && SkipWhitespace([]) == [];
    assert SplitFrom("\n", f) == [f] + SplitFrom([], []);
  }

  /** A separator in front of a word ends the current field. */
  lemma SeparatorSplit(sep: string, rest: string, field: string)
    requires sep != [] && AllWhitespace(sep) && NoWhitespace(field)
    requires rest != [] && !IsWhitespace(rest[0])
    ensures SplitFrom(sep + rest, field) == [field] + SplitFrom(rest, [])
  {
    assert (sep + rest)[0] == sep[0];
    assert (sep + rest)[1..] == sep[1..] + rest;
    SkipWhitespaceRun(sep[1..], rest);
  }

  /** Splitting a line of non-empty words separated by runs of white space
      of any widths and ended by a newline gives the words back, plus the
      empty field the final newline leaves. */
  lemma {:induction false} SplitJoinedLine(fields: seq<string>, seps: seq<string>)
    requires |fields| >= 1 && |seps| == |fields| - 1
    requires forall i :: 0 <= i < |fields| ==> fields[i] != [] && NoWhitespace(fields[i])
    requires Gaps(seps)
    ensures SplitOnWhitespace(Join(fields, seps) + "\n") == fields + [""]
  {
    var w := fields[0];
    assert [] + w == w;
    if |fields| == 1 {
      assert Join(fields, seps) + "\n" == w + "\n";
      LastWordSplit(w, []);
    } else {
      var more, gaps := fields[1..], seps[1..];
      var sep := seps[0];
      var rest := Join(more, gaps) + "\n";
      assert Join(fields, seps) + "\n" == w + (sep + rest);
      SplitReadsWord(w, sep + rest, []);
      assert Join(more, gaps) == more[0] + (if |more| == 1 then [] else gaps[0] + Join(more[1..], gaps[1..]));
      assert rest[0] == more[0][0];
      SeparatorSplit(sep, rest, w);
      assert Gaps(gaps) by {
        forall i | 0 <= i < |gaps|
          ensures gaps[i] != [] && AllWhitespace(gaps[i])
        {
          assert gaps[i] == seps[i + 1];
        }
      }
      SplitJoinedLine(more, gaps);
      assert [w] + (more + [""]) == fields + [""];
    }
  }

  /** Blanks in front of a line add one empty field before its words. */
  lemma LeadingBlanksSplit(lead: string, line: string)
    requires lead != [] && AllWhitespace(lead)
    requires line != [] && !IsWhitespace(line[0])
    ensures SplitOnWhitespace(lead + line) == [""] + SplitOnWhitespace(line)
  {
    SeparatorSplit(lead, line, []);
  }

  // ---------------------------------------------------------------------
  // Templates: numbers each followed by a literal suffix

  /** A template literal such as `${a}d ${b}h` or, with `width` 2, the
      `padStart(2, '0')` clock `hh:mm:ss`: every number is rendered in decimal,
      padded on the left with '0' to `width`, and followed by its suffix. */
  function Template(values: seq<nat>, suffixes: seq<string>, width: nat): string
    requires |values| == |suffixes|
  {
    if values == [] then []
    else PadStart(NatToString(values[0]), width, '0') + suffixes[0] + Template(values[1..], suffixes[1..], width)
  }

  /** Suffixes a reader can find again: all but the last are non-empty, and
      none starts with a digit. */
  predicate Separating(suffixes: seq<string>)
  {
    forall i :: 0 <= i < |suffixes| ==>
      (suffixes[i] == [] ==> i == |suffixes| - 1) && (suffixes[i] != [] ==> !IsDigit(suffixes[i][0]))
  }

  /** Reads a text made by `Template` with these suffixes back into its
      numbers; any other text gives None. */
  function ReadTemplate(s: string, suffixes: seq<string>): Option<seq<nat>>
    decreases |suffixes|
  {
    if suffixes == [] then
      if s == [] then Some([]) else None
    else
      var w := DigitRun(s);
      var rest := s[|w|..];
      if w != [] && suffixes[0] <= rest then
        match ReadTemplate(rest[|suffixes[0]|..], suffixes[1..])
        case Some(vs) => Some([DigitsValue(w)] + vs)
        case None => None
      else None
  }

  /** One step of `ReadTemplate`: a digit string followed by the first
      suffix is read as one number, ahead of the numbers of the rest. */
  lemma ReadTemplateStep(p: string, tail: string, suffixes: seq<string>, vs: seq<nat>)
    requires suffixes != [] && p != [] && AllDigits(p)
    requires suffixes[0] != [] ==> !IsDigit(suffixes[0][0])
    requires suffixes[0] == [] ==> tail == []
    requires ReadTemplate(tail, suffixes[1..]) == Some(vs)
    ensures ReadTemplate(p + suffixes[0] + tail, suffixes) == Some([DigitsValue(p)] + vs)
  {
    var u := suffixes[0] + tail;
    ConcatenationParts(p, suffixes[0], tail);
    DigitRunOf(p, u);
  }

  /** Where the parts of `a + b + c` begin and end. */
  lemma ConcatenationParts(a: string, b: string, c: string)
    ensures a + b + c == a + (b + c)
    ensures (a + (b + c))[|a|..] == b + c
    ensures b <= b + c && (b + c)[|b|..] == c
  {
  }

  /** A padded rendering of `n` is a non-empty digit string worth `n`. */
  lemma PaddedField(n: nat, width: nat)
    ensures var p := PadStart(NatToString(n), width, '0');
      p != [] && AllDigits(p) && DigitsValue(p) == n
  {
    ZeroPaddingValue(NatToString(n), width);
    NatToStringValue(n);
  }

  lemma SeparatingTail(suffixes: seq<string>)
    requires suffixes != [] && Separating(suffixes)
    ensures Separating(suffixes[1..])
    ensures suffixes[0] != [] ==> !IsDigit(suffixes[0][0])
    ensures suffixes[0] == [] ==> |suffixes| == 1
  {
    forall i | 0 <= i < |suffixes[1..]|
      ensures (suffixes[1..][i] == [] ==> i == |suffixes[1..]| - 1)
      ensures (suffixes[1..][i] != [] ==> !IsDigit(suffixes[1..][i][0]))
    {
      assert suffixes[1..][i] == suffixes[i + 1];
    }
  }

  /** Every rendering can be read back into the numbers it was made from. */
  lemma {:induction false} TemplateRoundTrip(values: seq<nat>, suffixes: seq<string>, width: nat)
    requires |values| == |suffixes| && Separating(suffixes)
    ensures ReadTemplate(Template(values, suffixes, width), suffixes) == Some(values)
    decreases |values|
  {
    if values != [] {
      assert [values[0]] + values[1..] == values;
      var p := PadStart(NatToString(values[0]), width, '0');
      var tail := Template(values[1..], suffixes[1..], width);
      assert Template(values, suffixes, width) == p + suffixes[0] + tail;
      PaddedField(values[0], width);
      SeparatingTail(suffixes);
      TemplateRoundTrip(values[1..], suffixes[1..], width);
      assert suffixes[0] == [] ==> tail == [];
      ReadTemplateStep(p, tail, suffixes, values[1..]);
    }
  }
}

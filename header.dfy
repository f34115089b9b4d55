/** The prefix shared by every structured log line:
    `(I)` or `(E)`, blanks, `[timestamp]`, blanks, `[sequence id]:`, blanks. */
module Header {
  import opened Lexer

  /** The indicator: `(I)` for information, `(E)` for error. */
  datatype Severity = Info | Error

  datatype Header = Header(severity: Severity, timestamp: string, id: nat)

  function IndicatorText(severity: Severity): string {
    if severity == Info then "(I)" else "(E)"
  }

  /** `text` is the marker of `severity` followed by a run of blanks. */
  ghost predicate IsIndicator(text: string, severity: Severity) {
    exists b :: Blanks(b) && text == IndicatorText(severity) + b
  }

  /** `text` is `[`, a timestamp free of `]`, `]` and a run of blanks. */
  ghost predicate IsTimestamp(text: string, stamp: string) {
    ']' !in stamp && exists b :: Blanks(b) && text == "[" + stamp + "]" + b
  }

  /** `text` is `[`, a number `str::parse` reads as `id`, `]:` and a run of
      blanks. */
  ghost predicate IsId(text: string, id: nat) {
    exists t, b :: ParseUnsigned(t, USIZE_BOUND) == Some(id) && Blanks(b) && text == "[" + t + "]:" + b
  }

  /** `text` is a whole header: indicator, timestamp and id, in that order. */
  ghost predicate IsHeader(text: string, h: Header) {
    exists i, t, d :: IsIndicator(i, h.severity) && IsTimestamp(t, h.timestamp) && IsId(d, h.id) &&
      text == i + t + d
  }

  /** `parse_indicator`: one of the two markers, then at least one blank. */
  function ParseIndicator(s: string): (r: Option<(Severity, string)>)
    ensures r.Some? <==> (StartsWith(s, "(I)") || StartsWith(s, "(E)")) && 3 < |s| && InClass(Blank, s[3])
    ensures r.Some? ==> NoLeadingBlank(r.value.1) && |r.value.1| < |s|
    ensures r.Some? ==> IsIndicator(s[..|s| - |r.value.1|], r.value.0) && s == s[..|s| - |r.value.1|] + r.value.1
  {
    var marked: Option<(Severity, string)> :=
      match Tag("(I)", s)
      case Some(rest) => Some((Info, rest))
      case None =>
        match Tag("(E)", s)
        case Some(rest) => Some((Error, rest))
        case None => None;
    match marked
    case None => None
    case Some((severity, rest)) =>
      match Space1(rest)
      case None => None
      case Some(rest') =>
        assert s == IndicatorText(severity) + rest;
        PrefixParts(s, IndicatorText(severity), rest, rest');
        Some((severity, rest'))
  }

  /** A fixed part in front of a consumed run and what is left after it. */
  lemma PrefixParts(s: string, prefix: string, rest: string, rest': string)
    requires s == prefix + rest && |rest'| <= |rest|
    requires rest == rest[..|rest| - |rest'|] + rest'
    ensures s[..|s| - |rest'|] == prefix + rest[..|rest| - |rest'|]
    ensures s == s[..|s| - |rest'|] + rest'
  {
    assert s == (prefix + rest[..|rest| - |rest'|]) + rest';
  }

  /** A marker and its blanks are read back, and what follows is left. */
  lemma IndicatorOf(text: string, severity: Severity, rest: string)
    requires IsIndicator(text, severity) && NoLeadingBlank(rest)
    ensures ParseIndicator(text + rest) == Some((severity, rest))
  {
    var b :| Blanks(b) && text == IndicatorText(severity) + b;
    var s := text + rest;
    assert s == IndicatorText(severity) + (b + rest);
    assert s[..3] == IndicatorText(severity);
    if severity == Error {
      assert s[1] != "(I)"[1];
    }
    assert s[3..] == b + rest;
    Space1Of(b, rest);
  }

  /** `parse_timestamp`: `[`, any text up to the first `]`, `]`, then at least
      one blank. The text is not checked to be a time. */
  function ParseTimestamp(s: string): (r: Option<(string, string)>)
    ensures r.Some? ==> NoLeadingBlank(r.value.1) && |r.value.1| < |s|
    ensures r.Some? ==> IsTimestamp(s[..|s| - |r.value.1|], r.value.0) && s == s[..|s| - |r.value.1|] + r.value.1
  {
    match Tag("[", s)
    case None => None
    case Some(rest) =>
      match TakeUntil("]", rest)
      case None => None
      case Some((stamp, after)) =>
        assert ']' !in stamp by {
          forall i | 0 <= i < |stamp| ensures stamp[i] != ']' {
            assert !StartsWith(rest[i..], "]");
            assert rest[i..][..1] == [stamp[i]];
          }
        }
        match Space1(after[1..])
        case None => None
        case Some(rest') =>
          Delimited(s, "[", stamp, after, "]", rest');
          Some((stamp, rest'))
  }

  /** `open`, `inner`, `close`, blanks and a rest put back together: the
      text consumed in front of the rest is the delimited part and its blanks. */
  lemma Delimited(s: string, open: string, inner: string, after: string, close: string, rest: string)
    requires s == open + (inner + after) && StartsWith(after, close)
    requires |rest| <= |after| - |close|
    requires var tail := after[|close|..];
             Blanks(tail[..|tail| - |rest|]) && tail == tail[..|tail| - |rest|] + rest
    ensures var tail := after[|close|..];
            s[..|s| - |rest|] == open + inner + close + tail[..|tail| - |rest|] &&
            s == s[..|s| - |rest|] + rest
  {
    var tail := after[|close|..];
    var b := tail[..|tail| - |rest|];
    assert after == close + (b + rest);
    assert s == (open + inner + close + b) + rest;
  }

  /** `take_until` of a one-character pattern stops at its first occurrence. */
  lemma TakeUntilChar(c: char, before: string, after: string)
    requires c !in before
    ensures TakeUntil([c], before + ([c] + after)) == Some((before, [c] + after))
  {
    var s := before + ([c] + after);
    forall i | 0 <= i < |before| ensures !StartsWith(s[i..], [c]) {
      assert s[i..][..1] == [before[i]];
    }
    assert ([c] + after)[..1] == [c];
    TakeUntilAt([c], before, [c] + after);
  }

  /** A bracketed timestamp and its blanks are read back, and what follows is
      left. */
  lemma TimestampOf(text: string, stamp: string, rest: string)
    requires IsTimestamp(text, stamp) && NoLeadingBlank(rest)
    ensures ParseTimestamp(text + rest) == Some((stamp, rest))
  {
    var b :| Blanks(b) && text == "[" + stamp + "]" + b;
    var s := text + rest;
    var tail := "]" + (b + rest);
    assert s == "[" + (stamp + tail);
    assert s[..1] == "[";
    assert tail == [']'] + (b + rest);
    TakeUntilChar(']', stamp, b + rest);
    assert tail[1..] == b + rest;
    Space1Of(b, rest);
  }

  /** `parse_id`: `[`, the text up to the first `]:` parsed as a `usize`,
      `]:`, then at least one blank. */
  function ParseId(s: string): (r: Option<(nat, string)>)
    ensures r.Some? ==> r.value.0 < USIZE_BOUND && NoLeadingBlank(r.value.1) && |r.value.1| < |s|
    ensures r.Some? ==> IsId(s[..|s| - |r.value.1|], r.value.0) && s == s[..|s| - |r.value.1|] + r.value.1
  {
    match Tag("[", s)
    case None => None
    case Some(rest) =>
      match TakeUntil("]:", rest)
      case None => None
      case Some((digits, after)) =>
        match ParseUnsigned(digits, USIZE_BOUND)
        case None => None
        case Some(id) =>
          match Space1(after[2..])
          case None => None
          case Some(rest') =>
            Delimited(s, "[", digits, after, "]:", rest');
            Some((id, rest'))
  }

  lemma IdText(text: string, t: string, b: string, rest: string, tail: string)
    requires text == "[" + t + "]:" + b && tail == "]:" + (b + rest)
    ensures Tag("[", text + rest) == Some(t + tail)
    ensures StartsWith(tail, "]:") && tail[2..] == b + rest
  {
    assert text + rest == "[" + (t + tail);
    assert tail[..2] == "]:";
  }

  /** A number that `str::parse` accepts holds no `]`. */
  lemma NoBracketInNumber(t: string, bound: nat)
    requires ParseUnsigned(t, bound).Some?
    ensures ']' !in t
  {
  }

  /** `take_until("]:")` stops right after text free of `]`. */
  lemma TakeUntilIdEnd(t: string, tail: string)
    requires ']' !in t && StartsWith(tail, "]:")
    ensures TakeUntil("]:", t + tail) == Some((t, tail))
  {
    forall i | 0 <= i < |t| ensures !StartsWith((t + tail)[i..], "]:") {
      assert (t + tail)[i..][0] == t[i];
    }
    TakeUntilAt("]:", t, tail);
  }

  /** A bracketed id and its blanks are read back, and what follows is left:
      the digits hold no `]`, so the first `]:` is the one after them. */
  lemma IdOf(text: string, id: nat, rest: string)
    requires IsId(text, id) && NoLeadingBlank(rest)
    ensures ParseId(text + rest) == Some((id, rest))
  {
    var t, b :| ParseUnsigned(t, USIZE_BOUND) == Some(id) && Blanks(b) && text == "[" + t + "]:" + b;
    var tail := "]:" + (b + rest);
    IdText(text, t, b, rest, tail);
    NoBracketInNumber(t, USIZE_BOUND);
    TakeUntilIdEnd(t, tail);
    Space1Of(b, rest);
    assert Space1(tail[2..]) == Some(rest);
  }

  /** The three header parsers in sequence; yields the header and the payload
      after it, which never starts with a blank. */
  function ParseHeader(line: string): (r: Option<(Header, string)>)
    ensures r.Some? ==> ']' !in r.value.0.timestamp && r.value.0.id < USIZE_BOUND
    ensures r.Some? ==> NoLeadingBlank(r.value.1) && |r.value.1| < |line|
    ensures r.Some? ==> IsHeader(line[..|line| - |r.value.1|], r.value.0) &&
                        line == line[..|line| - |r.value.1|] + r.value.1
  {
    match ParseIndicator(line)
    case None => None
    case Some((severity, rest)) =>
      match ParseTimestamp(rest)
      case None => None
      case Some((stamp, rest')) =>
        match ParseId(rest')
        case None => None
        case Some((id, payload)) =>
          HeaderParts(line, rest, rest', payload, Header(severity, stamp, id));
          Some((Header(severity, stamp, id), payload))
  }

  /** The three parts of a header put together. */
  lemma HeaderParts(line: string, rest: string, rest': string, payload: string, h: Header)
    requires |rest| <= |line| && |rest'| <= |rest| && |payload| <= |rest'|
    requires IsIndicator(line[..|line| - |rest|], h.severity) && line == line[..|line| - |rest|] + rest
    requires IsTimestamp(rest[..|rest| - |rest'|], h.timestamp) && rest == rest[..|rest| - |rest'|] + rest'
    requires IsId(rest'[..|rest'| - |payload|], h.id) && rest' == rest'[..|rest'| - |payload|] + payload
    ensures IsHeader(line[..|line| - |payload|], h) && line == line[..|line| - |payload|] + payload
  {
    var i, t, d := line[..|line| - |rest|], rest[..|rest| - |rest'|], rest'[..|rest'| - |payload|];
    ThreeParts(line, rest, rest', payload);
    assert IsIndicator(i, h.severity) && IsTimestamp(t, h.timestamp) && IsId(d, h.id);
  }

  /** Three consumed prefixes, one after the other, make one prefix. */
  lemma ThreeParts(line: string, rest: string, rest': string, payload: string)
    requires |rest| <= |line| && |rest'| <= |rest| && |payload| <= |rest'|
    requires line == line[..|line| - |rest|] + rest
    requires rest == rest[..|rest| - |rest'|] + rest'
    requires rest' == rest'[..|rest'| - |payload|] + payload
    ensures line[..|line| - |payload|] ==
      line[..|line| - |rest|] + rest[..|rest| - |rest'|] + rest'[..|rest'| - |payload|]
    ensures line == line[..|line| - |payload|] + payload
  {
    var i, t, d := line[..|line| - |rest|], rest[..|rest| - |rest'|], rest'[..|rest'| - |payload|];
    assert line == (i + t + d) + payload;
  }

  /** A header written as indicator, timestamp and id is read back as itself,
      and the payload after it is left untouched. */
  lemma HeaderOf(text: string, h: Header, payload: string)
    requires IsHeader(text, h) && NoLeadingBlank(payload)
    ensures ParseHeader(text + payload) == Some((h, payload))
  {
    var i, t, d :| IsIndicator(i, h.severity) && IsTimestamp(t, h.timestamp) && IsId(d, h.id) &&
      text == i + t + d;
    IdOf(d, h.id, payload);
    var t', b' :| ParseUnsigned(t', USIZE_BOUND) == Some(h.id) && Blanks(b') && d == "[" + t' + "]:" + b';
    BracketFirst(d, payload);
    TimestampOf(t, h.timestamp, d + payload);
    var b'' :| Blanks(b'') && t == "[" + h.timestamp + "]" + b'';
    BracketFirst(t, d + payload);
    IndicatorOf(i, h.severity, t + (d + payload));
    HeaderSteps(i + (t + (d + payload)), t + (d + payload), d + payload, payload, h);
    Regroup(text, i, t, d, payload);
  }

  lemma Regroup(text: string, i: string, t: string, d: string, payload: string)
    requires text == i + t + d
    ensures text + payload == i + (t + (d + payload))
  {
  }

  /** The header parsers chained: each leaves what the next one reads. */
  lemma HeaderSteps(line: string, rest: string, rest': string, payload: string, h: Header)
    requires ParseIndicator(line) == Some((h.severity, rest))
    requires ParseTimestamp(rest) == Some((h.timestamp, rest'))
    requires ParseId(rest') == Some((h.id, payload))
    ensures ParseHeader(line) == Some((h, payload))
  {
  }

  /** The timestamp and the id both open with `[`, which is not a blank. */
  lemma BracketFirst(text: string, rest: string)
    requires text != [] && text[0] == '['
    ensures NoLeadingBlank(text + rest)
  {
  }
}

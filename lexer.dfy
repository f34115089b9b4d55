/** Character-level building blocks of the warnings-log grammar.
    Each nom combinator the parser uses (tag, take_until, space1, digit1,
    alpha1, is_not, line_ending, and Rust's `str::parse` for unsigned
    integers) is a total function on text here; a combinator that fails
    returns `None`. */
module Lexer {

  datatype Option<T> = None | Some(value: T)

  /** Exclusive upper bounds of the source's unsigned integer types. */
  const U8_BOUND: nat := 0x100
  const U64_BOUND: nat := 0x1_0000_0000_0000_0000
  const USIZE_BOUND: nat := U64_BOUND   // a 64-bit target

  type u8 = n: nat | n < U8_BOUND
  type u64 = n: nat | n < U64_BOUND

  /** The character classes that the `*1` combinators take runs of. */
  datatype CharClass =
    | Blank     // space1: ' ' or '\t'
    | Digit     // digit1: ASCII '0'..'9'
    | Alpha     // alpha1: ASCII letters
    | LineChar  // is_not("\r\n")
    | WordChar  // is_not(" ")

  predicate InClass(k: CharClass, c: char) {
    match k
    case Blank => c == ' ' || c == '\t'
    case Digit => '0' <= c <= '9'
    case Alpha => 'a' <= c <= 'z' || 'A' <= c <= 'Z'
    case LineChar => c != '\r' && c != '\n'
    case WordChar => c != ' '
  }

  predicate AllIn(k: CharClass, s: string) {
    forall i | 0 <= i < |s| :: InClass(k, s[i])
  }

  /** The longest prefix of `s` made of `k` characters, and what follows it. */
  function Span(k: CharClass, s: string): (r: (string, string))
    ensures s == r.0 + r.1
    ensures AllIn(k, r.0)
    ensures r.1 == [] || !InClass(k, r.1[0])
  {
    if s != [] && InClass(k, s[0]) then
      var (run, rest) := Span(k, s[1..]);
      ([s[0]] + run, rest)
    else ([], s)
  }

  /** A split of `s` into a run of `k` characters and a rest that does not
      continue the run is the one `Span` computes. */
  lemma {:induction false} SpanUnique(k: CharClass, s: string, run: string, rest: string)
    requires s == run + rest && AllIn(k, run)
    requires rest == [] || !InClass(k, rest[0])
    ensures Span(k, s) == (run, rest)
  {
    if run == [] {
      assert s == rest;
    } else {
      assert s[0] == run[0] && s[1..] == run[1..] + rest;
      assert AllIn(k, run[1..]);
      SpanUnique(k, s[1..], run[1..], rest);
      assert Span(k, s) == ([s[0]] + Span(k, s[1..]).0, Span(k, s[1..]).1);
      assert [run[0]] + run[1..] == run;
    }
  }

  /** The `*1` combinators (space1, digit1, alpha1, is_not): a non-empty
      longest run, failing when the input does not start with one. */
  function Span1(k: CharClass, s: string): (r: Option<(string, string)>)
    ensures r.Some? <==> s != [] && InClass(k, s[0])
    ensures r.Some? ==> r.value == Span(k, s) && r.value.0 != []
  {
    var (run, rest) := Span(k, s);
    if run == [] then None else Some((run, rest))
  }

  /** A non-empty run of blanks: what `space1` consumes. */
  predicate Blanks(b: string) {
    b != [] && AllIn(Blank, b)
  }

  /** Text that does not start with a blank: what `space1` leaves. */
  predicate NoLeadingBlank(s: string) {
    s == [] || !InClass(Blank, s[0])
  }

  /** space1 with its output discarded: what follows a non-empty run of blanks. */
  function Space1(s: string): (r: Option<string>)
    ensures r.Some? <==> s != [] && InClass(Blank, s[0])
    ensures r.Some? ==> |r.value| < |s| && NoLeadingBlank(r.value)
    ensures r.Some? ==> Blanks(s[..|s| - |r.value|]) && s == s[..|s| - |r.value|] + r.value
  {
    match Span1(Blank, s)
    case None => None
    case Some((run, rest)) =>
      assert s[..|s| - |rest|] == run;
      Some(rest)
  }

  /** `space1` consumes a whole run of blanks and stops where they end. */
  lemma Space1Of(b: string, rest: string)
    requires Blanks(b) && NoLeadingBlank(rest)
    ensures Space1(b + rest) == Some(rest)
  {
    SpanUnique(Blank, b + rest, b, rest);
  }

  predicate StartsWith(s: string, prefix: string) {
    |prefix| <= |s| && s[..|prefix|] == prefix
  }

  /** nom's `tag`: the input without `prefix`, or failure. */
  function Tag(prefix: string, s: string): (r: Option<string>)
    ensures r.Some? <==> StartsWith(s, prefix)
    ensures r.Some? ==> s == prefix + r.value
  {
    if StartsWith(s, prefix) then Some(s[|prefix|..]) else None
  }

  /** nom's `take_until`: everything before the FIRST occurrence of
      `pattern`, and the rest starting with it; failure when it never occurs. */
  function TakeUntil(pattern: string, s: string): (r: Option<(string, string)>)
    ensures r.Some? ==> s == r.value.0 + r.value.1 && StartsWith(r.value.1, pattern)
    ensures r.Some? ==> forall i | 0 <= i < |r.value.0| :: !StartsWith(s[i..], pattern)
    ensures r.None? ==> forall i | 0 <= i <= |s| :: !StartsWith(s[i..], pattern)
    decreases |s|
  {
    if StartsWith(s, pattern) then Some(([], s))
    else if s == [] then None
    else match TakeUntil(pattern, s[1..])
      case None =>
        NoMatchShift(pattern, s, |s|);
        None
      case Some((before, after)) =>
        NoMatchShift(pattern, s, |before|);
        Some(([s[0]] + before, after))
  }

  /** No occurrence at the start of `s` nor at the first `n` positions of its
      tail means none at the first `n + 1` positions of `s`. */
  lemma NoMatchShift(pattern: string, s: string, n: nat)
    requires s != [] && !StartsWith(s, pattern) && n <= |s|
    requires forall j | 0 <= j < n :: !StartsWith(s[1..][j..], pattern)
    ensures forall i | 0 <= i < n + 1 :: !StartsWith(s[i..], pattern)
  {
    forall i | 1 <= i < n + 1
      ensures !StartsWith(s[i..], pattern)
    {
      assert s[i..] == s[1..][i - 1..];
    }
  }

  /** `TakeUntil` finds `pattern` right after a prefix that does not contain it. */
  lemma {:induction false} TakeUntilAt(pattern: string, before: string, after: string)
    requires StartsWith(after, pattern)
    requires forall i | 0 <= i < |before| :: !StartsWith((before + after)[i..], pattern)
    ensures TakeUntil(pattern, before + after) == Some((before, after))
    decreases |before|
  {
    var s := before + after;
    if before != [] {
      assert s[0..] == s;
      forall i | 0 <= i < |before| - 1
        ensures !StartsWith((before[1..] + after)[i..], pattern)
      {
        assert (before[1..] + after)[i..] == s[i + 1..];
      }
      TakeUntilAt(pattern, before[1..], after);
      assert s[1..] == before[1..] + after;
      assert [s[0]] + before[1..] == before;
    } else {
      assert s == after;
    }
  }

  /** nom's `line_ending`: "\n" or "\r\n". */
  function LineEnding(s: string): (r: Option<string>)
    ensures r.Some? <==> StartsWith(s, "\n") || StartsWith(s, "\r\n")
    ensures r.Some? ==> s == "\n" + r.value || s == "\r\n" + r.value
  {
    match Tag("\n", s)
    case Some(rest) => Some(rest)
    case None => Tag("\r\n", s)
  }

  /** One terminated line, possibly empty: its content and the text after its
      terminator (the catch-all `terminated(opt(is_not("\r\n")), line_ending)`). */
  function SplitLine(s: string): (r: Option<(string, string)>)
    ensures r.Some? ==> AllIn(LineChar, r.value.0)
    ensures r.Some? ==> s == r.value.0 + "\n" + r.value.1 || s == r.value.0 + "\r\n" + r.value.1
    ensures r.None? <==> LineEnding(Span(LineChar, s).1).None?
  {
    var (line, after) := Span(LineChar, s);
    match LineEnding(after)
    case None => None
    case Some(rest) =>
      LineOf(s, line, after, rest);
      Some((line, rest))
  }

  lemma LineOf(s: string, line: string, after: string, rest: string)
    requires s == line + after
    requires after == "\n" + rest || after == "\r\n" + rest
    ensures s == line + "\n" + rest || s == line + "\r\n" + rest
  {
    if after == "\n" + rest {
      assert line + after == line + "\n" + rest;
    } else {
      assert line + after == line + "\r\n" + rest;
    }
  }

  /** `SplitLine` of a line of `LineChar`s followed by a terminator. */
  lemma SplitLineOf(line: string, ending: string, rest: string)
    requires AllIn(LineChar, line)
    requires ending == "\n" || ending == "\r\n"
    ensures SplitLine(line + ending + rest) == Some((line, rest))
  {
    var s := line + ending + rest;
    SpanUnique(LineChar, s, line, ending + rest);
    assert (ending + rest)[..|ending|] == ending;
    if ending == "\r\n" {
      assert !StartsWith(ending + rest, "\n");
    }
  }

  /** A terminated line stays the first line of any longer text. */
  lemma SplitLineExtend(s: string, t: string)
    requires SplitLine(s).Some?
    ensures SplitLine(s + t) == Some((SplitLine(s).value.0, SplitLine(s).value.1 + t))
  {
    var (line, rest) := SplitLine(s).value;
    if s == line + "\n" + rest {
      assert s + t == line + "\n" + (rest + t);
      SplitLineOf(line, "\n", rest + t);
    } else {
      assert s + t == line + "\r\n" + (rest + t);
      SplitLineOf(line, "\r\n", rest + t);
    }
  }

  /** nom's `take_line` here, `terminated(is_not("\r\n"), line_ending)`: a
      terminated line that is not empty. */
  function TakeLine(s: string): (r: Option<(string, string)>)
    ensures r.Some? <==> SplitLine(s).Some? && SplitLine(s).value.0 != []
    ensures r.Some? ==> r == SplitLine(s)
  {
    match SplitLine(s)
    case None => None
    case Some((line, rest)) => if line == [] then None else Some((line, rest))
  }

  // ---- unsigned integers -------------------------------------------------

  function DigitValue(c: char): nat
    requires InClass(Digit, c)
  {
    (c as int) - ('0' as int)
  }

  function DigitChar(d: nat): (c: char)
    requires d < 10
    ensures InClass(Digit, c) && DigitValue(c) == d
  {
    (('0' as int) + d) as char
  }

  /** The value of a string of decimal digits, most significant first. */
  function DigitsValue(digits: string): nat
    requires AllIn(Digit, digits)
    decreases |digits|
  {
    if digits == [] then 0
    else DigitsValue(digits[..|digits| - 1]) * 10 + DigitValue(digits[|digits| - 1])
  }

  /** A non-empty run of decimal digits. */
  predicate Digits(d: string) {
    d != [] && AllIn(Digit, d)
  }

  /** A non-empty run of ASCII letters. */
  predicate Letters(w: string) {
    w != [] && AllIn(Alpha, w)
  }

  /** Text that does not start with a digit: what `digit1` leaves. */
  predicate NoLeadingDigit(s: string) {
    s == [] || !InClass(Digit, s[0])
  }

  /** The digits of a number written with an optional leading '+'. */
  function Magnitude(s: string): (m: string)
    ensures s == m || s == "+" + m
  {
    if s != [] && s[0] == '+' then s[1..] else s
  }

  /** Rust's `str::parse` for an unsigned type whose values are below `bound`:
      an optional '+', then at least one decimal digit, and no overflow. The
      value is the decimal value of the digits. */
  function ParseUnsigned(s: string, bound: nat): (r: Option<nat>)
    ensures r.Some? <==> Digits(Magnitude(s)) && DigitsValue(Magnitude(s)) < bound
    ensures r.Some? ==> r.value == DigitsValue(Magnitude(s)) && r.value < bound
    ensures r.Some? ==> s != [] && (s[0] == '+' || InClass(Digit, s[0]))
    ensures r.Some? ==> forall i | 0 < i < |s| :: InClass(Digit, s[i])
  {
    var digits := Magnitude(s);
    if Digits(digits) && DigitsValue(digits) < bound then
      assert forall i | 0 < i < |s| :: s[i] in digits;
      Some(DigitsValue(digits))
    else None
  }

  /** The decimal representation of `n`, without leading zeros; the inverse
      of `DigitsValue`. */
  function Decimal(n: nat): (r: string)
    ensures r != [] && AllIn(Digit, r) && DigitsValue(r) == n
    decreases n
  {
    if n < 10 then [DigitChar(n)]
    else
      var init := Decimal(n / 10);
      var r := init + [DigitChar(n % 10)];
      assert r[..|r| - 1] == init;
      r
  }

  /** Printing a value in decimal and parsing it back gives the value. */
  lemma ParseDecimal(n: nat, bound: nat)
    requires n < bound
    ensures ParseUnsigned(Decimal(n), bound) == Some(n)
  {
  }

  /** A leading '+' is accepted in front of the digits. */
  lemma ParsePlusDecimal(n: nat, bound: nat)
    requires n < bound
    ensures ParseUnsigned("+" + Decimal(n), bound) == Some(n)
  {
    assert ("+" + Decimal(n))[1..] == Decimal(n);
  }

  /** A number that does not fit the type is rejected. */
  lemma ParseDecimalOverflow(n: nat, bound: nat)
    requires bound <= n
    ensures ParseUnsigned(Decimal(n), bound).None?
  {
    assert Decimal(n)[0] != '+';
  }

  // ---- single-space split and join ----------------------------------------

  /** The total length of the pieces. */
  function TotalLength(parts: seq<string>): nat {
    if parts == [] then 0 else |parts[0]| + TotalLength(parts[1..])
  }

  /** `parts.join(" ")`: the pieces in order, one space between neighbours,
      none at either end. */
  function Join(parts: seq<string>): (r: string)
    ensures parts != [] ==> |r| == TotalLength(parts) + |parts| - 1
    ensures parts != [] ==> StartsWith(r, parts[0])
    ensures |parts| >= 2 ==> r[|parts[0]|] == ' '
  {
    if parts == [] then []
    else if |parts| == 1 then parts[0]
    else parts[0] + " " + Join(parts[1..])
  }

  /** Rust's `str::split(' ')`: the maximal space-free pieces, including the
      empty ones around consecutive or outer spaces. */
  function Split(s: string): (r: seq<string>)
    ensures r != []
    ensures forall i | 0 <= i < |r| :: AllIn(WordChar, r[i])
    decreases |s|
  {
    var (word, after) := Span(WordChar, s);
    if after == [] then [word] else [word] + Split(after[1..])
  }

  /** Joining the pieces of a split gives back the text. */
  lemma {:induction false} JoinSplit(s: string)
    ensures Join(Split(s)) == s
    decreases |s|
  {
    var (word, after) := Span(WordChar, s);
    if after != [] {
      JoinSplit(after[1..]);
      assert after == " " + after[1..];
    }
  }

  /** Splitting at an added space splits both halves independently. */
  lemma {:induction false} SplitAppend(a: string, b: string)
    ensures Split(a + " " + b) == Split(a) + Split(b)
    decreases |a|
  {
    var word, after := Span(WordChar, a).0, Span(WordChar, a).1;
    if after == [] {
      SpanUnique(WordChar, a + " " + b, a, " " + b);
      assert (" " + b)[1..] == b;
      assert Split(a + " " + b) == [a] + Split(b);
      assert word == a;
    } else {
      SpanUnique(WordChar, a + " " + b, word, after + " " + b);
      assert (after + " " + b)[1..] == after[1..] + " " + b;
      SplitAppend(after[1..], b);
    }
  }

  /** A space-free word splits into itself. */
  lemma SplitWord(w: string)
    requires AllIn(WordChar, w)
    ensures Split(w) == [w]
  {
    SpanUnique(WordChar, w, w, []);
  }

  /** Splitting a join of space-free words gives back the words. */
  lemma {:induction false} SplitJoin(parts: seq<string>)
    requires parts != []
    requires forall i | 0 <= i < |parts| :: AllIn(WordChar, parts[i])
    ensures Split(Join(parts)) == parts
  {
    if |parts| == 1 {
      SplitWord(parts[0]);
    } else {
      SplitJoin(parts[1..]);
      SplitWord(parts[0]);
      SplitAppend(parts[0], Join(parts[1..]));
      assert parts == [parts[0]] + parts[1..];
    }
  }

  /** Join of two non-empty lists puts one space between their joins. */
  lemma {:induction false} JoinAppend(xs: seq<string>, ys: seq<string>)
    requires xs != [] && ys != []
    ensures Join(xs + ys) == Join(xs) + " " + Join(ys)
  {
    if |xs| == 1 {
      assert (xs + ys)[1..] == ys;
    } else {
      JoinAppend(xs[1..], ys);
      assert (xs + ys)[1..] == xs[1..] + ys;
    }
  }
}

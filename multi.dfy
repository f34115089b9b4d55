/** The repetition combinators `fold_many0` and `fold_many1` as the parser
    uses them: a parser applied again and again to what it leaves, until it
    stops matching or panics. The fold proper (what is done with each item)
    belongs to the callers; this module describes the run of items. */
module Multi {
  import opened Lexer
  import opened Records

  /** The parser consumes input whenever it succeeds, so repeating it
      terminates (nom rejects a repeated parser that consumes nothing). */
  ghost predicate Consumes<T>(parse: string -> Parsed<T>) {
    forall s :: parse(s).Done? ==> |parse(s).rest| < |s|
  }

  /** The items matched at the start of a text, the text after them, and the
      panic that stopped the repetition, if one did. */
  datatype Run<T> = Run(items: seq<T>, rest: string, stop: Option<PanicReason>)

  /** The run `parse` matches at the start of `input`, as far as it goes: it
      ends at the first text `parse` does not match, or where it panics. */
  function ScanRun<T>(parse: string -> Parsed<T>, input: string): (r: Run<T>)
    requires Consumes(parse)
    ensures |r.rest| <= |input|
    ensures r.items != [] ==> |r.rest| < |input|
    decreases |input|
  {
    match parse(input)
    case Done(x, rest) =>
      var run := ScanRun(parse, rest);
      Run([x] + run.items, run.rest, run.stop)
    case NoMatch => Run([], input, None)
    case Panic(reason) => Run([], input, Some(reason))
  }

  /** The run is maximal: the text after it does not start with a match, and
      when a panic stopped it, the text after it is where `parse` panics. */
  lemma {:induction false} ScanRunEnd<T>(parse: string -> Parsed<T>, input: string)
    requires Consumes(parse)
    ensures var run := ScanRun(parse, input);
            if run.stop.Some? then parse(run.rest) == Panic(run.stop.value)
            else parse(run.rest).NoMatch?
    decreases |input|
  {
    if parse(input).Done? {
      ScanRunEnd(parse, parse(input).rest);
    }
  }

  /** The run of `input` is `seen` followed by the run of `rest`: the loop
      invariant of every fold over a run. */
  ghost predicate Continues<T>(parse: string -> Parsed<T>, input: string, seen: seq<T>, rest: string)
    requires Consumes(parse)
  {
    ScanRun(parse, input) ==
      Run(seen + ScanRun(parse, rest).items, ScanRun(parse, rest).rest, ScanRun(parse, rest).stop)
  }

  /** Every text continues its own run from nothing seen. */
  lemma RunStart<T>(parse: string -> Parsed<T>, input: string)
    requires Consumes(parse)
    ensures Continues(parse, input, [], input)
  {
    assert [] + ScanRun(parse, input).items == ScanRun(parse, input).items;
  }

  /** A run that starts with a match is that match followed by the run of
      what the match leaves. */
  lemma RunFirst<T>(parse: string -> Parsed<T>, input: string, x: T, rest: string)
    requires Consumes(parse) && parse(input) == Done(x, rest)
    ensures ScanRun(parse, input) ==
      Run([x] + ScanRun(parse, rest).items, ScanRun(parse, rest).rest, ScanRun(parse, rest).stop)
  {
  }

  /** One match more: the run continues after it. */
  lemma RunStep<T>(parse: string -> Parsed<T>, input: string, seen: seq<T>, rest: string)
    requires Consumes(parse) && parse(rest).Done?
    requires Continues(parse, input, seen, rest)
    ensures Continues(parse, input, seen + [parse(rest).value], parse(rest).rest)
  {
    var step := parse(rest);
    var after := ScanRun(parse, step.rest);
    assert ScanRun(parse, rest) == Run([step.value] + after.items, after.rest, after.stop);
    assert seen + ([step.value] + after.items) == (seen + [step.value]) + after.items;
  }

  /** Where the parser stops matching, the run is exactly the items seen. */
  lemma RunEnd<T>(parse: string -> Parsed<T>, input: string, seen: seq<T>, rest: string)
    requires Consumes(parse) && !parse(rest).Done?
    requires Continues(parse, input, seen, rest)
    ensures ScanRun(parse, input) ==
      Run(seen, rest, if parse(rest).Panic? then Some(parse(rest).reason) else None)
  {
    assert ScanRun(parse, rest) ==
      Run([], rest, if parse(rest).Panic? then Some(parse(rest).reason) else None);
    assert seen + [] == seen;
  }
}

/** `parse_logfile`: the whole warnings log folded, line by line, into one
    state. Each step tries the record grammars in a fixed order (state
    transition, relic id, roster run, any other line); the fragments they
    yield are merged into the accumulator, last write winning field by field. */
module Logfile {
  import opened Lexer
  import opened LogState
  import opened Records
  import opened Multi
  import opened Roster

  /** One step of the top-level `alt`: a fragment from a record grammar, or
      `None` for a line no record grammar recognises. */
  function Item(input: string): (r: Parsed<Option<LogfileState>>)
    ensures r.Done? ==> |r.rest| < |input|
  {
    match ParseStateTransition(input)
    case Some((fragment, rest)) => Done(Some(fragment), rest)
    case None =>
      match ParsePlayerRelicId(input)
      case Some((fragment, rest)) => Done(Some(fragment), rest)
      case None =>
        match PlayersOutcome(input)
        case Done(teams, rest) => Done(Some(LogfileState(None, Some(teams), None)), rest)
        case Panic(reason) => Panic(reason)
        case NoMatch =>
          match SplitLine(input)
          case Some((_, rest)) => Done(None, rest)
          case None => NoMatch
  }

  lemma ItemConsumes()
    ensures Consumes(Item)
  {
  }

  /** The items of the log, from its start for as long as a step matches. */
  function ItemRun(input: string): Run<Option<LogfileState>> {
    ItemConsumes();
    ScanRun(Item, input)
  }

  /** The fold closure: a fragment is merged in, `None` changes nothing. */
  function Absorb(acc: LogfileState, item: Option<LogfileState>): (r: LogfileState)
    ensures forall f: Field :: item.Some? && item.value.Sets(f) ==> r.Agrees(item.value, f)
    ensures forall f: Field :: !(item.Some? && item.value.Sets(f)) ==> r.Agrees(acc, f)
  {
    if item.Some? then acc.Merge(item.value) else acc
  }

  /** The fold of `items` from the unset state, in order. */
  function Accumulate(items: seq<Option<LogfileState>>): LogfileState {
    if items == [] then Unset
    else Absorb(Accumulate(items[..|items| - 1]), items[|items| - 1])
  }

  /** What `parse_logfile` returns: the panic that stopped the fold, or the
      folded state and the text no step matched. `fold_many0` cannot fail. */
  function LogfileOutcome(input: string): (r: Parsed<LogfileState>)
    ensures !r.NoMatch?
    ensures r.Done? ==> |r.rest| <= |input|
  {
    var run := ItemRun(input);
    if run.stop.Some? then Panic(run.stop.value) else Done(Accumulate(run.items), run.rest)
  }

  /** One step of the fold, in the order of the `alt`. */
  method NextItem(input: string) returns (r: Parsed<Option<LogfileState>>)
    ensures r == Item(input)
  {
    var transition := ParseStateTransition(input);
    if transition.Some? {
      return Done(Some(transition.value.0), transition.value.1);
    }
    var relic := ParsePlayerRelicId(input);
    if relic.Some? {
      return Done(Some(relic.value.0), relic.value.1);
    }
    var players := ParsePlayers(input);
    match players {
      case Done(teams, rest) =>
        return Done(Some(LogfileState(None, Some(teams), None)), rest);
      case Panic(reason) =>
        return Panic(reason);
      case NoMatch =>
    }
    var line := SplitLine(input);
    if line.Some? {
      return Done(None, line.value.1);
    }
    return NoMatch;
  }

  /** `parse_logfile`: starts from the unset state and merges every fragment
      into it in place, in the order of the lines. */
  method ParseLogfile(input: string) returns (r: Parsed<LogfileState>)
    ensures r == LogfileOutcome(input)
  {
    ItemConsumes();
    RunStart(Item, input);
    var acc := new StateAccumulator();
    var rest := input;
    var step := NextItem(rest);
    ghost var seen: seq<Option<LogfileState>> := [];
    while step.Done?
      invariant step == Item(rest)
      invariant Continues(Item, input, seen, rest)
      invariant acc.Snapshot() == Accumulate(seen)
      decreases |rest|
    {
      RunStep(Item, input, seen, rest);
      AccumulateStep(seen, step.value);
      if step.value.Some? {
        acc.Merge(step.value.value);
      }
      seen := seen + [step.value];
      rest := step.rest;
      step := NextItem(rest);
    }
    RunEnd(Item, input, seen, rest);
    if step.Panic? {
      return Panic(step.reason);
    }
    return Done(acc.Snapshot(), rest);
  }

  // ---- the fold -------------------------------------------------------------

  lemma AccumulateStep(items: seq<Option<LogfileState>>, item: Option<LogfileState>)
    ensures Accumulate(items + [item]) == Absorb(Accumulate(items), item)
  {
    assert (items + [item])[..|items|] == items;
  }

  /** Folding a concatenation is merging the folds of its parts, so a log
      read in pieces and merged piece by piece gives the state of the whole. */
  lemma {:induction false} AccumulateAppend(a: seq<Option<LogfileState>>, b: seq<Option<LogfileState>>)
    ensures Accumulate(a + b) == Accumulate(a).Merge(Accumulate(b))
    decreases |b|
  {
    if b == [] {
      assert a + b == a;
      MergeUnit(Accumulate(a));
    } else {
      var init, last := b[..|b| - 1], b[|b| - 1];
      assert a + b == (a + init) + [last];
      assert b == init + [last];
      AccumulateStep(a + init, last);
      AccumulateStep(init, last);
      AccumulateAppend(a, init);
      if last.Some? {
        MergeAssociative(Accumulate(a), Accumulate(init), last.value);
      }
    }
  }

  /** Steps that yield no fragment leave the state as it was. */
  lemma SkipNone(a: seq<Option<LogfileState>>, b: seq<Option<LogfileState>>)
    ensures Accumulate(a + [None] + b) == Accumulate(a + b)
  {
    AccumulateAppend(a + [None], b);
    AccumulateStep(a, None);
    AccumulateAppend(a, b);
  }

  /** The last fragment that sets a field decides that field. */
  lemma {:induction false} LastWriterWins(items: seq<Option<LogfileState>>, i: nat, f: Field)
    requires i < |items| && items[i].Some? && items[i].value.Sets(f)
    requires forall j | i < j < |items| :: items[j].None? || !items[j].value.Sets(f)
    ensures Accumulate(items).Agrees(items[i].value, f)
    decreases |items|
  {
    var init, last := items[..|items| - 1], items[|items| - 1];
    if i < |items| - 1 {
      LastWriterWins(init, i, f);
    }
  }

  /** A field no fragment sets stays unset. */
  lemma {:induction false} UnsetStaysUnset(items: seq<Option<LogfileState>>, f: Field)
    requires forall j | 0 <= j < |items| :: items[j].None? || !items[j].value.Sets(f)
    ensures !Accumulate(items).Sets(f)
    decreases |items|
  {
    if items != [] {
      UnsetStaysUnset(items[..|items| - 1], f);
    }
  }

  // ---- what one step consumes -------------------------------------------------

  /** A step matches exactly when the text starts with a terminated line: a
      text that does not is where the fold stops (a lone `\r` stops it too,
      even with a terminated line after it). */
  lemma ItemNoMatch(input: string)
    ensures Item(input).NoMatch? <==> SplitLine(input).None?
  {
    if SplitLine(input).None? {
      NoLineNoPlayers(input);
    }
  }

  /** Without a complete non-empty line there is no roster run. */
  lemma NoLineNoPlayers(input: string)
    requires TakeLine(input).None?
    ensures PlayersOutcome(input).NoMatch?
  {
    ParsePlayerLine(input);
    ParsePlayerConsumes();
    assert ScanRun(ParsePlayer, input) == Run([], input, None);
  }

  /** The branches of the `alt`, in order. A transition line yields its
      fragment, which sets the game state only. */
  lemma TransitionItem(input: string)
    requires ParseStateTransition(input).Some?
    ensures Item(input) == Done(Some(ParseStateTransition(input).value.0), ParseStateTransition(input).value.1)
  {
  }

  /** A relic-id line that is not a transition line yields its fragment,
      which sets the relic id only. */
  lemma RelicItem(input: string)
    requires ParseStateTransition(input).None? && ParsePlayerRelicId(input).Some?
    ensures Item(input) == Done(Some(ParsePlayerRelicId(input).value.0), ParsePlayerRelicId(input).value.1)
  {
  }

  /** Otherwise a roster run yields a fragment that sets the teams only. */
  lemma RosterRunItem(input: string)
    requires ParseStateTransition(input).None? && ParsePlayerRelicId(input).None?
    requires PlayersOutcome(input).Done?
    ensures Item(input) ==
      Done(Some(LogfileState(None, Some(PlayersOutcome(input).value), None)), PlayersOutcome(input).rest)
  {
  }

  /** A line that is neither a transition, a relic id nor a roster entry is
      consumed as a whole and yields nothing. */
  lemma UnrecognisedLine(line: string, ending: string, rest: string)
    requires AllIn(LineChar, line) && (ending == "\n" || ending == "\r\n")
    requires StateTransitionOfLine(line).None? && RelicIdOfLine(line).None?
    requires PlayerOfLine(line).NoMatch?
    ensures Item(line + ending + rest) == Done(None, rest)
  {
    var input := line + ending + rest;
    SplitLineOf(line, ending, rest);
    ParsePlayerLine(input);
    assert PlayerRun(input) == Run([], input, None);
  }

  // ---- the fold as a whole ----------------------------------------------------

  /** Only terminated lines are consumed: what the fold leaves does not start
      with a terminated line. */
  lemma RestHasNoLine(input: string)
    requires LogfileOutcome(input).Done?
    ensures SplitLine(LogfileOutcome(input).rest).None?
  {
    ItemConsumes();
    ScanRunEnd(Item, input);
    ItemNoMatch(ItemRun(input).rest);
  }

  /** A text without a complete line yields the unset state and is left whole. */
  lemma NoLineNoState(input: string)
    requires SplitLine(input).None?
    ensures LogfileOutcome(input) == Done(Unset, input)
  {
    ItemNoMatch(input);
    assert ItemRun(input) == Run([], input, None);
  }

  /** An unrecognised line in front of a log changes neither the state nor
      what is left over. */
  lemma UnrecognisedLineIsSkipped(line: string, ending: string, rest: string)
    requires AllIn(LineChar, line) && (ending == "\n" || ending == "\r\n")
    requires StateTransitionOfLine(line).None? && RelicIdOfLine(line).None?
    requires PlayerOfLine(line).NoMatch?
    ensures LogfileOutcome(line + ending + rest) == LogfileOutcome(rest)
  {
    UnrecognisedLine(line, ending, rest);
    SkippedStep(line + ending + rest, rest);
  }

  /** A step that yields no fragment leaves the outcome to the rest. */
  lemma SkippedStep(input: string, rest: string)
    requires Item(input) == Done(None, rest)
    ensures LogfileOutcome(input) == LogfileOutcome(rest)
  {
    OutcomeStep(input, None, rest);
    if LogfileOutcome(rest).Done? {
      MergeUnit(LogfileOutcome(rest).value);
    }
  }

  /** The fold one step at a time: a log whose first step yields `x` ends in
      the state of the rest of the log merged over the fragment `x`, or in the
      panic of the rest. */
  lemma OutcomeStep(input: string, x: Option<LogfileState>, rest: string)
    requires Item(input) == Done(x, rest)
    ensures LogfileOutcome(input) ==
      match LogfileOutcome(rest)
      case Done(state, left) => Done(Absorb(Unset, x).Merge(state), left)
      case other => other
  {
    ItemConsumes();
    var after := ItemRun(rest);
    RunFirst(Item, input, x, rest);
    AccumulateAppend([x], after.items);
    AccumulateStep([], x);
    assert [] + [x] == [x];
  }

  // ---- when the fold cannot panic ---------------------------------------------

  /** A line on which the roster grammar neither panics nor finds a player on
      a team other than 0 or 1. */
  predicate SafeLine(line: string) {
    match PlayerOfLine(line)
    case Panic(_) => false
    case Done(p, _) => p.team <= 1
    case NoMatch => true
  }

  /** Every complete line of the text is safe. */
  predicate SafeLines(s: string)
    decreases |s|
  {
    match SplitLine(s)
    case None => true
    case Some((line, rest)) => SafeLine(line) && SafeLines(rest)
  }

  /** Over safe lines a roster run neither panics nor holds an unknown team,
      and the text after it is safe. */
  lemma {:induction false} RunSafe(s: string)
    requires SafeLines(s)
    ensures var run := PlayerRun(s);
            run.stop.None? && FirstInvalidTeam(run.items).None? && SafeLines(run.rest)
    decreases |s|
  {
    ParsePlayerConsumes();
    ParsePlayerLine(s);
    match ParsePlayer(s)
    case Done(p, rest) =>
      RunSafe(rest);
      var after := PlayerRun(rest);
      assert PlayerRun(s) == Run([p] + after.items, after.rest, after.stop);
      FirstInvalidTeamAppend([p], after.items);
    case Panic(_) =>
      assert false;
    case NoMatch =>
      assert PlayerRun(s) == Run([], s, None);
  }

  /** Over safe lines a step does not panic and leaves safe lines. */
  lemma ItemSafe(s: string)
    requires SafeLines(s)
    ensures !Item(s).Panic?
    ensures Item(s).Done? ==> SafeLines(Item(s).rest)
  {
    if ParseStateTransition(s).Some? || ParsePlayerRelicId(s).Some? {
      assert Item(s).rest == SplitLine(s).value.1;
    } else if !PlayersOutcome(s).NoMatch? {
      RunSafe(s);
      assert Item(s) == Done(Some(LogfileState(None, Some(PlayersOutcome(s).value), None)), PlayerRun(s).rest);
    } else if SplitLine(s).Some? {
      assert Item(s).rest == SplitLine(s).value.1;
    }
  }

  /** `parse_logfile` succeeds on every log whose lines are safe. */
  lemma {:induction false} NeverPanics(s: string)
    requires SafeLines(s)
    ensures LogfileOutcome(s).Done?
    decreases |s|
  {
    ItemConsumes();
    ItemSafe(s);
    if Item(s).Done? {
      NeverPanics(Item(s).rest);
    }
  }
}

/** Whole logs: how runs of written lines are folded, and concrete logs
    worked through from the first line to the final state. */
module Scenarios {
  import opened Lexer
  import opened LogState
  import opened Header
  import opened Records
  import opened Multi
  import opened Roster
  import opened Logfile
  import opened LogFormat

  // ---- terminated lines ---------------------------------------------------------

  /** Lines, each followed by `\n`. */
  function Unlines(lines: seq<string>): string {
    if lines == [] then [] else lines[0] + "\n" + Unlines(lines[1..])
  }

  lemma UnlinesCons(lines: seq<string>, rest: string)
    requires lines != []
    ensures Unlines(lines) + rest == lines[0] + "\n" + (Unlines(lines[1..]) + rest)
  {
  }

  /** Every structured line is non-empty, so it is a line `take_line` accepts. */
  lemma TakeLineOf(line: string, rest: string)
    requires AllIn(LineChar, line) && ParseHeader(line).Some?
    ensures TakeLine(line + "\n" + rest) == Some((line, rest))
  {
    SplitLineOf(line, "\n", rest);
  }

  // ---- one step over written lines ------------------------------------------------

  /** A roster line in front of a text is parsed as its player. */
  lemma PlayerStep(line: string, rest: string)
    requires AllIn(LineChar, line) && PlayerOfLine(line).Done?
    ensures ParsePlayer(line + "\n" + rest) == Done(PlayerOfLine(line).value, rest)
  {
    TakeLineOf(line, rest);
  }

  /** Each line holds no terminator and is a roster entry for the player at
      the same place. */
  predicate RosterLines(lines: seq<string>, players: seq<PlayerData>) {
    |lines| == |players| &&
    (lines != [] ==>
      AllIn(LineChar, lines[0]) && PlayerOfLine(lines[0]) == Done(players[0], []) &&
      RosterLines(lines[1..], players[1..]))
  }

  /** Consecutive roster lines followed by a text that does not start with one
      are one run, holding their players in order. */
  lemma {:induction false} RosterRun(lines: seq<string>, players: seq<PlayerData>, rest: string)
    requires RosterLines(lines, players)
    requires ParsePlayer(rest).NoMatch?
    ensures PlayerRun(Unlines(lines) + rest) == Run(players, rest, None)
  {
    if lines == [] {
      ParsePlayerConsumes();
      assert Unlines(lines) + rest == rest;
    } else {
      var tail := Unlines(lines[1..]) + rest;
      UnlinesCons(lines, rest);
      PlayerStep(lines[0], tail);
      RosterRun(lines[1..], players[1..], rest);
      PlayerRunCons(lines[0] + "\n" + tail, players[0], tail);
      HeadTail(players);
    }
  }

  /** A run that starts with a player goes on with the run after it. */
  lemma PlayerRunCons(input: string, p: PlayerData, rest: string)
    requires ParsePlayer(input) == Done(p, rest)
    ensures PlayerRun(input) == Run([p] + PlayerRun(rest).items, PlayerRun(rest).rest, PlayerRun(rest).stop)
  {
    ParsePlayerConsumes();
  }

  lemma HeadTail<T>(s: seq<T>)
    requires s != []
    ensures s == [s[0]] + s[1..]
  {
  }

  /** A transition line in front of a text is one step yielding its fragment. */
  lemma TransitionItem(line: string, rest: string)
    requires AllIn(LineChar, line) && StateTransitionOfLine(line).Some?
    ensures Item(line + "\n" + rest) == Done(StateTransitionOfLine(line), rest)
  {
    TakeLineOf(line, rest);
  }

  /** A text whose first line is neither a transition nor a relic-id line is
      passed on to the roster grammar; a run found there is one step. */
  lemma RosterStep(input: string, line: string, tail: string, teams: TeamData, rest: string)
    requires TakeLine(input) == Some((line, tail))
    requires StateTransitionOfLine(line).None? && RelicIdOfLine(line).None?
    requires PlayersOutcome(input) == Done(teams, rest)
    ensures Item(input) == Done(Some(LogfileState(None, Some(teams), None)), rest)
  {
  }

  /** A run of roster lines on teams 0 and 1 is split into the two sides. */
  lemma RosterOutcome(lines: seq<string>, players: seq<PlayerData>, rest: string)
    requires RosterLines(lines, players) && lines != []
    requires ParsePlayer(rest).NoMatch?
    requires FirstInvalidTeam(players).None?
    ensures PlayersOutcome(Unlines(lines) + rest) ==
      Done(TeamData(Side(players, 0), Side(players, 1)), rest)
  {
    RosterRun(lines, players, rest);
  }

  /** A run of roster lines, none of which is a transition or relic-id line,
      is one step yielding the teams it splits into. */
  lemma RosterItem(lines: seq<string>, players: seq<PlayerData>, rest: string)
    requires RosterLines(lines, players) && lines != []
    requires StateTransitionOfLine(lines[0]).None? && RelicIdOfLine(lines[0]).None?
    requires ParsePlayer(rest).NoMatch?
    requires FirstInvalidTeam(players).None?
    ensures Item(Unlines(lines) + rest) ==
      Done(Some(LogfileState(None, Some(TeamData(Side(players, 0), Side(players, 1))), None)), rest)
  {
    var tail := Unlines(lines[1..]) + rest;
    UnlinesCons(lines, rest);
    TakeLineOf(lines[0], tail);
    RosterOutcome(lines, players, rest);
    RosterStep(Unlines(lines) + rest, lines[0], tail, TeamData(Side(players, 0), Side(players, 1)), rest);
  }

  /** A step that panics ends the whole fold in that panic. */
  lemma OutcomePanic(input: string)
    requires Item(input).Panic?
    ensures LogfileOutcome(input) == Panic(Item(input).reason)
  {
    ItemConsumes();
  }

  /** The text after the last line holds no state. */
  lemma EmptyTail()
    ensures ParsePlayer([]).NoMatch? && LogfileOutcome([]) == Done(Unset, [])
  {
    assert Span(LineChar, []) == ([], []);
    NoLineNoState([]);
  }

  // ---- written lines --------------------------------------------------------------

  /** A roster payload is neither a state transition nor a read-bytes message. */
  lemma RosterPayloadIsNoOther(tail: string)
    ensures ParseSetState("GAME -- " + tail).None? && ParseMessage("GAME -- " + tail).None?
  {
    var text := "GAME -- " + tail;
    assert text[0] == 'G' && text[1] == 'A';
    TagMismatch("GameApp::SetState : new (", text, 1);
    TagMismatch("Read bytes [", text, 0);
  }

  /** A written roster line is neither a transition line nor a relic-id line. */
  lemma PlayerLineIsNoOther(h: Header, ai: bool, position: u8, name: string, relic: string, team: u8, faction: string)
    requires ']' !in h.timestamp && h.id < USIZE_BOUND
    ensures var line := HeaderText(h, PlayerText(ai, position, name, relic, team, faction));
            StateTransitionOfLine(line).None? && RelicIdOfLine(line).None?
  {
    var text := PlayerText(ai, position, name, relic, team, faction);
    HeaderRoundTrip(h, text);
    RosterPayloadIsNoOther(AiText(ai) + (Decimal(position) + (" " + DetailsText(name, relic, Decimal(team), faction))));
  }

  // ---- whole logs -----------------------------------------------------------------

  /** A log of one transition line ends in the state the transition names, and
      nothing else is set. */
  lemma TransitionLog(h: Header, newState: string, oldState: string)
    requires ']' !in h.timestamp && h.id < USIZE_BOUND
    requires ')' !in newState && ')' !in oldState
    requires AllIn(LineChar, HeaderText(h, SetStateText(newState, oldState)))
    ensures LogfileOutcome(HeaderText(h, SetStateText(newState, oldState)) + "\n") ==
      Done(LogfileState(Some(FromState(newState)), None, None), [])
  {
    var line := HeaderText(h, SetStateText(newState, oldState));
    var fragment := LogfileState(Some(FromState(newState)), None, None);
    HeaderRoundTrip(h, SetStateText(newState, oldState));
    TransitionLine(h, newState, oldState);
    TransitionItem(line, []);
    assert line + "\n" + [] == line + "\n";
    OutcomeStep(line + "\n", Some(fragment), []);
    EmptyTail();
    MergeUnit(fragment);
  }

  /** A log made of one run of roster lines ends in the two sides of the run,
      and nothing else is set. */
  lemma RosterLog(lines: seq<string>, players: seq<PlayerData>)
    requires RosterLines(lines, players) && lines != []
    requires StateTransitionOfLine(lines[0]).None? && RelicIdOfLine(lines[0]).None?
    requires FirstInvalidTeam(players).None?
    ensures LogfileOutcome(Unlines(lines)) ==
      Done(LogfileState(None, Some(TeamData(Side(players, 0), Side(players, 1))), None), [])
  {
    var fragment := LogfileState(None, Some(TeamData(Side(players, 0), Side(players, 1))), None);
    EmptyTail();
    RosterItem(lines, players, []);
    assert Unlines(lines) + [] == Unlines(lines);
    OutcomeStep(Unlines(lines), Some(fragment), []);
    MergeUnit(fragment);
  }

  /** Two roster lines, of teams 0 and 1, put one player on each side. */
  lemma TwoLinesLog(line0: string, p0: PlayerData, line1: string, p1: PlayerData)
    requires AllIn(LineChar, line0) && PlayerOfLine(line0) == Done(p0, [])
    requires AllIn(LineChar, line1) && PlayerOfLine(line1) == Done(p1, [])
    requires StateTransitionOfLine(line0).None? && RelicIdOfLine(line0).None?
    requires p0.team == 0 && p1.team == 1
    ensures LogfileOutcome(Unlines([line0, line1])) ==
      Done(LogfileState(None, Some(TeamData([p0], [p1])), None), [])
  {
    OneRosterLine(line1, p1);
    RosterLinesCons(line0, p0, [line1], [p1]);
    PairOf(line0, line1);
    PairOf(p0, p1);
    SidesOfTwo(p0, p1);
    RosterLog([line0, line1], [p0, p1]);
  }

  lemma OneRosterLine(line: string, p: PlayerData)
    requires AllIn(LineChar, line) && PlayerOfLine(line) == Done(p, [])
    ensures RosterLines([line], [p])
  {
    RosterLinesCons(line, p, [], []);
    assert [line] + [] == [line];
    assert [p] + [] == [p];
  }

  lemma PairOf<T>(x: T, y: T)
    ensures [x] + [y] == [x, y]
  {
  }

  lemma RosterLinesCons(line: string, p: PlayerData, lines: seq<string>, players: seq<PlayerData>)
    requires AllIn(LineChar, line) && PlayerOfLine(line) == Done(p, [])
    requires RosterLines(lines, players)
    ensures RosterLines([line] + lines, [p] + players)
  {
    ConsTail(line, lines);
    ConsTail(p, players);
  }

  lemma ConsTail<T>(x: T, s: seq<T>)
    ensures ([x] + s)[0] == x && ([x] + s)[1..] == s
  {
  }

  lemma SidesOfTwo(p0: PlayerData, p1: PlayerData)
    requires p0.team == 0 && p1.team == 1
    ensures FirstInvalidTeam([p0, p1]).None?
    ensures Side([p0, p1], 0) == [p0] && Side([p0, p1], 1) == [p1]
  {
    assert [p0, p1][1..] == [p1];
  }

  /** A human on team 0 and an AI on team 1, written on consecutive lines, end
      up alone on the left and alone on the right. */
  lemma TwoPlayersLog(h: Header, name0: string, relic0: string, faction0: string,
                      name1: string, relic1: string, faction1: string)
    requires ']' !in h.timestamp && h.id < USIZE_BOUND
    requires ReadableName(name0, relic0) && ReadableName(name1, relic1)
    requires AllIn(WordChar, relic0) && AllIn(WordChar, faction0) && faction0 != []
    requires AllIn(WordChar, relic1) && AllIn(WordChar, faction1) && faction1 != []
    requires AllIn(LineChar, HeaderText(h, PlayerText(false, 0, name0, relic0, 0, faction0)))
    requires AllIn(LineChar, HeaderText(h, PlayerText(true, 1, name1, relic1, 1, faction1)))
    ensures var p0 := PlayerData(false, faction0, RelicIdOf(relic0), name0, 0, 0);
            var p1 := PlayerData(true, faction1, RelicIdOf(relic1), name1, 1, 1);
            LogfileOutcome(Unlines([HeaderText(h, PlayerText(false, 0, name0, relic0, 0, faction0)),
                                    HeaderText(h, PlayerText(true, 1, name1, relic1, 1, faction1))])) ==
              Done(LogfileState(None, Some(TeamData([p0], [p1])), None), [])
  {
    PlayerLine(h, false, 0, name0, relic0, 0, faction0);
    PlayerLine(h, true, 1, name1, relic1, 1, faction1);
    PlayerLineIsNoOther(h, false, 0, name0, relic0, 0, faction0);
    TwoLinesLog(HeaderText(h, PlayerText(false, 0, name0, relic0, 0, faction0)),
                PlayerData(false, faction0, RelicIdOf(relic0), name0, 0, 0),
                HeaderText(h, PlayerText(true, 1, name1, relic1, 1, faction1)),
                PlayerData(true, faction1, RelicIdOf(relic1), name1, 1, 1));
  }

  /** A roster line naming a team other than 0 or 1 makes the whole parse
      panic, whatever follows it. */
  lemma InvalidTeamLog(h: Header, ai: bool, position: u8, name: string, relic: string, team: u8,
                       faction: string, rest: string)
    requires ']' !in h.timestamp && h.id < USIZE_BOUND
    requires ReadableName(name, relic)
    requires AllIn(WordChar, relic) && AllIn(WordChar, faction) && faction != []
    requires AllIn(LineChar, HeaderText(h, PlayerText(ai, position, name, relic, team, faction)))
    requires team > 1
    ensures LogfileOutcome(HeaderText(h, PlayerText(ai, position, name, relic, team, faction)) + "\n" + rest) ==
      Panic(InvalidTeam(team))
  {
    var line := HeaderText(h, PlayerText(ai, position, name, relic, team, faction));
    var input := line + "\n" + rest;
    var p := PlayerData(ai, faction, RelicIdOf(relic), name, position, team);
    PlayerLine(h, ai, position, name, relic, team, faction);
    PlayerLineIsNoOther(h, ai, position, name, relic, team, faction);
    TakeLineOf(line, rest);
    InvalidFirst(input, p, rest);
    OutcomePanic(input);
  }

  /** A run whose first player is on an unknown team panics with that team. */
  lemma InvalidFirst(input: string, p: PlayerData, rest: string)
    requires ParsePlayer(input) == Done(p, rest) && p.team > 1
    requires TakeLine(input).Some?
    requires StateTransitionOfLine(TakeLine(input).value.0).None?
    requires RelicIdOfLine(TakeLine(input).value.0).None?
    ensures Item(input) == Panic(InvalidTeam(p.team))
  {
    ParsePlayerConsumes();
    var after := PlayerRun(rest);
    assert PlayerRun(input) == Run([p] + after.items, after.rest, after.stop);
    FirstInvalidTeamAppend([p], after.items);
  }

  /** A line no grammar recognises between two runs of roster lines splits
      them: the later run replaces the teams of the earlier one, whose players
      are lost. */
  lemma SplitRunLog(lines1: seq<string>, players1: seq<PlayerData>, other: string,
                    lines2: seq<string>, players2: seq<PlayerData>)
    requires RosterLines(lines1, players1) && lines1 != []
    requires StateTransitionOfLine(lines1[0]).None? && RelicIdOfLine(lines1[0]).None?
    requires FirstInvalidTeam(players1).None?
    requires AllIn(LineChar, other)
    requires StateTransitionOfLine(other).None? && RelicIdOfLine(other).None?
    requires PlayerOfLine(other).NoMatch?
    requires RosterLines(lines2, players2) && lines2 != []
    requires StateTransitionOfLine(lines2[0]).None? && RelicIdOfLine(lines2[0]).None?
    requires FirstInvalidTeam(players2).None?
    ensures LogfileOutcome(Unlines(lines1) + (other + "\n" + Unlines(lines2))) ==
      Done(LogfileState(None, Some(TeamData(Side(players2, 0), Side(players2, 1))), None), [])
  {
    var tail := other + "\n" + Unlines(lines2);
    var first := LogfileState(None, Some(TeamData(Side(players1, 0), Side(players1, 1))), None);
    OtherLineEndsRun(other, Unlines(lines2));
    RosterItem(lines1, players1, tail);
    OutcomeStep(Unlines(lines1) + tail, Some(first), tail);
    UnrecognisedLineIsSkipped(other, "\n", Unlines(lines2));
    RosterLog(lines2, players2);
  }

  /** A line the roster grammar does not recognise ends a run. */
  lemma OtherLineEndsRun(other: string, rest: string)
    requires AllIn(LineChar, other) && PlayerOfLine(other).NoMatch?
    ensures ParsePlayer(other + "\n" + rest).NoMatch?
  {
    SplitLineOf(other, "\n", rest);
    ParsePlayerLine(other + "\n" + rest);
  }

  /** A carriage return that does not begin `\r\n` ends the parse where the
      line holding it starts: nothing from that line on is read. */
  lemma LoneReturnStops(line: string, rest: string)
    requires AllIn(LineChar, line)
    requires rest == [] || rest[0] != '\n'
    ensures LogfileOutcome(line + "\r" + rest) == Done(Unset, line + "\r" + rest)
  {
    var s := line + "\r" + rest;
    assert s == line + ("\r" + rest);
    SpanUnique(LineChar, s, line, "\r" + rest);
    NoLineNoState(s);
  }
}

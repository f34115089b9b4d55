/** `parse_players`: a maximal run of consecutive roster lines folded into one
    team split, team 0 on the left and team 1 on the right, each side in the
    order of the lines. */
module Roster {
  import opened Lexer
  import opened LogState
  import opened Records
  import opened Multi

  /** `parse_player`: a non-empty terminated line holding a roster entry;
      consumes exactly that line. */
  function ParsePlayer(input: string): (r: Parsed<PlayerData>)
    ensures r.Done? ==> |r.rest| < |input|
  {
    match TakeLine(input)
    case None => NoMatch
    case Some((line, rest)) =>
      match PlayerOfLine(line)
      case Done(p, _) => Done(p, rest)
      case NoMatch => NoMatch
      case Panic(reason) => Panic(reason)
  }

  /** A roster line is recognised or rejected as a whole: the parse succeeds
      or panics exactly as the line's own parse does, and consumes that line. */
  lemma ParsePlayerLine(input: string)
    ensures ParsePlayer(input).NoMatch? <==>
      TakeLine(input).None? || PlayerOfLine(TakeLine(input).value.0).NoMatch?
    ensures ParsePlayer(input).Done? ==>
      PlayerOfLine(TakeLine(input).value.0).Done? &&
      PlayerOfLine(TakeLine(input).value.0).value == ParsePlayer(input).value &&
      ParsePlayer(input).rest == TakeLine(input).value.1
    ensures ParsePlayer(input).Panic? ==>
      PlayerOfLine(TakeLine(input).value.0) == Panic(ParsePlayer(input).reason)
  {
  }

  lemma ParsePlayerConsumes()
    ensures Consumes(ParsePlayer)
  {
  }

  /** The run of roster lines at the start of `input`. */
  function PlayerRun(input: string): Run<PlayerData> {
    ParsePlayerConsumes();
    ScanRun(ParsePlayer, input)
  }

  /** The players of team `team`, in order. */
  function Side(players: seq<PlayerData>, team: u8): (r: seq<PlayerData>)
    ensures |r| <= |players|
    ensures forall p :: p in r <==> p in players && p.team == team
  {
    if players == [] then []
    else (if players[0].team == team then [players[0]] else []) + Side(players[1..], team)
  }

  /** The team of the first player on neither team 0 nor team 1. */
  function FirstInvalidTeam(players: seq<PlayerData>): (r: Option<u8>)
    ensures r.None? <==> forall i | 0 <= i < |players| :: players[i].team <= 1
    ensures r.Some? ==> r.value > 1 && exists i | 0 <= i < |players| :: players[i].team == r.value
  {
    if players == [] then None
    else if players[0].team > 1 then Some(players[0].team)
    else
      var r := FirstInvalidTeam(players[1..]);
      assert forall i | 1 <= i < |players| :: players[i] == players[1..][i - 1];
      r
  }

  /** What `parse_players` returns: a panic at the first player on an unknown
      team, else the panic that ended the run, else a recoverable failure for
      an empty run, else the two sides and the text after the run. */
  function PlayersOutcome(input: string): (r: Parsed<TeamData>)
    ensures r.Done? ==> |r.rest| < |input|
  {
    var run := PlayerRun(input);
    match FirstInvalidTeam(run.items)
    case Some(team) => Panic(InvalidTeam(team))
    case None =>
      if run.stop.Some? then Panic(run.stop.value)
      else if run.items == [] then NoMatch
      else Done(TeamData(Side(run.items, 0), Side(run.items, 1)), run.rest)
  }

  /** `parse_players`: folds the run line by line, pushing each player onto the
      side its team names and panicking on any other team. */
  method ParsePlayers(input: string) returns (r: Parsed<TeamData>)
    ensures r == PlayersOutcome(input)
  {
    ParsePlayerConsumes();
    RunStart(ParsePlayer, input);
    var left: seq<PlayerData> := [];
    var right: seq<PlayerData> := [];
    var rest := input;
    var step := ParsePlayer(rest);
    var matched := false;
    ghost var seen: seq<PlayerData> := [];
    while step.Done?
      invariant step == ParsePlayer(rest)
      invariant Continues(ParsePlayer, input, seen, rest)
      invariant FirstInvalidTeam(seen).None?
      invariant left == Side(seen, 0) && right == Side(seen, 1)
      invariant matched <==> seen != []
      decreases |rest|
    {
      var p := step.value;
      if p.team > 1 {
        InvalidStops(ParsePlayer, input, seen, rest);
        return Panic(InvalidTeam(p.team));
      }
      RunStep(ParsePlayer, input, seen, rest);
      SidesStep(seen, p);
      if p.team == 0 {
        left := left + [p];
      } else {
        right := right + [p];
      }
      seen := seen + [p];
      matched := true;
      rest := step.rest;
      step := ParsePlayer(rest);
    }
    RunEnd(ParsePlayer, input, seen, rest);
    if step.Panic? {
      return Panic(step.reason);
    }
    if !matched {
      return NoMatch;
    }
    return Done(TeamData(left, right), rest);
  }

  /** A player on neither team makes the fold panic, whatever follows. */
  lemma InvalidStops(parse: string -> Parsed<PlayerData>, input: string, seen: seq<PlayerData>, rest: string)
    requires Consumes(parse) && parse(rest).Done? && parse(rest).value.team > 1
    requires Continues(parse, input, seen, rest)
    requires FirstInvalidTeam(seen).None?
    ensures FirstInvalidTeam(ScanRun(parse, input).items) == Some(parse(rest).value.team)
  {
    var step := parse(rest);
    RunStep(parse, input, seen, rest);
    FirstInvalidTeamAppend(seen, [step.value]);
    FirstInvalidTeamAppend(seen + [step.value], ScanRun(parse, step.rest).items);
  }

  /** Pushing a player of team 0 or 1 onto its side. */
  lemma SidesStep(seen: seq<PlayerData>, p: PlayerData)
    requires FirstInvalidTeam(seen).None? && p.team <= 1
    ensures FirstInvalidTeam(seen + [p]).None?
    ensures Side(seen + [p], 0) == Side(seen, 0) + (if p.team == 0 then [p] else [])
    ensures Side(seen + [p], 1) == Side(seen, 1) + (if p.team == 1 then [p] else [])
  {
    FirstInvalidTeamAppend(seen, [p]);
    SideAppend(seen, [p], 0);
    SideAppend(seen, [p], 1);
  }

  // ---- properties of the split ----------------------------------------------

  /** The split distributes over concatenation, so each side keeps the order
      of the lines. */
  lemma {:induction false} SideAppend(a: seq<PlayerData>, b: seq<PlayerData>, team: u8)
    ensures Side(a + b, team) == Side(a, team) + Side(b, team)
  {
    if a != [] {
      SideAppend(a[1..], b, team);
      assert (a + b)[1..] == a[1..] + b;
    } else {
      assert a + b == b;
    }
  }

  /** A side holds exactly the players of its team. */
  lemma {:induction false} SideMembers(players: seq<PlayerData>, team: u8, p: PlayerData)
    ensures p in Side(players, team) <==> p in players && p.team == team
  {
    if players != [] {
      SideMembers(players[1..], team, p);
      assert players == [players[0]] + players[1..];
    }
  }

  /** When every team is 0 or 1 the two sides together hold every player of
      the run, each once. */
  lemma {:induction false} SidesPartition(players: seq<PlayerData>)
    requires FirstInvalidTeam(players).None?
    ensures multiset(Side(players, 0)) + multiset(Side(players, 1)) == multiset(players)
  {
    if players != [] {
      SidesPartition(players[1..]);
      assert players == [players[0]] + players[1..];
    }
  }

  /** The first unknown team of a concatenation is found in the first part if
      it has one. */
  lemma {:induction false} FirstInvalidTeamAppend(a: seq<PlayerData>, b: seq<PlayerData>)
    ensures FirstInvalidTeam(a + b) ==
      if FirstInvalidTeam(a).Some? then FirstInvalidTeam(a) else FirstInvalidTeam(b)
  {
    if a != [] {
      FirstInvalidTeamAppend(a[1..], b);
      assert (a + b)[1..] == a[1..] + b;
    } else {
      assert a + b == b;
    }
  }

  /** A successful roster fold puts team 0 on the left and team 1 on the right,
      loses no player of the run and adds none. */
  lemma RosterSplit(input: string)
    requires PlayersOutcome(input).Done?
    ensures var run := PlayerRun(input);
            var teams := PlayersOutcome(input).value;
            run.items != [] &&
            (forall p :: p in teams.left <==> p in run.items && p.team == 0) &&
            (forall p :: p in teams.right <==> p in run.items && p.team == 1) &&
            multiset(teams.left) + multiset(teams.right) == multiset(run.items)
  {
    var run := PlayerRun(input);
    forall p ensures p in Side(run.items, 0) <==> p in run.items && p.team == 0 {
      SideMembers(run.items, 0, p);
    }
    forall p ensures p in Side(run.items, 1) <==> p in run.items && p.team == 1 {
      SideMembers(run.items, 1, p);
    }
    SidesPartition(run.items);
  }
}

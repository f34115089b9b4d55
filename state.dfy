/** The facts the parser extracts from the warnings log: the game's lifecycle
    state, the roster split into two teams, and the local player's relic id;
    the field-wise last-write-wins merge of partial states; and the mutable
    accumulator that merges them in place. */
module LogState {
  import opened Lexer

  datatype GameState = Closed | Menu | Loading | InGame

  /** The flat lookup from the engine's state names to lifecycle states:
      three names are known and every other string means the game is closed. */
  function FromState(state: string): (g: GameState)
    ensures g == Menu <==> state == "Frontend"
    ensures g == Loading <==> state == "LoadingGame"
    ensures g == InGame <==> state == "Game"
    ensures g == Closed <==> state != "Frontend" && state != "LoadingGame" && state != "Game"
  {
    match state
    case "Frontend" => Menu
    case "LoadingGame" => Loading
    case "Game" => InGame
    case _ => Closed
  }

  /** One roster entry. */
  datatype PlayerData = PlayerData(
    ai: bool,
    faction: string,
    relicId: Option<u64>,
    name: string,
    position: u8,
    team: u8)

  /** The roster of one match: team 0 on the left, team 1 on the right. */
  datatype TeamData = TeamData(left: seq<PlayerData>, right: seq<PlayerData>)

  /** The fields of a state, each of which is independently set or unset. */
  datatype Field = GameStateField | TeamsField | RelicIdField

  /** A (partial) log state; an unset field is one no record has set yet. */
  datatype LogfileState = LogfileState(
    gameState: Option<GameState>,
    teams: Option<TeamData>,
    playerRelicId: Option<u64>)
  {
    /** Whether this state sets field `f`. */
    predicate Sets(f: Field) {
      match f
      case GameStateField => gameState.Some?
      case TeamsField => teams.Some?
      case RelicIdField => playerRelicId.Some?
    }

    /** Whether this state and `other` hold the same value in field `f`. */
    predicate Agrees(other: LogfileState, f: Field) {
      match f
      case GameStateField => gameState == other.gameState
      case TeamsField => teams == other.teams
      case RelicIdField => playerRelicId == other.playerRelicId
    }

    /** Last write wins, field by field: every field `other` sets is taken
        from `other`, every other field is kept. */
    function Merge(other: LogfileState): (r: LogfileState)
      ensures forall f: Field :: other.Sets(f) ==> r.Agrees(other, f)
      ensures forall f: Field :: !other.Sets(f) ==> r.Agrees(this, f)
    {
      LogfileState(
        if other.gameState.Some? then other.gameState else gameState,
        if other.teams.Some? then other.teams else teams,
        if other.playerRelicId.Some? then other.playerRelicId else playerRelicId)
    }
  }

  /** `LogfileState::default`: nothing observed yet. */
  const Unset := LogfileState(None, None, None)

  /** The unset state is a unit of merge on both sides. */
  lemma MergeUnit(s: LogfileState)
    ensures Unset.Merge(s) == s && s.Merge(Unset) == s
  {
  }

  /** Merging is associative, so partial results may be merged in any grouping. */
  lemma MergeAssociative(a: LogfileState, b: LogfileState, c: LogfileState)
    ensures a.Merge(b).Merge(c) == a.Merge(b.Merge(c))
  {
  }

  /** Merging the same state twice changes nothing the first merge did not. */
  lemma MergeIdempotent(a: LogfileState, b: LogfileState)
    ensures a.Merge(b).Merge(b) == a.Merge(b)
  {
  }

  /** The in-place state that the parser's fold and the file watcher merge into. */
  class StateAccumulator {
    var gameState: Option<GameState>
    var teams: Option<TeamData>
    var playerRelicId: Option<u64>

    /** The current value of the accumulator. */
    function Snapshot(): LogfileState
      reads this
    {
      LogfileState(gameState, teams, playerRelicId)
    }

    constructor ()
      ensures Snapshot() == Unset
    {
      gameState, teams, playerRelicId := None, None, None;
    }

    /** `LogfileState::merge(&mut self, other)`: overwrite the fields `other` sets. */
    method Merge(other: LogfileState)
      modifies this
      ensures Snapshot() == old(Snapshot()).Merge(other)
    {
      if other.gameState.Some? {
        gameState := other.gameState;
      }
      if other.teams.Some? {
        teams := other.teams;
      }
      if other.playerRelicId.Some? {
        playerRelicId := other.playerRelicId;
      }
    }
  }
}

# Warnings-log parser of the CoH3 stats desktop app, in Dafny

The desktop companion of Company of Heroes 3 watches the game's
`warnings.log`. Every time the file changes, it re-reads the file and pulls
three facts out of it:

- the **game state**: the last `GameApp::SetState` transition, classified
  as menu, loading, in game or closed;
- the **teams**: the last run of `GAME -- Human/AI Player:` roster lines,
  split into team 0 (left) and team 1 (right);
- the **player's relic id**: the last `Read bytes [...]` message.

The parser is a nom combinator grammar folded over the lines of the log
(`src-tauri/src/logfile.rs`). This project models that grammar and the two
folds, and proves what they compute.

Modules, one per layer of the source:

- `Lexer` (lexer.dfy): the nom primitives the grammar uses, with their exact
  edge cases. These are `tag`, `take_until` (first occurrence),
  `digit1`/`alpha1`/`space1`/`is_not` (at least one character),
  `line_ending` (`\n` or `\r\n`) and `take_line`. It also holds Rust's
  `str::parse` for unsigned integers (an optional leading `+`, no
  overflow), and the `join(" ")`/`split(' ')` pair.
- `LogState` (state.dfy): `GameState` and `from_state`, `PlayerData`,
  `TeamData`, `LogfileState` with `merge`, and the laws of `merge`. The
  class `StateAccumulator` holds a state that is merged into in place. The
  source does this in two places: the fold's accumulator and the watcher's
  shared state.
- `Header` (header.dfy): `(I)|(E) [timestamp] [id]: ` in front of every
  structured line.
- `Records` (records.dfy): the three record grammars. These are the state
  transition, the relic-id message, and the roster entry with its
  token-based name/relic/team/faction split.
- `Multi` (multi.dfy): the repetition both folds share. It is a run of
  matches that stops at the first non-match or at a panic, together with
  the lemmas that carry a loop over such a run.
- `Roster` (roster.dfy): `parse_player` and `parse_players`. The latter is
  an imperative fold pushing each player onto its side, proved against the
  function `PlayersOutcome`.
- `Logfile` (logfile.dfy): one step of the top-level `alt`, and
  `parse_logfile`. The latter is an imperative fold merging each fragment
  into a `StateAccumulator`, proved against the function
  `LogfileOutcome`. The module also proves the laws of the fold: last
  writer wins per field, skipped lines change nothing, a step at a time,
  and no panic on safe input.
- `LogFormat` (format.dfy): the shapes in which the game writes each kind of
  line. Round trips show that a line written in that shape is read back as
  the values it was written from.
- `Scenarios` (scenarios.dfy): whole logs. These are a transition line, a
  run of roster lines, a two-player roster, a roster line on an unknown
  team, and a roster run split by a line no grammar recognises.

Panics of the source become an explicit outcome, `Panic(reason)`. The
reason is one of: fewer than three tokens in a roster tail, a team token
that is not a `u8`, or a team other than 0 or 1. A panic aborts the whole
parse, as it does in the source.

Two properties a reader might expect of a log watcher do not hold of the
code, and the model follows the code:

- A roster record on a team outside {0, 1} is not dropped. The code panics
  on such a team and on a non-numeric team token, and the panic aborts the
  whole parse (`InvalidTeamLog`, `TwoWordsPanic`, `DetailsRoundTrip`).
- Unrecognised lines do not always leave the extracted state alone. A
  leading line no grammar recognises changes nothing
  (`UnrecognisedLineIsSkipped`). Inside a roster run it does change the
  result: the inserted line splits the run, and the later run replaces the
  teams of the earlier one (`SplitRunLog`).

## Model

| member | source | states |
|---|---|---|
| LogState.FromState | src-tauri/src/logfile.rs:39-46 | `"Frontend"` is Menu, `"LoadingGame"` is Loading, `"Game"` is InGame, each if and only if; every other string is Closed |
| LogState.LogfileState.Merge | src-tauri/src/logfile.rs:17-27 | every field the fragment sets is taken from the fragment; every field it leaves unset keeps its old value |
| LogState.MergeUnit | src-tauri/src/logfile.rs:17-27 | the default (all-unset) state is a unit of `merge` on both sides |
| LogState.MergeAssociative | src-tauri/src/logfile.rs:17-27 | merging is associative, so a fold of merges can be regrouped |
| LogState.MergeIdempotent | src-tauri/src/logfile.rs:17-27 | merging the same fragment twice is merging it once |
| LogState.StateAccumulator.constructor | src-tauri/src/logfile.rs:75 | a fresh accumulator holds the default state, all fields unset |
| LogState.StateAccumulator.Merge | src-tauri/src/main.rs:97 | merging in place leaves the accumulator holding the old state merged with the fragment |
| Lexer.Span1 | src-tauri/src/logfile.rs:174 | `digit1`/`space1`/`alpha1`/`is_not` succeed exactly when the first character is in the class, and return the longest non-empty run |
| Lexer.SpanUnique | src-tauri/src/logfile.rs:174 | any split into a run of the class and a rest not continuing it is the one the scanner returns |
| Lexer.Space1 | src-tauri/src/logfile.rs:231 | `space1` succeeds exactly on a leading blank; it consumes a non-empty run of blanks, and what it leaves does not start with a blank |
| Lexer.Space1Of | src-tauri/src/logfile.rs:231 | any run of blanks followed by text not starting with a blank is consumed whole, leaving that text |
| Lexer.Tag | src-tauri/src/logfile.rs:149 | `tag` succeeds exactly on a prefix match, and the input is the prefix followed by the rest |
| Lexer.TakeUntil | src-tauri/src/logfile.rs:235 | `take_until` splits right before the first occurrence of the pattern and fails when the pattern occurs nowhere |
| Lexer.TakeUntilAt | src-tauri/src/logfile.rs:235 | when the pattern starts the second part and occurs nowhere earlier, `take_until` returns exactly that split |
| Lexer.LineEnding | src-tauri/src/logfile.rs:86 | `line_ending` accepts exactly `\n` or `\r\n` |
| Lexer.SplitLine | src-tauri/src/logfile.rs:85-87 | the catch-all line: a possibly empty run of non-terminator characters and a terminator; it fails exactly when no terminator follows the run |
| Lexer.SplitLineOf | src-tauri/src/logfile.rs:85-87 | a line without terminators followed by `\n` or `\r\n` splits into that line and the text after it |
| Lexer.SplitLineExtend | src-tauri/src/logfile.rs:85-87 | appending text after a terminated line does not change the line |
| Lexer.TakeLine | src-tauri/src/logfile.rs:249-251 | `take_line` is the catch-all line when that line is non-empty, and fails otherwise |
| Lexer.ParseUnsigned | src-tauri/src/logfile.rs:174 | `str::parse::<uN>` succeeds exactly when the text, less one optional leading `+`, is a non-empty run of digits whose value is below the type's bound, and then yields that value |
| Lexer.ParseDecimal | src-tauri/src/logfile.rs:174 | printing a value that fits in decimal and parsing it back gives the value |
| Lexer.ParsePlusDecimal | src-tauri/src/logfile.rs:192 | a leading `+` in front of the digits is accepted |
| Lexer.ParseDecimalOverflow | src-tauri/src/logfile.rs:192 | a number that does not fit the type is rejected |
| Lexer.JoinSplit | src-tauri/src/logfile.rs:186-190 | joining the pieces of a single-space split gives back the text |
| Lexer.SplitJoin | src-tauri/src/logfile.rs:186-190 | splitting a join of space-free words gives back the words |
| Lexer.SplitAppend | src-tauri/src/logfile.rs:186-190 | the split of `a + " " + b` is the split of `a` followed by the split of `b` |
| Lexer.Join | src-tauri/src/logfile.rs:186-190 | `join(" ")` puts exactly one space between consecutive pieces: its length is the pieces' total plus one less than their number, it starts with the first piece, and a space follows it |
| Header.ParseIndicator | src-tauri/src/logfile.rs:230-232 | succeeds exactly when the text starts with `(I)` (Info) or `(E)` (Error) and a blank; it consumes the marker and every blank after it, and what it leaves does not start with a blank |
| Header.IndicatorOf | src-tauri/src/logfile.rs:230-232 | a severity marker and a run of blanks in front of text not starting with a blank are read back as that severity, leaving that text |
| Header.ParseTimestamp | src-tauri/src/logfile.rs:234-236 | on success the text is `[`, the timestamp (which holds no `]`), `]` and a run of blanks, followed by what is left, which does not start with a blank |
| Header.TimestampOf | src-tauri/src/logfile.rs:234-236 | every text of that shape is read back as its timestamp, leaving the text after the blanks |
| Header.ParseId | src-tauri/src/logfile.rs:238-247 | on success the text is `[`, a token that parses as a usize to the id, `]:` and a run of blanks, followed by a payload that does not start with a blank |
| Header.IdOf | src-tauri/src/logfile.rs:238-247 | every text of that shape is read back as its id, leaving the payload |
| Header.ParseHeader | src-tauri/src/logfile.rs:94 | on success the line is a severity part, a timestamp part and an id part of the shapes above, followed by a payload that does not start with a blank and is strictly shorter than the line |
| Header.HeaderOf | src-tauri/src/logfile.rs:94 | every header of that shape, in front of a payload not starting with a blank, is read back as itself with that payload |
| Records.ParseSetState | src-tauri/src/logfile.rs:107-115 | on success the text is `GameApp::SetState : new (A) old (B)` followed by what is left, and neither state name holds `)` |
| Records.SetStateOf | src-tauri/src/logfile.rs:107-115 | every such text with state names free of `)` is read back as those two names, whatever follows it |
| Records.NoCloseBefore | src-tauri/src/logfile.rs:111 | what `take_until(")")` returns holds no `)` |
| Records.StateTransitionOfLine | src-tauri/src/logfile.rs:89-105 | a line yields a fragment exactly when it has a header whose payload is a state transition; the fragment sets the game state to the class of the new state name, and nothing else |
| Records.ParseStateTransition | src-tauri/src/logfile.rs:89-105 | matches exactly when the text starts with a non-empty terminated line that is a transition line; it consumes that line and yields that line's fragment; that fragment sets the game state and nothing else |
| Records.ParseMessage | src-tauri/src/logfile.rs:217-228 | on success the text is `Read bytes [<digits>,"<letters>",<digits>` whose last number is the relic id, followed by what is left, which does not start with a digit |
| Records.MessageOf | src-tauri/src/logfile.rs:217-228 | every such text whose relic id fits a u64 is read back as that id, when no digit follows it |
| Records.RelicIdOfLine | src-tauri/src/logfile.rs:199-215 | a line yields a fragment exactly when it has a header whose payload is a read-bytes message; the fragment sets the relic id to that message's id, and nothing else |
| Records.ParsePlayerRelicId | src-tauri/src/logfile.rs:199-215 | matches exactly when the text starts with a non-empty terminated line that is a relic-id line; it consumes that line and yields that line's fragment; that fragment sets the relic id and nothing else |
| Records.ParseAi | src-tauri/src/logfile.rs:163-171 | succeeds exactly on a `Human Player: ` (a human) or `AI Player: ` (an AI) prefix, and the input is that marker followed by the rest |
| Records.AiOf | src-tauri/src/logfile.rs:163-171 | a written human/AI marker is read back, whatever follows it |
| Records.ParsePosition | src-tauri/src/logfile.rs:173-175 | on success the text is a run of digits whose value is the position, and a run of blanks, followed by what is left, which does not start with a blank |
| Records.PositionOf | src-tauri/src/logfile.rs:173-175 | every such text whose value fits a u8 is read back as that position, leaving the text after the blanks |
| Records.Tokens | src-tauri/src/logfile.rs:179-182 | the roster tail is cut into space-free tokens; there are none exactly when the tail is empty |
| Records.TokensJoin | src-tauri/src/logfile.rs:179-182 | the tokens joined with single spaces give back the tail, except for one swallowed trailing space |
| Records.TokensSplit | src-tauri/src/logfile.rs:179-182 | on a tail not ending in a space the tokens are its single-space split, empty tokens for repeated spaces included |
| Records.ParsePlayerDetails | src-tauri/src/logfile.rs:177-197 | the tail fails to match exactly when it is empty; it panics for too few tokens exactly when it has one or two tokens, and for the team exactly when it has three or more tokens and the second-to-last is not a u8; a successful parse consumes it all and has a space-free faction |
| Records.DetailsRoundTrip | src-tauri/src/logfile.rs:177-197 | a name (any text, spaces included) and three space-free tokens are read back as that name, the relic id of the relic token, the team and the faction; a team token that is not a u8 panics |
| Records.DetailsReprint | src-tauri/src/logfile.rs:183-194 | a parsed tail is its name and its last three tokens put back together; the team and relic id are those tokens parsed |
| Records.JoinLastThree | src-tauri/src/logfile.rs:186-190 | a join of at least three tokens is the join of all but the last three followed by those three |
| Records.TwoWordsPanic | src-tauri/src/logfile.rs:184-186 | a tail of only two words panics for want of a third token |
| Records.TokensOfDetails | src-tauri/src/logfile.rs:179-182 | the tokens of a written tail are the pieces of the name followed by the relic, team and faction tokens |
| Records.GamePlayer | src-tauri/src/logfile.rs:146-161 | a roster payload that matches starts with `GAME -- `, a human/AI marker and a u8 position; a player has that marker and position and the fields of the parsed tail, and a panic is the tail's panic |
| Records.GamePlayerOf | src-tauri/src/logfile.rs:146-161 | `GAME -- `, a marker, a position field and a tail not starting with a blank are read back as that marker and position and whatever the tail parses to |
| Records.PlayerOfLine | src-tauri/src/logfile.rs:136-144 | a line fails to match exactly when it has no header or its payload is not a roster payload; otherwise its outcome is that of the payload after the header |
| Multi.ScanRun | src-tauri/src/logfile.rs:68-82 | a run of matches never lengthens the text, and a run with at least one match shortens it |
| Multi.ScanRunEnd | src-tauri/src/logfile.rs:68-82 | the run is maximal: the text after it does not start with a match, and a run stopped by a panic stops exactly where the parser panics |
| Multi.RunStep | src-tauri/src/logfile.rs:119-126 | after one more match the run continues with the run of the rest |
| Multi.RunEnd | src-tauri/src/logfile.rs:119-126 | where the parser stops matching, the run is exactly the matches seen |
| Roster.ParsePlayer | src-tauri/src/logfile.rs:136-144 | a roster record shortens the text |
| Roster.ParsePlayerLine | src-tauri/src/logfile.rs:136-144 | a roster record matches, fails or panics exactly as its first non-empty line does, and consumes exactly that line |
| Roster.FirstInvalidTeam | src-tauri/src/logfile.rs:120-124 | there is no team other than 0 or 1 exactly when every player is on team 0 or 1; otherwise one player is on the reported team |
| Roster.Side | src-tauri/src/logfile.rs:120-122 | a side holds exactly the players of its team, and no more players than the run |
| Roster.PlayersOutcome | src-tauri/src/logfile.rs:117-134 | a successful roster fold shortens the text |
| Roster.ParsePlayers | src-tauri/src/logfile.rs:117-134 | the in-place fold returns the outcome of its specification: a panic at the first unknown team or at a panicking line, no match for an empty run, else the two sides and the text after the run |
| Roster.InvalidStops | src-tauri/src/logfile.rs:123 | a player on neither team makes the fold panic with that team, whatever follows |
| Roster.SidesStep | src-tauri/src/logfile.rs:120-122 | pushing a player of team 0 or 1 appends it to its own side only |
| Roster.SideAppend | src-tauri/src/logfile.rs:119-126 | the split distributes over concatenation, so each side keeps the order of the lines |
| Roster.SideMembers | src-tauri/src/logfile.rs:120-122 | a side holds exactly the players of its team |
| Roster.SidesPartition | src-tauri/src/logfile.rs:119-126 | when every team is 0 or 1, the two sides together hold every player of the run exactly once |
| Roster.FirstInvalidTeamAppend | src-tauri/src/logfile.rs:123 | the first unknown team of a concatenation is that of the first part if it has one |
| Roster.RosterSplit | src-tauri/src/logfile.rs:117-134 | a successful roster fold has at least one player; left is team 0, right is team 1, and no player is lost or added |
| Logfile.Item | src-tauri/src/logfile.rs:69-74 | every step of the fold shortens the text |
| Logfile.LogfileOutcome | src-tauri/src/logfile.rs:67-83 | `fold_many0` never fails to match, and never lengthens the text |
| Logfile.ParseLogfile | src-tauri/src/logfile.rs:67-83 | the in-place fold returns the outcome of its specification: the merge of the fragments in line order and the text no step matched, or the panic that stopped it |
| Logfile.Absorb | src-tauri/src/logfile.rs:76-81 | a fragment decides every field it sets and the accumulated state keeps every other field; no fragment changes nothing |
| Logfile.AccumulateStep | src-tauri/src/logfile.rs:76-81 | folding one more item absorbs it into the state folded so far |
| Logfile.AccumulateAppend | src-tauri/src/logfile.rs:76-81 | the fold of two runs of items is the fold of the first merged with the fold of the second |
| Logfile.SkipNone | src-tauri/src/logfile.rs:77 | a line that yields no fragment changes nothing |
| Logfile.LastWriterWins | src-tauri/src/logfile.rs:76-81 | each field of the final state is the value of the last fragment that sets it |
| Logfile.UnsetStaysUnset | src-tauri/src/logfile.rs:75-81 | a field no fragment sets stays unset |
| Logfile.ItemNoMatch | src-tauri/src/logfile.rs:69-74 | a step fails to match exactly when the text does not start with a terminated line |
| Logfile.NoLineNoPlayers | src-tauri/src/logfile.rs:117-134 | without a complete non-empty line there is no roster run |
| Logfile.TransitionItem | src-tauri/src/logfile.rs:69-74 | the `alt` tries the transition record first: when it matches, the step yields its fragment and consumes its line |
| Logfile.RelicItem | src-tauri/src/logfile.rs:69-74 | when no transition matches but the relic-id record does, the step yields the relic-id fragment and consumes its line |
| Logfile.RosterRunItem | src-tauri/src/logfile.rs:69-74 | when neither matches and a roster run does, the step yields a fragment setting the teams of that run only, and consumes the run |
| Logfile.UnrecognisedLine | src-tauri/src/logfile.rs:85-87 | a line no record grammar recognises is consumed by the catch-all and yields nothing |
| Logfile.RestHasNoLine | src-tauri/src/logfile.rs:67-83 | the text a finished fold leaves does not start with a terminated line |
| Logfile.NoLineNoState | src-tauri/src/logfile.rs:67-83 | text that does not start with a terminated line yields the default state and is left unconsumed |
| Logfile.UnrecognisedLineIsSkipped | src-tauri/src/logfile.rs:85-87 | a leading line no grammar recognises does not change the outcome of the log |
| Logfile.SkippedStep | src-tauri/src/logfile.rs:76-81 | a step that yields no fragment leaves the outcome of the log to the rest |
| Logfile.OutcomeStep | src-tauri/src/logfile.rs:67-83 | the log's outcome is the outcome of the rest merged over the first fragment, or the panic of the rest |
| Logfile.RunSafe | src-tauri/src/logfile.rs:119-126 | over lines that neither panic nor name an unknown team, a roster run does not panic |
| Logfile.ItemSafe | src-tauri/src/logfile.rs:69-74 | over such lines a step does not panic, and leaves such lines |
| Logfile.NeverPanics | src-tauri/src/logfile.rs:259-268 | parsing a log whose lines are all safe succeeds |
| LogFormat.IndicatorRoundTrip | src-tauri/src/logfile.rs:230-232 | a written severity marker is read back |
| LogFormat.TimestampRoundTrip | src-tauri/src/logfile.rs:234-236 | a written timestamp without `]` is read back |
| LogFormat.IdRoundTrip | src-tauri/src/logfile.rs:238-247 | a written id below the usize bound is read back, and the payload is left |
| LogFormat.HeaderRoundTrip | src-tauri/src/logfile.rs:230-247 | a written header is read back as itself, and the payload after it is left untouched |
| LogFormat.SetStateRoundTrip | src-tauri/src/logfile.rs:107-115 | both written state names are read back, and nothing is left over |
| LogFormat.TransitionLine | src-tauri/src/logfile.rs:89-105 | a written transition line sets the game state to the class of the new state name, and nothing else |
| LogFormat.ReadBytesRoundTrip | src-tauri/src/logfile.rs:217-228 | the last number of a written read-bytes message is read back, and the closing bracket is left over |
| LogFormat.RelicLine | src-tauri/src/logfile.rs:199-215 | a written read-bytes line sets the relic id, and nothing else |
| LogFormat.PositionRoundTrip | src-tauri/src/logfile.rs:173-175 | a written u8 position is read back |
| LogFormat.TeamDetailsRoundTrip | src-tauri/src/logfile.rs:177-197 | a written roster tail with a decimal u8 team is read back with that team |
| LogFormat.PlayerRoundTrip | src-tauri/src/logfile.rs:146-161 | a written roster payload is read back field by field, an empty name included |
| LogFormat.PlayerLine | src-tauri/src/logfile.rs:136-144 | a written roster line is read back as the player it was written from |
| Scenarios.RosterRun | src-tauri/src/logfile.rs:119 | consecutive roster lines are one run holding their players in order |
| Scenarios.RosterItem | src-tauri/src/logfile.rs:117-134 | a run of roster lines is one step yielding the teams it splits into |
| Scenarios.PlayerLineIsNoOther | src-tauri/src/logfile.rs:69-74 | a written roster line is neither a transition line nor a relic-id line |
| Scenarios.OutcomePanic | src-tauri/src/logfile.rs:123 | a step that panics ends the whole parse in that panic |
| Scenarios.TransitionLog | src-tauri/src/logfile.rs:67-105 | a log of one transition line ends in the state it names, with no teams and no relic id |
| Scenarios.RosterLog | src-tauri/src/logfile.rs:67-134 | a log made of one roster run ends in the two sides of that run, and nothing else is set |
| Scenarios.TwoPlayersLog | src-tauri/src/logfile.rs:117-134 | a human on team 0 and an AI on team 1 end up alone on the left and alone on the right |
| Scenarios.InvalidFirst | src-tauri/src/logfile.rs:123 | a roster run whose first player is on an unknown team panics with that team |
| Scenarios.InvalidTeamLog | src-tauri/src/logfile.rs:123 | a roster line naming a team other than 0 or 1 makes the whole parse panic, whatever follows |
| Scenarios.LoneReturnStops | src-tauri/src/logfile.rs:85-87 | a log whose first line holds a carriage return not followed by a line feed yields the default state and is left whole |
| Scenarios.SplitRunLog | src-tauri/src/logfile.rs:117-134 | an unrecognised line between two roster runs splits them, and only the later run's teams remain |

## Left out

- The file watcher, its thread and channel, the `Arc<Mutex<...>>` and the
  `notify` events (`src-tauri/src/main.rs:83-106`) are concurrency and file
  I/O. Only the in-place `merge` of a parsed state into the shared state
  is modelled, as `StateAccumulator.Merge`.
- The Tauri commands and plugins, the React UI, the OAuth client and the
  analytics getters are OS, framework and network calls.
- `parse_logfile_path` and `parse_log_file_reverse` are not part of this
  model, because their source is not among the files modelled.
- The fixture-reading tests (`src-tauri/src/logfile.rs:253-312`) need files
  on disk. Their only assertion, that the parse succeeds, is stated for
  every log whose lines are safe (`NeverPanics`).
- Logfile.NeverPanics: does not decide which real fixtures are safe. It
  requires every line to be safe (no panicking roster line, no unknown team).
- A panic is modelled as a `Panic(reason)` outcome of the whole parse, not
  as an unwinding thread. The message text of `panic!` and of `unwrap` is
  not modelled.
- `usize` is taken to be 64 bits wide.
- Multi.ScanRun: requires a parser that consumes input whenever it matches
  (`Consumes`). nom's repetition combinators reject a parser that matches
  without consuming. No step of this grammar can do so, which
  `ParsePlayerConsumes` and `ItemConsumes` prove.
- The round-trip lemmas in `LogFormat` and the whole-log lemmas in
  `Scenarios` require written lines to hold no terminator, timestamps to
  hold no `]` and state names to hold no `)`. Text outside those shapes is
  still parsed by the model; the lemmas say nothing about it.
- Text is modelled as a sequence of characters. The lossy UTF-8 decoding
  of the file before parsing is not modelled.
- A `\r` that does not begin `\r\n` is not a line terminator, and no
  record grammar accepts it inside a line. The fold therefore stops at the
  line holding it: for example `a\rb\n` yields the default state and is
  left whole (`LoneReturnStops`). The model reproduces this; it is not a
  gap, but every later line of such a log is unread.
- LogFormat.PlayerRoundTrip: requires a non-empty, space-free faction, a
  space-free relic token, and a name that does not start with a blank (or,
  for an empty name, a relic token that does not). `space1` after the
  position eats every leading blank, so a name that starts with a blank is
  read back without those blanks; such names are not covered.
- LogFormat.PlayerLine: has the same requirements as `PlayerRoundTrip`.

/** The record grammars that follow the header of a structured line: the
    state transition, the relic-id telemetry line and the roster entry, each
    turned into a partial log state or a player. */
module Records {
  import opened Lexer
  import opened LogState
  import opened Header

  /** Where the source panics while parsing a roster. A panic ends the whole
      parse, so it is a result of its own here. */
  datatype PanicReason =
    | TooFewTokens          // `tokens[0..len - 3]` with fewer than three tokens
    | TeamNotU8             // `unwrap` of the team token parsed as a u8
    | InvalidTeam(team: u8) // the roster fold's `panic!` on a team other than 0 or 1

  /** A parser's outcome: a value and the unconsumed input, a recoverable
      failure (the next alternative is tried), or a panic. */
  datatype Parsed<T> = Done(value: T, rest: string) | NoMatch | Panic(reason: PanicReason)

  // ---- state transition ---------------------------------------------------

  /** `GameApp::SetState : new (<new>) old (<old>)`. */
  function SetStateText(newState: string, oldState: string): string {
    "GameApp::SetState : new (" + (newState + (") old (" + (oldState + ")")))
  }

  /** `parse_set_state`: `GameApp::SetState : new (<A>) old (<B>)`, where each
      name runs to the first `)`. Text after the closing `)` is left over. */
  function ParseSetState(s: string): (r: Option<((string, string), string)>)
    ensures r.Some? ==> ')' !in r.value.0.0 && ')' !in r.value.0.1
    ensures r.Some? ==> s == SetStateText(r.value.0.0, r.value.0.1) + r.value.1
  {
    match Tag("GameApp::SetState : new (", s)
    case None => None
    case Some(rest) =>
      match TakeUntil(")", rest)
      case None => None
      case Some((newState, after)) =>
        match Tag(") old (", after)
        case None => None
        case Some(rest') =>
          match TakeUntil(")", rest')
          case None => None
          case Some((oldState, after')) =>
            NoCloseBefore(rest, newState, after);
            NoCloseBefore(rest', oldState, after');
            SetStateParts(s, rest, newState, after, rest', oldState, after');
            Some(((newState, oldState), after'[1..]))
  }

  lemma SetStateParts(s: string, rest: string, newState: string, after: string,
                      rest': string, oldState: string, after': string)
    requires s == "GameApp::SetState : new (" + rest && rest == newState + after
    requires after == ") old (" + rest' && rest' == oldState + after' && StartsWith(after', ")")
    ensures s == SetStateText(newState, oldState) + after'[1..]
  {
    assert after' == ")" + after'[1..];
  }

  /** A written transition payload is read back as its two state names, and
      what follows the closing bracket is left over. */
  lemma SetStateOf(newState: string, oldState: string, rest: string)
    requires ')' !in newState && ')' !in oldState
    ensures ParseSetState(SetStateText(newState, oldState) + rest) == Some(((newState, oldState), rest))
  {
    var s := SetStateText(newState, oldState) + rest;
    var tail := ") old (" + (oldState + (")" + rest));
    var oldTail := ")" + rest;
    SetStateTextParts(newState, oldState, rest, tail, oldTail);
    TakeUntilChar(')', newState, tail[1..]);
    TakeUntilChar(')', oldState, rest);
  }

  lemma SetStateTextParts(newState: string, oldState: string, rest: string, tail: string, oldTail: string)
    requires tail == ") old (" + (oldState + (")" + rest)) && oldTail == ")" + rest
    ensures Tag("GameApp::SetState : new (", SetStateText(newState, oldState) + rest) == Some(newState + tail)
    ensures tail == [')'] + tail[1..] && Tag(") old (", tail) == Some(oldState + oldTail)
    ensures oldTail == [')'] + rest && oldTail[1..] == rest
  {
    var s := SetStateText(newState, oldState) + rest;
    assert s == "GameApp::SetState : new (" + (newState + tail);
    assert tail == ") old (" + (oldState + oldTail);
  }

  /** What `TakeUntil(")", …)` returns before the bracket holds no bracket. */
  lemma NoCloseBefore(s: string, before: string, after: string)
    requires TakeUntil(")", s) == Some((before, after))
    ensures ')' !in before
  {
    forall i | 0 <= i < |before| ensures before[i] != ')' {
      assert !StartsWith(s[i..], ")");
      assert s[i..][..1] == [before[i]];
    }
  }

  /** The fragment of a state-transition line: the new state, classified, and
      nothing else; the old state is discarded. A line is a transition line
      exactly when its header is followed by a transition payload. */
  function StateTransitionOfLine(line: string): (r: Option<LogfileState>)
    ensures r.Some? <==> ParseHeader(line).Some? && ParseSetState(ParseHeader(line).value.1).Some?
    ensures r.Some? ==>
      r.value == LogfileState(Some(FromState(ParseSetState(ParseHeader(line).value.1).value.0.0)), None, None)
  {
    match ParseHeader(line)
    case None => None
    case Some((_, payload)) =>
      match ParseSetState(payload)
      case None => None
      case Some(((newState, _), _)) => Some(LogfileState(Some(FromState(newState)), None, None))
  }

  /** `parse_state_transition`: a non-empty terminated line holding a state
      transition; consumes exactly that line. */
  function ParseStateTransition(input: string): (r: Option<(LogfileState, string)>)
    ensures r.Some? <==> TakeLine(input).Some? && StateTransitionOfLine(TakeLine(input).value.0).Some?
    ensures r.Some? ==> r.value.1 == TakeLine(input).value.1
    ensures r.Some? ==> StateTransitionOfLine(TakeLine(input).value.0) == Some(r.value.0)
    ensures r.Some? ==> r.value.0.gameState.Some? && r.value.0.teams.None? && r.value.0.playerRelicId.None?
  {
    match TakeLine(input)
    case None => None
    case Some((line, rest)) =>
      match StateTransitionOfLine(line)
      case None => None
      case Some(fragment) => Some((fragment, rest))
  }

  // ---- relic id -----------------------------------------------------------

  /** `Read bytes [<count>,"<word>",<digits>`. */
  function MessageText(count: string, word: string, digits: string): string {
    "Read bytes [" + (count + (",\"" + (word + ("\"," + digits))))
  }

  /** `text` is a read-bytes message whose last number has the value `id`. */
  ghost predicate IsMessage(text: string, id: nat) {
    exists count, word, digits :: Digits(count) && Letters(word) && Digits(digits) &&
      DigitsValue(digits) == id && text == MessageText(count, word, digits)
  }

  /** `parse_message`: `Read bytes [<digits>,"<letters>",<digits>`, yielding the
      last number as a u64; what follows it (normally `]`) is left over. */
  function ParseMessage(s: string): (r: Option<(u64, string)>)
    ensures r.Some? ==> NoLeadingDigit(r.value.1) && |r.value.1| < |s|
    ensures r.Some? ==> IsMessage(s[..|s| - |r.value.1|], r.value.0) && s == s[..|s| - |r.value.1|] + r.value.1
  {
    match Tag("Read bytes [", s)
    case None => None
    case Some(rest) =>
      match Span1(Digit, rest)
      case None => None
      case Some((count, rest1)) =>
        match Tag(",\"", rest1)
        case None => None
        case Some(rest2) =>
          match Span1(Alpha, rest2)
          case None => None
          case Some((word, rest3)) =>
            match Tag("\",", rest3)
            case None => None
            case Some(rest4) =>
              match Span1(Digit, rest4)
              case None => None
              case Some((digits, rest5)) =>
                match ParseUnsigned(digits, U64_BOUND)
                case None => None
                case Some(id) =>
                  MessageParts(s, rest, count, rest1, rest2, word, rest3, rest4, digits, rest5);
                  assert Magnitude(digits) == digits;
                  Some((id, rest5))
  }

  lemma MessageParts(s: string, rest: string, count: string, rest1: string, rest2: string,
                     word: string, rest3: string, rest4: string, digits: string, rest5: string)
    requires s == "Read bytes [" + rest && rest == count + rest1 && rest1 == ",\"" + rest2
    requires rest2 == word + rest3 && rest3 == "\"," + rest4 && rest4 == digits + rest5
    ensures s == MessageText(count, word, digits) + rest5
    ensures s[..|s| - |rest5|] == MessageText(count, word, digits)
  {
    assert s == MessageText(count, word, digits) + rest5;
  }

  /** A written read-bytes message is read back as the value of its last
      number, when that fits a u64, and what follows the number is left. */
  lemma MessageOf(text: string, id: nat, rest: string)
    requires IsMessage(text, id) && id < U64_BOUND && NoLeadingDigit(rest)
    ensures ParseMessage(text + rest) == Some((id, rest))
  {
    var count, word, digits :| Digits(count) && Letters(word) && Digits(digits) &&
      DigitsValue(digits) == id && text == MessageText(count, word, digits);
    var idPart := digits + rest;
    var wordPart := word + ("\"," + idPart);
    var countPart := count + (",\"" + wordPart);
    MessageTextParts(text, count, word, digits, rest, countPart, wordPart, idPart);
    SpanUnique(Digit, countPart, count, ",\"" + wordPart);
    SpanUnique(Alpha, wordPart, word, "\"," + idPart);
    SpanUnique(Digit, idPart, digits, rest);
    assert digits[0] != '+';
  }

  lemma MessageTextParts(text: string, count: string, word: string, digits: string, rest: string,
                         countPart: string, wordPart: string, idPart: string)
    requires text == MessageText(count, word, digits)
    requires idPart == digits + rest && wordPart == word + ("\"," + idPart)
    requires countPart == count + (",\"" + wordPart)
    ensures Tag("Read bytes [", text + rest) == Some(countPart)
    ensures Tag(",\"", ",\"" + wordPart) == Some(wordPart)
    ensures Tag("\",", "\"," + idPart) == Some(idPart)
  {
    assert text + rest == "Read bytes [" + countPart;
  }

  /** The fragment of a relic-id line: the relic id and nothing else. A line
      is a relic-id line exactly when its header is followed by a read-bytes
      message. */
  function RelicIdOfLine(line: string): (r: Option<LogfileState>)
    ensures r.Some? <==> ParseHeader(line).Some? && ParseMessage(ParseHeader(line).value.1).Some?
    ensures r.Some? ==>
      r.value == LogfileState(None, None, Some(ParseMessage(ParseHeader(line).value.1).value.0))
  {
    match ParseHeader(line)
    case None => None
    case Some((_, payload)) =>
      match ParseMessage(payload)
      case None => None
      case Some((id, _)) => Some(LogfileState(None, None, Some(id)))
  }

  /** `parse_player_relic_id`: a non-empty terminated line holding a relic id;
      consumes exactly that line. */
  function ParsePlayerRelicId(input: string): (r: Option<(LogfileState, string)>)
    ensures r.Some? <==> TakeLine(input).Some? && RelicIdOfLine(TakeLine(input).value.0).Some?
    ensures r.Some? ==> r.value.1 == TakeLine(input).value.1
    ensures r.Some? ==> RelicIdOfLine(TakeLine(input).value.0) == Some(r.value.0)
    ensures r.Some? ==> r.value.0.playerRelicId.Some? && r.value.0.teams.None? && r.value.0.gameState.None?
  {
    match TakeLine(input)
    case None => None
    case Some((line, rest)) =>
      match RelicIdOfLine(line)
      case None => None
      case Some(fragment) => Some((fragment, rest))
  }

  // ---- roster entry -------------------------------------------------------

  /** `parse_ai`: `Human Player: ` (false) or `AI Player: ` (true). */
  function ParseAi(s: string): (r: Option<(bool, string)>)
    ensures r.Some? <==> StartsWith(s, "Human Player: ") || StartsWith(s, "AI Player: ")
    ensures r.Some? ==> s == AiText(r.value.0) + r.value.1
  {
    match Tag("Human Player: ", s)
    case Some(rest) => Some((false, rest))
    case None =>
      match Tag("AI Player: ", s)
      case Some(rest) => Some((true, rest))
      case None => None
  }

  /** `text` is a run of digits whose value is `position`, then blanks. */
  ghost predicate IsPosition(text: string, position: nat) {
    exists digits, b :: Digits(digits) && Blanks(b) && DigitsValue(digits) == position && text == digits + b
  }

  /** `parse_position`: decimal digits that fit a u8, then at least one blank. */
  function ParsePosition(s: string): (r: Option<(u8, string)>)
    ensures r.Some? ==> NoLeadingBlank(r.value.1) && |r.value.1| < |s|
    ensures r.Some? ==> IsPosition(s[..|s| - |r.value.1|], r.value.0) && s == s[..|s| - |r.value.1|] + r.value.1
  {
    match Span1(Digit, s)
    case None => None
    case Some((digits, rest)) =>
      match Space1(rest)
      case None => None
      case Some(rest') =>
        match ParseUnsigned(digits, U8_BOUND)
        case None => None
        case Some(position) =>
          assert Magnitude(digits) == digits;
          PrefixParts(s, digits, rest, rest');
          Some((position, rest'))
  }

  /** A run of digits and the blanks after it are read back as the position
      when its value fits a u8, and what follows is left. */
  lemma PositionOf(text: string, position: nat, rest: string)
    requires IsPosition(text, position) && position < U8_BOUND && NoLeadingBlank(rest)
    ensures ParsePosition(text + rest) == Some((position, rest))
  {
    var digits, b :| Digits(digits) && Blanks(b) && DigitsValue(digits) == position && text == digits + b;
    assert text + rest == digits + (b + rest);
    SpanUnique(Digit, digits + (b + rest), digits, b + rest);
    Space1Of(b, rest);
    assert digits[0] != '+';
  }

  /** The tokenizer of `parse_player_details`: at a space an empty token, else
      the longest run without a space; either is followed by at most one
      consumed space. So repeated spaces give empty tokens, a single trailing
      space gives none, and empty text gives no token at all. */
  function Tokens(s: string): (r: seq<string>)
    ensures (r == []) == (s == [])
    ensures forall i | 0 <= i < |r| :: AllIn(WordChar, r[i])
    decreases |s|
  {
    if s == [] then []
    else
      var (word, after) := Span(WordChar, s);
      if after == [] then [word] else [word] + Tokens(after[1..])
  }

  /** The single trailing space that `Tokens` swallows, if there is one. */
  function TrailingSpace(s: string): string {
    if s != [] && s[|s| - 1] == ' ' then " " else []
  }

  /** Joining the tokens with single spaces gives back the text, except for
      a trailing space. */
  lemma {:induction false} TokensJoin(s: string)
    ensures s == Join(Tokens(s)) + TrailingSpace(s)
    decreases |s|
  {
    if s != [] {
      var word, after := Span(WordChar, s).0, Span(WordChar, s).1;
      if after == [] {
        assert Tokens(s) == [word];
        assert s == word && s[|s| - 1] != ' ';
      } else {
        var t := after[1..];
        TokensStep(s);
        if t == [] {
          assert Join(Tokens(s)) == word;
          assert TrailingSpace(s) == " ";
        } else {
          TokensJoin(t);
          TokensJoinStep(s, word, t);
        }
      }
    }
  }

  /** The join of the tokens of `word + " " + t` extends that of `t`. */
  lemma TokensJoinStep(s: string, word: string, t: string)
    requires t != [] && s == word + " " + t
    requires Tokens(s) == [word] + Tokens(t)
    requires t == Join(Tokens(t)) + TrailingSpace(t)
    ensures s == Join(Tokens(s)) + TrailingSpace(s)
  {
    JoinCons(word, Tokens(t));
    assert s[|s| - 1] == t[|t| - 1];
  }

  /** One step of `Tokens` on text whose first word is followed by a space. */
  lemma TokensStep(s: string)
    requires s != [] && Span(WordChar, s).1 != []
    ensures var word, after := Span(WordChar, s).0, Span(WordChar, s).1;
            s == word + " " + after[1..] && Tokens(s) == [word] + Tokens(after[1..])
  {
  }

  lemma JoinCons(word: string, parts: seq<string>)
    requires parts != []
    ensures Join([word] + parts) == word + " " + Join(parts)
  {
    assert ([word] + parts)[1..] == parts;
  }

  /** On text that does not end in a space the tokens are `split(' ')`. */
  lemma {:induction false} TokensSplit(s: string)
    requires s != [] && s[|s| - 1] != ' '
    ensures Tokens(s) == Split(s)
    decreases |s|
  {
    var word, after := Span(WordChar, s).0, Span(WordChar, s).1;
    if after != [] {
      assert s[|s| - 1] == after[|after| - 1];
      TokensSplit(after[1..]);
    }
  }

  /** The relic id token: a u64, or unset when it is not one. */
  function RelicIdOf(token: string): (r: Option<u64>)
    ensures r.Some? <==> ParseUnsigned(token, U64_BOUND).Some?
    ensures r.Some? ==> r.value == ParseUnsigned(token, U64_BOUND).value
  {
    match ParseUnsigned(token, U64_BOUND)
    case None => None
    case Some(id) => Some(id)
  }

  datatype PlayerDetails = PlayerDetails(name: string, relicId: Option<u64>, team: u8, faction: string)

  /** `parse_player_details`: the last token is the faction, the one before it
      the team (a u8; anything else panics), the one before that the relic id
      (unset unless a u64), and every earlier token, joined with single
      spaces, the name. Fewer than three tokens panic; no token at all is a
      recoverable failure. */
  function ParsePlayerDetails(s: string): (r: Parsed<PlayerDetails>)
    ensures r.NoMatch? <==> s == []
    ensures r == Panic(TooFewTokens) <==> 0 < |Tokens(s)| < 3
    ensures r == Panic(TeamNotU8) <==>
      |Tokens(s)| >= 3 && ParseUnsigned(Tokens(s)[|Tokens(s)| - 2], U8_BOUND).None?
    ensures r.Done? ==> r.rest == [] && AllIn(WordChar, r.value.faction)
  {
    var tokens := Tokens(s);
    var n := |tokens|;
    if n == 0 then NoMatch
    else if n < 3 then Panic(TooFewTokens)
    else
      match ParseUnsigned(tokens[n - 2], U8_BOUND)
      case None => Panic(TeamNotU8)
      case Some(team) =>
        Done(PlayerDetails(Join(tokens[..n - 3]), RelicIdOf(tokens[n - 3]), team, tokens[n - 1]), [])
  }

  /** The shape of a roster tail: name, relic id, team and faction separated
      by single spaces. */
  function DetailsText(name: string, relic: string, team: string, faction: string): string {
    name + " " + (relic + " " + (team + " " + faction))
  }

  /** Print-then-parse: a name (any text, spaces included) followed by three
      space-free tokens is split back into exactly that name and those tokens;
      a team token that is not a u8 panics. */
  lemma DetailsRoundTrip(name: string, relic: string, team: string, faction: string)
    requires AllIn(WordChar, relic) && AllIn(WordChar, team) && AllIn(WordChar, faction)
    requires faction != []
    ensures ParsePlayerDetails(DetailsText(name, relic, team, faction)) ==
      match ParseUnsigned(team, U8_BOUND)
      case None => Panic(TeamNotU8)
      case Some(t) => Done(PlayerDetails(name, RelicIdOf(relic), t, faction), [])
  {
    var tokens := Split(name) + [relic, team, faction];
    TokensOfDetails(name, relic, team, faction);
    assert tokens[..|tokens| - 3] == Split(name);
    JoinSplit(name);
  }

  /** A roster tail of only two words has no name in front of the relic id,
      team and faction, and panics. */
  lemma TwoWordsPanic(first: string, second: string)
    requires AllIn(WordChar, first) && AllIn(WordChar, second) && second != []
    ensures ParsePlayerDetails(first + " " + second) == Panic(TooFewTokens)
  {
    var s := first + " " + second;
    assert s[|s| - 1] == second[|second| - 1];
    TokensSplit(s);
    SplitAppend(first, second);
    SplitWord(first);
    SplitWord(second);
  }

  /** The tokens of a roster tail: the pieces of the name, then the three
      space-free tokens. */
  lemma TokensOfDetails(name: string, relic: string, team: string, faction: string)
    requires AllIn(WordChar, relic) && AllIn(WordChar, team) && AllIn(WordChar, faction)
    requires faction != []
    ensures Tokens(DetailsText(name, relic, team, faction)) == Split(name) + [relic, team, faction]
  {
    var t3 := relic + " " + (team + " " + faction);
    var s := name + " " + t3;
    LastOfDetails(name, relic, team, faction);
    TokensSplit(s);
    SplitAppend(name, t3);
    ThreeWords(relic, team, faction);
  }

  lemma LastOfDetails(name: string, relic: string, team: string, faction: string)
    requires faction != []
    ensures var s := DetailsText(name, relic, team, faction);
            s != [] && s[|s| - 1] == faction[|faction| - 1]
  {
    var t2 := team + " " + faction;
    var t3 := relic + " " + t2;
    assert t3[|t3| - 1] == t2[|t2| - 1] == faction[|faction| - 1];
  }

  /** Three space-free words joined by single spaces split back into them. */
  lemma ThreeWords(relic: string, team: string, faction: string)
    requires AllIn(WordChar, relic) && AllIn(WordChar, team) && AllIn(WordChar, faction)
    ensures Split(relic + " " + (team + " " + faction)) == [relic, team, faction]
  {
    SplitAppend(relic, team + " " + faction);
    SplitAppend(team, faction);
    SplitWord(relic);
    SplitWord(team);
    SplitWord(faction);
  }

  /** Parse-then-print: a parsed roster tail is its name and its last three
      tokens put back together, up to a swallowed trailing space; with exactly
      three tokens the name is empty and the tail starts at the relic id. */
  lemma DetailsReprint(s: string)
    requires ParsePlayerDetails(s).Done?
    ensures var t := Tokens(s);
            var d := ParsePlayerDetails(s).value;
            |t| >= 3 &&
            (|t| > 3 ==> s == DetailsText(d.name, t[|t| - 3], t[|t| - 2], d.faction) + TrailingSpace(s)) &&
            (|t| == 3 ==> d.name == [] && s == t[0] + " " + (t[1] + " " + d.faction) + TrailingSpace(s)) &&
            ParseUnsigned(t[|t| - 2], U8_BOUND) == Some(d.team) &&
            d.relicId == RelicIdOf(t[|t| - 3])
  {
    var t := Tokens(s);
    var n := |t|;
    assert n >= 3 && ParseUnsigned(t[n - 2], U8_BOUND).Some?;
    assert ParsePlayerDetails(s).value ==
      PlayerDetails(Join(t[..n - 3]), RelicIdOf(t[n - 3]), ParseUnsigned(t[n - 2], U8_BOUND).value, t[n - 1]);
    TokensJoin(s);
    JoinLastThree(t);
    if n == 3 {
      assert t[..0] == [];
    }
  }

  /** A join of at least three parts, with the last three set apart. */
  lemma JoinLastThree(t: seq<string>)
    requires |t| >= 3
    ensures var n := |t|;
            (n > 3 ==> Join(t) == DetailsText(Join(t[..n - 3]), t[n - 3], t[n - 2], t[n - 1])) &&
            (n == 3 ==> Join(t) == t[0] + " " + (t[1] + " " + t[2]))
  {
    var n := |t|;
    var last := [t[n - 3], t[n - 2], t[n - 1]];
    JoinThree(t[n - 3], t[n - 2], t[n - 1]);
    if n > 3 {
      assert t == t[..n - 3] + last;
      JoinAppend(t[..n - 3], last);
    } else {
      assert t == last;
    }
  }

  lemma JoinThree(a: string, b: string, c: string)
    ensures Join([a, b, c]) == a + " " + (b + " " + c)
  {
    assert [a, b, c] == [a] + [b, c];
    JoinCons(a, [b, c]);
    assert [b, c] == [b] + [c];
    JoinCons(b, [c]);
  }

  /** `parse_game_player`: `GAME -- `, the AI marker, the position, the
      details; the player is assembled from the three. */
  function GamePlayer(payload: string): (r: Parsed<PlayerData>)
    ensures !r.NoMatch? ==> StartsWith(payload, "GAME -- ")
    ensures !r.NoMatch? ==> ParseAi(payload[8..]).Some? && ParsePosition(ParseAi(payload[8..]).value.1).Some?
    ensures r.Done? ==>
      var (ai, afterAi) := ParseAi(payload[8..]).value;
      var (position, details) := ParsePosition(afterAi).value;
      r.value.ai == ai && r.value.position == position &&
      ParsePlayerDetails(details) ==
        Done(PlayerDetails(r.value.name, r.value.relicId, r.value.team, r.value.faction), r.rest)
    ensures r.Panic? ==>
      ParsePlayerDetails(ParsePosition(ParseAi(payload[8..]).value.1).value.1) == Panic(r.reason)
  {
    match Tag("GAME -- ", payload)
    case None => NoMatch
    case Some(rest) =>
      match ParseAi(rest)
      case None => NoMatch
      case Some((ai, rest')) =>
        match ParsePosition(rest')
        case None => NoMatch
        case Some((position, details)) =>
          match ParsePlayerDetails(details)
          case NoMatch => NoMatch
          case Panic(reason) => Panic(reason)
          case Done(d, rest'') =>
            Done(PlayerData(ai, d.faction, d.relicId, d.name, position, d.team), rest'')
  }

  /** A roster payload written as `GAME -- `, a marker and a position is read
      back as the player its details describe, or panics as they do. */
  lemma GamePlayerOf(ai: bool, positionText: string, position: nat, details: string)
    requires IsPosition(positionText, position) && position < U8_BOUND
    requires NoLeadingBlank(details)
    ensures GamePlayer("GAME -- " + (AiText(ai) + (positionText + details))) ==
      match ParsePlayerDetails(details)
      case Done(d, rest) => Done(PlayerData(ai, d.faction, d.relicId, d.name, position, d.team), rest)
      case Panic(reason) => Panic(reason)
      case NoMatch => NoMatch
  {
    var afterAi := positionText + details;
    TagPrefix("GAME -- ", AiText(ai) + afterAi);
    AiOf(ai, afterAi);
    PositionOf(positionText, position, details);
  }

  lemma TagPrefix(prefix: string, rest: string)
    ensures Tag(prefix, prefix + rest) == Some(rest)
  {
    assert (prefix + rest)[..|prefix|] == prefix;
  }

  function AiText(ai: bool): string {
    if ai then "AI Player: " else "Human Player: "
  }

  /** A written human or AI marker is read back, and what follows is left. */
  lemma AiOf(ai: bool, rest: string)
    ensures ParseAi(AiText(ai) + rest) == Some((ai, rest))
  {
    var s := AiText(ai) + rest;
    if ai {
      assert s[0] != "Human Player: "[0];
    }
    TagPrefix(AiText(ai), rest);
  }

  /** The roster entry held by one line (the inside of `parse_player`): the
      line is a header followed by a roster payload. */
  function PlayerOfLine(line: string): (r: Parsed<PlayerData>)
    ensures r.NoMatch? <==> ParseHeader(line).None? || GamePlayer(ParseHeader(line).value.1).NoMatch?
    ensures ParseHeader(line).Some? ==> r == GamePlayer(ParseHeader(line).value.1)
  {
    match ParseHeader(line)
    case None => NoMatch
    case Some((_, payload)) => GamePlayer(payload)
  }
}

/** The shapes of the lines the game writes to its warnings log, as text
    builders, and the round trips that tie each record grammar to them: a line
    written in the shape the grammar expects is read back as exactly the
    values it was written from. */
module LogFormat {
  import opened Lexer
  import opened LogState
  import opened Header
  import opened Records

  /** `tag` fails at the first character where the text differs. */
  lemma TagMismatch(prefix: string, s: string, i: nat)
    requires i < |prefix| && i < |s| && s[i] != prefix[i]
    ensures Tag(prefix, s) == None
  {
    if |prefix| <= |s| {
      assert s[..|prefix|][i] != prefix[i];
    }
  }

  // ---- header -----------------------------------------------------------------

  /** `(I) [<timestamp>] [<id>]: <payload>`, one space after each part. */
  function HeaderText(h: Header, payload: string): string {
    IndicatorText(h.severity) + (" [" + (h.timestamp + ("] [" + (Decimal(h.id) + ("]: " + payload)))))
  }

  /** The id part `[<id>]: <payload>` is read back. */
  lemma IdRoundTrip(id: nat, payload: string)
    requires id < USIZE_BOUND
    requires NoLeadingBlank(payload)
    ensures ParseId("[" + (Decimal(id) + ("]: " + payload))) == Some((id, payload))
  {
    IdShape(id, payload);
    IdOf("[" + Decimal(id) + "]: ", id, payload);
  }

  lemma IdShape(id: nat, payload: string)
    requires id < USIZE_BOUND
    ensures IsId("[" + Decimal(id) + "]: ", id)
    ensures "[" + Decimal(id) + "]: " + payload == "[" + (Decimal(id) + ("]: " + payload))
  {
    var t := Decimal(id);
    Regroup("[" + t + "]: ", "[", t, "]: ", payload);
    assert Blanks(" ") && "[" + t + "]: " == "[" + t + "]:" + " ";
    ParseDecimal(id, USIZE_BOUND);
  }

  /** The timestamp part `[<timestamp>] <rest>` is read back. */
  lemma TimestampRoundTrip(timestamp: string, rest: string)
    requires ']' !in timestamp
    requires NoLeadingBlank(rest)
    ensures ParseTimestamp("[" + (timestamp + ("] " + rest))) == Some((timestamp, rest))
  {
    TimestampShape(timestamp, rest);
    TimestampOf("[" + timestamp + "] ", timestamp, rest);
  }

  lemma TimestampShape(timestamp: string, rest: string)
    requires ']' !in timestamp
    ensures IsTimestamp("[" + timestamp + "] ", timestamp)
    ensures "[" + timestamp + "] " + rest == "[" + (timestamp + ("] " + rest))
  {
    assert Blanks(" ");
    assert "[" + timestamp + "] " == "[" + timestamp + "]" + " ";
  }

  /** The severity marker `(I)` or `(E)` and the space after it are read back. */
  lemma IndicatorRoundTrip(severity: Severity, rest: string)
    requires NoLeadingBlank(rest)
    ensures ParseIndicator(IndicatorText(severity) + (" " + rest)) == Some((severity, rest))
  {
    IndicatorShape(severity, rest);
    IndicatorOf(IndicatorText(severity) + " ", severity, rest);
  }

  lemma IndicatorShape(severity: Severity, rest: string)
    ensures IsIndicator(IndicatorText(severity) + " ", severity)
    ensures IndicatorText(severity) + " " + rest == IndicatorText(severity) + (" " + rest)
  {
    assert Blanks(" ");
  }

  /** A header written in the log's shape is read back as itself, and the
      payload after it is left over untouched. */
  lemma HeaderRoundTrip(h: Header, payload: string)
    requires ']' !in h.timestamp && h.id < USIZE_BOUND
    requires NoLeadingBlank(payload)
    ensures ParseHeader(HeaderText(h, payload)) == Some((h, payload))
  {
    var idPart := "[" + (Decimal(h.id) + ("]: " + payload));
    var stampPart := "[" + (h.timestamp + ("] " + idPart));
    HeaderTextParts(h, payload);
    IdRoundTrip(h.id, payload);
    TimestampRoundTrip(h.timestamp, idPart);
    IndicatorRoundTrip(h.severity, stampPart);
    HeaderSteps(HeaderText(h, payload), stampPart, idPart, payload, h);
  }

  lemma HeaderTextParts(h: Header, payload: string)
    ensures HeaderText(h, payload) ==
      IndicatorText(h.severity) + (" " + ("[" + (h.timestamp + ("] " + ("[" + (Decimal(h.id) + ("]: " + payload)))))))
  {
  }

  // ---- state transition -------------------------------------------------------

  /** Both state names are read back, and nothing is left over. */
  lemma SetStateRoundTrip(newState: string, oldState: string)
    requires ')' !in newState && ')' !in oldState
    ensures ParseSetState(SetStateText(newState, oldState)) == Some(((newState, oldState), []))
  {
    SetStateOf(newState, oldState, []);
    assert SetStateText(newState, oldState) + [] == SetStateText(newState, oldState);
  }

  /** A transition line yields a fragment that sets the game state to the
      class of the new state name and sets nothing else. */
  lemma TransitionLine(h: Header, newState: string, oldState: string)
    requires ']' !in h.timestamp && h.id < USIZE_BOUND
    requires ')' !in newState && ')' !in oldState
    ensures StateTransitionOfLine(HeaderText(h, SetStateText(newState, oldState))) ==
      Some(LogfileState(Some(FromState(newState)), None, None))
  {
    HeaderRoundTrip(h, SetStateText(newState, oldState));
    SetStateRoundTrip(newState, oldState);
  }

  // ---- relic id ---------------------------------------------------------------

  /** `Read bytes [<count>,"<word>",<id>]`. */
  function ReadBytesText(count: nat, word: string, id: nat): string {
    MessageText(Decimal(count), word, Decimal(id)) + "]"
  }

  /** The last number of a read-bytes message is read back as the relic id;
      the closing bracket is left over. */
  lemma ReadBytesRoundTrip(count: nat, word: string, id: nat)
    requires Letters(word) && id < U64_BOUND
    ensures ParseMessage(ReadBytesText(count, word, id)) == Some((id, "]"))
  {
    assert IsMessage(MessageText(Decimal(count), word, Decimal(id)), id);
    MessageOf(MessageText(Decimal(count), word, Decimal(id)), id, "]");
  }

  /** A read-bytes line yields a fragment that sets the relic id and nothing
      else. */
  lemma RelicLine(h: Header, count: nat, word: string, id: nat)
    requires ']' !in h.timestamp && h.id < USIZE_BOUND
    requires Letters(word) && id < U64_BOUND
    ensures RelicIdOfLine(HeaderText(h, ReadBytesText(count, word, id))) ==
      Some(LogfileState(None, None, Some(id)))
  {
    HeaderRoundTrip(h, ReadBytesText(count, word, id));
    ReadBytesRoundTrip(count, word, id);
  }

  // ---- roster entry -------------------------------------------------------------

  /** `GAME -- <Human|AI> Player: <position> <name> <relic> <team> <faction>`. */
  function PlayerText(ai: bool, position: nat, name: string, relic: string, team: nat, faction: string): string {
    "GAME -- " + (AiText(ai) + (Decimal(position) + (" " + DetailsText(name, relic, Decimal(team), faction))))
  }

  /** What `space1` after the position leaves for the details: the name, or
      the relic id when the name is empty. */
  predicate ReadableName(name: string, relic: string) {
    if name == [] then relic != [] && !InClass(Blank, relic[0]) else !InClass(Blank, name[0])
  }

  lemma PositionRoundTrip(position: u8, rest: string)
    requires NoLeadingBlank(rest)
    ensures ParsePosition(Decimal(position) + (" " + rest)) == Some((position, rest))
  {
    PositionShape(position, " ", rest);
    PositionOf(Decimal(position) + " ", position, rest);
  }

  /** A decimal position followed by blanks is a position field. */
  lemma PositionShape(position: u8, b: string, rest: string)
    requires Blanks(b)
    ensures IsPosition(Decimal(position) + b, position)
    ensures Decimal(position) + b + rest == Decimal(position) + (b + rest)
  {
    assert Digits(Decimal(position));
  }

  /** A roster entry is read back field by field: the relic token becomes a
      relic id exactly when it is a u64, and the name may hold any spaces or
      be empty. */
  lemma PlayerRoundTrip(ai: bool, position: u8, name: string, relic: string, team: u8, faction: string)
    requires ReadableName(name, relic)
    requires AllIn(WordChar, relic) && AllIn(WordChar, faction) && faction != []
    ensures GamePlayer(PlayerText(ai, position, name, relic, team, faction)) ==
      Done(PlayerData(ai, faction, RelicIdOf(relic), name, position, team), [])
  {
    var details := DetailsText(name, relic, Decimal(team), faction);
    if name == [] {
      var tail := relic + " " + (Decimal(team) + " " + faction);
      var positionText := Decimal(position) + "  ";
      assert details == " " + tail;
      assert PlayerText(ai, position, name, relic, team, faction) ==
        "GAME -- " + (AiText(ai) + (positionText + tail));
      assert Blanks("  ");
      PositionShape(position, "  ", tail);
      GamePlayerOf(ai, positionText, position, tail);
      ThreeTokensDetails(relic, team, faction);
    } else {
      var positionText := Decimal(position) + " ";
      assert details[0] == name[0];
      assert PlayerText(ai, position, name, relic, team, faction) ==
        "GAME -- " + (AiText(ai) + (positionText + details));
      assert Blanks(" ");
      PositionShape(position, " ", details);
      GamePlayerOf(ai, positionText, position, details);
      TeamDetailsRoundTrip(name, relic, team, faction);
    }
  }

  /** A roster tail of exactly three words has an empty name. */
  lemma ThreeTokensDetails(relic: string, team: u8, faction: string)
    requires AllIn(WordChar, relic) && AllIn(WordChar, faction) && faction != []
    ensures ParsePlayerDetails(relic + " " + (Decimal(team) + " " + faction)) ==
      Done(PlayerDetails([], RelicIdOf(relic), team, faction), [])
  {
    var s := relic + " " + (Decimal(team) + " " + faction);
    var t2 := Decimal(team) + " " + faction;
    assert s[|s| - 1] == t2[|t2| - 1] == faction[|faction| - 1];
    TokensSplit(s);
    assert s == relic + " " + (Decimal(team) + " " + faction);
    ThreeWords(relic, Decimal(team), faction);
    ParseDecimal(team, U8_BOUND);
    assert Join(Tokens(s)[..0]) == [];
  }

  /** A roster tail whose team is written in decimal is read back with that team. */
  lemma TeamDetailsRoundTrip(name: string, relic: string, team: u8, faction: string)
    requires AllIn(WordChar, relic) && AllIn(WordChar, faction) && faction != []
    ensures ParsePlayerDetails(DetailsText(name, relic, Decimal(team), faction)) ==
      Done(PlayerDetails(name, RelicIdOf(relic), team, faction), [])
  {
    DetailsRoundTrip(name, relic, Decimal(team), faction);
    ParseDecimal(team, U8_BOUND);
  }

  /** A roster line is read back as the player it was written from. */
  lemma PlayerLine(h: Header, ai: bool, position: u8, name: string, relic: string, team: u8, faction: string)
    requires ']' !in h.timestamp && h.id < USIZE_BOUND
    requires ReadableName(name, relic)
    requires AllIn(WordChar, relic) && AllIn(WordChar, faction) && faction != []
    ensures PlayerOfLine(HeaderText(h, PlayerText(ai, position, name, relic, team, faction))) ==
      Done(PlayerData(ai, faction, RelicIdOf(relic), name, position, team), [])
  {
    HeaderRoundTrip(h, PlayerText(ai, position, name, relic, team, faction));
    PlayerRoundTrip(ai, position, name, relic, team, faction);
  }
}

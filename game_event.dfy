/** The log-line classifier of `GameEvent.ParseLog`: a line is split on single spaces,
    token 0 must be the bracketed timestamp, and four rules tried in order turn the
    remaining tokens into a chat message, a login or logout, or an admin ban. */
module GameEvents {
  import opened Common
  import opened Text
  import opened Timestamp

  /** The three event subclasses, as one tagged variant. */
  datatype EventKind =
    | ChatMessage(message: string)
    | Session(login: bool, playerId: string)
    | Ban(admin: string)

  /** Fields shared by every event: the whole source line, its timestamp and the player. */
  datatype GameEvent = GameEvent(text: string, timeStamp: DateTime, player: string, kind: EventKind)

  /** The two exceptions `ParseLog` lets escape: the `FormatException` of
      `DateTime.ParseExact`, and the `ArgumentOutOfRangeException` of
      `ElementAt(index)` on a line with too few tokens. */
  datatype ParseError = BadTimestamp | MissingToken(index: nat)

  /** `ParseLog`'s three outcomes: an exception, `null`, or an event. */
  datatype ParseResult = Failed(error: ParseError) | Unrecognized | Recognized(event: GameEvent)

  /** `line.Split(' ')`. */
  function Sections(line: string): (tokens: seq<string>)
    ensures |tokens| >= 1
  {
    Split(line, ' ')
  }

  /** The player id of a login line: the last token with `(` and `)` trimmed off both ends. */
  function LoginPlayerId(tokens: seq<string>): (id: string)
    requires |tokens| >= 1
    ensures |id| <= |tokens[|tokens| - 1]|
    ensures |id| > 0 ==> id[0] !in {'(', ')'} && id[|id| - 1] !in {'(', ')'}
  {
    Trim(tokens[|tokens| - 1], {'(', ')'})
  }

  /** The four rules of `ParseLog`, tried in order on the tokens of a line whose
      timestamp has already parsed. Each `ElementAt(i)` that runs past the last token
      is a `MissingToken(i)` failure, in the order the C# expression evaluates them;
      `&&` short-circuits, so token 2 is read only when token 1 is `Player`. */
  function Classify(line: string, tokens: seq<string>, stamp: DateTime): (r: ParseResult)
    requires |tokens| >= 1
    ensures r.Recognized? ==> r.event.text == line && r.event.timeStamp == stamp
    ensures r.Failed? ==> r.error.MissingToken? && |tokens| <= r.error.index <= 4
  {
    if |tokens| < 2 then Failed(MissingToken(1))
    else if tokens[1] == "[CHAT]" then
      if |tokens| < 3 then Failed(MissingToken(2))
      else
        var player := TrimEnd(tokens[2], {':'});
        var message := TrimEnd(Join(tokens[3..], ' '), {'\n'});
        Recognized(GameEvent(line, stamp, player, ChatMessage(message)))
    else if tokens[1] == "Player" && |tokens| < 3 then Failed(MissingToken(2))
    else if tokens[1] == "Player" && tokens[2] == "Login:" then
      if |tokens| < 4 then Failed(MissingToken(3))
      else Recognized(GameEvent(line, stamp, tokens[3], Session(true, LoginPlayerId(tokens))))
    else if tokens[1] == "Player" && tokens[2] == "Logout:" then
      if |tokens| < 4 then Failed(MissingToken(3))
      else Recognized(GameEvent(line, stamp, tokens[3], Session(false, "")))
    else if tokens[1] == "[ADMIN]" then
      if |tokens| < 5 then Failed(MissingToken(4))
      else Recognized(GameEvent(line, stamp, tokens[4], Ban(tokens[2])))
    else Unrecognized
  }

  /** `GameEvent.ParseLog(line)`: the timestamp is parsed first, so a bad token 0 is
      an error whatever follows it; a token that is read but missing is an error too;
      only a well-stamped line whose rules all miss is `null`. */
  function ParseLog(line: string): (r: ParseResult)
    ensures r.Recognized? ==> r.event.text == line && Valid(r.event.timeStamp)
    ensures r == Failed(BadTimestamp) <==> ParseExact(Sections(line)[0]).None?
    ensures r.Recognized? ==> Format(r.event.timeStamp) == Sections(line)[0]
    ensures r.Failed? && r.error.MissingToken? ==> |Sections(line)| <= r.error.index <= 4
  {
    var tokens := Sections(line);
    match ParseExact(tokens[0])
    case None => Failed(BadTimestamp)
    case Some(stamp) =>
      FormatParse(tokens[0]);
      Classify(line, tokens, stamp)
  }

  /** `Trim('(', ')')` recovers an id written between parentheses. */
  lemma TrimParens(id: string)
    requires '(' !in id && ')' !in id
    ensures Trim("(" + id + ")", {'(', ')'}) == id
  {
    var cs := {'(', ')'};
    var y := ['('] + id;
    assert "(" + id + ")" == y + [')'];
    TrimEndDrop(y, ')', cs);
    if |id| == 0 {
      assert y == [] + ['('];
      TrimEndDrop([], '(', cs);
    } else {
      assert y[|y| - 1] == id[|id| - 1];
      TrimEndNoop(y, cs);
      TrimStartDrop('(', id, cs);
      TrimStartNoop(id, cs);
    }
  }

  /** Once the tokens are known and token 0 parses, `ParseLog` is the rule cascade. */
  lemma ParseLogByTokens(line: string, tokens: seq<string>, dt: DateTime)
    requires Sections(line) == tokens
    requires ParseExact(tokens[0]) == Some(dt)
    ensures ParseLog(line) == Classify(line, tokens, dt)
  {
  }

  /** The rule for `[CHAT]` lines, on any tokens. */
  lemma ClassifyChat(line: string, tokens: seq<string>, dt: DateTime)
    requires |tokens| >= 3 && tokens[1] == "[CHAT]"
    ensures Classify(line, tokens, dt)
            == Recognized(GameEvent(line, dt, TrimEnd(tokens[2], {':'}),
                                    ChatMessage(TrimEnd(Join(tokens[3..], ' '), {'\n'}))))
  {
  }

  /** The rule for `Player Login:` lines, on any tokens. */
  lemma ClassifyLogin(line: string, tokens: seq<string>, dt: DateTime)
    requires |tokens| >= 4 && tokens[1] == "Player" && tokens[2] == "Login:"
    ensures Classify(line, tokens, dt)
            == Recognized(GameEvent(line, dt, tokens[3], Session(true, LoginPlayerId(tokens))))
  {
  }

  /** The rule for `Player Logout:` lines, on any tokens. */
  lemma ClassifyLogout(line: string, tokens: seq<string>, dt: DateTime)
    requires |tokens| >= 4 && tokens[1] == "Player" && tokens[2] == "Logout:"
    ensures Classify(line, tokens, dt) == Recognized(GameEvent(line, dt, tokens[3], Session(false, "")))
  {
  }

  /** The rule for `[ADMIN]` lines, on any tokens. */
  lemma ClassifyAdmin(line: string, tokens: seq<string>, dt: DateTime)
    requires |tokens| >= 5 && tokens[1] == "[ADMIN]"
    ensures Classify(line, tokens, dt) == Recognized(GameEvent(line, dt, tokens[4], Ban(tokens[2])))
  {
  }

  /** A token followed by a colon still holds no space. */
  lemma NoSpaceWithColon(player: string)
    requires ' ' !in player
    ensures ' ' !in player + ":"
  {
    var p := player + ":";
    forall i | 0 <= i < |p| ensures p[i] != ' ' {
      if i < |player| {
        assert p[i] == player[i];
      }
    }
  }

  lemma ChatShape(stamp: string, player: string, message: string)
    ensures stamp + " [CHAT] " + player + ": " + message
            == stamp + [' '] + ("[CHAT]" + [' '] + ((player + ":") + [' '] + message))
  {
  }

  /** The tokens of a chat line: the message splits into its own words after token 2. */
  lemma ChatTokens(stamp: string, player: string, message: string)
    requires ' ' !in stamp && ' ' !in player
    ensures Sections(stamp + " [CHAT] " + player + ": " + message)
            == [stamp, "[CHAT]", player + ":"] + Split(message, ' ')
  {
    ChatShape(stamp, player, message);
    NoSpaceWithColon(player);
    assert ' ' !in "[CHAT]";
    SplitThree(stamp, "[CHAT]", player + ":", message, ' ');
  }

  /** Every chat line, for every timestamp, space-free player name and message text:
      `TrimEnd(':')` strips every trailing colon, so the player comes back without any,
      and the message comes back whole, spaces included, less any trailing newlines. */
  lemma ChatLine(stamp: string, dt: DateTime, player: string, message: string)
    requires ParseExact(stamp) == Some(dt)
    requires ' ' !in player
    ensures var line := stamp + " [CHAT] " + player + ": " + message;
            ParseLog(line)
            == Recognized(GameEvent(line, dt, TrimEnd(player, {':'}), ChatMessage(TrimEnd(message, {'\n'}))))
  {
    var line := stamp + " [CHAT] " + player + ": " + message;
    WellShapedHasNoSpace(stamp);
    ChatTokens(stamp, player, message);
    var tokens := Sections(line);
    assert tokens[3..] == Split(message, ' ');
    JoinSplit(message, ' ');
    ParseLogByTokens(line, tokens, dt);
    ClassifyChat(line, tokens, dt);
    TrimEndDrop(player, ':', {':'});
  }

  lemma LoginShape(stamp: string, player: string, last: string)
    ensures stamp + " Player Login: " + player + " " + last
            == stamp + [' '] + ("Player" + [' '] + ("Login:" + [' '] + (player + [' '] + last)))
  {
  }

  /** The tokens of a login line. */
  lemma LoginTokens(stamp: string, player: string, id: string)
    requires ' ' !in stamp && ' ' !in player && ' ' !in id
    ensures Sections(stamp + " Player Login: " + player + " (" + id + ")")
            == [stamp, "Player", "Login:", player, "(" + id + ")"]
  {
    var last := "(" + id + ")";
    assert stamp + " Player Login: " + player + " (" + id + ")" == stamp + " Player Login: " + player + " " + last;
    LoginShape(stamp, player, last);
    assert ' ' !in "Player" && ' ' !in "Login:";
    assert ' ' !in last by {
      forall i | 0 <= i < |last| ensures last[i] != ' ' {
        if 0 < i < |last| - 1 {
          assert last[i] == id[i - 1];
        }
      }
    }
    SplitThree(stamp, "Player", "Login:", player + [' '] + last, ' ');
    SplitCons(player, ' ', last);
    SplitNoSep(last, ' ');
  }

  /** Every login line: the player is token 3 and the id is read back from between
      the parentheses of the last token. */
  lemma LoginLine(stamp: string, dt: DateTime, player: string, id: string)
    requires ParseExact(stamp) == Some(dt)
    requires ' ' !in player && ' ' !in id && '(' !in id && ')' !in id
    ensures var line := stamp + " Player Login: " + player + " (" + id + ")";
            ParseLog(line) == Recognized(GameEvent(line, dt, player, Session(true, id)))
  {
    var line := stamp + " Player Login: " + player + " (" + id + ")";
    WellShapedHasNoSpace(stamp);
    LoginTokens(stamp, player, id);
    var tokens := Sections(line);
    ParseLogByTokens(line, tokens, dt);
    ClassifyLogin(line, tokens, dt);
    TrimParens(id);
  }

  lemma LogoutShape(stamp: string, player: string)
    ensures stamp + " Player Logout: " + player
            == stamp + [' '] + ("Player" + [' '] + ("Logout:" + [' '] + player))
  {
  }

  /** The tokens of a logout line. */
  lemma LogoutTokens(stamp: string, player: string)
    requires ' ' !in stamp && ' ' !in player
    ensures Sections(stamp + " Player Logout: " + player) == [stamp, "Player", "Logout:", player]
  {
    LogoutShape(stamp, player);
    assert ' ' !in "Player" && ' ' !in "Logout:";
    SplitThree(stamp, "Player", "Logout:", player, ' ');
    SplitNoSep(player, ' ');
  }

  /** Every logout line: the player is token 3 and the id is the empty string. */
  lemma LogoutLine(stamp: string, dt: DateTime, player: string)
    requires ParseExact(stamp) == Some(dt)
    requires ' ' !in player
    ensures var line := stamp + " Player Logout: " + player;
            ParseLog(line) == Recognized(GameEvent(line, dt, player, Session(false, "")))
  {
    var line := stamp + " Player Logout: " + player;
    WellShapedHasNoSpace(stamp);
    LogoutTokens(stamp, player);
    ParseLogByTokens(line, Sections(line), dt);
    ClassifyLogout(line, Sections(line), dt);
  }

  lemma AdminShape(stamp: string, admin: string, action: string, player: string)
    ensures stamp + " [ADMIN] " + admin + " " + action + " " + player
            == stamp + [' '] + ("[ADMIN]" + [' '] + (admin + [' '] + (action + [' '] + player)))
  {
  }

  /** The tokens of an admin line. */
  lemma AdminTokens(stamp: string, admin: string, action: string, player: string)
    requires ' ' !in stamp && ' ' !in admin && ' ' !in action && ' ' !in player
    ensures Sections(stamp + " [ADMIN] " + admin + " " + action + " " + player)
            == [stamp, "[ADMIN]", admin, action, player]
  {
    AdminShape(stamp, admin, action, player);
    assert ' ' !in "[ADMIN]";
    SplitThree(stamp, "[ADMIN]", admin, action + [' '] + player, ' ');
    SplitCons(action, ' ', player);
    SplitNoSep(player, ' ');
  }

  /** Every admin line: the admin is token 2, the player token 4, and token 3 (the
      action word) is never inspected. */
  lemma AdminLine(stamp: string, dt: DateTime, admin: string, action: string, player: string)
    requires ParseExact(stamp) == Some(dt)
    requires ' ' !in admin && ' ' !in action && ' ' !in player
    ensures var line := stamp + " [ADMIN] " + admin + " " + action + " " + player;
            ParseLog(line) == Recognized(GameEvent(line, dt, player, Ban(admin)))
  {
    var line := stamp + " [ADMIN] " + admin + " " + action + " " + player;
    WellShapedHasNoSpace(stamp);
    AdminTokens(stamp, admin, action, player);
    ParseLogByTokens(line, Sections(line), dt);
    ClassifyAdmin(line, Sections(line), dt);
  }

  /** `null` is returned exactly for a well-stamped line with a token 1 that no rule
      claims (or `Player` followed by neither `Login:` nor `Logout:`). */
  lemma UnrecognizedExactly(line: string)
    ensures var t := Sections(line);
            ParseLog(line) == Unrecognized <==>
              && ParseExact(t[0]).Some?
              && |t| >= 2
              && t[1] != "[CHAT]" && t[1] != "[ADMIN]"
              && (t[1] == "Player" ==> |t| >= 3 && t[2] != "Login:" && t[2] != "Logout:")
  {
  }

  /** Reading a token past the end is an error, never `null`: a line of one token, a
      login or logout line of fewer than four tokens, an admin line of fewer than five. */
  lemma ShortLinesFail(line: string)
    ensures var t := Sections(line);
            && (|t| == 1 ==> ParseLog(line).Failed?)
            && (2 <= |t| < 4 && t[1] == "Player" && (|t| < 3 || t[2] in {"Login:", "Logout:"}) ==> ParseLog(line).Failed?)
            && (|t| < 5 && |t| >= 2 && t[1] == "[ADMIN]" ==> ParseLog(line).Failed?)
  {
  }

  /** The chat event object as its constructor is written: the constructor's
      parameter is named `Message` like the field, so `Message = Message;` assigns the
      parameter to itself and the field keeps its default, `null`. */
  datatype ChatMessageEventObject =
    ChatMessageEventObject(text: string, timeStamp: DateTime, player: string, message: Option<string>)

  function NewChatMessageEventAsWritten(text: string, dt: DateTime, player: string, message: string)
    : (e: ChatMessageEventObject)
    ensures e.text == text && e.timeStamp == dt && e.player == player
    ensures e.message == None
  {
    ChatMessageEventObject(text, dt, player, None)
  }
}

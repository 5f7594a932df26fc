/** The older, single-file bot (the root `Program`): its own copy of the log-line
    grammar with poorer events (no source line, no player id on a session), its
    `PushDiscord` filter, its routing, and an API client created from the
    application's own `web_api` settings. Its tailer keeps `_file` and
    `_lastMaxOffset` in static fields and is the same state machine as `LogReading`. */
module LegacyProgram {
  import opened Common
  import opened Text
  import opened Timestamp
  import opened GameEvents
  import opened MotorTownStream
  import opened Router
  import opened WebApi

  datatype LegacyKind = LegacyChat(message: string) | LegacySession(login: bool) | LegacyBan(admin: string)

  /** The root `GameEvent` hierarchy: a timestamp and a player, and the subclass's field. */
  datatype LegacyEvent = LegacyEvent(timeStamp: DateTime, player: string, kind: LegacyKind)

  datatype LegacyResult = LegacyFailed(error: ParseError) | LegacyUnrecognized | LegacyRecognized(event: LegacyEvent)

  /** The rules of the root `ParseLog`, in order, after the timestamp has parsed. */
  function LegacyClassify(tokens: seq<string>, stamp: DateTime): (r: LegacyResult)
    requires |tokens| >= 1
    ensures r.LegacyRecognized? ==> r.event.timeStamp == stamp
  {
    if |tokens| < 2 then LegacyFailed(MissingToken(1))
    else if tokens[1] == "[CHAT]" then
      if |tokens| < 3 then LegacyFailed(MissingToken(2))
      else
        LegacyRecognized(LegacyEvent(stamp, TrimEnd(tokens[2], {':'}), LegacyChat(TrimEnd(Join(tokens[3..], ' '), {'\n'}))))
    else if tokens[1] == "Player" && |tokens| < 3 then LegacyFailed(MissingToken(2))
    else if tokens[1] == "Player" && tokens[2] == "Login:" then
      if |tokens| < 4 then LegacyFailed(MissingToken(3)) else LegacyRecognized(LegacyEvent(stamp, tokens[3], LegacySession(true)))
    else if tokens[1] == "Player" && tokens[2] == "Logout:" then
      if |tokens| < 4 then LegacyFailed(MissingToken(3)) else LegacyRecognized(LegacyEvent(stamp, tokens[3], LegacySession(false)))
    else if tokens[1] == "[ADMIN]" then
      if |tokens| < 5 then LegacyFailed(MissingToken(4)) else LegacyRecognized(LegacyEvent(stamp, tokens[4], LegacyBan(tokens[2])))
    else LegacyUnrecognized
  }

  /** The root `Program.ParseLog(line)`. */
  function LegacyParseLog(line: string): (r: LegacyResult)
    ensures r == LegacyFailed(BadTimestamp) <==> ParseExact(Sections(line)[0]).None?
    ensures r.LegacyRecognized? ==> Valid(r.event.timeStamp) && Format(r.event.timeStamp) == Sections(line)[0]
  {
    var tokens := Sections(line);
    match ParseExact(tokens[0])
    case None => LegacyFailed(BadTimestamp)
    case Some(stamp) =>
      FormatParse(tokens[0]);
      LegacyClassify(tokens, stamp)
  }

  /** What the older events keep of a current event. */
  function Forget(e: GameEvent): (le: LegacyEvent)
    ensures le.timeStamp == e.timeStamp && le.player == e.player
    ensures le.kind.LegacyChat? <==> e.kind.ChatMessage?
    ensures le.kind.LegacyChat? ==> le.kind.message == e.kind.message
    ensures le.kind.LegacySession? <==> e.kind.Session?
    ensures le.kind.LegacySession? ==> le.kind.login == e.kind.login
    ensures le.kind.LegacyBan? <==> e.kind.Ban?
    ensures le.kind.LegacyBan? ==> le.kind.admin == e.kind.admin
  {
    var kind := match e.kind
      case ChatMessage(m) => LegacyChat(m)
      case Session(login, _) => LegacySession(login)
      case Ban(admin) => LegacyBan(admin);
    LegacyEvent(e.timeStamp, e.player, kind)
  }

  function ForgetResult(r: ParseResult): (lr: LegacyResult)
    ensures lr.LegacyFailed? <==> r.Failed?
    ensures lr.LegacyFailed? ==> lr.error == r.error
    ensures lr.LegacyUnrecognized? <==> r.Unrecognized?
    ensures lr.LegacyRecognized? ==> lr.event == Forget(r.event)
  {
    match r
    case Failed(err) => LegacyFailed(err)
    case Unrecognized => LegacyUnrecognized
    case Recognized(e) => LegacyRecognized(Forget(e))
  }

  /** Both copies of the grammar classify every line alike: the same exceptions, the same
      unrecognised lines, and the same events up to the fields the older events lack. */
  lemma LegacyParseAgrees(line: string)
    ensures LegacyParseLog(line) == ForgetResult(ParseLog(line))
  {
    var tokens := Sections(line);
    match ParseExact(tokens[0])
    case None =>
    case Some(stamp) =>
      LegacyClassifyAgrees(line, tokens, stamp);
  }

  lemma LegacyClassifyAgrees(line: string, tokens: seq<string>, stamp: DateTime)
    requires |tokens| >= 1
    ensures LegacyClassify(tokens, stamp) == ForgetResult(Classify(line, tokens, stamp))
  {
  }

  datatype LegacyStream = LegacyStream(events: seq<LegacyEvent>, failure: Option<ParseError>)

  /** The loop of `PushDiscord` over classified lines: events that are not `null` and are
      stamped at or after `now` are forwarded, in order; an exception ends the loop. */
  function PushDiscordFilter(results: seq<LegacyResult>, now: DateTime): (r: LegacyStream)
    ensures |r.events| <= |results|
    ensures forall i :: 0 <= i < |r.events| ==> !Before(r.events[i].timeStamp, now)
    decreases |results|
  {
    if |results| == 0 then LegacyStream([], None)
    else
      match results[0]
      case LegacyFailed(err) => LegacyStream([], Some(err))
      case LegacyUnrecognized => PushDiscordFilter(results[1..], now)
      case LegacyRecognized(e) =>
        var rest := PushDiscordFilter(results[1..], now);
        if !Before(e.timeStamp, now) then LegacyStream([e] + rest.events, rest.failure) else rest
  }

  /** `PushDiscord` over the lines `ReadLinesAsync` yields: the events it sends. */
  function PushDiscordEvents(lines: seq<string>, now: DateTime): (r: LegacyStream)
    ensures |r.events| <= |lines|
    ensures forall i :: 0 <= i < |r.events| ==> !Before(r.events[i].timeStamp, now)
  {
    PushDiscordFilter(seq(|lines|, i requires 0 <= i < |lines| => LegacyParseLog(lines[i])), now)
  }

  function ForgetAll(events: seq<GameEvent>): (ls: seq<LegacyEvent>)
    ensures |ls| == |events| && forall i :: 0 <= i < |events| ==> ls[i] == Forget(events[i])
  {
    seq(|events|, i requires 0 <= i < |events| => Forget(events[i]))
  }

  lemma {:induction false} PushDiscordFilterAgrees(results: seq<ParseResult>, now: DateTime)
    ensures PushDiscordFilter(seq(|results|, i requires 0 <= i < |results| => ForgetResult(results[i])), now)
            == LegacyStream(ForgetAll(FilterEvents(results, now).events), FilterEvents(results, now).failure)
    decreases |results|
  {
    var ls := seq(|results|, i requires 0 <= i < |results| => ForgetResult(results[i]));
    if |results| > 0 {
      var tail := results[1..];
      PushDiscordFilterAgrees(tail, now);
      assert ls[1..] == seq(|tail|, i requires 0 <= i < |tail| => ForgetResult(tail[i]));
      var rest := FilterEvents(tail, now);
      match results[0]
      case Failed(_) =>
      case Unrecognized =>
      case Recognized(e) =>
        if !Before(e.timeStamp, now) {
          assert ForgetAll([e] + rest.events) == [Forget(e)] + ForgetAll(rest.events);
        }
    }
  }

  /** The older bot forwards the same events as the current server's `ReadAsync`, in the
      same order, and stops at the same exception. */
  lemma PushDiscordAgrees(lines: seq<string>, now: DateTime)
    ensures PushDiscordEvents(lines, now)
            == LegacyStream(ForgetAll(ReadEvents(lines, now).events), ReadEvents(lines, now).failure)
  {
    var rs := Parsed(lines);
    forall i | 0 <= i < |lines| ensures LegacyParseLog(lines[i]) == ForgetResult(rs[i]) {
      LegacyParseAgrees(lines[i]);
    }
    assert seq(|lines|, i requires 0 <= i < |lines| => LegacyParseLog(lines[i]))
           == seq(|rs|, i requires 0 <= i < |rs| => ForgetResult(rs[i]));
    PushDiscordFilterAgrees(rs, now);
  }

  /** The root `GetConfigByGameEvent`. */
  function LegacyGetConfigByGameEvent(messages: Option<MessagesConfig>, e: LegacyEvent): (r: Option<MessageConfig>)
    ensures messages.None? ==> r.None?
    ensures messages.Some? && e.kind.LegacyChat? ==> r == messages.value.chat
    ensures messages.Some? && e.kind.LegacyBan? ==> r == messages.value.ban
    ensures messages.Some? && e.kind.LegacySession? ==> r == if e.kind.login then messages.value.login else messages.value.logout
  {
    match messages
    case None => None
    case Some(m) =>
      match e.kind
      case LegacyChat(_) => m.chat
      case LegacyBan(_) => m.ban
      case LegacySession(login) => if login then m.login else m.logout
  }

  /** Both bots route an event the same way. */
  lemma LegacyRouteAgrees(messages: Option<MessagesConfig>, e: GameEvent)
    ensures LegacyGetConfigByGameEvent(messages, Forget(e)) == GetConfigByGameEvent(messages, e)
  {
  }

  /** The root `GetMessageParams`. */
  function LegacyGetMessageParams(messages: Option<MessagesConfig>, e: LegacyEvent,
                                  render: (string, LegacyEvent) -> string, parseColor: string -> Color)
    : (r: Option<MessageParams>)
    ensures r.None? <==> LegacyGetConfigByGameEvent(messages, e).None?
    ensures r.Some? ==> r.value == BuildMessageParams(LegacyGetConfigByGameEvent(messages, e).value, e, render, parseColor)
  {
    match LegacyGetConfigByGameEvent(messages, e)
    case None => None
    case Some(config) => Some(BuildMessageParams(config, e, render, parseColor))
  }

  /** The application's `web_api` settings. */
  datatype WebApiConfig = WebApiConfig(port: int, password: Option<string>)

  /** `Main`: the API client exists exactly when the settings have a `web_api` section. */
  function LegacyCreateWebApi(config: Option<WebApiConfig>): (api: Option<ApiClient>)
    ensures api.Some? <==> config.Some?
    ensures api.Some? ==> api.value == ApiClient(config.value.port, config.value.password)
  {
    match config
    case None => None
    case Some(c) => Some(ApiClient(c.port, c.password))
  }
}

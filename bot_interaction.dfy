/** The slash-command bridge of `BotInteraction`: a command is dispatched by its exact
    name to one of six handlers; each reads its option, makes at most one admin API
    call and, once that call has returned without an exception, replies with a fixed
    text or a rendered list. A handler whose call throws never replies. */
module BotCommands {
  import opened Common
  import opened Text
  import opened WebApi

  /** One option of a slash command; `value` is `None` where Discord sent no value. */
  datatype CommandOption = CommandOption(name: string, value: Option<string>)

  datatype SlashCommand = SlashCommand(name: string, options: seq<CommandOption>)

  /** `Options.FirstOrDefault(o => o.Name == name)?.Value?.ToString()`: the value of the
      first option with that name, `null` when there is none or its value is `null`. */
  function FindOption(options: seq<CommandOption>, name: string): (r: Option<string>)
    ensures r.Some? ==> exists i :: 0 <= i < |options| && options[i].name == name && options[i].value == r
    ensures (forall i :: 0 <= i < |options| ==> options[i].name != name) ==> r.None?
    ensures forall k :: (0 <= k < |options| && options[k].name == name
                         && (forall j :: 0 <= j < k ==> options[j].name != name)) ==> r == options[k].value
    decreases |options|
  {
    if |options| == 0 then None
    else if options[0].name == name then options[0].value
    else FindOption(options[1..], name)
  }

  /** The admin API as the handlers see it: the responses it gives to the two listings,
      to each player action request, and the outcome of an announcement. */
  datatype AdminServer = AdminServer(
    players: HttpResponse<PlayerTable>,
    bans: HttpResponse<PlayerTable>,
    actions: Request -> HttpResponse<()>,
    announce: string -> Outcome<ApiError>)

  /** The API call a handler makes. */
  datatype ApiCall =
    | PlayerActionCall(action: PlayerAction, playerId: string)
    | PlayerListCall
    | BanListCall
    | SendMessageCall(message: string)

  /** What handling a command did: the call it made, the reply it sent, and the exception
      that ended it. */
  datatype Interaction = Interaction(call: Option<ApiCall>, reply: Option<string>, failure: Option<ApiError>)

  const Ignored: Interaction := Interaction(None, None, None)

  /** A call that returned normally is followed by `reply`; one that threw is not. */
  function AfterCall(call: ApiCall, outcome: Outcome<ApiError>, reply: string): (r: Interaction)
    ensures r.call == Some(call)
    ensures r.reply.Some? <==> outcome.Pass?
    ensures r.reply.Some? ==> r.reply.value == reply
    ensures r.failure.Some? <==> outcome.Fail?
  {
    match outcome
    case Pass => Interaction(Some(call), Some(reply), None)
    case Fail(e) => Interaction(Some(call), None, Some(e))
  }

  function OutcomeOf<T>(r: Result<T, ApiError>): (o: Outcome<ApiError>)
    ensures o.Pass? <==> r.Ok?
    ensures o.Fail? ==> o.error == r.error
  {
    match r
    case Ok(_) => Pass
    case Err(e) => Fail(e)
  }

  /** A list entry: `name (unique_id)`. */
  function Entry(p: PlayerListData): (e: string)
    ensures |e| == |p.name| + |p.uniqueId| + 3
    ensures p.name <= e && e[|p.name|..|p.name| + 2] == " (" && e[|e| - 1] == ')'
    ensures e[|p.name| + 2..|e| - 1] == p.uniqueId
  {
    p.name + " (" + p.uniqueId + ")"
  }

  function Entries(players: seq<PlayerListData>): (es: seq<string>)
    ensures |es| == |players|
    ensures forall i :: 0 <= i < |players| ==> es[i] == Entry(players[i])
  {
    seq(|players|, i requires 0 <= i < |players| => Entry(players[i]))
  }

  /** The entries, one per line in array order. */
  function ListReply(players: seq<PlayerListData>): (reply: string)
    ensures |players| == 0 ==> reply == ""
    ensures |players| > 0 ==> Entry(players[0]) <= reply
  {
    Join(Entries(players), '\n')
  }

  /** When no name or id holds a newline, the reply has exactly one line per player,
      in array order, each reading `name (unique_id)`. */
  lemma ListReplyLines(players: seq<PlayerListData>)
    requires |players| > 0
    requires forall i :: 0 <= i < |players| ==> '\n' !in players[i].name && '\n' !in players[i].uniqueId
    ensures Split(ListReply(players), '\n') == Entries(players)
  {
    var es := Entries(players);
    forall i | 0 <= i < |es| ensures '\n' !in es[i] {
      assert es[i] == players[i].name + " (" + players[i].uniqueId + ")";
    }
    SplitJoin(es, '\n');
  }

  /** `HandleKickCommand`, `HandleBanCommand` and `HandleUnbanCommand`: without a
      `player-id` they reply that it is required and call nothing; otherwise they call
      the action and then reply. Unban's reply says "banned", as written. */
  function HandlePlayerAction(action: PlayerAction, options: seq<CommandOption>, server: AdminServer): (r: Interaction)
    ensures FindOption(options, "player-id").None? <==> r.call.None?
    ensures r.call.None? ==> r == Interaction(None, Some("Player id is required"), None)
    ensures r.call.Some? ==> r.call.value == PlayerActionCall(action, FindOption(options, "player-id").value)
  {
    match FindOption(options, "player-id")
    case None => Interaction(None, Some("Player id is required"), None)
    case Some(id) =>
      var reply := if action == KickAction then "Player kicked" else "Player (" + id + ") banned";
      AfterCall(PlayerActionCall(action, id), OutcomeOf(PlayerActionResult(server.actions(ActionRequest(action, id)))), reply)
  }

  /** `HandlePlayerListCommand`. */
  function HandlePlayerList(server: AdminServer): (r: Interaction)
    ensures r.call == Some(PlayerListCall)
    ensures GetPlayerList(server.players).Ok? ==> r.reply.Some? && r.failure.None?
    ensures GetPlayerList(server.players).Err? ==> r.reply.None? && r.failure == Some(GetPlayerList(server.players).error)
  {
    match GetPlayerList(server.players)
    case Err(e) => AfterCall(PlayerListCall, Fail(e), "")
    case Ok(players) =>
      var reply := if players.None? || |players.value| == 0 then "No player on the server" else ListReply(players.value);
      AfterCall(PlayerListCall, Pass, reply)
  }

  /** `HandleBanListCommand`. */
  function HandleBanList(server: AdminServer): (r: Interaction)
    ensures r.call == Some(BanListCall)
    ensures GetPlayerBanList(server.bans).Ok? ==> r.reply.Some? && r.failure.None?
    ensures GetPlayerBanList(server.bans).Err? ==> r.reply.None? && r.failure == Some(GetPlayerBanList(server.bans).error)
  {
    match GetPlayerBanList(server.bans)
    case Err(e) => AfterCall(BanListCall, Fail(e), "")
    case Ok(players) =>
      var reply := if |players| == 0 then "No player banned on the server" else ListReply(players);
      AfterCall(BanListCall, Pass, reply)
  }

  /** `HandleAnnounceCommand`: a missing or empty message is ignored outright. */
  function HandleAnnounce(options: seq<CommandOption>, server: AdminServer): (r: Interaction)
    ensures r == Ignored <==> FindOption(options, "message").None? || FindOption(options, "message").value == ""
    ensures r.call.Some? ==> r.call.value == SendMessageCall(FindOption(options, "message").value)
    ensures var m := FindOption(options, "message");
            m.Some? && m.value != "" ==>
              && r.call == Some(SendMessageCall(m.value))
              && (r.reply == Some("Message sent") <==> server.announce(m.value).Pass?)
              && (server.announce(m.value).Fail? ==> r.reply.None? && r.failure == Some(server.announce(m.value).error))
  {
    match FindOption(options, "message")
    case None => Ignored
    case Some(message) =>
      if |message| == 0 then Ignored
      else AfterCall(SendMessageCall(message), server.announce(message), "Message sent")
  }

  /** `HandleInteraction`: dispatch by exact name; any other name does nothing. */
  function HandleInteraction(command: SlashCommand, server: AdminServer): (r: Interaction)
    ensures command.name == "kick" ==> r == HandlePlayerAction(KickAction, command.options, server)
    ensures command.name == "ban" ==> r == HandlePlayerAction(BanAction, command.options, server)
    ensures command.name == "unban" ==> r == HandlePlayerAction(UnbanAction, command.options, server)
    ensures command.name == "player-list" ==> r == HandlePlayerList(server)
    ensures command.name == "ban-list" ==> r == HandleBanList(server)
    ensures command.name == "announce" ==> r == HandleAnnounce(command.options, server)
    ensures command.name !in {"kick", "ban", "unban", "player-list", "ban-list", "announce"} ==> r == Ignored
    ensures r.failure.Some? ==> r.call.Some? && r.reply.None?
    ensures r.reply.Some? ==> r.failure.None?
  {
    match command.name
    case "kick" => HandlePlayerAction(KickAction, command.options, server)
    case "ban" => HandlePlayerAction(BanAction, command.options, server)
    case "unban" => HandlePlayerAction(UnbanAction, command.options, server)
    case "player-list" => HandlePlayerList(server)
    case "ban-list" => HandleBanList(server)
    case "announce" => HandleAnnounce(command.options, server)
    case _ => Ignored
  }

  /** A player action replies only once its call has returned normally: kick says the
      player was kicked, ban and unban both say the player was banned; a failed call
      ends the handler with its error and no reply. */
  lemma ActionReplies(action: PlayerAction, id: string, options: seq<CommandOption>, server: AdminServer)
    requires FindOption(options, "player-id") == Some(id)
    ensures var r := HandlePlayerAction(action, options, server);
            var result := PlayerActionResult(server.actions(ActionRequest(action, id)));
            r.call == Some(PlayerActionCall(action, id))
            && (result.Ok? ==> r.reply == Some(if action == KickAction then "Player kicked" else "Player (" + id + ") banned"))
            && (result.Err? ==> r.reply.None? && r.failure == Some(result.error))
  {
  }

  /** A player list that returns normally is answered with the empty-list text when it
      is missing or empty, and otherwise with one `name (unique_id)` line per player, in
      the order the server listed them. */
  lemma PlayerListReply(server: AdminServer)
    requires GetPlayerList(server.players).Ok?
    ensures var players := GetPlayerList(server.players).value;
            var reply := HandlePlayerList(server).reply;
            reply.Some? && HandlePlayerList(server).failure.None?
            && (players.None? || |players.value| == 0 ==> reply.value == "No player on the server")
            && (players.Some? && |players.value| > 0
                && (forall i :: 0 <= i < |players.value| ==> '\n' !in players.value[i].name && '\n' !in players.value[i].uniqueId)
                ==> Split(reply.value, '\n') == Entries(players.value))
  {
    var players := GetPlayerList(server.players).value;
    if players.Some? && |players.value| > 0
       && (forall i :: 0 <= i < |players.value| ==> '\n' !in players.value[i].name && '\n' !in players.value[i].uniqueId) {
      ListReplyLines(players.value);
    }
  }

  /** The same for the ban list, whose missing data is an error rather than an empty list. */
  lemma BanListReply(server: AdminServer)
    requires GetPlayerBanList(server.bans).Ok?
    ensures var players := GetPlayerBanList(server.bans).value;
            var reply := HandleBanList(server).reply;
            reply.Some? && HandleBanList(server).failure.None?
            && (|players| == 0 ==> reply.value == "No player banned on the server")
            && (|players| > 0
                && (forall i :: 0 <= i < |players| ==> '\n' !in players[i].name && '\n' !in players[i].uniqueId)
                ==> Split(reply.value, '\n') == Entries(players))
  {
    var players := GetPlayerBanList(server.bans).value;
    if |players| > 0 && (forall i :: 0 <= i < |players| ==> '\n' !in players[i].name && '\n' !in players[i].uniqueId) {
      ListReplyLines(players);
    }
  }
}

/** Routing an event to Discord (`GetConfigByGameEvent`, `GetMessageParams` and
    `SendEvent`): the per-kind message configuration is chosen, then the message's text
    and embed parts are present exactly where the configuration provides them. Template
    rendering (`FormatTemplate`) and `Color.Parse` are library calls the model takes as
    function parameters. */
module Router {
  import opened Common
  import opened GameEvents

  /** `EmbedConfig`: every part optional. */
  datatype EmbedConfig = EmbedConfig(
    titleFormat: Option<string>,
    descriptionFormat: Option<string>,
    thumbnailUrl: Option<string>,
    color: Option<string>)

  /** `MessageConfig`: the templates and the channel for one kind of event. */
  datatype MessageConfig = MessageConfig(textFormat: Option<string>, embedConfig: Option<EmbedConfig>, channelId: nat)

  /** `MessagesConfig`: one optional route per kind of event. */
  datatype MessagesConfig = MessagesConfig(
    chat: Option<MessageConfig>,
    login: Option<MessageConfig>,
    logout: Option<MessageConfig>,
    ban: Option<MessageConfig>)

  datatype RouteKind = ChatRoute | LoginRoute | LogoutRoute | BanRoute

  /** Which route an event takes: chat and ban by type, a session by its login flag. */
  function RouteKindOf(kind: EventKind): (rk: RouteKind)
    ensures rk == ChatRoute <==> kind.ChatMessage?
    ensures rk == BanRoute <==> kind.Ban?
    ensures rk == LoginRoute <==> kind.Session? && kind.login
    ensures rk == LogoutRoute <==> kind.Session? && !kind.login
  {
    match kind
    case ChatMessage(_) => ChatRoute
    case Session(login, _) => if login then LoginRoute else LogoutRoute
    case Ban(_) => BanRoute
  }

  /** `GetConfigByGameEvent(gameEvent)` with the application's `MessagesConfig`. */
  function GetConfigByGameEvent(messages: Option<MessagesConfig>, e: GameEvent): (r: Option<MessageConfig>)
    ensures messages.None? ==> r.None?
    ensures messages.Some? && e.kind.ChatMessage? ==> r == messages.value.chat
    ensures messages.Some? && e.kind.Ban? ==> r == messages.value.ban
    ensures messages.Some? && e.kind.Session? ==> r == if e.kind.login then messages.value.login else messages.value.logout
  {
    match messages
    case None => None
    case Some(m) =>
      match RouteKindOf(e.kind)
      case ChatRoute => m.chat
      case LoginRoute => m.login
      case LogoutRoute => m.logout
      case BanRoute => m.ban
  }

  /** A colour as `Color.Parse` returns it. */
  datatype Color = Color(rgb: nat)

  /** The built embed: the parts that were set. */
  datatype Embed = Embed(color: Option<Color>, title: Option<string>, description: Option<string>, thumbnailUrl: Option<string>)

  /** `MessageParams`: the channel, the optional text and the optional embed. */
  datatype MessageParams = MessageParams(channelId: nat, text: Option<string>, embed: Option<Embed>)

  function Rendered<E>(template: Option<string>, e: E, render: (string, E) -> string): (r: Option<string>)
    ensures r.Some? <==> template.Some?
    ensures r.Some? ==> r.value == render(template.value, e)
  {
    match template
    case None => None
    case Some(t) => Some(render(t, e))
  }

  /** The `EmbedBuilder` calls: the colour is parsed, the title and description are
      rendered, and the thumbnail URL is copied unrendered, each only when configured. */
  function BuildEmbed<E>(config: EmbedConfig, e: E, render: (string, E) -> string, parseColor: string -> Color): (m: Embed)
    ensures m.color.Some? <==> config.color.Some?
    ensures m.color.Some? ==> m.color.value == parseColor(config.color.value)
    ensures m.title.Some? <==> config.titleFormat.Some?
    ensures m.title.Some? ==> m.title.value == render(config.titleFormat.value, e)
    ensures m.description.Some? <==> config.descriptionFormat.Some?
    ensures m.description.Some? ==> m.description.value == render(config.descriptionFormat.value, e)
    ensures m.thumbnailUrl == config.thumbnailUrl
  {
    var color := match config.color case None => None case Some(c) => Some(parseColor(c));
    Embed(color, Rendered(config.titleFormat, e, render), Rendered(config.descriptionFormat, e, render), config.thumbnailUrl)
  }

  /** The body of `GetMessageParams` once a route is found, for any kind of event. */
  function BuildMessageParams<E>(config: MessageConfig, e: E, render: (string, E) -> string, parseColor: string -> Color)
    : (p: MessageParams)
    ensures p.channelId == config.channelId
    ensures p.text.Some? <==> config.textFormat.Some?
    ensures p.text.Some? ==> p.text.value == render(config.textFormat.value, e)
    ensures p.embed.Some? <==> config.embedConfig.Some?
    ensures p.embed.Some? ==> p.embed.value == BuildEmbed(config.embedConfig.value, e, render, parseColor)
  {
    var embed := match config.embedConfig case None => None case Some(ec) => Some(BuildEmbed(ec, e, render, parseColor));
    MessageParams(config.channelId, Rendered(config.textFormat, e, render), embed)
  }

  /** `GetMessageParams(gameEvent)`: `null` exactly when there is no route. */
  function GetMessageParams(messages: Option<MessagesConfig>, e: GameEvent,
                            render: (string, GameEvent) -> string, parseColor: string -> Color)
    : (r: Option<MessageParams>)
    ensures r.None? <==> GetConfigByGameEvent(messages, e).None?
    ensures r.Some? ==> r.value == BuildMessageParams(GetConfigByGameEvent(messages, e).value, e, render, parseColor)
  {
    match GetConfigByGameEvent(messages, e)
    case None => None
    case Some(config) => Some(BuildMessageParams(config, e, render, parseColor))
  }

  /** `SendEvent`: the message sent, if any. Without params nothing is sent; a channel
      that is not a message channel is skipped silently. */
  function SendEvent(params: Option<MessageParams>, isMessageChannel: nat -> bool): (sent: Option<MessageParams>)
    ensures sent.Some? <==> params.Some? && isMessageChannel(params.value.channelId)
    ensures sent.Some? ==> sent == params
  {
    if params.Some? && isMessageChannel(params.value.channelId) then params else None
  }

  /** `Run`: each event of the stream in turn is routed and sent. */
  function Deliveries(events: seq<GameEvent>, messages: Option<MessagesConfig>,
                      render: (string, GameEvent) -> string, parseColor: string -> Color,
                      isMessageChannel: nat -> bool): (sent: seq<MessageParams>)
    ensures |sent| <= |events|
    ensures messages.None? ==> sent == []
    ensures forall i :: 0 <= i < |sent| ==> isMessageChannel(sent[i].channelId)
    decreases |events|
  {
    if |events| == 0 then []
    else
      var first := SendEvent(GetMessageParams(messages, events[0], render, parseColor), isMessageChannel);
      var rest := Deliveries(events[1..], messages, render, parseColor, isMessageChannel);
      if first.Some? then [first.value] + rest else rest
  }

  /** Sending is per event: the messages sent for two stretches of the stream are those
      of the first followed by those of the second. */
  lemma {:induction false} DeliveriesAppend(a: seq<GameEvent>, b: seq<GameEvent>, messages: Option<MessagesConfig>,
                                           render: (string, GameEvent) -> string, parseColor: string -> Color,
                                           isMessageChannel: nat -> bool)
    ensures Deliveries(a + b, messages, render, parseColor, isMessageChannel)
            == Deliveries(a, messages, render, parseColor, isMessageChannel)
               + Deliveries(b, messages, render, parseColor, isMessageChannel)
    decreases |a|
  {
    if |a| == 0 {
      assert a + b == b;
    } else {
      assert (a + b)[0] == a[0];
      assert (a + b)[1..] == a[1..] + b;
      DeliveriesAppend(a[1..], b, messages, render, parseColor, isMessageChannel);
    }
  }

  /** One event on its own: what `SendEvent` sends for its params, and nothing when it
      sends nothing. With `DeliveriesAppend` this fixes what `Run` sends for any stream. */
  lemma DeliveriesSingle(e: GameEvent, messages: Option<MessagesConfig>,
                         render: (string, GameEvent) -> string, parseColor: string -> Color,
                         isMessageChannel: nat -> bool)
    ensures var sent := SendEvent(GetMessageParams(messages, e, render, parseColor), isMessageChannel);
            Deliveries([e], messages, render, parseColor, isMessageChannel)
            == (if sent.Some? then [sent.value] else [])
  {
    assert [e][1..] == [];
  }

  /** A routed event bound for a message channel is sent, as its built params. */
  lemma RoutedEventIsSent(e: GameEvent, messages: Option<MessagesConfig>,
                          render: (string, GameEvent) -> string, parseColor: string -> Color,
                          isMessageChannel: nat -> bool)
    requires GetConfigByGameEvent(messages, e).Some?
    requires isMessageChannel(GetConfigByGameEvent(messages, e).value.channelId)
    ensures Deliveries([e], messages, render, parseColor, isMessageChannel)
            == [BuildMessageParams(GetConfigByGameEvent(messages, e).value, e, render, parseColor)]
  {
    DeliveriesSingle(e, messages, render, parseColor, isMessageChannel);
  }

  /** An event without a route adds nothing to what is sent. */
  lemma UnroutedEventSendsNothing(e: GameEvent, messages: Option<MessagesConfig>,
                                  render: (string, GameEvent) -> string, parseColor: string -> Color,
                                  isMessageChannel: nat -> bool)
    requires GetConfigByGameEvent(messages, e).None?
    ensures Deliveries([e], messages, render, parseColor, isMessageChannel) == []
  {
  }
}

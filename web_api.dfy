/** The client of the game server's admin web API (`WebAPI`): every endpoint answers
    with the same JSON envelope, and `GetResult` unwraps it. Checks run in a fixed
    order: the HTTP status first, then a `null` envelope, then the `succeeded` flag;
    only an envelope that passes all three reaches the caller. */
module WebApi {
  import opened Common

  /** `new WebAPI(port, password)`: the port and the optional password it sends. */
  datatype ApiClient = ApiClient(port: int, password: Option<string>)

  /** The envelope `Response<T>`; `data` is `None` where the JSON holds `null`. */
  datatype Envelope<T> = Envelope(code: int, message: string, succeeded: bool, data: Option<T>)

  /** An HTTP response: its status code and its body read as an envelope, `None` where
      the body reads as JSON `null`. */
  datatype HttpResponse<T> = HttpResponse(status: int, body: Option<Envelope<T>>)

  /** The exceptions a call can raise: `EnsureSuccessStatusCode`'s, the two thrown by
      `GetResult` with their messages, and dereferencing a `null` payload. */
  datatype ApiError = StatusError(status: int) | Failure(message: string) | NullData

  /** What `EnsureSuccessStatusCode` accepts. */
  predicate IsSuccessStatus(status: int)
    ensures IsSuccessStatus(status) <==> status / 100 == 2
  {
    200 <= status <= 299
  }

  /** `GetResult<T>(response)`. */
  function GetResult<T>(response: HttpResponse<T>): (r: Result<Envelope<T>, ApiError>)
    ensures r.Ok? <==> IsSuccessStatus(response.status) && response.body.Some? && response.body.value.succeeded
    ensures r.Ok? ==> r.value == response.body.value
    ensures !IsSuccessStatus(response.status) ==> r == Err(StatusError(response.status))
    ensures IsSuccessStatus(response.status) && response.body.None? ==> r == Err(Failure("Request failed"))
    ensures IsSuccessStatus(response.status) && response.body.Some? && !response.body.value.succeeded
            ==> r == Err(Failure(response.body.value.message))
  {
    if !IsSuccessStatus(response.status) then Err(StatusError(response.status))
    else if response.body.None? then Err(Failure("Request failed"))
    else if !response.body.value.succeeded then Err(Failure(response.body.value.message))
    else Ok(response.body.value)
  }

  /** The status is checked before the body is looked at: a failing status gives the same
      error whatever the body holds. */
  lemma StatusCheckedFirst<T>(a: HttpResponse<T>, b: HttpResponse<T>)
    requires a.status == b.status && !IsSuccessStatus(a.status)
    ensures GetResult(a) == GetResult(b) && GetResult(a).Err?
  {
  }

  /** A successful call hands back an envelope that reports success. */
  lemma OkMeansSucceeded<T>(response: HttpResponse<T>)
    requires GetResult(response).Ok?
    ensures GetResult(response).value.succeeded
    ensures Some(GetResult(response).value) == response.body
  {
  }

  // ---------------------------------------------------------------------------
  // Requests

  datatype HttpMethod = Get | Post

  /** A request relative to the client's base address; `body` is `None` for a null body. */
  datatype Request = Request(verb: HttpMethod, path: string, body: Option<string>)

  /** The three player actions, each a POST with the id in the query string. */
  datatype PlayerAction = KickAction | BanAction | UnbanAction

  function ActionName(a: PlayerAction): string
  {
    match a
    case KickAction => "kick"
    case BanAction => "ban"
    case UnbanAction => "unban"
  }

  /** `/player/{action}?unique_id={id}`, the id inserted as given, with a null body. */
  function ActionRequest(a: PlayerAction, playerId: string): (req: Request)
    ensures req.verb == Post && req.body == None
    ensures "/player/" <= req.path
  {
    Request(Post, "/player/" + ActionName(a) + "?unique_id=" + playerId, None)
  }

  /** The id inserted verbatim is what follows the action's fixed prefix, so different
      ids make different requests, and different actions never share a request. */
  lemma ActionRequestDecodes(a: PlayerAction, playerId: string)
    ensures var prefix := "/player/" + ActionName(a) + "?unique_id=";
            && prefix <= ActionRequest(a, playerId).path
            && ActionRequest(a, playerId).path[|prefix|..] == playerId
  {
    var prefix := "/player/" + ActionName(a) + "?unique_id=";
    assert ActionRequest(a, playerId).path == prefix + playerId;
  }

  lemma ActionRequestInjective(a: PlayerAction, id1: string, b: PlayerAction, id2: string)
    requires ActionRequest(a, id1) == ActionRequest(b, id2)
    ensures a == b && id1 == id2
  {
    var p := ActionRequest(a, id1).path;
    assert p[8] == ActionName(a)[0] && p[8] == ActionName(b)[0];
    if a == UnbanAction || b == UnbanAction {
      assert p[9] == ActionName(a)[1] && p[9] == ActionName(b)[1];
    }
    assert a == b;
    ActionRequestDecodes(a, id1);
    ActionRequestDecodes(b, id2);
  }

  // ---------------------------------------------------------------------------
  // Endpoints: each maps the response to its request to the caller's value

  datatype PlayerCountData = PlayerCountData(numPlayers: int)

  datatype PlayerListData = PlayerListData(name: string, uniqueId: string)

  /** The JSON object keyed by player, as its entries in enumeration order. */
  type PlayerTable = seq<(string, PlayerListData)>

  /** `Values.ToArray()`. */
  function Values(table: PlayerTable): (vs: seq<PlayerListData>)
    ensures |vs| == |table|
    ensures forall i :: 0 <= i < |table| ==> vs[i] == table[i].1
  {
    seq(|table|, i requires 0 <= i < |table| => table[i].1)
  }

  /** `GetPlayerCount()`: `data.num_players`, where a `null` data throws. */
  function GetPlayerCount(response: HttpResponse<PlayerCountData>): (r: Result<int, ApiError>)
    ensures r.Ok? <==> GetResult(response).Ok? && GetResult(response).value.data.Some?
    ensures r.Ok? ==> r.value == response.body.value.data.value.numPlayers
    ensures GetResult(response).Err? ==> r == Err(GetResult(response).error)
  {
    match GetResult(response)
    case Err(e) => Err(e)
    case Ok(envelope) =>
      if envelope.data.None? then Err(NullData) else Ok(envelope.data.value.numPlayers)
  }

  /** `GetPlayerList()`: the players, or `null` when the envelope's data is `null`. */
  function GetPlayerList(response: HttpResponse<PlayerTable>): (r: Result<Option<seq<PlayerListData>>, ApiError>)
    ensures r.Ok? <==> GetResult(response).Ok?
    ensures r.Ok? ==> (r.value.None? <==> response.body.value.data.None?)
    ensures r.Ok? && r.value.Some? ==> r.value.value == Values(response.body.value.data.value)
    ensures r.Err? ==> r.error == GetResult(response).error
  {
    match GetResult(response)
    case Err(e) => Err(e)
    case Ok(envelope) =>
      if envelope.data.None? then Ok(None) else Ok(Some(Values(envelope.data.value)))
  }

  /** `GetPlayerBanList()`: the same list, but a `null` data is dereferenced and throws. */
  function GetPlayerBanList(response: HttpResponse<PlayerTable>): (r: Result<seq<PlayerListData>, ApiError>)
    ensures r.Ok? <==> GetResult(response).Ok? && GetResult(response).value.data.Some?
    ensures r.Ok? ==> r.value == Values(response.body.value.data.value)
    ensures GetResult(response).Ok? && GetResult(response).value.data.None? ==> r == Err(NullData)
  {
    match GetResult(response)
    case Err(e) => Err(e)
    case Ok(envelope) =>
      if envelope.data.None? then Err(NullData) else Ok(Values(envelope.data.value))
  }

  /** `PlayerKick`, `PlayerBan` and `PlayerUnban`: `result.succeeded` of an envelope that
      `GetResult` has already required to have succeeded, so never `false`. */
  function PlayerActionResult<T>(response: HttpResponse<T>): (r: Result<bool, ApiError>)
    ensures r.Ok? ==> r.value
    ensures r.Ok? <==> GetResult(response).Ok?
    ensures r.Err? ==> r.error == GetResult(response).error
  {
    match GetResult(response)
    case Err(e) => Err(e)
    case Ok(envelope) => Ok(envelope.succeeded)
  }

  /** A player listing and a ban listing read from the same body agree whenever both
      succeed: the ban list differs only in throwing on a `null` payload. */
  lemma ListingsAgree(response: HttpResponse<PlayerTable>)
    ensures GetPlayerBanList(response).Ok? <==> GetPlayerList(response).Ok? && GetPlayerList(response).value.Some?
    ensures GetPlayerBanList(response).Ok? ==> GetPlayerList(response) == Ok(Some(GetPlayerBanList(response).value))
  {
  }
}

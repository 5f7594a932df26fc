/** `MotorTown`: the server object that owns the tailer and, when the game's config
    enables it, an admin API client, and that turns tailed lines into game events.
    `ReadAsync` classifies each line, skips lines that match no rule, drops events
    stamped before the moment streaming started, and lets a classification exception
    end the stream. */
module MotorTownStream {
  import opened Common
  import opened Timestamp
  import opened GameEvents
  import opened WebApi

  /** The game's `DedicatedServerConfig.json`, already read. */
  datatype GameConfig = GameConfig(webApiEnabled: bool, webApiPort: int, webApiPassword: Option<string>)

  /** The constructor's API client: created exactly when the game enables its web API,
      with the config's port and password. */
  function CreateWebApi(config: GameConfig): (api: Option<ApiClient>)
    ensures api.Some? <==> config.webApiEnabled
    ensures api.Some? ==> api.value.port == config.webApiPort && api.value.password == config.webApiPassword
  {
    if config.webApiEnabled then Some(ApiClient(config.webApiPort, config.webApiPassword)) else None
  }

  /** The events yielded so far, and the exception that ended the stream, if any. */
  datatype EventStream = EventStream(events: seq<GameEvent>, failure: Option<ParseError>)

  /** Whether a recognised event is yielded: not stamped strictly before `now`. */
  predicate Forwarded(e: GameEvent, now: DateTime)
  {
    !Before(e.timeStamp, now)
  }

  /** An event is forwarded exactly when it is stamped at the start time or later. */
  lemma ForwardedAtOrAfter(e: GameEvent, now: DateTime)
    ensures Forwarded(e, now) <==> e.timeStamp == now || Before(now, e.timeStamp)
  {
    BeforeIsStrictTotalOrder(e.timeStamp, now, now);
  }

  /** `ParseLog` applied to each line. */
  function Parsed(lines: seq<string>): (rs: seq<ParseResult>)
    ensures |rs| == |lines|
    ensures forall i :: 0 <= i < |lines| ==> rs[i] == ParseLog(lines[i])
  {
    Map(ParseLog, lines)
  }

  /** `f` applied to each element, in order. */
  function Map<T, U>(f: T -> U, s: seq<T>): (r: seq<U>)
    ensures |r| == |s|
    ensures forall i :: 0 <= i < |s| ==> r[i] == f(s[i])
  {
    seq(|s|, i requires 0 <= i < |s| => f(s[i]))
  }

  /** Mapping over two stretches together is mapping over each on its own. */
  lemma MapAppend<T, U>(f: T -> U, a: seq<T>, b: seq<T>)
    ensures Map(f, a + b) == Map(f, a) + Map(f, b)
  {
    var l, r := Map(f, a + b), Map(f, a) + Map(f, b);
    forall i | 0 <= i < |l|
      ensures l[i] == r[i]
    {
      if i < |a| {
        assert (a + b)[i] == a[i];
      } else {
        assert (a + b)[i] == b[i - |a|];
      }
    }
  }

  /** The loop of `ReadAsync` over classified lines: an exception ends the stream, a
      `null` is skipped, and an event is yielded when it is not stamped before `now`. */
  function FilterEvents(results: seq<ParseResult>, now: DateTime): (r: EventStream)
    ensures |r.events| <= |results|
    ensures forall i :: 0 <= i < |r.events| ==> Forwarded(r.events[i], now)
    decreases |results|
  {
    if |results| == 0 then EventStream([], None)
    else
      match results[0]
      case Failed(err) => EventStream([], Some(err))
      case Unrecognized => FilterEvents(results[1..], now)
      case Recognized(e) =>
        var rest := FilterEvents(results[1..], now);
        if Forwarded(e, now) then EventStream([e] + rest.events, rest.failure) else rest
  }

  /** `ReadAsync` over the lines the tailer yields, with `now` the start time. */
  function ReadEvents(lines: seq<string>, now: DateTime): (r: EventStream)
    ensures |r.events| <= |lines|
    ensures forall i :: 0 <= i < |r.events| ==> Forwarded(r.events[i], now)
  {
    FilterEvents(Parsed(lines), now)
  }

  /** The stream is consumed line by line: once the first stretch of lines has passed
      without an exception, what follows is the second stretch's stream appended; an
      exception in the first stretch ends the stream there. */
  lemma {:induction false} FilterEventsAppend(a: seq<ParseResult>, b: seq<ParseResult>, now: DateTime)
    ensures FilterEvents(a, now).failure.None? ==>
              FilterEvents(a + b, now)
              == EventStream(FilterEvents(a, now).events + FilterEvents(b, now).events, FilterEvents(b, now).failure)
    ensures FilterEvents(a, now).failure.Some? ==> FilterEvents(a + b, now) == FilterEvents(a, now)
    decreases |a|
  {
    if |a| == 0 {
      assert a + b == b;
    } else {
      assert (a + b)[0] == a[0];
      assert (a + b)[1..] == a[1..] + b;
      FilterEventsAppend(a[1..], b, now);
    }
  }

  lemma ReadEventsAppend(a: seq<string>, b: seq<string>, now: DateTime)
    ensures ReadEvents(a, now).failure.None? ==>
              ReadEvents(a + b, now)
              == EventStream(ReadEvents(a, now).events + ReadEvents(b, now).events, ReadEvents(b, now).failure)
    ensures ReadEvents(a, now).failure.Some? ==> ReadEvents(a + b, now) == ReadEvents(a, now)
  {
    ParsedAppend(a, b);
    FilterEventsAppend(Parsed(a), Parsed(b), now);
  }

  /** Classifying two stretches of lines is classifying each stretch. */
  lemma ParsedAppend(a: seq<string>, b: seq<string>)
    ensures Parsed(a + b) == Parsed(a) + Parsed(b)
  {
    MapAppend(ParseLog, a, b);
  }

  /** One line on its own: an event is yielded exactly when the line is recognised and
      not stamped before the start, and an exception exactly when classification fails. */
  lemma ReadEventsSingle(line: string, now: DateTime)
    ensures var r := ReadEvents([line], now);
            && (r.failure.Some? <==> ParseLog(line).Failed?)
            && (r.failure.Some? ==> r.failure.value == ParseLog(line).error)
            && (|r.events| == 1 <==> ParseLog(line).Recognized? && Forwarded(ParseLog(line).event, now))
            && (|r.events| == 1 ==> r.events[0] == ParseLog(line).event)
            && |r.events| <= 1
  {
    var rs := Parsed([line]);
    assert rs == [ParseLog(line)];
    assert rs[1..] == [];
    assert FilterEvents(rs[1..], now) == EventStream([], None);
  }

  /** The positions of the results `FilterEvents` yields events for. */
  function Origins(results: seq<ParseResult>, now: DateTime): seq<nat>
    decreases |results|
  {
    if |results| == 0 then []
    else
      match results[0]
      case Failed(_) => []
      case Unrecognized => Shift(Origins(results[1..], now))
      case Recognized(e) =>
        var rest := Shift(Origins(results[1..], now));
        if Forwarded(e, now) then [0] + rest else rest
  }

  function Shift(xs: seq<nat>): (ys: seq<nat>)
    ensures |ys| == |xs| && forall k :: 0 <= k < |xs| ==> ys[k] == xs[k] + 1
  {
    seq(|xs|, k requires 0 <= k < |xs| => xs[k] + 1)
  }

  /** The positions `o` of `events` in `results`, strictly increasing. */
  ghost predicate PositionsOf(o: seq<nat>, events: seq<GameEvent>, results: seq<ParseResult>)
  {
    && |o| == |events|
    && (forall k :: 0 <= k < |o| ==> o[k] < |results| && results[o[k]] == Recognized(events[k]))
    && (forall k, l :: 0 <= k < l < |o| ==> o[k] < o[l])
  }

  /** Positions in the results after the first one, moved up by one, are positions in
      all the results; with a forwarded first event at position 0 in front as well. */
  lemma PositionsShift(o: seq<nat>, events: seq<GameEvent>, results: seq<ParseResult>)
    requires |results| > 0 && PositionsOf(o, events, results[1..])
    ensures PositionsOf(Shift(o), events, results)
    ensures results[0].Recognized? ==>
              PositionsOf([0] + Shift(o), [results[0].event] + events, results)
  {
    forall k | 0 <= k < |o| ensures results[o[k] + 1] == results[1..][o[k]] {
    }
  }

  lemma {:induction false} FilterFollowsOrder(results: seq<ParseResult>, now: DateTime)
    ensures PositionsOf(Origins(results, now), FilterEvents(results, now).events, results)
    decreases |results|
  {
    if |results| > 0 {
      FilterFollowsOrder(results[1..], now);
      PositionsShift(Origins(results[1..], now), FilterEvents(results[1..], now).events, results);
    }
  }

  /** No reordering and no duplication: the events are the parses of lines at strictly
      increasing positions, each carrying its own line as its text. */
  lemma EventsFollowLineOrder(lines: seq<string>, now: DateTime)
    ensures var r := ReadEvents(lines, now);
            var o := Origins(Parsed(lines), now);
            && |o| == |r.events|
            && (forall k :: 0 <= k < |o| ==> o[k] < |lines| && ParseLog(lines[o[k]]) == Recognized(r.events[k]))
            && (forall k :: 0 <= k < |o| ==> r.events[k].text == lines[o[k]])
            && (forall k, l :: 0 <= k < l < |o| ==> o[k] < o[l])
  {
    FilterFollowsOrder(Parsed(lines), now);
  }
}

/**
 * The activity detector (`PlayerTracker.update`): each poll's parsed snapshot
 * is compared with the previous one, and every gamemode whose play count rose
 * yields one Win or Loss event.
 */
module Tracking {
  import opened Wrappers
  import opened JsonValues
  import opened HiveApi

  /** The classification of a new match: "Win" or "Loss". */
  datatype Outcome = Win | Loss

  /** A player's latest activity (`PlayerActivity`): display name, result, when it was seen. */
  datatype Activity = Activity(gamemode: string, result: Outcome, timestamp: int)

  /** The two notifications a tracker emits (`TrackerSignals`). */
  datatype Signal =
    | ActivityDetected(username: string, gamemode: string, result: Outcome, timestamp: int)
    | ErrorOccurred(username: string, message: string)

  const ApiError: string := "API Error"

  /** The fields of a `PlayerTracker`, as a value. */
  datatype TrackerState = TrackerState(
    username: string,
    previousData: Snapshot,
    lastActivity: Option<Activity>,
    errorMessage: string)

  /** What one update does: the new state, the signals emitted, and whether it raised. */
  datatype UpdateResult = UpdateResult(state: TrackerState, signals: seq<Signal>, raised: bool)

  /** The gamemode is in both snapshots and its play count strictly rose. */
  predicate Advanced(previous: Snapshot, current: Snapshot, key: string) {
    key in previous && key in current && current[key].gamesPlayed > previous[key].gamesPlayed
  }

  /** Win exactly when victories strictly rose; a fall in victories is a Loss too. */
  function Classify(previous: GameData, current: GameData): Outcome {
    if current.victories - previous.victories > 0 then Win else Loss
  }

  /** The events for the gamemodes of `modes`, in that order. */
  function DetectIn(previous: Snapshot, current: Snapshot, now: int, modes: seq<(string, string)>): seq<Activity> {
    if modes == [] then []
    else
      var key := modes[0].0;
      (if Advanced(previous, current, key)
       then [Activity(modes[0].1, Classify(previous[key], current[key]), now)]
       else [])
      + DetectIn(previous, current, now, modes[1..])
  }

  /** The events of one poll, in GAMEMODE_MAPPING order. */
  function Detect(previous: Snapshot, current: Snapshot, now: int): seq<Activity> {
    DetectIn(previous, current, now, Modes)
  }

  /** The `activity_detected` signals for a sequence of events. */
  function Announce(username: string, events: seq<Activity>): seq<Signal> {
    seq(|events|, i requires 0 <= i < |events| =>
      ActivityDetected(username, events[i].gamemode, events[i].result, events[i].timestamp))
  }

  /** The last event, or `fallback` when there is none. */
  function LatestOr(events: seq<Activity>, fallback: Option<Activity>): Option<Activity> {
    if events == [] then fallback else Some(events[|events| - 1])
  }

  /**
   * What the request and the parser of one update yield: `fetch_player_data`
   * returned `None` (the request failed, or the body was JSON `null`), the
   * parser raised, or a snapshot.
   */
  datatype Fetched = RequestFailed | ParseRaised | Parsed(current: Snapshot)

  /**
   * The outcome of the request and the parse, given the request's response.
   * A `null` body is Python's `None`, so `update` treats it as a failed request.
   */
  function FetchOf(fetched: Option<Json>): Fetched {
    match fetched
    case None => RequestFailed
    case Some(api) =>
      if api.JNull? then RequestFailed
      else match ParseSpec(api)
        case None => ParseRaised
        case Some(current) => Parsed(current)
  }

  /**
   * The rest of an update, given what the request and the parser yielded:
   * a failed request sets "API Error" and emits it, leaving the baseline
   * alone; a parser that raised has already cleared the error; a parsed
   * snapshot is diffed against the baseline and then replaces it.
   */
  function StepSpec(s: TrackerState, outcome: Fetched, now: int): UpdateResult {
    match outcome
    case RequestFailed =>
      UpdateResult(s.(errorMessage := ApiError), [ErrorOccurred(s.username, ApiError)], false)
    case ParseRaised => UpdateResult(s.(errorMessage := ""), [], true)
    case Parsed(current) =>
      var events := Detect(s.previousData, current, now);
      UpdateResult(
        TrackerState(s.username, current, LatestOr(events, s.lastActivity), ""),
        Announce(s.username, events),
        false)
  }

  /** One update given the fetch result (`None` when the request failed). */
  function UpdateSpec(s: TrackerState, fetched: Option<Json>, now: int): UpdateResult {
    StepSpec(s, FetchOf(fetched), now)
  }

  /** The request's response through the parser. */
  method Fetch(fetched: Option<Json>) returns (outcome: Fetched)
    ensures outcome == FetchOf(fetched)
  {
    if fetched.None? || fetched.value.JNull? {
      return RequestFailed;
    }
    var parsed := ParseGameData(fetched.value);
    if parsed.None? {
      return ParseRaised;
    }
    return Parsed(parsed.value);
  }

  /** `PlayerTracker`: one tracked player's baseline, latest activity and error text. */
  class PlayerTracker {
    const username: string
    var previousData: Snapshot
    var lastActivity: Option<Activity>
    var errorMessage: string

    function State(): TrackerState
      reads this
    {
      TrackerState(username, previousData, lastActivity, errorMessage)
    }

    constructor (username: string)
      ensures State() == TrackerState(username, map[], None, "")
    {
      this.username := username;
      previousData := map[];
      lastActivity := None;
      errorMessage := "";
    }

    /**
     * `update`, with the HTTP fetch's result and the clock passed in; the
     * signals are returned in emission order, and `raised` says the parser
     * raised (the caller's `try` absorbs it).
     */
    method Update(fetched: Option<Json>, now: int) returns (signals: seq<Signal>, raised: bool)
      modifies this
      ensures UpdateResult(State(), signals, raised) == UpdateSpec(old(State()), fetched, now)
    {
      var outcome := Fetch(fetched);
      signals, raised := Apply(outcome, now);
    }

    /** `update` once the request and the parser have yielded `outcome`. */
    method Apply(outcome: Fetched, now: int) returns (signals: seq<Signal>, raised: bool)
      modifies this
      ensures UpdateResult(State(), signals, raised) == StepSpec(old(State()), outcome, now)
    {
      match outcome {
        case RequestFailed =>
          errorMessage := ApiError;
          return [ErrorOccurred(username, errorMessage)], false;
        case ParseRaised =>
          errorMessage := "";
          return [], true;
        case Parsed(current) =>
          errorMessage := "";
          signals := EmitActivity(current, now);
          raised := false;
          previousData := current;
      }
    }

    /** The loop of `update` that compares each gamemode with the baseline and emits its event. */
    method EmitActivity(current: Snapshot, now: int) returns (signals: seq<Signal>)
      modifies this
      ensures signals == Announce(username, Detect(previousData, current, now))
      ensures lastActivity == LatestOr(Detect(previousData, current, now), old(lastActivity))
      ensures previousData == old(previousData) && errorMessage == old(errorMessage)
    {
      signals, lastActivity := CompareModes(username, previousData, current, now, lastActivity);
    }
  }

  /**
   * The comparison loop of `update` over GAMEMODE_MAPPING: the signals of
   * every gamemode whose play count rose, in order, and the last activity.
   */
  method CompareModes(username: string, baseline: Snapshot, current: Snapshot, now: int, fallback: Option<Activity>)
    returns (signals: seq<Signal>, latest: Option<Activity>)
    ensures signals == Announce(username, Detect(baseline, current, now))
    ensures latest == LatestOr(Detect(baseline, current, now), fallback)
  {
    latest := fallback;
    signals := [];
    var i := 0;
    while i < |Modes|
      invariant 0 <= i <= |Modes|
      invariant signals == Announce(username, DetectIn(baseline, current, now, Modes[..i]))
      invariant latest == LatestOr(DetectIn(baseline, current, now, Modes[..i]), fallback)
    {
      var key := Modes[i].0;
      DetectSnoc(baseline, current, now, Modes, i);
      if key in current && key in baseline && current[key].gamesPlayed > baseline[key].gamesPlayed {
        var result := if current[key].victories - baseline[key].victories > 0 then Win else Loss;
        var gamemode := Modes[i].1;
        AnnounceAppend(username, DetectIn(baseline, current, now, Modes[..i]), Activity(gamemode, result, now));
        latest := Some(Activity(gamemode, result, now));
        signals := signals + [ActivityDetected(username, gamemode, result, now)];
      } else {
        assert DetectIn(baseline, current, now, Modes[..i + 1]) == DetectIn(baseline, current, now, Modes[..i]);
      }
      i := i + 1;
    }
    assert Modes[..i] == Modes;
  }

  /** One more event adds its signal at the end. */
  lemma AnnounceAppend(username: string, events: seq<Activity>, e: Activity)
    ensures Announce(username, events + [e])
         == Announce(username, events) + [ActivityDetected(username, e.gamemode, e.result, e.timestamp)]
  {
  }

  /** Detection over the first `i + 1` gamemodes: that of the first `i`, then gamemode `i`'s event, if any. */
  lemma DetectSnoc(previous: Snapshot, current: Snapshot, now: int, modes: seq<(string, string)>, i: nat)
    requires i < |modes|
    ensures DetectIn(previous, current, now, modes[..i + 1]) ==
      DetectIn(previous, current, now, modes[..i])
      + (if Advanced(previous, current, modes[i].0)
         then [Activity(modes[i].1, Classify(previous[modes[i].0], current[modes[i].0]), now)]
         else [])
  {
    assert modes[..i + 1] == modes[..i] + [modes[i]];
    DetectInAppend(previous, current, now, modes[..i], [modes[i]]);
    assert [modes[i]][1..] == [];
  }

  // ----- Properties of the detector -----

  /** The events about one gamemode, by display name. */
  function EventsFor(events: seq<Activity>, gamemode: string): seq<Activity> {
    if events == [] then []
    else (if events[0].gamemode == gamemode then [events[0]] else []) + EventsFor(events[1..], gamemode)
  }

  lemma {:induction false} EventsForAppend(a: seq<Activity>, b: seq<Activity>, gamemode: string)
    ensures EventsFor(a + b, gamemode) == EventsFor(a, gamemode) + EventsFor(b, gamemode)
  {
    if a == [] {
      assert a + b == b;
    } else {
      var head := if a[0].gamemode == gamemode then [a[0]] else [];
      assert (a + b)[0] == a[0] && (a + b)[1..] == a[1..] + b;
      EventsForAppend(a[1..], b, gamemode);
      assert head + (EventsFor(a[1..], gamemode) + EventsFor(b, gamemode))
          == (head + EventsFor(a[1..], gamemode)) + EventsFor(b, gamemode);
    }
  }

  /** No two entries of `modes` share a display name. */
  predicate NamesDistinct(modes: seq<(string, string)>) {
    forall i, j :: 0 <= i < j < |modes| ==> modes[i].1 != modes[j].1
  }

  /** The thirteen display names are distinct, so an event's name identifies its gamemode. */
  lemma ModeNamesDistinct()
    ensures NamesDistinct(Modes)
  {
  }

  lemma {:induction false} DetectInPerMode(previous: Snapshot, current: Snapshot, now: int,
                                           modes: seq<(string, string)>, i: nat)
    requires NamesDistinct(modes) && i < |modes|
    ensures EventsFor(DetectIn(previous, current, now, modes), modes[i].1) ==
      if Advanced(previous, current, modes[i].0)
      then [Activity(modes[i].1, Classify(previous[modes[i].0], current[modes[i].0]), now)]
      else []
  {
    var key := modes[0].0;
    var step := if Advanced(previous, current, key)
      then [Activity(modes[0].1, Classify(previous[key], current[key]), now)] else [];
    var rest := DetectIn(previous, current, now, modes[1..]);
    EventsForAppend(step, rest, modes[i].1);
    if step != [] {
      assert step[1..] == [];
    }
    if i == 0 {
      EventsForAbsent(previous, current, now, modes[1..], modes[0].1);
    } else {
      DetectInPerMode(previous, current, now, modes[1..], i - 1);
    }
  }

  /** A name that no entry of `modes` carries gets no event. */
  lemma {:induction false} EventsForAbsent(previous: Snapshot, current: Snapshot, now: int,
                                           modes: seq<(string, string)>, gamemode: string)
    requires forall i :: 0 <= i < |modes| ==> modes[i].1 != gamemode
    ensures EventsFor(DetectIn(previous, current, now, modes), gamemode) == []
  {
    if modes != [] {
      var key := modes[0].0;
      var step := if Advanced(previous, current, key)
        then [Activity(modes[0].1, Classify(previous[key], current[key]), now)] else [];
      EventsForAppend(step, DetectIn(previous, current, now, modes[1..]), gamemode);
      if step != [] {
        assert step[1..] == [];
      }
      EventsForAbsent(previous, current, now, modes[1..], gamemode);
    }
  }

  /**
   * Exactly one event for each gamemode present in both snapshots whose play
   * count strictly rose, Win exactly when victories strictly rose; none for
   * any other gamemode, in particular none for one new in `current`.
   */
  lemma DetectPerMode(previous: Snapshot, current: Snapshot, now: int, i: nat)
    requires i < |Modes|
    ensures var key := Modes[i].0;
      EventsFor(Detect(previous, current, now), Modes[i].1) ==
      if Advanced(previous, current, key)
      then [Activity(Modes[i].1, if current[key].victories > previous[key].victories then Win else Loss, now)]
      else []
  {
    ModeNamesDistinct();
    DetectInPerMode(previous, current, now, Modes, i);
  }

  lemma {:induction false} DetectInOnlyAdvanced(previous: Snapshot, current: Snapshot, now: int,
                                               modes: seq<(string, string)>)
    ensures forall e :: e in DetectIn(previous, current, now, modes) ==>
      exists i :: 0 <= i < |modes| && Advanced(previous, current, modes[i].0)
        && e == Activity(modes[i].1, Classify(previous[modes[i].0], current[modes[i].0]), now)
  {
    if modes != [] {
      var key := modes[0].0;
      var step := if Advanced(previous, current, key)
        then [Activity(modes[0].1, Classify(previous[key], current[key]), now)] else [];
      var rest := DetectIn(previous, current, now, modes[1..]);
      DetectInOnlyAdvanced(previous, current, now, modes[1..]);
      forall e | e in DetectIn(previous, current, now, modes)
        ensures exists i ::
                  0 <= i < |modes| && Advanced(previous, current, modes[i].0) &&
                  e == Activity(modes[i].1, Classify(previous[modes[i].0], current[modes[i].0]), now)
      {
        if e in step {
          assert Advanced(previous, current, modes[0].0);
        } else {
          assert e in rest;
          var tail := modes[1..];
          var i :| 0 <= i < |tail| && Advanced(previous, current, tail[i].0) &&
            e == Activity(tail[i].1, Classify(previous[tail[i].0], current[tail[i].0]), now);
          assert tail[i] == modes[i + 1];
        }
      }
    }
  }

  /**
   * Every event of a poll belongs to a gamemode present in both snapshots
   * whose play count rose: together with `DetectPerMode`, one event per
   * such gamemode and nothing else.
   */
  lemma DetectOnlyAdvanced(previous: Snapshot, current: Snapshot, now: int)
    ensures forall e :: e in Detect(previous, current, now) ==>
      exists i :: 0 <= i < |Modes| && Advanced(previous, current, Modes[i].0)
        && e == Activity(Modes[i].1, Classify(previous[Modes[i].0], current[Modes[i].0]), now)
  {
    DetectInOnlyAdvanced(previous, current, now, Modes);
  }

  /** A gamemode missing from the baseline emits nothing: it only seeds the next baseline. */
  lemma NewModeSilent(previous: Snapshot, current: Snapshot, now: int, i: nat)
    requires i < |Modes| && Modes[i].0 !in previous
    ensures EventsFor(Detect(previous, current, now), Modes[i].1) == []
  {
    DetectPerMode(previous, current, now, i);
  }

  lemma {:induction false} DetectInSame(s: Snapshot, now: int, modes: seq<(string, string)>)
    ensures DetectIn(s, s, now, modes) == []
  {
    if modes != [] {
      DetectInSame(s, now, modes[1..]);
    }
  }

  /** Comparing a snapshot with itself finds no activity. */
  lemma DetectSame(s: Snapshot, now: int)
    ensures Detect(s, s, now) == []
  {
    DetectInSame(s, now, Modes);
  }

  /** Detection distributes over a split of the gamemode list. */
  lemma {:induction false} DetectInAppend(previous: Snapshot, current: Snapshot, now: int,
                                          a: seq<(string, string)>, b: seq<(string, string)>)
    ensures DetectIn(previous, current, now, a + b)
         == DetectIn(previous, current, now, a) + DetectIn(previous, current, now, b)
  {
    if a == [] {
      assert a + b == b;
    } else {
      assert (a + b)[0] == a[0] && (a + b)[1..] == a[1..] + b;
      DetectInAppend(previous, current, now, a[1..], b);
    }
  }

  /**
   * Events come in GAMEMODE_MAPPING order: for any cut of the mapping, the
   * events of the gamemodes before it precede those of the gamemodes after it.
   */
  lemma DetectOrdered(previous: Snapshot, current: Snapshot, now: int, k: nat)
    requires k <= |Modes|
    ensures Detect(previous, current, now)
         == DetectIn(previous, current, now, Modes[..k]) + DetectIn(previous, current, now, Modes[k..])
  {
    assert Modes[..k] + Modes[k..] == Modes;
    DetectInAppend(previous, current, now, Modes[..k], Modes[k..]);
  }

  /**
   * A failed fetch sets "API Error", emits it and keeps the baseline and the
   * latest activity; a parsed response clears the error, replaces the
   * baseline by the new snapshot (gamemodes it lacks drop out) and leaves
   * the latest activity at the last event emitted.
   */
  lemma UpdateOutcomes(s: TrackerState, fetched: Option<Json>, now: int)
    ensures fetched.None? || fetched == Some(JNull) ==>
      var r := UpdateSpec(s, fetched, now);
      && r.state.previousData == s.previousData && r.state.lastActivity == s.lastActivity
      && r.state.errorMessage == "API Error" && r.signals == [ErrorOccurred(s.username, "API Error")]
      && !r.raised
    ensures fetched.Some? && fetched.value != JNull && ParseSpec(fetched.value).None? ==>
      UpdateSpec(s, fetched, now) == UpdateResult(s.(errorMessage := ""), [], true)
    ensures fetched.Some? && ParseSpec(fetched.value).Some? ==>
      var r := UpdateSpec(s, fetched, now);
      var current := ParseSpec(fetched.value).value;
      && r.state.previousData == current && r.state.errorMessage == "" && !r.raised
      && (forall i :: 0 <= i < |r.signals| ==> r.signals[i].ActivityDetected? && r.signals[i].username == s.username)
      && (r.signals == [] ==> r.state.lastActivity == s.lastActivity)
      && (r.signals != [] ==> var e := r.signals[|r.signals| - 1];
            r.state.lastActivity == Some(Activity(e.gamemode, e.result, e.timestamp)))
  {
  }

  /** Fetching the same response again finds no activity and changes nothing. */
  lemma RepeatedResponseQuiet(s: TrackerState, api: Json, first: int, second: int)
    requires ParseSpec(api).Some?
    ensures var r := UpdateSpec(s, Some(api), first);
      UpdateSpec(r.state, Some(api), second) == UpdateResult(r.state, [], false)
  {
    DetectSame(ParseSpec(api).value, second);
  }
}

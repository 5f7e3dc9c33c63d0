/**
 * The main window's bookkeeping (`HiveTrackerApp`): the tracked players
 * (trackers by exact username, in the order they were added), the rows of
 * the list, the user's blacklist, and what adding, removing, the tracker
 * signals, the colour timer, the sort and one pass of the polling loop do
 * to them.
 */
module App {
  import opened Wrappers
  import opened Text
  import opened JsonValues
  import opened Tracking
  import opened PlayerList
  import opened Ordering
  import opened Blacklists

  /** The usernames of the rows, top to bottom. */
  function ItemNames(items: seq<PlayerItem>): seq<string> {
    seq(|items|, i requires 0 <= i < |items| => items[i].username)
  }

  /** The rows' fields, top to bottom. */
  function StatesOf(items: seq<PlayerItem>): (r: seq<ItemState>)
    reads items
    ensures |r| == |items| && forall i :: 0 <= i < |items| ==> r[i] == items[i].State()
  {
    if items == [] then [] else [items[0].State()] + StatesOf(items[1..])
  }

  /** `list(self.trackers.values())`: the trackers in the order their names were added. */
  function TrackerList(order: seq<string>, trackers: map<string, PlayerTracker>): (ts: seq<PlayerTracker>)
    requires forall i :: 0 <= i < |order| ==> order[i] in trackers
    ensures |ts| == |order| && forall i :: 0 <= i < |order| ==> ts[i] == trackers[order[i]]
  {
    if order == [] then [] else [trackers[order[0]]] + TrackerList(order[1..], trackers)
  }

  /** The trackers' fields, in order. */
  function TrackerStates(ts: seq<PlayerTracker>): (r: seq<TrackerState>)
    reads ts
    ensures |r| == |ts| && forall i :: 0 <= i < |ts| ==> r[i] == ts[i].State()
  {
    if ts == [] then [] else [ts[0].State()] + TrackerStates(ts[1..])
  }

  /** The position of the first `u` in `names`, as the row searches with `break` find it. */
  function FirstIndex(names: seq<string>, u: string): (r: Option<nat>)
    ensures r.Some? ==> r.value < |names| && names[r.value] == u
                        && forall j :: 0 <= j < r.value ==> names[j] != u
    ensures r.None? ==> forall j :: 0 <= j < |names| ==> names[j] != u
  {
    if names == [] then None
    else if names[0] == u then Some(0)
    else match FirstIndex(names[1..], u)
      case None => None
      case Some(k) => Some(k + 1)
  }

  function RemoveAt<T>(s: seq<T>, i: nat): seq<T>
    requires i < |s|
  {
    s[..i] + s[i + 1..]
  }

  /** `on_activity_detected` on the rows: the first row of that player records the match. */
  function ActivityRows(rows: seq<ItemState>, username: string, gamemode: string, result: Outcome, timestamp: int): seq<ItemState> {
    match FirstIndex(Names(rows), username)
    case None => rows
    case Some(k) => rows[k := WithActivity(rows[k], gamemode, result, timestamp)]
  }

  /** `on_error_occurred` on the rows: the first row of that player shows the error. */
  function ErrorRows(rows: seq<ItemState>, username: string, message: string): seq<ItemState> {
    match FirstIndex(Names(rows), username)
    case None => rows
    case Some(k) => rows[k := WithError(rows[k], message)]
  }

  /** `check_color_timeouts` on the rows: every row is checked. */
  function AgeRows(rows: seq<ItemState>, now: int): seq<ItemState> {
    seq(|rows|, i requires 0 <= i < |rows| => Aged(rows[i], now).0)
  }

  /** Some row's check reported a change (`needs_update`). */
  predicate AnyAged(rows: seq<ItemState>, now: int) {
    exists i :: 0 <= i < |rows| && Aged(rows[i], now).1
  }

  /** How many trackers a pass reaches: it stops before the first one at which the loop was no longer running. */
  function Visited(running: seq<bool>): (n: nat)
    ensures n <= |running|
    ensures forall j :: 0 <= j < n ==> running[j]
    ensures n < |running| ==> !running[n]
  {
    if running == [] || !running[0] then 0 else 1 + Visited(running[1..])
  }

  /** The trackers after a pass that updated the first `n` of them, each with its own response and clock. */
  function PassStates(states: seq<TrackerState>, outcomes: seq<Fetched>, clocks: seq<int>, n: nat): (r: seq<TrackerState>)
    requires n <= |states| && |outcomes| == |states| && |clocks| == |states|
    ensures |r| == |states|
  {
    if n == 0 then states
    else PassStates(states, outcomes, clocks, n - 1)[n - 1 := StepSpec(states[n - 1], outcomes[n - 1], clocks[n - 1]).state]
  }

  /** The signals of the first `n` updates of a pass, in order. */
  function PassSignals(states: seq<TrackerState>, outcomes: seq<Fetched>, clocks: seq<int>, n: nat): seq<Signal>
    requires n <= |states| && |outcomes| == |states| && |clocks| == |states|
  {
    if n == 0 then []
    else PassSignals(states, outcomes, clocks, n - 1) + StepSpec(states[n - 1], outcomes[n - 1], clocks[n - 1]).signals
  }

  /** One loop of `is_blacklisted`: some entry, lower-cased and stripped, equals `key`. */
  method AnyMatches(key: string, names: seq<string>) returns (found: bool)
    ensures found == Matches(key, names)
  {
    var i := 0;
    while i < |names|
      invariant 0 <= i <= |names|
      invariant forall j :: 0 <= j < i ==> Normalize(names[j]) != key
    {
      if Normalize(names[i]) == key {
        return true;
      }
      i := i + 1;
    }
    return false;
  }

  /** The rows after the first `n` of them have been checked at `now`. */
  function AgedPrefix(rows: seq<ItemState>, now: int, n: nat): (r: seq<ItemState>)
    requires n <= |rows|
    ensures |r| == |rows|
  {
    if n == 0 then rows else AgedPrefix(rows, now, n - 1)[n - 1 := Aged(rows[n - 1], now).0]
  }

  /** Some check among the first `n` rows reported a change. */
  predicate AgedUpTo(rows: seq<ItemState>, now: int, n: nat)
    requires n <= |rows|
  {
    n > 0 && (AgedUpTo(rows, now, n - 1) || Aged(rows[n - 1], now).1)
  }

  /** The loop of `check_color_timeouts` over rows that are separate objects. */
  method AgeItems(items: seq<PlayerItem>, now: int) returns (needsUpdate: bool)
    requires forall j, k :: 0 <= j < k < |items| ==> items[j] != items[k]
    modifies items
    ensures StatesOf(items) == AgeRows(old(StatesOf(items)), now)
    ensures needsUpdate == AnyAged(old(StatesOf(items)), now)
  {
    ghost var before := StatesOf(items);
    needsUpdate := false;
    var i := 0;
    while i < |items|
      invariant 0 <= i <= |items|
      invariant StatesOf(items) == AgedPrefix(before, now, i)
      invariant needsUpdate == AgedUpTo(before, now, i)
    {
      var changed := AgeStep(items, before, now, i);
      needsUpdate := needsUpdate || changed;
      i := i + 1;
    }
    AgedPrefixAll(before, now);
  }

  /** The `i`th check of the timer, after the first `i`: one more row is checked. */
  method AgeStep(items: seq<PlayerItem>, ghost before: seq<ItemState>, now: int, i: nat) returns (changed: bool)
    requires i < |items| && |before| == |items|
    requires forall j, k :: 0 <= j < k < |items| ==> items[j] != items[k]
    requires StatesOf(items) == AgedPrefix(before, now, i)
    modifies items[i]
    ensures StatesOf(items) == AgedPrefix(before, now, i + 1)
    ensures changed == Aged(before[i], now).1
  {
    changed := AgedAt(items, i, now);
    AgedPrefixNext(before, now, i, StatesOf(items));
  }

  /** The `k`th row is checked; the other rows are untouched. */
  method AgedAt(items: seq<PlayerItem>, k: nat, now: int) returns (changed: bool)
    requires k < |items|
    requires forall i, j :: 0 <= i < j < |items| ==> items[i] != items[j]
    modifies items[k]
    ensures StatesOf(items) == old(StatesOf(items))[k := Aged(old(StatesOf(items))[k], now).0]
    ensures changed == Aged(old(StatesOf(items))[k], now).1
  {
    ghost var before := StatesOf(items);
    changed := items[k].CheckColorTimeout(now);
    UpdatedAt(before, StatesOf(items), k, items[k].State());
  }

  /** The row search of the handlers and of `remove_user`: the first row with that name. */
  method FindRow(items: seq<PlayerItem>, username: string) returns (index: Option<nat>)
    ensures index == FirstIndex(ItemNames(items), username)
  {
    var i := 0;
    while i < |items|
      invariant 0 <= i <= |items|
      invariant forall j :: 0 <= j < i ==> items[j].username != username
    {
      if items[i].username == username {
        FirstIndexAt(ItemNames(items), username, i);
        return Some(i);
      }
      i := i + 1;
    }
    FirstIndexNone(ItemNames(items), username);
    return None;
  }

  /** The body of `on_activity_detected` on rows that are separate objects. */
  method RecordActivity(items: seq<PlayerItem>, username: string, gamemode: string, result: Outcome, timestamp: int)
    returns (found: bool)
    requires forall j, k :: 0 <= j < k < |items| ==> items[j] != items[k]
    modifies items
    ensures found == FirstIndex(ItemNames(items), username).Some?
    ensures StatesOf(items) == ActivityRows(old(StatesOf(items)), username, gamemode, result, timestamp)
  {
    var k := FindRow(items, username);
    NamesOfStates(items);
    if k.Some? {
      ActivityAt(items, k.value, gamemode, result, timestamp);
    }
    found := k.Some?;
  }

  /** The body of `on_error_occurred` on rows that are separate objects. */
  method RecordError(items: seq<PlayerItem>, username: string, message: string)
    requires forall j, k :: 0 <= j < k < |items| ==> items[j] != items[k]
    modifies items
    ensures StatesOf(items) == ErrorRows(old(StatesOf(items)), username, message)
  {
    var k := FindRow(items, username);
    NamesOfStates(items);
    if k.Some? {
      ErrorAt(items, k.value, message);
    }
  }

  /** The `k`th row records a match; the other rows are untouched. */
  method ActivityAt(items: seq<PlayerItem>, k: nat, gamemode: string, result: Outcome, timestamp: int)
    requires k < |items|
    requires forall i, j :: 0 <= i < j < |items| ==> items[i] != items[j]
    modifies items[k]
    ensures StatesOf(items) == old(StatesOf(items))[k := WithActivity(old(StatesOf(items))[k], gamemode, result, timestamp)]
  {
    ghost var before := StatesOf(items);
    items[k].UpdateActivity(gamemode, result, timestamp);
    UpdatedAt(before, StatesOf(items), k, items[k].State());
  }

  /** The `k`th row shows an error; the other rows are untouched. */
  method ErrorAt(items: seq<PlayerItem>, k: nat, message: string)
    requires k < |items|
    requires forall i, j :: 0 <= i < j < |items| ==> items[i] != items[j]
    modifies items[k]
    ensures StatesOf(items) == old(StatesOf(items))[k := WithError(old(StatesOf(items))[k], message)]
  {
    ghost var before := StatesOf(items);
    items[k].SetError(message);
    UpdatedAt(before, StatesOf(items), k, items[k].State());
  }

  /** The first loop of the sort: every row's fields, top to bottom. */
  method Collect(items: seq<PlayerItem>) returns (data: seq<ItemState>)
    ensures data == StatesOf(items)
  {
    data := [];
    var i := 0;
    while i < |items|
      invariant 0 <= i <= |items| && |data| == i
      invariant forall j :: 0 <= j < i ==> data[j] == items[j].State()
    {
      data := data + [items[i].State()];
      i := i + 1;
    }
  }

  /** The body of `sort_player_list`: collect the rows' fields, sort them by key, re-add them as new rows. */
  method SortRows(order: seq<string>, items: seq<PlayerItem>) returns (rows: seq<PlayerItem>)
    requires RowsMatch(order, items)
    ensures StatesOf(rows) == SortByKey(StatesOf(items))
    ensures forall i :: 0 <= i < |rows| ==> fresh(rows[i])
    ensures RowsMatch(order, rows)
  {
    var data := Collect(items);
    rows := Recreate(SortByKey(data));
    SortedRowsMatch(order, items, rows);
  }

  /** New rows, one per saved state and in the same order, as the sort re-adds them. */
  method Recreate(states: seq<ItemState>) returns (rows: seq<PlayerItem>)
    ensures StatesOf(rows) == states
    ensures forall j :: 0 <= j < |rows| ==> fresh(rows[j])
    ensures forall j, k :: 0 <= j < k < |rows| ==> rows[j] != rows[k]
  {
    rows := [];
    var i := 0;
    while i < |states|
      invariant 0 <= i <= |states| && |rows| == i
      invariant forall j :: 0 <= j < i ==> fresh(rows[j]) && rows[j].State() == states[j]
      invariant forall j, k :: 0 <= j < k < i ==> rows[j] != rows[k]
    {
      var row := new PlayerItem(states[i].username);
      row.Restore(states[i]);
      rows := rows + [row];
      i := i + 1;
    }
  }

  /**
   * Each tracked name once, each tracker under its own name, and exactly
   * one row per tracked name, each row a separate object.
   */
  predicate Bookkeeping(order: seq<string>, trackers: map<string, PlayerTracker>, items: seq<PlayerItem>) {
    KeyOrder(order, trackers) && RowsMatch(order, items)
  }

  /** `order` lists each key of `trackers` once, and each tracker sits under its own name. */
  predicate KeyOrder(order: seq<string>, trackers: map<string, PlayerTracker>) {
    && (forall i, j :: 0 <= i < j < |order| ==> order[i] != order[j])
    && (forall i :: 0 <= i < |order| ==> order[i] in trackers)
    && (forall u :: u in trackers ==> u in order)
    && (forall u :: u in trackers ==> trackers[u].username == u)
  }

  /** One separate row object per name of `order`. */
  predicate RowsMatch(order: seq<string>, items: seq<PlayerItem>) {
    && (forall i, j :: 0 <= i < j < |items| ==> items[i] != items[j])
    && multiset(ItemNames(items)) == multiset(order)
  }

  /** `HiveTrackerApp`, without its widgets. */
  class TrackerApp {
    /** The protected blacklist, fixed at construction. */
    const protected: seq<string>
    /** The user's blacklist. */
    var blacklist: seq<string>
    /** The `trackers` dictionary, keyed by exact username ... */
    var trackers: map<string, PlayerTracker>
    /** ... and its keys in insertion order. */
    var order: seq<string>
    /** The rows of the list widget, top to bottom. */
    var items: seq<PlayerItem>

    predicate Valid()
      reads this
    {
      Bookkeeping(order, trackers, items)
    }

    constructor ()
      ensures Valid() && protected == ProtectedNames
      ensures blacklist == [] && trackers == map[] && order == [] && items == []
    {
      protected := ProtectedNames;
      blacklist := [];
      trackers := map[];
      order := [];
      items := [];
    }

    /** `is_blacklisted`: the protected list first, then the user's. */
    method IsBlacklisted(username: string) returns (blocked: bool)
      ensures blocked == Blacklisted(username, protected, blacklist)
    {
      var key := Normalize(username);
      blocked := AnyMatches(key, protected);
      if !blocked {
        blocked := AnyMatches(key, blacklist);
      }
    }

    /**
     * `add_user` with the dialog's text: the stripped name is refused when
     * empty, blacklisted or already tracked under exactly that spelling;
     * otherwise a tracker and a grey row with no activity are appended.
     */
    method AddUser(text: string) returns (outcome: AddOutcome)
      requires Valid()
      modifies this
      ensures Valid() && blacklist == old(blacklist)
      ensures outcome == Decide(Strip(text), protected, blacklist, old(trackers).Keys)
      ensures outcome != Added ==> trackers == old(trackers) && order == old(order) && items == old(items)
      ensures outcome == Added ==>
        var name := Strip(text);
        && name in trackers && fresh(trackers[name])
        && trackers == old(trackers)[name := trackers[name]]
        && trackers[name].State() == TrackerState(name, map[], None, "")
        && order == old(order) + [name]
        && |items| == |old(items)| + 1 && items[..|old(items)|] == old(items)
        && fresh(items[|old(items)|]) && items[|old(items)|].State() == NewItem(name)
    {
      var username := Strip(text);
      if username == "" {
        return Ignored;
      }
      var blocked := IsBlacklisted(username);
      if blocked {
        return RefusedBlacklisted;
      }
      if username in trackers {
        return AlreadyTracking;
      }
      var tracker := new PlayerTracker(username);
      var item := new PlayerItem(username);
      AddKeepsBookkeeping(order, trackers, items, tracker, item);
      trackers := trackers[username := tracker];
      order := order + [username];
      items := items + [item];
      return Added;
    }

    /**
     * `remove_user`: an untracked name changes nothing; a tracked one loses
     * its tracker (the other keys keep their order) and its row.
     */
    method RemoveUser(username: string)
      requires Valid()
      modifies this
      ensures Valid() && blacklist == old(blacklist)
      ensures username !in old(trackers) ==> trackers == old(trackers) && order == old(order) && items == old(items)
      ensures username in old(trackers) ==>
        && FirstIndex(old(order), username).Some?
        && FirstIndex(ItemNames(old(items)), username).Some?
        && trackers == old(trackers) - {username}
        && order == RemoveAt(old(order), FirstIndex(old(order), username).value)
        && items == RemoveAt(old(items), FirstIndex(ItemNames(old(items)), username).value)
    {
      if username in trackers {
        RemoveKeepsBookkeeping(order, trackers, items, username);
        var p := FirstIndex(order, username).value;
        trackers := trackers - {username};
        order := RemoveAt(order, p);
        var k := FindRow(items, username);
        if k.Some? {
          items := RemoveAt(items, k.value);
        }
      }
    }

    /** Accepting the blacklist dialog replaces the user's blacklist by the dialog's lines. */
    method ApplyBlacklistDialog(text: string)
      requires Valid()
      modifies this
      ensures Valid() && blacklist == GetBlacklist(text)
      ensures trackers == old(trackers) && order == old(order) && items == old(items)
    {
      blacklist := GetBlacklist(text);
    }

    /** `on_activity_detected`: the result says whether a sort was scheduled. */
    method OnActivityDetected(username: string, gamemode: string, result: Outcome, timestamp: int)
      returns (sortScheduled: bool)
      requires Valid()
      modifies items
      ensures sortScheduled == FirstIndex(ItemNames(items), username).Some?
      ensures StatesOf(items) == ActivityRows(old(StatesOf(items)), username, gamemode, result, timestamp)
    {
      sortScheduled := RecordActivity(items, username, gamemode, result, timestamp);
    }

    /** `on_error_occurred`. */
    method OnErrorOccurred(username: string, message: string)
      requires Valid()
      modifies items
      ensures StatesOf(items) == ErrorRows(old(StatesOf(items)), username, message)
    {
      RecordError(items, username, message);
    }

    /** A tracker's signal reaching the window: the handler it is connected to runs. */
    method Deliver(signal: Signal) returns (sortScheduled: bool)
      requires Valid()
      modifies items
      ensures signal.ErrorOccurred? ==>
        !sortScheduled && StatesOf(items) == ErrorRows(old(StatesOf(items)), signal.username, signal.message)
      ensures signal.ActivityDetected? ==>
        && sortScheduled == FirstIndex(ItemNames(items), signal.username).Some?
        && StatesOf(items) == ActivityRows(old(StatesOf(items)), signal.username,
                                           signal.gamemode, signal.result, signal.timestamp)
    {
      match signal
      case ActivityDetected(username, gamemode, result, timestamp) =>
        sortScheduled := OnActivityDetected(username, gamemode, result, timestamp);
      case ErrorOccurred(username, message) =>
        OnErrorOccurred(username, message);
        sortScheduled := false;
    }

    /** `check_color_timeouts` with the clock read once: every row is checked. */
    method CheckColorTimeouts(now: int) returns (needsUpdate: bool)
      requires Valid()
      modifies items
      ensures StatesOf(items) == AgeRows(old(StatesOf(items)), now)
      ensures needsUpdate == AnyAged(old(StatesOf(items)), now)
    {
      needsUpdate := AgeItems(items, now);
    }

    /**
     * `sort_player_list`: the rows' fields are collected, stably sorted by
     * key, and put back into new rows in that order.
     */
    method SortPlayerList()
      requires Valid()
      modifies this
      ensures Valid()
      ensures StatesOf(items) == SortByKey(old(StatesOf(items)))
      ensures forall i :: 0 <= i < |items| ==> fresh(items[i])
      ensures blacklist == old(blacklist) && trackers == old(trackers) && order == old(order)
    {
      ghost var before := StatesOf(items);
      var rows := SortRows(order, items);
      assert StatesOf(rows) == SortByKey(before);
      assert Bookkeeping(order, trackers, rows);
      items := rows;
    }

    /**
     * One pass of `polling_loop` over the trackers in insertion order, with
     * each request's result, each update's clock, and whether the loop was
     * still running before each tracker given as inputs: the reached
     * trackers are updated in turn and emit their signals in that order.
     */
    method PollingPass(outcomes: seq<Fetched>, clocks: seq<int>, running: seq<bool>)
      returns (signals: seq<Signal>)
      requires Valid()
      requires |outcomes| == |order| && |clocks| == |order| && |running| == |order|
      modifies trackers.Values
      ensures TrackerStates(TrackerList(order, trackers)) ==
        PassStates(old(TrackerStates(TrackerList(order, trackers))), outcomes, clocks, Visited(running))
      ensures signals ==
        PassSignals(old(TrackerStates(TrackerList(order, trackers))), outcomes, clocks, Visited(running))
    {
      signals := PassOver(order, trackers, outcomes, clocks, running);
    }
  }

  /** A polling pass over the trackers of `order`, looked up in `trackers`. */
  method PassOver(order: seq<string>, trackers: map<string, PlayerTracker>,
                  outcomes: seq<Fetched>, clocks: seq<int>, running: seq<bool>)
    returns (signals: seq<Signal>)
    requires KeyOrder(order, trackers)
    requires |outcomes| == |order| && |clocks| == |order| && |running| == |order|
    modifies trackers.Values
    ensures TrackerStates(TrackerList(order, trackers)) ==
      PassStates(old(TrackerStates(TrackerList(order, trackers))), outcomes, clocks, Visited(running))
    ensures signals ==
      PassSignals(old(TrackerStates(TrackerList(order, trackers))), outcomes, clocks, Visited(running))
  {
    var ts := TrackerList(order, trackers);
    TrackerListDistinct(order, trackers);
    signals := UpdateAll(ts, outcomes, clocks, running);
  }

  /** The loop of a polling pass over trackers that are separate objects. */
  method UpdateAll(ts: seq<PlayerTracker>, outcomes: seq<Fetched>, clocks: seq<int>, running: seq<bool>)
    returns (signals: seq<Signal>)
    requires |outcomes| == |ts| && |clocks| == |ts| && |running| == |ts|
    requires forall j, k :: 0 <= j < k < |ts| ==> ts[j] != ts[k]
    modifies ts
    ensures TrackerStates(ts) == PassStates(old(TrackerStates(ts)), outcomes, clocks, Visited(running))
    ensures signals == PassSignals(old(TrackerStates(ts)), outcomes, clocks, Visited(running))
  {
    ghost var before := TrackerStates(ts);
    ghost var reached := Visited(running);
    signals := [];
    var i := 0;
    while i < |ts|
      invariant 0 <= i <= reached
      invariant TrackerStates(ts) == PassStates(before, outcomes, clocks, i)
      invariant signals == PassSignals(before, outcomes, clocks, i)
    {
      if !running[i] {
        break;
      }
      assert i < reached;
      var emitted := PassStep(ts, before, outcomes, clocks, i);
      signals := signals + emitted;
      i := i + 1;
    }
    assert i == reached;
  }

  /** The `i`th update of a pass, after the first `i`: the pass reaches one tracker further. */
  method PassStep(ts: seq<PlayerTracker>, ghost before: seq<TrackerState>, outcomes: seq<Fetched>, clocks: seq<int>, i: nat)
    returns (emitted: seq<Signal>)
    requires i < |ts| && |before| == |ts| && |outcomes| == |ts| && |clocks| == |ts|
    requires forall j, k :: 0 <= j < k < |ts| ==> ts[j] != ts[k]
    requires TrackerStates(ts) == PassStates(before, outcomes, clocks, i)
    modifies ts[i]
    ensures TrackerStates(ts) == PassStates(before, outcomes, clocks, i + 1)
    ensures PassSignals(before, outcomes, clocks, i) + emitted == PassSignals(before, outcomes, clocks, i + 1)
  {
    emitted := ApplyAt(ts, i, outcomes[i], clocks[i]);
    PassNext(before, outcomes, clocks, i, TrackerStates(ts), emitted);
  }

  /** One update of a pass: the `i`th tracker takes its outcome and the others are untouched. */
  method ApplyAt(ts: seq<PlayerTracker>, i: nat, outcome: Fetched, now: int) returns (emitted: seq<Signal>)
    requires i < |ts|
    requires forall j, k :: 0 <= j < k < |ts| ==> ts[j] != ts[k]
    modifies ts[i]
    ensures TrackerStates(ts) == old(TrackerStates(ts))[i := StepSpec(old(TrackerStates(ts))[i], outcome, now).state]
    ensures emitted == StepSpec(old(TrackerStates(ts))[i], outcome, now).signals
  {
    ghost var mid := TrackerStates(ts);
    var raised;
    emitted, raised := ts[i].Apply(outcome, now);
    UpdatedAt(mid, TrackerStates(ts), i, ts[i].State());
  }

  /** Updating tracker `i` after the first `i` extends the pass by one tracker. */
  lemma PassNext(states: seq<TrackerState>, outcomes: seq<Fetched>, clocks: seq<int>, i: nat,
                 after: seq<TrackerState>, emitted: seq<Signal>)
    requires i < |states| && |outcomes| == |states| && |clocks| == |states|
    requires var mid := PassStates(states, outcomes, clocks, i);
      after == mid[i := StepSpec(mid[i], outcomes[i], clocks[i]).state]
    requires emitted == StepSpec(PassStates(states, outcomes, clocks, i)[i], outcomes[i], clocks[i]).signals
    ensures after == PassStates(states, outcomes, clocks, i + 1)
    ensures PassSignals(states, outcomes, clocks, i) + emitted == PassSignals(states, outcomes, clocks, i + 1)
  {
    PassStatesShape(states, outcomes, clocks, i);
  }

  /** After `n` updates the first `n` trackers have taken their outcomes and the rest are as they were. */
  lemma {:induction false} PassStatesShape(states: seq<TrackerState>, outcomes: seq<Fetched>, clocks: seq<int>, n: nat)
    requires n <= |states| && |outcomes| == |states| && |clocks| == |states|
    ensures forall j :: 0 <= j < |states| ==>
      PassStates(states, outcomes, clocks, n)[j] ==
        (if j < n then StepSpec(states[j], outcomes[j], clocks[j]).state else states[j])
  {
    if n > 0 {
      PassStatesShape(states, outcomes, clocks, n - 1);
    }
  }

  /** The first `n` rows checked, the others as they were. */
  lemma {:induction false} AgedPrefixShape(rows: seq<ItemState>, now: int, n: nat)
    requires n <= |rows|
    ensures forall j :: 0 <= j < |rows| ==>
      AgedPrefix(rows, now, n)[j] == if j < n then Aged(rows[j], now).0 else rows[j]
  {
    if n > 0 {
      AgedPrefixShape(rows, now, n - 1);
    }
  }

  /** Checking row `i` after the first `i` rows extends the checked prefix by one. */
  lemma AgedPrefixNext(rows: seq<ItemState>, now: int, i: nat, after: seq<ItemState>)
    requires i < |rows|
    requires after == AgedPrefix(rows, now, i)[i := Aged(AgedPrefix(rows, now, i)[i], now).0]
    ensures AgedPrefix(rows, now, i)[i] == rows[i]
    ensures after == AgedPrefix(rows, now, i + 1)
  {
    AgedPrefixShape(rows, now, i);
  }

  /** With every row checked, the prefix is the whole timer pass. */
  lemma AgedPrefixAll(rows: seq<ItemState>, now: int)
    ensures AgedPrefix(rows, now, |rows|) == AgeRows(rows, now)
    ensures AgedUpTo(rows, now, |rows|) == AnyAged(rows, now)
  {
    AgedPrefixShape(rows, now, |rows|);
    AgedUpToShape(rows, now, |rows|);
  }

  /** The flag after `n` rows: some one of them changed. */
  lemma {:induction false} AgedUpToShape(rows: seq<ItemState>, now: int, n: nat)
    requires n <= |rows|
    ensures AgedUpTo(rows, now, n) <==> exists j :: 0 <= j < n && Aged(rows[j], now).1
  {
    if n > 0 {
      AgedUpToShape(rows, now, n - 1);
    }
  }

  lemma TrackerListDistinct(order: seq<string>, trackers: map<string, PlayerTracker>)
    requires KeyOrder(order, trackers)
    ensures forall j, k :: 0 <= j < k < |order| ==>
      TrackerList(order, trackers)[j] != TrackerList(order, trackers)[k]
    ensures forall j :: 0 <= j < |order| ==> TrackerList(order, trackers)[j] in trackers.Values
  {
    var ts := TrackerList(order, trackers);
    forall j | 0 <= j < |order|
      ensures ts[j] in trackers.Values
    {
      assert order[j] in trackers;
    }
    forall j, k | 0 <= j < k < |order|
      ensures ts[j] != ts[k]
    {
      assert ts[j].username == order[j] && ts[k].username == order[k];
    }
  }

  // ----- Properties of the window's bookkeeping -----

  /** Appending a new name with its own tracker and a new row keeps the bookkeeping consistent. */
  lemma AddKeepsBookkeeping(order: seq<string>, trackers: map<string, PlayerTracker>, items: seq<PlayerItem>,
                            tracker: PlayerTracker, item: PlayerItem)
    requires Bookkeeping(order, trackers, items)
    requires tracker.username !in trackers && item.username == tracker.username && item !in items
    ensures Bookkeeping(order + [tracker.username], trackers[tracker.username := tracker], items + [item])
  {
    var u := tracker.username;
    assert ItemNames(items + [item]) == ItemNames(items) + [u];
    assert u !in order;
  }

  /** Dropping a tracked name, its tracker and its row keeps the bookkeeping consistent. */
  lemma RemoveKeepsBookkeeping(order: seq<string>, trackers: map<string, PlayerTracker>,
                               items: seq<PlayerItem>, u: string)
    requires Bookkeeping(order, trackers, items) && u in trackers
    ensures FirstIndex(order, u).Some? && FirstIndex(ItemNames(items), u).Some?
    ensures Bookkeeping(RemoveAt(order, FirstIndex(order, u).value), trackers - {u},
                        RemoveAt(items, FirstIndex(ItemNames(items), u).value))
  {
    RowOfTracked(ItemNames(items), order, u);
    var p := FirstIndex(order, u).value;
    var k := FirstIndex(ItemNames(items), u).value;
    RemoveTracker(order, trackers, p);
    RemoveRow(order, items, p, k);
  }

  lemma RemoveTracker(order: seq<string>, trackers: map<string, PlayerTracker>, p: nat)
    requires KeyOrder(order, trackers) && p < |order|
    ensures KeyOrder(RemoveAt(order, p), trackers - {order[p]})
  {
    RemoveKey(order, trackers.Keys, p);
    RemoveKeepsDistinct(order, p);
    assert (trackers - {order[p]}).Keys == trackers.Keys - {order[p]};
  }

  lemma RemoveRow(order: seq<string>, items: seq<PlayerItem>, p: nat, k: nat)
    requires RowsMatch(order, items) && p < |order| && k < |items| && items[k].username == order[p]
    ensures RowsMatch(RemoveAt(order, p), RemoveAt(items, k))
  {
    RemoveMultiset(order, p);
    RemoveKeepsDistinct(items, k);
    RemoveMultiset(ItemNames(items), k);
    ItemNamesRemove(items, k);
  }

  /** Removing the key at `p` from an order listing each key of `keys` once lists each remaining key once. */
  lemma RemoveKey(order: seq<string>, keys: set<string>, p: nat)
    requires p < |order|
    requires forall i, j :: 0 <= i < j < |order| ==> order[i] != order[j]
    requires forall i :: 0 <= i < |order| ==> order[i] in keys
    requires forall v :: v in keys ==> v in order
    ensures forall i :: 0 <= i < |RemoveAt(order, p)| ==> RemoveAt(order, p)[i] in keys - {order[p]}
    ensures forall v :: v in keys - {order[p]} ==> v in RemoveAt(order, p)
  {
    var rest := RemoveAt(order, p);
    forall v | v in keys - {order[p]}
      ensures v in rest
    {
      var m :| 0 <= m < |order| && order[m] == v;
      if m < p {
        assert rest[m] == v;
      } else {
        assert rest[m - 1] == v;
      }
    }
  }

  lemma NamesOfStates(items: seq<PlayerItem>)
    ensures Names(StatesOf(items)) == ItemNames(items)
  {
  }

  /** A sequence that differs from `before` only at `k`, where it holds `v`. */
  lemma UpdatedAt<T>(before: seq<T>, after: seq<T>, k: nat, v: T)
    requires k < |before| == |after| && after[k] == v
    requires forall j :: 0 <= j < |before| && j != k ==> after[j] == before[j]
    ensures after == before[k := v]
  {
  }


  /** The recreated rows, holding the sorted fields, again show each tracked name once. */
  lemma SortedRowsMatch(order: seq<string>, items: seq<PlayerItem>, rows: seq<PlayerItem>)
    requires RowsMatch(order, items)
    requires StatesOf(rows) == SortByKey(StatesOf(items))
    requires forall j, k :: 0 <= j < k < |rows| ==> rows[j] != rows[k]
    ensures RowsMatch(order, rows)
  {
    SortKeepsNames(StatesOf(items));
    NamesOfStates(items);
    NamesOfStates(rows);
  }

  lemma FirstIndexAt(names: seq<string>, u: string, i: nat)
    requires i < |names| && names[i] == u
    requires forall j :: 0 <= j < i ==> names[j] != u
    ensures FirstIndex(names, u) == Some(i)
  {
    var r := FirstIndex(names, u);
    assert r.Some?;
  }

  lemma FirstIndexNone(names: seq<string>, u: string)
    requires forall j :: 0 <= j < |names| ==> names[j] != u
    ensures FirstIndex(names, u) == None
  {
  }

  /** A tracked name has a row: the rows' names and the tracked names agree as multisets. */
  lemma RowOfTracked(names: seq<string>, tracked: seq<string>, u: string)
    requires multiset(names) == multiset(tracked) && u in tracked
    ensures FirstIndex(names, u).Some? && FirstIndex(tracked, u).Some?
  {
    assert u in multiset(names);
  }

  /** Removing one position removes one occurrence of its element. */
  lemma RemoveMultiset<T>(s: seq<T>, p: nat)
    requires p < |s|
    ensures multiset(RemoveAt(s, p)) == multiset(s) - multiset{s[p]}
  {
    assert s == s[..p] + [s[p]] + s[p + 1..];
  }

  /** Removing one position from a sequence without repetitions leaves one without repetitions. */
  lemma RemoveKeepsDistinct<T>(s: seq<T>, p: nat)
    requires p < |s|
    requires forall i, j :: 0 <= i < j < |s| ==> s[i] != s[j]
    ensures forall i, j :: 0 <= i < j < |RemoveAt(s, p)| ==> RemoveAt(s, p)[i] != RemoveAt(s, p)[j]
  {
    var r := RemoveAt(s, p);
    forall i, j | 0 <= i < j < |r|
      ensures r[i] != r[j]
    {
      var i' := if i < p then i else i + 1;
      var j' := if j < p then j else j + 1;
      assert r[i] == s[i'] && r[j] == s[j'];
    }
  }

  /** The names of the rows left after removing one are the names with that one removed. */
  lemma ItemNamesRemove(items: seq<PlayerItem>, k: nat)
    requires k < |items|
    ensures ItemNames(RemoveAt(items, k)) == RemoveAt(ItemNames(items), k)
  {
    var a := ItemNames(RemoveAt(items, k));
    var b := RemoveAt(ItemNames(items), k);
    forall i | 0 <= i < |a|
      ensures a[i] == b[i]
    {
      if i < k {
        assert RemoveAt(items, k)[i] == items[i];
      } else {
        assert RemoveAt(items, k)[i] == items[i + 1];
      }
    }
  }

  /** The row handlers and the timeout change fields, never which player a row shows. */
  lemma HandlersKeepNames(rows: seq<ItemState>, username: string, gamemode: string, result: Outcome,
                          timestamp: int, message: string, now: int)
    ensures Names(ActivityRows(rows, username, gamemode, result, timestamp)) == Names(rows)
    ensures Names(ErrorRows(rows, username, message)) == Names(rows)
    ensures Names(AgeRows(rows, now)) == Names(rows)
  {
  }

  /** A player's activity lands on that player's row and on no other. */
  lemma ActivityTargetsOwnRow(rows: seq<ItemState>, username: string, gamemode: string, result: Outcome,
                              timestamp: int, i: nat)
    requires i < |rows|
    ensures var r := ActivityRows(rows, username, gamemode, result, timestamp);
      && (rows[i].username != username ==> r[i] == rows[i])
      && ((forall j :: 0 <= j < |rows| && j != i ==> rows[j].username != rows[i].username) &&
          rows[i].username == username ==>
            r[i] == WithActivity(rows[i], gamemode, result, timestamp))
  {
    var k := FirstIndex(Names(rows), username);
    if rows[i].username == username {
      assert k.Some?;
    }
  }

  /** The timer reports a change exactly when some row changed. */
  lemma AgeRowsFlag(rows: seq<ItemState>, now: int)
    ensures AnyAged(rows, now) <==> AgeRows(rows, now) != rows
  {
    if AgeRows(rows, now) != rows {
      var i :| 0 <= i < |rows| && AgeRows(rows, now)[i] != rows[i];
      assert Aged(rows[i], now).1;
    }
  }

  /** Every signal of a pass names one of the trackers the pass reached. */
  lemma {:induction false} PassSignalsFromVisited(states: seq<TrackerState>, outcomes: seq<Fetched>,
                                                  clocks: seq<int>, n: nat)
    requires n <= |states| && |outcomes| == |states| && |clocks| == |states|
    ensures forall s :: s in PassSignals(states, outcomes, clocks, n) ==>
      exists j :: 0 <= j < n && s.username == states[j].username
  {
    if n > 0 {
      PassSignalsFromVisited(states, outcomes, clocks, n - 1);
      var last := StepSpec(states[n - 1], outcomes[n - 1], clocks[n - 1]).signals;
      forall s | s in last
        ensures s.username == states[n - 1].username
      {
      }
    }
  }
}

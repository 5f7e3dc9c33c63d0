/**
 * One row of the player list (`PlayerListItem`): the player's latest
 * activity, an error text, and a background colour that flashes green or
 * red on a new match, falls back to grey 30 seconds later, while the
 * activity itself is forgotten 1000 seconds after it was seen.
 */
module PlayerList {
  import opened Wrappers
  import opened Tracking

  /** Timestamps are integers counting microseconds, the resolution of a datetime. */
  const Second: int := 1_000_000

  /** The colour of a new match turns back to grey after 30 seconds. */
  const RevertAfter: int := 30 * Second

  /** The activity of a row is cleared after 1000 seconds. */
  const ExpireAfter: int := 1000 * Second

  /** The three backgrounds: grey "#2a2a2a", green "#00ff00", red "#ff0000". */
  datatype Colour = Grey | Green | Red

  /** The fields of a `PlayerListItem`; an empty `last_result` is `None`. */
  datatype ItemState = ItemState(
    username: string,
    errorMessage: string,
    lastActivityTime: Option<int>,
    lastGamemode: string,
    lastResult: Option<Outcome>,
    colour: Colour,
    colourChangeTime: Option<int>)

  /** A fresh row: no activity, no error, grey. */
  function NewItem(username: string): ItemState {
    ItemState(username, "", None, "", None, Grey, None)
  }

  /**
   * `update_activity`: records the match, clears the error, and flashes
   * green for a win and red for anything else.
   */
  function WithActivity(s: ItemState, gamemode: string, result: Outcome, timestamp: int): ItemState {
    s.(lastActivityTime := Some(timestamp), lastGamemode := gamemode, lastResult := Some(result),
       errorMessage := "", colour := if result == Win then Green else Red,
       colourChangeTime := Some(timestamp))
  }

  /** `set_error`: shows the message on a grey background. */
  function WithError(s: ItemState, message: string): ItemState {
    s.(errorMessage := message, colour := Grey)
  }

  /**
   * `check_color_timeout` at time `now`: the new row and whether it changed.
   * An activity 1000 seconds old is cleared; otherwise a coloured row whose
   * colour changed 30 seconds ago turns grey. The flag is set exactly when
   * the row changed, a change always leaves it grey, and the timeout never
   * touches the name, the error text or the colour's change time.
   */
  function Aged(s: ItemState, now: int): (r: (ItemState, bool))
    ensures r.1 <==> r.0 != s
    ensures r.1 ==> r.0.colour == Grey
    ensures r.0.username == s.username && r.0.errorMessage == s.errorMessage
    ensures r.0.colourChangeTime == s.colourChangeTime
    ensures r.0.lastActivityTime == s.lastActivityTime || r.0.lastActivityTime == None
    ensures r.0.lastActivityTime == None && s.lastActivityTime.Some? ==>
      r.0.lastGamemode == "" && r.0.lastResult == None
    ensures r.0.lastActivityTime == s.lastActivityTime ==>
      r.0.lastGamemode == s.lastGamemode && r.0.lastResult == s.lastResult
  {
    if s.lastActivityTime.Some? && now - s.lastActivityTime.value >= ExpireAfter then
      (s.(lastActivityTime := None, lastGamemode := "", lastResult := None, colour := Grey), true)
    else if s.colourChangeTime.Some? && s.colour != Grey && now - s.colourChangeTime.value >= RevertAfter then
      (s.(colour := Grey), true)
    else
      (s, false)
  }

  /** A coloured row remembers when its colour was set. */
  predicate Consistent(s: ItemState) {
    s.colour != Grey ==> s.colourChangeTime.Some?
  }

  /** `PlayerListItem`: one row of the list, updated in place. */
  class PlayerItem {
    const username: string
    var errorMessage: string
    var lastActivityTime: Option<int>
    var lastGamemode: string
    var lastResult: Option<Outcome>
    var colour: Colour
    var colourChangeTime: Option<int>

    function State(): ItemState
      reads this
    {
      ItemState(username, errorMessage, lastActivityTime, lastGamemode, lastResult, colour, colourChangeTime)
    }

    constructor (username: string)
      ensures State() == NewItem(username)
    {
      this.username := username;
      errorMessage := "";
      lastActivityTime := None;
      lastGamemode := "";
      lastResult := None;
      colour := Grey;
      colourChangeTime := None;
    }

    /** Copies the saved fields into a recreated row, as the list sort does. */
    method Restore(s: ItemState)
      requires s.username == username
      modifies this
      ensures State() == s
    {
      lastActivityTime := s.lastActivityTime;
      lastGamemode := s.lastGamemode;
      lastResult := s.lastResult;
      errorMessage := s.errorMessage;
      colour := s.colour;
      colourChangeTime := s.colourChangeTime;
    }

    method UpdateActivity(gamemode: string, result: Outcome, timestamp: int)
      modifies this
      ensures State() == WithActivity(old(State()), gamemode, result, timestamp)
    {
      lastActivityTime := Some(timestamp);
      lastGamemode := gamemode;
      lastResult := Some(result);
      errorMessage := "";
      if result == Win {
        colour := Green;
      } else {
        colour := Red;
      }
      colourChangeTime := Some(timestamp);
    }

    method SetError(message: string)
      modifies this
      ensures State() == WithError(old(State()), message)
    {
      errorMessage := message;
      colour := Grey;
    }

    method CheckColorTimeout(now: int) returns (changed: bool)
      modifies this
      ensures (State(), changed) == Aged(old(State()), now)
    {
      if lastActivityTime.Some? && now - lastActivityTime.value >= ExpireAfter {
        lastActivityTime := None;
        lastGamemode := "";
        lastResult := None;
        colour := Grey;
        return true;
      }
      if colourChangeTime.Some? && colour != Grey && now - colourChangeTime.value >= RevertAfter {
        colour := Grey;
        return true;
      }
      return false;
    }
  }

  // ----- Properties of the row -----

  /** Every operation on a row keeps a coloured row's change time. */
  lemma ConsistentPreserved(s: ItemState, gamemode: string, result: Outcome, t: int, message: string, now: int)
    requires Consistent(s)
    ensures Consistent(NewItem(s.username))
    ensures Consistent(WithActivity(s, gamemode, result, t))
    ensures Consistent(WithError(s, message))
    ensures Consistent(Aged(s, now).0)
  {
  }

  /**
   * What a timeout check does to a row that has just seen a match at `t`:
   * nothing for the first 30 seconds, then it turns grey keeping the
   * activity, and from 1000 seconds on it is grey with no activity.
   */
  lemma ActivityTimeline(s: ItemState, gamemode: string, result: Outcome, t: int, now: int)
    ensures var a := WithActivity(s, gamemode, result, t);
      Aged(a, now) ==
        if now - t >= ExpireAfter then
          (a.(lastActivityTime := None, lastGamemode := "", lastResult := None, colour := Grey), true)
        else if now - t >= RevertAfter then (a.(colour := Grey), true)
        else (a, false)
  {
  }

  /** Checking twice at the same instant: the second check finds nothing to do. */
  lemma AgedTwice(s: ItemState, now: int)
    ensures var r := Aged(s, now).0; Aged(r, now) == (r, false)
  {
  }

  /** The row after a timeout check at each of `ticks`, in order (the colour timer fires every second). */
  function AgeAll(s: ItemState, ticks: seq<int>): ItemState
    decreases |ticks|
  {
    if ticks == [] then s else AgeAll(Aged(s, ticks[0]).0, ticks[1..])
  }

  /** A row whose match at `t` is under 30 seconds old at every tick is left as it is. */
  lemma {:induction false} QuietWhileFresh(s: ItemState, t: int, ticks: seq<int>)
    requires s.lastActivityTime == Some(t) && s.colourChangeTime == Some(t)
    requires forall i :: 0 <= i < |ticks| ==> ticks[i] - t < RevertAfter
    ensures AgeAll(s, ticks) == s
    decreases |ticks|
  {
    if ticks != [] {
      assert Aged(s, ticks[0]).0 == s;
      QuietWhileFresh(s, t, ticks[1..]);
    }
  }

  /** Once one tick comes 30 seconds after the colour changed, the row is grey from then on. */
  lemma {:induction false} RevertsToGrey(s: ItemState, t: int, ticks: seq<int>, j: nat)
    requires s.colourChangeTime == Some(t)
    requires j < |ticks| && ticks[j] - t >= RevertAfter
    ensures AgeAll(s, ticks).colour == Grey
    decreases |ticks|
  {
    var next := Aged(s, ticks[0]).0;
    if j == 0 {
      StaysGrey(next, ticks[1..]);
    } else {
      RevertsToGrey(next, t, ticks[1..], j - 1);
    }
  }

  /** Timeout checks never colour a grey row. */
  lemma {:induction false} StaysGrey(s: ItemState, ticks: seq<int>)
    requires s.colour == Grey
    ensures AgeAll(s, ticks).colour == Grey
    decreases |ticks|
  {
    if ticks != [] {
      StaysGrey(Aged(s, ticks[0]).0, ticks[1..]);
    }
  }

  /**
   * Once one tick comes 1000 seconds after the activity at `t`, the row
   * shows no activity from then on.
   */
  lemma {:induction false} Expires(s: ItemState, t: int, ticks: seq<int>, j: nat)
    requires s.lastActivityTime == Some(t)
    requires j < |ticks| && ticks[j] - t >= ExpireAfter
    ensures var r := AgeAll(s, ticks);
      r.lastActivityTime == None && r.lastGamemode == "" && r.lastResult == None
    decreases |ticks|
  {
    var next := Aged(s, ticks[0]).0;
    if j == 0 {
      StaysCleared(next, ticks[1..]);
    } else if next.lastActivityTime == None {
      StaysCleared(next, ticks[1..]);
    } else {
      Expires(next, t, ticks[1..], j - 1);
    }
  }

  /** Timeout checks never bring back a cleared activity. */
  lemma {:induction false} StaysCleared(s: ItemState, ticks: seq<int>)
    requires s.lastActivityTime == None && s.lastGamemode == "" && s.lastResult == None
    ensures var r := AgeAll(s, ticks);
      r.lastActivityTime == None && r.lastGamemode == "" && r.lastResult == None
    decreases |ticks|
  {
    if ticks != [] {
      StaysCleared(Aged(s, ticks[0]).0, ticks[1..]);
    }
  }
}

/**
 * The Hive stats response parser (`HiveAPI.parse_game_data`): an untyped JSON
 * response becomes a map from gamemode key to lifetime counters, tolerating
 * lists, records and bare numbers and several spellings of each field.
 */
module HiveApi {
  import opened Wrappers
  import opened JsonValues

  /** One gamemode's lifetime counters. Nothing clamps them, so they are plain integers. */
  datatype GameData = GameData(gamesPlayed: int, victories: int)

  /** A parsed response: gamemode key to counters; a gamemode the response lacks is absent. */
  type Snapshot = map<string, GameData>

  /** GAMEMODE_MAPPING: gamemode key and display name, in declaration order. */
  const Modes: seq<(string, string)> := [
    ("sky", "SkyWars"), ("murder", "Murder Mystery"), ("dr", "DeathRun"),
    ("hide", "Hide and Seek"), ("party", "Block Party"), ("sg", "Survival Games"),
    ("ctf", "Capture the Flag"), ("ground", "Ground Wars"), ("grav", "Gravity"),
    ("bridge", "The Bridge"), ("drop", "Block Drop"), ("build", "Just Build"),
    ("bed", "Bedwars")
  ]

  /** The keys of the first `n` gamemodes. */
  function KeysUpTo(n: nat): set<string>
    requires n <= |Modes|
  {
    set i | 0 <= i < n :: Modes[i].0
  }

  function ModeKeys(): set<string> {
    KeysUpTo(|Modes|)
  }

  /** Field names for the played count and for victories, highest priority first. */
  const PlayedFields: seq<string> := ["played", "games_played", "games", "total_games", "matches"]
  const VictoryFields: seq<string> := ["victories", "wins", "victories_count", "win_count", "total_wins"]

  /** The shorter chains a list element is read with. */
  const ListPlayedFields: seq<string> := ["played", "games_played", "games"]
  const ListVictoryFields: seq<string> := ["victories", "wins", "victories_count"]

  /** The position of the first of `fields` that `m` has, if any. */
  function FirstPresent(fields: seq<string>, m: map<string, Json>): (r: Option<nat>)
    ensures r.None? <==> forall i :: 0 <= i < |fields| ==> fields[i] !in m
    ensures r.Some? ==> r.value < |fields| && fields[r.value] in m
                        && forall j :: 0 <= j < r.value ==> fields[j] !in m
  {
    if fields == [] then None
    else if fields[0] in m then Some(0)
    else match FirstPresent(fields[1..], m)
      case None => None
      case Some(i) => Some(i + 1)
  }

  /** `m.get(f1, m.get(f2, m.get(f3, 0)))` for `fields == [f1, f2, f3]`. */
  function GetChain(fields: seq<string>, m: map<string, Json>): Json {
    match FirstPresent(fields, m)
    case None => JInt(0)
    case Some(i) => m[fields[i]]
  }

  /**
   * A counter read by field probing: the first field present decides, through
   * `int(value or 0)`, even when its value is falsy; no field present gives 0.
   * `None` means the conversion raised.
   */
  function Probe(fields: seq<string>, m: map<string, Json>): Option<int> {
    match FirstPresent(fields, m)
    case None => Some(0)
    case Some(i) => IntOf(m[fields[i]])
  }

  /** `v > 0` under Python 3: integers and booleans compare, anything else raises (`None`). */
  function PositiveTest(v: Json): Option<bool> {
    match v
    case JInt(n) => Some(n > 0)
    case JBool(b) => Some(b)
    case _ => None
  }

  function ListPlayed(item: Json): Json
    requires item.JObject?
  {
    GetChain(ListPlayedFields, item.fields)
  }

  function ListVictories(item: Json): Json
    requires item.JObject?
  {
    GetChain(ListVictoryFields, item.fields)
  }

  /** A list element the scan passes over: not a record, or a record whose played value is not positive. */
  predicate Skipped(item: Json) {
    !item.JObject? || PositiveTest(ListPlayed(item)) == Some(false)
  }

  /** What the scan of a list-shaped gamemode value finds. */
  datatype ListScan = ScanRaised | NoneQualifies | Qualifies(played: Json, victories: Json)

  /** The first record of `xs` with a positive played value; the first record whose played value cannot be compared raises. */
  function ScanList(xs: seq<Json>): ListScan {
    if xs == [] then NoneQualifies
    else if !xs[0].JObject? then ScanList(xs[1..])
    else match PositiveTest(ListPlayed(xs[0]))
      case None => ScanRaised
      case Some(positive) =>
        if positive then Qualifies(ListPlayed(xs[0]), ListVictories(xs[0]))
        else ScanList(xs[1..])
  }

  /**
   * What the scan finds: nothing exactly when every element is skipped;
   * otherwise it stops at a record k after skipped elements only, raising
   * exactly when k's played value cannot be compared, and a qualifying
   * result carries k's played and victories values.
   */
  lemma {:induction false} ScanListSpec(xs: seq<Json>)
    ensures var r := ScanList(xs);
      && (r.NoneQualifies? <==> forall i :: 0 <= i < |xs| ==> Skipped(xs[i]))
      && (!r.NoneQualifies? ==>
            exists k :: 0 <= k < |xs| && xs[k].JObject? && (forall i :: 0 <= i < k ==> Skipped(xs[i]))
                        && (r.ScanRaised? <==> PositiveTest(ListPlayed(xs[k])).None?)
                        && (r.Qualifies? ==> PositiveTest(ListPlayed(xs[k])) == Some(true)
                                             && r == Qualifies(ListPlayed(xs[k]), ListVictories(xs[k]))))
  {
    if xs != [] {
      var r := ScanList(xs);
      if Skipped(xs[0]) {
        var tail := xs[1..];
        ScanListSpec(tail);
        assert r == ScanList(tail);
        assert forall i :: 1 <= i < |xs| ==> xs[i] == tail[i - 1];
        if !r.NoneQualifies? {
          var k :| 0 <= k < |tail| && tail[k].JObject? && (forall i :: 0 <= i < k ==> Skipped(tail[i]))
                   && (r.ScanRaised? <==> PositiveTest(ListPlayed(tail[k])).None?)
                   && (r.Qualifies? ==> PositiveTest(ListPlayed(tail[k])) == Some(true)
                                        && r == Qualifies(ListPlayed(tail[k]), ListVictories(tail[k])));
          assert xs[k + 1] == tail[k];
        }
      } else {
        assert xs[0].JObject? && PositiveTest(ListPlayed(xs[0])) != Some(false);
        assert !r.NoneQualifies?;
      }
    }
  }

  /** How a gamemode value is read before field probing: left out, failed, or a record to probe. */
  datatype Shape = Omitted | Raised | Record(stats: map<string, Json>)

  function CountsRecord(played: Json, victories: Json): map<string, Json> {
    map["played" := played, "victories" := victories]
  }

  function ShapeOf(v: Json): Shape {
    match v
    case JList(xs) =>
      if xs == [] then Record(CountsRecord(JInt(0), JInt(0)))
      else (match ScanList(xs)
        case ScanRaised => Raised
        case NoneQualifies => Record(CountsRecord(JInt(0), JInt(0)))
        case Qualifies(p, w) => Record(CountsRecord(p, w)))
    case JObject(m) => Record(m)
    case JInt(n) => Record(CountsRecord(JInt(n), JInt(0)))
    case JBool(b) => Record(CountsRecord(JInt(if b then 1 else 0), JInt(0)))
    case _ => Omitted
  }

  /** The counters of a record, or `None` when a conversion raised. */
  function Extract(stats: map<string, Json>): Option<GameData> {
    var played := Probe(PlayedFields, stats);
    var victories := Probe(VictoryFields, stats);
    if played.Some? && victories.Some? then Some(GameData(played.value, victories.value)) else None
  }

  /** One gamemode's entry: absent for an unrecognised shape, zeroed when anything raised. */
  function ModeEntry(v: Json): Option<GameData> {
    match ShapeOf(v)
    case Omitted => None
    case Raised => Some(GameData(0, 0))
    case Record(stats) => Some(Extract(stats).GetOr(GameData(0, 0)))
  }

  /** Python's `key in api`: `None` when `in` itself raises (null, boolean, number). */
  function Contains(api: Json, key: string): Option<bool> {
    match api
    case JObject(m) => Some(key in m)
    case JList(xs) => Some(JString(key) in xs)
    case JString(s) => Some(exists i :: 0 <= i <= |s| - |key| && OccursAt(key, s, i))
    case _ => None
  }

  /** `key` occurs in `s` starting at position `i`. */
  predicate OccursAt(key: string, s: string, i: int) {
    0 <= i <= |s| - |key| && s[i..i + |key|] == key
  }

  /** The entries the parser has produced after the first `n` gamemodes of an object response. */
  function ParsedModes(m: map<string, Json>, n: nat): Snapshot
    requires n <= |Modes|
  {
    map k | k in KeysUpTo(n) && k in m && ModeEntry(m[k]).Some? :: ModeEntry(m[k]).value
  }

  /**
   * What `parse_game_data` returns, `None` when it raises: an object response
   * is read gamemode by gamemode; any other response yields an empty map when
   * no gamemode key is `in` it, and raises otherwise (the `in` test or the
   * subscript that follows it fails outside the `try`).
   */
  function ParseSpec(api: Json): Option<Snapshot> {
    if api.JObject? then Some(ParsedModes(api.fields, |Modes|))
    else if forall i :: 0 <= i < |Modes| ==> Contains(api, Modes[i].0) == Some(false) then Some(map[])
    else None
  }

  /** The field probe loop: the first field present decides. */
  method ProbeCounter(fields: seq<string>, stats: map<string, Json>) returns (r: Option<int>)
    ensures r == Probe(fields, stats)
  {
    var i := 0;
    while i < |fields|
      invariant 0 <= i <= |fields|
      invariant forall j :: 0 <= j < i ==> fields[j] !in stats
    {
      if fields[i] in stats {
        return IntOf(stats[fields[i]]);
      }
      i := i + 1;
    }
    return Some(0);
  }

  /** The loop over a list-shaped value, stopping at the first record with a positive played value. */
  method FindQualifying(xs: seq<Json>) returns (r: ListScan)
    ensures r == ScanList(xs)
  {
    var i := 0;
    while i < |xs|
      invariant 0 <= i <= |xs|
      invariant ScanList(xs[i..]) == ScanList(xs)
    {
      assert xs[i..][1..] == xs[i + 1..];
      var item := xs[i];
      if item.JObject? {
        var played := GetChain(ListPlayedFields, item.fields);
        var victories := GetChain(ListVictoryFields, item.fields);
        var positive := PositiveTest(played);
        if positive.None? {
          return ScanRaised;
        }
        if positive.value {
          return Qualifies(played, victories);
        }
      }
      i := i + 1;
    }
    return NoneQualifies;
  }

  /** The body of the per-gamemode `try` block. */
  method ResolveMode(v: Json) returns (entry: Option<GameData>)
    ensures entry == ModeEntry(v)
  {
    var stats: map<string, Json>;
    match v {
      case JList(xs) =>
        if xs == [] {
          stats := CountsRecord(JInt(0), JInt(0));
        } else {
          var scan := FindQualifying(xs);
          match scan {
            case ScanRaised => return Some(GameData(0, 0));
            case NoneQualifies => stats := CountsRecord(JInt(0), JInt(0));
            case Qualifies(p, w) => stats := CountsRecord(p, w);
          }
        }
      case JObject(m) => stats := m;
      case JInt(n) => stats := CountsRecord(JInt(n), JInt(0));
      case JBool(b) => stats := CountsRecord(JInt(if b then 1 else 0), JInt(0));
      case JNull => return None;
      case JString(_) => return None;
    }
    var played := ProbeCounter(PlayedFields, stats);
    if played.None? {
      return Some(GameData(0, 0));
    }
    var victories := ProbeCounter(VictoryFields, stats);
    if victories.None? {
      return Some(GameData(0, 0));
    }
    return Some(GameData(played.value, victories.value));
  }

  /** `HiveAPI.parse_game_data`: walks GAMEMODE_MAPPING in order; `None` when it raises. */
  method ParseGameData(api: Json) returns (r: Option<Snapshot>)
    ensures r == ParseSpec(api)
  {
    var gameData: Snapshot := map[];
    var i := 0;
    while i < |Modes|
      invariant 0 <= i <= |Modes|
      invariant api.JObject? ==> gameData == ParsedModes(api.fields, i)
      invariant !api.JObject? ==> gameData == map[]
                                  && forall j :: 0 <= j < i ==> Contains(api, Modes[j].0) == Some(false)
    {
      var key := Modes[i].0;
      var present := Contains(api, key);
      if present.None? {
        return None;
      }
      if present.value {
        if !api.JObject? {
          return None;
        }
        var entry := ResolveMode(api.fields[key]);
        if entry.Some? {
          gameData := gameData[key := entry.value];
        }
      }
      if api.JObject? {
        ParsedModesStep(api.fields, i);
      }
      i := i + 1;
    }
    return Some(gameData);
  }

  /** One more gamemode adds its entry, if it has one, to what the earlier ones produced. */
  lemma ParsedModesStep(m: map<string, Json>, i: nat)
    requires i < |Modes|
    ensures ParsedModes(m, i + 1) ==
      var key := Modes[i].0;
      if key in m && ModeEntry(m[key]).Some? then ParsedModes(m, i)[key := ModeEntry(m[key]).value]
      else ParsedModes(m, i)
  {
    assert KeysUpTo(i + 1) == KeysUpTo(i) + {Modes[i].0};
  }

  // ----- Properties of the parser -----

  /** A gamemode value the parser recognises: a list, a record or a number (booleans are numbers). */
  predicate Recognised(v: Json) {
    v.JList? || v.JObject? || v.JInt? || v.JBool?
  }

  /** Recognised values always yield an entry; anything else is left out, never defaulted. */
  lemma ModeEntryPresence(v: Json)
    ensures ModeEntry(v).Some? <==> Recognised(v)
  {
  }

  /**
   * An object response never makes the parser raise; every key of the result
   * is a GAMEMODE_MAPPING key that the response has, and such a key is in the
   * result exactly when its value has a recognised shape.
   */
  lemma ParsedKeys(m: map<string, Json>)
    ensures ParseSpec(JObject(m)).Some?
    ensures forall k :: k in ParseSpec(JObject(m)).value <==> k in ModeKeys() && k in m && Recognised(m[k])
  {
    forall k | k in m {
      ModeEntryPresence(m[k]);
    }
  }

  /** A response that is not an object parses to nothing, or raises when a gamemode key is `in` it. */
  lemma NonObjectResponse(api: Json)
    requires !api.JObject?
    ensures ParseSpec(api) == Some(map[]) || ParseSpec(api) == None
    ensures api.JNull? || api.JBool? || api.JInt? ==> ParseSpec(api) == None
  {
    if api.JNull? || api.JBool? || api.JInt? {
      assert Contains(api, Modes[0].0) == None;
    }
  }

  /** The first field present decides the counter, whatever later fields hold. */
  lemma {:induction false} ProbePriority(fields: seq<string>, m: map<string, Json>, i: nat)
    requires i < |fields| && fields[i] in m
    requires forall j :: 0 <= j < i ==> fields[j] !in m
    ensures Probe(fields, m) == IntOf(m[fields[i]])
  {
    var r := FirstPresent(fields, m);
    assert r.Some? && r.value == i by {
      assert r.Some? ==> fields[r.value] in m;
    }
  }

  /** A present but falsy value (null, 0, "", false) gives 0 and does not fall through to later names. */
  lemma FalsyFieldStops(fields: seq<string>, m: map<string, Json>, i: nat)
    requires i < |fields| && fields[i] in m && !Truthy(m[fields[i]])
    requires forall j :: 0 <= j < i ==> fields[j] !in m
    ensures Probe(fields, m) == Some(0)
  {
    ProbePriority(fields, m, i);
  }

  /** With no field name present the counter is 0. */
  lemma ProbeAbsent(fields: seq<string>, m: map<string, Json>)
    requires forall j :: 0 <= j < |fields| ==> fields[j] !in m
    ensures Probe(fields, m) == Some(0)
  {
  }

  /** `played` wins over `games_played`; with neither, `games` is used. */
  lemma PlayedFieldOrder(m: map<string, Json>)
    ensures "played" in m ==> Probe(PlayedFields, m) == IntOf(m["played"])
    ensures "played" !in m && "games_played" !in m && "games" in m ==> Probe(PlayedFields, m) == IntOf(m["games"])
  {
    if "played" in m {
      ProbePriority(PlayedFields, m, 0);
    } else if "games_played" !in m && "games" in m {
      ProbePriority(PlayedFields, m, 2);
    }
  }

  /** A bare number n gives (n, 0); `True` counts as the number 1. */
  lemma NumberShape(n: int, b: bool)
    ensures ModeEntry(JInt(n)) == Some(GameData(n, 0))
    ensures ModeEntry(JBool(b)) == Some(GameData(if b then 1 else 0, 0))
  {
    PlayedFieldOrder(CountsRecord(JInt(n), JInt(0)));
    ProbePriority(VictoryFields, CountsRecord(JInt(n), JInt(0)), 0);
    PlayedFieldOrder(CountsRecord(JInt(if b then 1 else 0), JInt(0)));
    ProbePriority(VictoryFields, CountsRecord(JInt(if b then 1 else 0), JInt(0)), 0);
  }

  /** A list with no record of positive played value (empty, or all skipped) gives (0, 0). */
  lemma ListWithoutPlays(xs: seq<Json>)
    requires forall i :: 0 <= i < |xs| ==> Skipped(xs[i])
    ensures ModeEntry(JList(xs)) == Some(GameData(0, 0))
  {
    ScanListSpec(xs);
    var zero := CountsRecord(JInt(0), JInt(0));
    ProbePriority(PlayedFields, zero, 0);
    ProbePriority(VictoryFields, zero, 0);
  }

  /**
   * A list uses its first record with a positive played value (a positive
   * number, or `true`, which counts as 1), with victories read through the
   * short chain.
   */
  lemma ListFirstPlayed(xs: seq<Json>, k: nat)
    requires k < |xs| && xs[k].JObject?
    requires forall i :: 0 <= i < k ==> Skipped(xs[i])
    requires PositiveTest(ListPlayed(xs[k])) == Some(true)
    requires IntOf(ListVictories(xs[k])).Some?
    ensures IntOf(ListPlayed(xs[k])).Some?
    ensures ModeEntry(JList(xs)) ==
      Some(GameData(IntOf(ListPlayed(xs[k])).value, IntOf(ListVictories(xs[k])).value))
  {
    var played := ListPlayed(xs[k]);
    assert played.JInt? || played.JBool?;
    ScanFindsFirst(xs, k);
    ShapeOfQualifying(xs, played, ListVictories(xs[k]));
    ExtractCounts(played, ListVictories(xs[k]));
  }

  /** A list whose scan qualifies an element is the record of that element's two counters. */
  lemma ShapeOfQualifying(xs: seq<Json>, played: Json, victories: Json)
    requires xs != [] && ScanList(xs) == Qualifies(played, victories)
    ensures ShapeOf(JList(xs)) == Record(CountsRecord(played, victories))
  {
  }

  /** The record built from a list element is read back field by field. */
  lemma ExtractCounts(played: Json, victories: Json)
    requires IntOf(played).Some? && IntOf(victories).Some?
    ensures Extract(CountsRecord(played, victories)) == Some(GameData(IntOf(played).value, IntOf(victories).value))
  {
    var stats := CountsRecord(played, victories);
    ProbePriority(PlayedFields, stats, 0);
    ProbePriority(VictoryFields, stats, 0);
  }

  /** The scan stops at the first record that is not skipped. */
  lemma {:induction false} ScanFindsFirst(xs: seq<Json>, k: nat)
    requires k < |xs| && xs[k].JObject?
    requires forall i :: 0 <= i < k ==> Skipped(xs[i])
    requires PositiveTest(ListPlayed(xs[k])) == Some(true)
    ensures ScanList(xs) == Qualifies(ListPlayed(xs[k]), ListVictories(xs[k]))
  {
    if k > 0 {
      assert Skipped(xs[0]);
      assert xs[1..][k - 1] == xs[k];
      ScanFindsFirst(xs[1..], k - 1);
    }
  }

  /** A failure inside the `try` (a value `int()` rejects, or an uncomparable played value) zeroes that gamemode. */
  lemma FailureZeroes(v: Json)
    requires ShapeOf(v).Raised? || (ShapeOf(v).Record? && Extract(ShapeOf(v).stats).None?)
    ensures ModeEntry(v) == Some(GameData(0, 0))
  {
  }

  /** A record whose `played` is a non-numeric string zeroes the gamemode. */
  lemma UnparsablePlayed(m: map<string, Json>)
    requires "played" in m && m["played"] == JString("abc")
    ensures ModeEntry(JObject(m)) == Some(GameData(0, 0))
  {
    PlayedFieldOrder(m);
    assert ParseDecimal("abc") == None by {
      assert IntStrip("abc") == "abc";
    }
  }

  /** `{"sky": "unexpected_string"}` parses to an empty snapshot, without raising. */
  lemma UnknownShapeOmitted()
    ensures ParseSpec(JObject(map["sky" := JString("unexpected_string")])) == Some(map[])
  {
    ParsedKeys(map["sky" := JString("unexpected_string")]);
  }
}

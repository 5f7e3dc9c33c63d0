/**
 * Untyped JSON values as the HTTP client hands them over, with the parts of
 * Python's semantics the parser leans on: truthiness and `int(x or 0)`.
 * JSON floats are not modelled.
 */
module JsonValues {
  import opened Wrappers
  import opened Text

  datatype Json =
    | JNull
    | JBool(b: bool)
    | JInt(n: int)
    | JString(s: string)
    | JList(items: seq<Json>)
    | JObject(fields: map<string, Json>)

  /** Python truthiness: `None`, `False`, `0`, `""`, `[]` and `{}` are false. */
  predicate Truthy(v: Json) {
    match v
    case JNull => false
    case JBool(b) => b
    case JInt(n) => n != 0
    case JString(s) => s != []
    case JList(xs) => xs != []
    case JObject(m) => m != map[]
  }

  predicate IsDigit(c: char) {
    '0' <= c <= '9'
  }

  /** Decimal digits, single underscores allowed between two digits (Python's `int` literal grouping). */
  predicate DigitRun(b: string) {
    && |b| > 0
    && IsDigit(b[0])
    && IsDigit(b[|b| - 1])
    && (forall i :: 0 <= i < |b| ==> IsDigit(b[i]) || b[i] == '_')
    && (forall i :: 0 <= i < |b| - 1 ==> b[i] == '_' ==> b[i + 1] != '_')
  }

  /** The number the digits of `b` spell, skipping underscores. */
  function DigitsValue(b: string): nat {
    if b == [] then 0
    else if IsDigit(b[|b| - 1]) then DigitsValue(b[..|b| - 1]) * 10 + (b[|b| - 1] as int - '0' as int)
    else DigitsValue(b[..|b| - 1])
  }

  /**
   * The whitespace `int()` skips around a literal: space and \t \n \v \f \r
   * only, fewer characters than `str.strip` removes.
   */
  predicate IntSpace(c: char) {
    c == ' ' || 9 <= c as int <= 13
  }

  function DropLeadingIntSpace(s: string): string {
    if s != [] && IntSpace(s[0]) then DropLeadingIntSpace(s[1..]) else s
  }

  function DropTrailingIntSpace(s: string): string {
    if s != [] && IntSpace(s[|s| - 1]) then DropTrailingIntSpace(s[..|s| - 1]) else s
  }

  /** `s` without the whitespace `int()` skips at either end. */
  function IntStrip(s: string): string {
    DropTrailingIntSpace(DropLeadingIntSpace(s))
  }

  /**
   * Python's `int(s)` on a string: surrounding whitespace, an optional sign,
   * then a digit run; anything else raises (`None`).
   */
  function ParseDecimal(s: string): Option<int> {
    var t := IntStrip(s);
    if |t| > 0 && (t[0] == '+' || t[0] == '-') then
      if DigitRun(t[1..]) then
        var magnitude: int := DigitsValue(t[1..]);
        Some(if t[0] == '-' then -magnitude else magnitude)
      else None
    else if DigitRun(t) then Some(DigitsValue(t))
    else None
  }

  /**
   * Python's `int(v or 0)`: a falsy value gives 0, `True` gives 1, an integer
   * itself, a non-empty string is parsed, and a non-empty list or object
   * raises a TypeError (`None`).
   */
  function IntOf(v: Json): (r: Option<int>)
    ensures !Truthy(v) ==> r == Some(0)
    ensures r.None? <==> (v.JList? || v.JObject? || v.JString?) && Truthy(v)
                         && (v.JString? ==> ParseDecimal(v.s).None?)
  {
    if !Truthy(v) then Some(0)
    else match v
      case JBool(_) => Some(1)
      case JInt(n) => Some(n)
      case JString(s) => ParseDecimal(s)
      case _ => None
  }

  function DigitChar(d: nat): char
    requires d < 10
  {
    ('0' as int + d) as char
  }

  /** `str(n)` for a non-negative integer. */
  function NatString(n: nat): (s: string)
    ensures |s| > 0
    ensures forall i :: 0 <= i < |s| ==> IsDigit(s[i])
  {
    if n < 10 then [DigitChar(n)] else NatString(n / 10) + [DigitChar(n % 10)]
  }

  /** `str(n)` for any integer. */
  function DecimalString(n: int): string {
    if n < 0 then "-" + NatString(-n) else NatString(n)
  }

  lemma {:induction false} NatStringValue(n: nat)
    ensures DigitsValue(NatString(n)) == n
  {
    if n >= 10 {
      NatStringValue(n / 10);
      var s := NatString(n);
      assert s[..|s| - 1] == NatString(n / 10);
    }
  }

  /** Python's `int(str(n)) == n`: the counters the API may send as strings read back exactly. */
  lemma ParseDecimalString(n: int)
    ensures ParseDecimal(DecimalString(n)) == Some(n)
  {
    var m: nat := if n < 0 then -n else n;
    var d := NatString(m);
    NatStringValue(m);
    NatStringDigitRun(m);
    var s := DecimalString(n);
    assert s[|s| - 1] == d[|d| - 1];
    IntStripKeeps(s);
    if n < 0 {
      assert s[1..] == d;
      ParseNegative(s);
    } else {
      ParseUnsigned(s);
    }
  }

  /** A stripped digit run parses to the number it spells. */
  lemma ParseUnsigned(t: string)
    requires IntStrip(t) == t && DigitRun(t)
    ensures ParseDecimal(t) == Some(DigitsValue(t))
  {
    assert IsDigit(t[0]);
  }

  /** A stripped `-` followed by a digit run parses to minus the number the digits spell. */
  lemma ParseNegative(t: string)
    requires IntStrip(t) == t && |t| > 0 && t[0] == '-' && DigitRun(t[1..])
    ensures ParseDecimal(t) == Some(-(DigitsValue(t[1..]) as int))
  {
  }

  /** `IntStrip` takes off only `int()` whitespace, from the two ends, and leaves neither end such whitespace. */
  lemma IntStripShape(s: string)
    ensures var t := IntStrip(s);
      && (t == [] || (!IntSpace(t[0]) && !IntSpace(t[|t| - 1])))
      && exists a, b :: 0 <= a <= b <= |s| && t == s[a..b]
                        && (forall j :: 0 <= j < a ==> IntSpace(s[j]))
                        && (forall j :: b <= j < |s| ==> IntSpace(s[j]))
  {
    var a := DropLeadingShape(s);
    var u := s[a..];
    var b := DropTrailingShape(u);
    assert IntStrip(s) == s[a..a + b];
    if a < |s| {
      assert !IntSpace(u[0]);
      assert b > 0;
    }
  }

  lemma {:induction false} DropLeadingShape(s: string) returns (a: nat)
    ensures a <= |s| && DropLeadingIntSpace(s) == s[a..]
    ensures forall j :: 0 <= j < a ==> IntSpace(s[j])
    ensures a < |s| ==> !IntSpace(s[a])
  {
    if s != [] && IntSpace(s[0]) {
      var a' := DropLeadingShape(s[1..]);
      a := a' + 1;
      assert s[1..][a'..] == s[a..];
    } else {
      a := 0;
    }
  }

  lemma {:induction false} DropTrailingShape(s: string) returns (b: nat)
    ensures b <= |s| && DropTrailingIntSpace(s) == s[..b]
    ensures forall j :: b <= j < |s| ==> IntSpace(s[j])
    ensures b > 0 ==> !IntSpace(s[b - 1])
  {
    if s != [] && IntSpace(s[|s| - 1]) {
      b := DropTrailingShape(s[..|s| - 1]);
      assert s[..|s| - 1][..b] == s[..b];
    } else {
      b := |s|;
    }
  }

  /** A string that neither starts nor ends with `int()` whitespace is left as it is. */
  lemma IntStripKeeps(s: string)
    requires s != [] && !IntSpace(s[0]) && !IntSpace(s[|s| - 1])
    ensures IntStrip(s) == s
  {
    assert DropLeadingIntSpace(s) == s;
  }

  /**
   * `int()` skips a trailing newline but not a trailing file separator (0x1c),
   * which `str.strip` would remove.
   */
  lemma IntSkipsOnlyIntSpace()
    ensures IntOf(JString(" 5\n")) == Some(5)
    ensures IntOf(JString("5" + [28 as char])) == None
  {
    assert IntStrip(" 5\n") == "5" by {
      assert DropLeadingIntSpace(" 5\n") == "5\n";
      assert DropTrailingIntSpace("5\n") == "5";
    }
    var t := "5" + [28 as char];
    assert IntStrip(t) == t;
    assert !DigitRun(t);
  }

  lemma NatStringDigitRun(n: nat)
    ensures DigitRun(NatString(n))
  {
  }

  /** A counter sent as a decimal string converts to its value. */
  lemma IntOfDecimalString(n: int)
    ensures IntOf(JString(DecimalString(n))) == Some(n)
  {
    ParseDecimalString(n);
  }
}

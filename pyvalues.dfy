/**
  Values as `json.load` hands them to Python code, and the few Python builtins
  the validator and the generator apply to them: `str()`, `float()`, `int()`
  and `str.strip()`.
 */
module PyValues {
  import opened Wrappers

  /** A deserialised JSON value: `None`, `bool`, `int`, `float`, `str`, `list`, `dict`. */
  datatype Json =
    | Null
    | Bool(b: bool)
    | Int(i: int)
    | Float(f: real)
    | Str(s: string)
    | Arr(items: seq<Json>)
    | Obj(fields: map<string, Json>)

  /**
    The parts of Python's `str()`, `float()` and `int()` whose algorithms the
    model does not spell out: the shortest round-trip text of a float, the text
    of a list or dict, and the parsing of a string by `float()` and by `int()`
    (None when it raises).
   */
  datatype Builtins = Builtins(
    floatRepr: real -> string,
    containerRepr: Json -> string,
    parseFloat: string -> Option<real>,
    parseInt: string -> Option<int>)

  /** `d.get(key, default)` */
  function Get(d: map<string, Json>, key: string, default: Json): (v: Json)
    ensures key in d ==> v == d[key]
    ensures key !in d ==> v == default
  {
    if key in d then d[key] else default
  }

  /** Every character of `s` is a decimal digit. */
  predicate Digits(s: string) {
    forall k | 0 <= k < |s| :: '0' <= s[k] <= '9'
  }

  /** The number a string of decimal digits denotes. */
  function DigitsValue(s: string): nat
    requires Digits(s)
  {
    if |s| == 0 then 0
    else
      var init := s[..|s| - 1];
      assert forall k | 0 <= k < |init| :: init[k] == s[k];
      DigitsValue(init) * 10 + (s[|s| - 1] as int - '0' as int)
  }

  /** Decimal digits without leading zeros: the only text Python prints for a `nat`. */
  predicate Canonical(s: string) {
    |s| > 0 && Digits(s) && (s[0] != '0' || |s| == 1)
  }

  /** The decimal text of `n`: canonical digits that denote `n`. */
  function NatText(n: nat): (s: string)
    ensures Canonical(s) && DigitsValue(s) == n
  {
    var digit := ['0' + (n % 10) as char];
    assert digit[..0] == [];
    if n < 10 then digit
    else
      var t := NatText(n / 10) + digit;
      assert t[..|t| - 1] == NatText(n / 10);
      t
  }

  /** Python's `str()` of an `int`: the canonical digits of `|i|`, after a `-` for negatives. */
  function IntText(i: int): (s: string)
    ensures |s| > 0
    ensures (s[0] == '-') <==> i < 0
    ensures i >= 0 ==> Canonical(s) && DigitsValue(s) == i
    ensures i < 0 ==> Canonical(s[1..]) && DigitsValue(s[1..]) == -i
  {
    if i < 0 then
      var t := "-" + NatText(-i);
      assert t[1..] == NatText(-i);
      t
    else NatText(i)
  }

  /** Python's `str(v)`. */
  function PyStr(py: Builtins, v: Json): string {
    match v
    case Null => "None"
    case Bool(b) => if b then "True" else "False"
    case Int(i) => IntText(i)
    case Float(f) => py.floatRepr(f)
    case Str(s) => s
    case Arr(_) => py.containerRepr(v)
    case Obj(_) => py.containerRepr(v)
  }

  /**
    2^1024 - 2^970: an `int` of at least this magnitude rounds past the largest
    finite double, so `float()` of it raises OverflowError.
   */
  const FLOAT_OVERFLOW_BOUND: int := 0xffff_ffff_ffff_fc00_0000_0000_0000_0000_0000_0000_0000_0000_0000_0000_0000_0000_0000_0000_0000_0000_0000_0000_0000_0000_0000_0000_0000_0000_0000_0000_0000_0000_0000_0000_0000_0000_0000_0000_0000_0000_0000_0000_0000_0000_0000_0000_0000_0000_0000_0000_0000_0000_0000_0000_0000_0000_0000_0000_0000_0000_0000_0000_0000_0000

  /** Python's `float(v)`: Some(value) when it returns, None when it raises. */
  function PyFloat(py: Builtins, v: Json): (r: Option<real>)
    ensures v == Null ==> r == None
    ensures v.Arr? || v.Obj? ==> r == None
    ensures v.Float? ==> r == Some(v.f)
  {
    match v
    case Null => None
    case Bool(b) => Some(if b then 1.0 else 0.0)
    case Int(i) =>
      if -FLOAT_OVERFLOW_BOUND < i < FLOAT_OVERFLOW_BOUND then Some(i as real) else None
    case Float(f) => Some(f)
    case Str(s) => py.parseFloat(s)
    case Arr(_) => None
    case Obj(_) => None
  }

  /** Truncation toward zero, as `int()` applies it to a float. */
  function Truncate(f: real): (t: int)
    ensures 0.0 <= f ==> 0 <= t && t as real <= f < t as real + 1.0
    ensures f < 0.0 ==> t <= 0 && t as real - 1.0 < f <= t as real
  {
    if f >= 0.0 then f.Floor else -((-f).Floor)
  }

  /** Python's `int(v)`: Some(value) when it returns, None when it raises. */
  function PyInt(py: Builtins, v: Json): (r: Option<int>)
    ensures v == Null ==> r == None
    ensures v.Arr? || v.Obj? ==> r == None
    ensures v.Int? ==> r == Some(v.i)
    ensures v.Bool? ==> r == Some(if v.b then 1 else 0)
  {
    match v
    case Null => None
    case Bool(b) => Some(if b then 1 else 0)
    case Int(i) => Some(i)
    case Float(f) => Some(Truncate(f))
    case Str(s) => py.parseInt(s)
    case Arr(_) => None
    case Obj(_) => None
  }

  /**
    The characters Python's `str.isspace()` accepts, which `strip()` removes:
    U+0009 to U+000D, U+001C to U+0020, U+0085, U+00A0, U+1680, U+2000 to
    U+200A, U+2028, U+2029, U+202F, U+205F and U+3000.
   */
  predicate IsSpace(c: char) {
    || '\U{0009}' <= c <= '\U{000D}'
    || '\U{001C}' <= c <= '\U{0020}'
    || c == '\U{0085}' || c == '\U{00A0}' || c == '\U{1680}'
    || '\U{2000}' <= c <= '\U{200A}'
    || c == '\U{2028}' || c == '\U{2029}' || c == '\U{202F}' || c == '\U{205F}'
    || c == '\U{3000}'
  }

  /** Every character of `s` is whitespace. */
  predicate AllSpace(s: string) {
    forall c <- s :: IsSpace(c)
  }

  /** `s.lstrip()` */
  function TrimStart(s: string): (r: string)
    ensures r == [] || !IsSpace(r[0])
    ensures r == [] <==> AllSpace(s)
  {
    if |s| > 0 && IsSpace(s[0]) then
      assert s == [s[0]] + s[1..];
      TrimStart(s[1..])
    else
      s
  }

  /** `s.rstrip()` */
  function TrimEnd(s: string): (r: string)
    ensures r == [] || !IsSpace(r[|r| - 1])
    ensures |s| > 0 && !IsSpace(s[0]) ==> r != [] && r[0] == s[0]
  {
    if |s| > 0 && IsSpace(s[|s| - 1]) then TrimEnd(s[..|s| - 1]) else s
  }

  /** Python's `s.strip()`, which removes whitespace at both ends. */
  function Strip(s: string): (r: string)
    ensures r == [] <==> AllSpace(s)
    ensures r == [] || (!IsSpace(r[0]) && !IsSpace(r[|r| - 1]))
  {
    TrimEnd(TrimStart(s))
  }

  /** `lstrip()` removes a run of whitespace from the front and keeps the rest. */
  lemma {:induction false} TrimStartSuffix(s: string)
    ensures var r := TrimStart(s);
      |r| <= |s| && r == s[|s| - |r|..] && AllSpace(s[..|s| - |r|])
  {
    if |s| > 0 && IsSpace(s[0]) {
      var t := s[1..];
      TrimStartSuffix(t);
      var r := TrimStart(t);
      assert t[|t| - |r|..] == s[|s| - |r|..];
      assert s[..|s| - |r|] == [s[0]] + t[..|t| - |r|];
    } else {
      assert s[..0] == [];
    }
  }

  /** `rstrip()` removes a run of whitespace from the back and keeps the rest. */
  lemma {:induction false} TrimEndPrefix(s: string)
    ensures var r := TrimEnd(s);
      |r| <= |s| && r == s[..|r|] && AllSpace(s[|r|..])
  {
    if |s| > 0 && IsSpace(s[|s| - 1]) {
      var t := s[..|s| - 1];
      TrimEndPrefix(t);
      var r := TrimEnd(t);
      assert t[..|r|] == s[..|r|];
      assert s[|r|..] == t[|r|..] + [s[|s| - 1]];
    } else {
      assert s[|s|..] == [];
    }
  }

  /**
    `strip()` keeps a slice of `s` whose two sides are all whitespace; with
    Strip's own contract (the slice is empty or starts and ends with a
    non-space) this determines the result.
   */
  lemma StripSlice(s: string)
    ensures var r := Strip(s);
      exists a: nat | a + |r| <= |s| :: r == s[a..a + |r|] && AllSpace(s[..a]) && AllSpace(s[a + |r|..])
  {
    var l := TrimStart(s);
    TrimStartSuffix(s);
    TrimEndPrefix(l);
    var r := TrimEnd(l);
    var a := |s| - |l|;
    assert l == s[a..];
    assert r == s[a..][..|r|] == s[a..a + |r|];
    assert l[|r|..] == s[a + |r|..];
    assert AllSpace(s[..a]) && AllSpace(s[a + |r|..]);
  }

  /** `"None".strip()` is `"None"`. */
  lemma StripNone()
    ensures Strip("None") == "None"
  {
    assert !IsSpace("None"[0]) && !IsSpace("None"[3]);
  }

  /** Python's `s.startswith(prefix)`. */
  predicate StartsWith(s: string, prefix: string) {
    |prefix| <= |s| && s[..|prefix|] == prefix
  }
}

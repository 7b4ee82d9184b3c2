/**
 * The Python values the dashboard's core handles: parsed JSON (GeoJSON features,
 * layer-style files) and the cells of pandas tables. Also the Python built-ins
 * the core applies to them: truthiness, `str()`, `float()`, `dict.get` and
 * assignment into a dict, and iteration.
 */
module PyValue {
  import opened PyText

  datatype Option<+T> = None | Some(value: T) {
    function GetOr(default: T): T {
      match this
      case Some(v) => v
      case None => default
    }
  }

  /** The outcome of Python code that may raise: its value, or an exception that escaped. */
  datatype Result<+T> = Ok(value: T) | Raised

  /**
   * A Python value. `Dict` keeps its entries in insertion order (Python dicts
   * are ordered and the core's case-insensitive key scan depends on it);
   * all keys are strings, as in parsed JSON.
   */
  datatype Value =
    | Null
    | Bool(b: bool)
    | Int(i: int)
    | Float(x: real)
    | Str(s: string)
    | List(items: seq<Value>)
    | Dict(entries: seq<(string, Value)>)

  /** Python truthiness: `bool(v)`. */
  predicate Truthy(v: Value) {
    match v
    case Null => false
    case Bool(b) => b
    case Int(i) => i != 0
    case Float(x) => x != 0.0
    case Str(s) => s != []
    case List(items) => items != []
    case Dict(entries) => entries != []
  }

  /** `v or d` */
  function Or(v: Value, d: Value): (r: Value)
    ensures Truthy(v) ==> r == v
    ensures !Truthy(v) ==> r == d
  {
    if Truthy(v) then v else d
  }

  const EmptyDict: Value := Dict([])

  /** `isinstance(v, (int, float))`; Python's `bool` is a subclass of `int`. */
  predicate IsNumber(v: Value) {
    v.Bool? || v.Int? || v.Float?
  }

  /** The numeric value of an int, float or bool. */
  function NumberOf(v: Value): real
    requires IsNumber(v)
  {
    match v
    case Bool(b) => if b then 1.0 else 0.0
    case Int(i) => i as real
    case Float(x) => x
  }

  // ---------------------------------------------------------------- dicts

  /** Position of the first pair whose key is `k`, or `|d|` when there is none. */
  function KeyIndex<K(==), V>(d: seq<(K, V)>, k: K): (r: nat)
    ensures r <= |d|
    ensures r < |d| ==> d[r].0 == k
    ensures forall j :: 0 <= j < r ==> d[j].0 != k
  {
    if d == [] then 0
    else if d[0].0 == k then 0
    else 1 + KeyIndex(d[1..], k)
  }

  /** `k in d` */
  predicate HasKey(d: seq<(string, Value)>, k: string) {
    KeyIndex(d, k) < |d|
  }

  lemma HasKeyAt(d: seq<(string, Value)>, k: string, j: nat)
    requires j < |d| && d[j].0 == k
    ensures HasKey(d, k) && KeyIndex(d, k) <= j
  {
  }

  /** `d.get(k)` */
  function Get(d: seq<(string, Value)>, k: string): (r: Value)
    ensures !HasKey(d, k) ==> r == Null
  {
    if HasKey(d, k) then d[KeyIndex(d, k)].1 else Null
  }

  /** `d.get(k, default)` */
  function GetOr(d: seq<(string, Value)>, k: string, default: Value): (r: Value)
    ensures HasKey(d, k) ==> r == Get(d, k)
    ensures !HasKey(d, k) ==> r == default
  {
    if HasKey(d, k) then Get(d, k) else default
  }

  /** `d[k] = v`: overwrite in place when present, otherwise append at the end. */
  function Set(d: seq<(string, Value)>, k: string, v: Value): (r: seq<(string, Value)>)
    ensures HasKey(d, k) ==> |r| == |d| && r == d[KeyIndex(d, k) := (k, v)]
    ensures !HasKey(d, k) ==> r == d + [(k, v)]
  {
    if HasKey(d, k) then d[KeyIndex(d, k) := (k, v)] else d + [(k, v)]
  }

  function Keys(d: seq<(string, Value)>): (r: seq<string>)
    ensures |r| == |d| && forall j :: 0 <= j < |d| ==> r[j] == d[j].0
  {
    if d == [] then [] else [d[0].0] + Keys(d[1..])
  }

  /** After `d[k] = v`, `k` maps to `v` and every other key keeps its value; keys keep their order. */
  lemma SetSpec(d: seq<(string, Value)>, k: string, v: Value)
    ensures HasKey(Set(d, k, v), k) && Get(Set(d, k, v), k) == v
    ensures forall k' :: k' != k ==> HasKey(Set(d, k, v), k') == HasKey(d, k') && Get(Set(d, k, v), k') == Get(d, k')
    ensures Keys(Set(d, k, v)) == if HasKey(d, k) then Keys(d) else Keys(d) + [k]
  {
    if HasKey(d, k) {
      SetExisting(d, k, v);
    } else {
      SetNew(d, k, v);
    }
  }

  /** Writing an existing key replaces its value in place. */
  lemma SetExisting(d: seq<(string, Value)>, k: string, v: Value)
    requires HasKey(d, k)
    ensures HasKey(Set(d, k, v), k) && Get(Set(d, k, v), k) == v
    ensures forall k' :: k' != k ==> HasKey(Set(d, k, v), k') == HasKey(d, k') && Get(Set(d, k, v), k') == Get(d, k')
    ensures Keys(Set(d, k, v)) == Keys(d)
  {
    var r := Set(d, k, v);
    var i := KeyIndex(d, k);
    HasKeyAt(r, k, i);
    forall k' | k' != k ensures HasKey(r, k') == HasKey(d, k') && Get(r, k') == Get(d, k') {
      SameKeysSameLookup(d, r, k');
    }
  }

  /** Writing a new key appends it. */
  lemma SetNew(d: seq<(string, Value)>, k: string, v: Value)
    requires !HasKey(d, k)
    ensures HasKey(Set(d, k, v), k) && Get(Set(d, k, v), k) == v
    ensures forall k' :: k' != k ==> HasKey(Set(d, k, v), k') == HasKey(d, k') && Get(Set(d, k, v), k') == Get(d, k')
    ensures Keys(Set(d, k, v)) == Keys(d) + [k]
  {
    var r := Set(d, k, v);
    HasKeyAt(r, k, |d|);
    forall k' | k' != k ensures HasKey(r, k') == HasKey(d, k') && Get(r, k') == Get(d, k') {
      SameKeysSameLookup(d, r[..|d|], k');
      if HasKey(d, k') {
        assert KeyIndex(r, k') == KeyIndex(d, k') by { KeyIndexPrefix(r, |d|, k'); }
      } else {
        KeyIndexPrefix(r, |d|, k');
      }
    }
  }

  /** Lookup of `k'` in a dict that only differs from `d` at entries whose key is not `k'`. */
  lemma SameKeysSameLookup(d: seq<(string, Value)>, r: seq<(string, Value)>, k': string)
    requires |r| == |d|
    requires forall j :: 0 <= j < |d| ==> (d[j].0 == k' <==> r[j].0 == k')
    requires forall j :: 0 <= j < |d| && d[j].0 == k' ==> r[j] == d[j]
    ensures KeyIndex(r, k') == KeyIndex(d, k') && Get(r, k') == Get(d, k')
  {
    if d != [] {
      SameKeysSameLookup(d[1..], r[1..], k');
    }
  }

  lemma KeyIndexPrefix(r: seq<(string, Value)>, n: nat, k: string)
    requires n <= |r|
    ensures KeyIndex(r[..n], k) == if KeyIndex(r, k) < n then KeyIndex(r, k) else n
  {
    if n > 0 && r[0].0 != k {
      assert r[..n][1..] == r[1..][..n - 1];
      KeyIndexPrefix(r[1..], n - 1, k);
    }
  }

  /** `v.get(k)`: only dicts have `get`; on anything else Python raises AttributeError. */
  function DotGet(v: Value, k: string): (r: Result<Value>)
    ensures r.Ok? <==> v.Dict?
    ensures v.Dict? ==> r.value == Get(v.entries, k)
  {
    if v.Dict? then Ok(Get(v.entries, k)) else Raised
  }

  /** `key in v` for a string `key`: a dict looks at its keys, a list compares its items, a string searches substrings; `None` when Python raises TypeError. */
  function In(key: string, v: Value): (r: Option<bool>)
    ensures r.Some? <==> v.Dict? || v.List? || v.Str?
    ensures v.Dict? ==> r == Some(HasKey(v.entries, key))
  {
    match v
    case Dict(entries) => Some(HasKey(entries, key))
    case List(items) => Some(Str(key) in items)
    case Str(s) => Some(Contains(s, key))
    case _ => None
  }

  /** `for x in v`: the items of a list, the one-character strings of a string, the keys of a dict; anything else raises TypeError. */
  function Iterate(v: Value): (r: Option<seq<Value>>)
    ensures v.List? ==> r == Some(v.items)
    ensures r.Some? <==> v.List? || v.Str? || v.Dict?
  {
    match v
    case List(items) => Some(items)
    case Str(s) => Some(seq(|s|, i requires 0 <= i < |s| => Str([s[i]])))
    case Dict(entries) => Some(seq(|entries|, i requires 0 <= i < |entries| => Str(entries[i].0)))
    case _ => None
  }

  // ---------------------------------------------------------------- str()

  /** `str(v)`; strings inside containers are shown quoted, without Python's escaping. */
  function Render(v: Value): string
    decreases v, 1
  {
    match v
    case Null => "None"
    case Bool(b) => if b then "True" else "False"
    case Int(i) => IntText(i)
    case Float(x) => FloatText(x)
    case Str(s) => s
    case List(items) => "[" + RenderItems(v, 0) + "]"
    case Dict(entries) => "{" + RenderEntries(v, 0) + "}"
  }

  /** `repr(v)` as far as containers show their elements. */
  function Repr(v: Value): string
    decreases v, 2
  {
    if v.Str? then "'" + v.s + "'" else Render(v)
  }

  function RenderItems(v: Value, i: nat): string
    requires v.List? && i <= |v.items|
    decreases v, 0, |v.items| - i
  {
    if i == |v.items| then ""
    else (if i == 0 then "" else ", ") + Repr(v.items[i]) + RenderItems(v, i + 1)
  }

  function RenderEntries(v: Value, i: nat): string
    requires v.Dict? && i <= |v.entries|
    decreases v, 0, |v.entries| - i
  {
    if i == |v.entries| then ""
    else
      assert v.entries[i] in v.entries;
      (if i == 0 then "" else ", ") + "'" + v.entries[i].0 + "': " + Repr(v.entries[i].1) + RenderEntries(v, i + 1)
  }

  /** Up to `n` decimal digits of a fraction in [0, 1), stopping once it is exhausted. */
  function FracDigits(f: real, n: nat): string
    requires 0.0 <= f < 1.0
    decreases n
  {
    if f == 0.0 || n == 0 then ""
    else
      var t := f * 10.0;
      var d := t.Floor;
      [DigitChar(d)] + FracDigits(t - d as real, n - 1)
  }

  /**
   * `str(x)` of a float, as a plain decimal: "3.0", "-3.7397117". Python's
   * exponent notation and shortest round-trip digits of the binary value are
   * not modelled; the expansion is cut after 17 fractional digits.
   */
  function FloatText(x: real): (r: string)
    ensures r != [] && (r[0] == '-' || IsDigit(r[0]))
  {
    var a := if x < 0.0 then -x else x;
    var ip := a.Floor;
    var fd := FracDigits(a - ip as real, 17);
    (if x < 0.0 then "-" else "") + NatText(ip) + "." + (if fd == "" then "0" else fd)
  }

  // ---------------------------------------------------------------- float()

  /** `float(i)` raises OverflowError from this magnitude on (2^1024 - 2^970: rounds to 2^1024). */
  const FloatOverflow: int := 179769313486231580793728971405303415079934132710037826936173778980444968292764750946649017977587207096330286416692887910946555547851940402630657488671505820681908902000708383676273854845817711531764475730270069855571366959622842914819860834936475292719074168444365510704342711559699508093042880177904174497792

  predicate AllDigits(s: string) {
    forall i :: 0 <= i < |s| ==> IsDigit(s[i])
  }

  /** The number a string of decimal digits denotes. */
  function DigitsValue(s: string): nat
    requires AllDigits(s)
  {
    if s == [] then 0 else DigitsValue(s[..|s| - 1]) * 10 + (s[|s| - 1] as int - '0' as int)
  }

  function Pow10(n: nat): (r: nat)
    ensures r >= 1
  {
    if n == 0 then 1 else 10 * Pow10(n - 1)
  }

  /** Index of the first character satisfying `IsExp`, or `|s|`. */
  function ExpIndex(s: string): (r: nat)
    ensures r <= |s|
    ensures r < |s| ==> s[r] == 'e' || s[r] == 'E'
    ensures forall j :: 0 <= j < r ==> s[j] != 'e' && s[j] != 'E'
  {
    if s == [] then 0 else if s[0] == 'e' || s[0] == 'E' then 0 else 1 + ExpIndex(s[1..])
  }

  /** Index of the first '.', or `|s|`. */
  function DotIndex(s: string): (r: nat)
    ensures r <= |s|
    ensures r < |s| ==> s[r] == '.'
    ensures forall j :: 0 <= j < r ==> s[j] != '.'
  {
    if s == [] then 0 else if s[0] == '.' then 0 else 1 + DotIndex(s[1..])
  }

  /** An exponent: optional sign, then at least one digit. */
  function ParseExponent(s: string): Option<int> {
    if s != [] && (s[0] == '+' || s[0] == '-') then
      var t := s[1..];
      if t != [] && AllDigits(t) then
        var v: int := DigitsValue(t);
        Some(if s[0] == '-' then -v else v)
      else None
    else if s != [] && AllDigits(s) then Some(DigitsValue(s))
    else None
  }

  function Scale(e: int): (r: real)
    ensures r > 0.0
  {
    if e >= 0 then Pow10(e) as real else 1.0 / Pow10(-e) as real
  }

  /** An unsigned decimal literal: digits with an optional fraction, then an optional exponent. */
  function ParseUnsigned(s: string): Option<real> {
    var e := ExpIndex(s);
    var mant := s[..e];
    var exp := if e == |s| then Some(0) else ParseExponent(s[e + 1..]);
    var d := DotIndex(mant);
    var ip := mant[..d];
    var fp := if d < |mant| then mant[d + 1..] else "";
    if exp.None? || !AllDigits(ip) || !AllDigits(fp) || |ip| + |fp| == 0 then None
    else Some(DigitsValue(ip + fp) as real / Pow10(|fp|) as real * Scale(exp.value))
  }

  /**
   * Python's `float(s)` on an already stripped string: an optional sign and a
   * decimal literal. The spellings "inf", "infinity", "nan" and digit
   * grouping with '_' are not accepted by the model.
   */
  function ParseFloat(s: string): Option<real> {
    if s != [] && (s[0] == '+' || s[0] == '-') then
      match ParseUnsigned(s[1..])
      case None => None
      case Some(x) => Some(if s[0] == '-' then -x else x)
    else ParseUnsigned(s)
  }

  /** `float(v)`, with `None` standing for the exception it raises. */
  function PyFloat(v: Value): (r: Option<real>)
    ensures IsNumber(v) && !(v.Int? && (v.i >= FloatOverflow || v.i <= -FloatOverflow)) ==> r == Some(NumberOf(v))
    ensures v.Null? || v.List? || v.Dict? ==> r == None
  {
    match v
    case Bool(b) => Some(if b then 1.0 else 0.0)
    case Int(i) => if -FloatOverflow < i < FloatOverflow then Some(i as real) else None
    case Float(x) => Some(x)
    case Str(s) => ParseFloat(Strip(s))
    case _ => None
  }

  lemma DigitsValueOfNatText(n: nat)
    ensures AllDigits(NatText(n)) && DigitsValue(NatText(n)) == n
  {
    if n >= 10 {
      DigitsValueOfNatText(n / 10);
      var t := NatText(n / 10) + [DigitChar(n % 10)];
      assert t[..|t| - 1] == NatText(n / 10);
    }
  }

  lemma DigitsHaveNoMarkers(s: string)
    requires AllDigits(s)
    ensures ExpIndex(s) == |s| && DotIndex(s) == |s|
  {
    if s != [] {
      DigitsHaveNoMarkers(s[1..]);
    }
  }

  /** `float(str(i))` gives back the integer `i`. */
  lemma {:induction false} ParseFloatOfIntText(i: int)
    ensures ParseFloat(IntText(i)) == Some(i as real)
  {
    var n: nat := if i < 0 then -i else i;
    var t := NatText(n);
    ParseUnsignedOfNatText(n);
    if i < 0 {
      ParseFloatNegative(t, n as real);
    } else {
      ParseFloatUnsigned(t);
    }
  }

  /** `float("-" + t)` is the negated value of `t`. */
  lemma ParseFloatNegative(t: string, x: real)
    requires ParseUnsigned(t) == Some(x)
    ensures ParseFloat("-" + t) == Some(-x)
  {
    assert ("-" + t)[0] == '-' && ("-" + t)[1..] == t;
  }

  /** Without a sign, `float(t)` reads `t` as an unsigned literal. */
  lemma ParseFloatUnsigned(t: string)
    requires t != [] && IsDigit(t[0])
    ensures ParseFloat(t) == ParseUnsigned(t)
  {
  }

  /** An unsigned decimal numeral without a point or an exponent reads as its value. */
  lemma ParseUnsignedOfNatText(n: nat)
    ensures ParseUnsigned(NatText(n)) == Some(n as real)
  {
    DigitsValueOfNatText(n);
    ParseUnsignedOfDigits(NatText(n));
  }

  /** A non-empty string of digits reads as the number the digits denote. */
  lemma ParseUnsignedOfDigits(t: string)
    requires t != [] && AllDigits(t)
    ensures ParseUnsigned(t) == Some(DigitsValue(t) as real)
  {
    DigitsHaveNoMarkers(t);
    assert t[..|t|] == t;
    assert t + "" == t;
    assert Scale(0) == 1.0 && Pow10(0) == 1;
  }
}

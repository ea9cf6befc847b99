/** Dynamically typed JavaScript values as the platform's JSON bodies deliver
    them, with the three pieces of JavaScript semantics the crawler's
    decisions depend on: truthiness (`if (x)`, `x || y`), property reads
    (`x?.key`) and the loose `>` comparison against a number, with the
    string and number conversions it makes. Numbers in JSON bodies are
    integers in this model; a conversion from text may give a fraction. */
module JsValue {
  import opened Wrappers
  import opened Text

  datatype Json =
    | JUndefined
    | JNull
    | JBool(b: bool)
    | JNum(n: int)
    | JStr(s: string)
    | JArr(items: seq<Json>)
    | JObj(fields: map<string, Json>)

  /** What the crawler code throws. `DataFetchError` is the class of
      exceptions/crawler.ts and carries the value handed to its constructor;
      `PlainError` is a bare `new Error(message)`; `TypeError` is what the
      engine throws for a property read on `null`/`undefined`, a spread or
      `for...of` over a non-iterable, or a call of a missing method;
      `URIError` is what `decodeURIComponent` throws on a malformed
      percent-escape; `NetworkError` is a transport rejection passed on
      unchanged. */
  datatype Exception =
    | DataFetchError(message: Json)
    | PlainError(text: string)
    | TypeError
    | URIError
    | NetworkError(reason: string)

  /** JavaScript truthiness: `undefined`, `null`, `false`, `0` and `""` are
      the falsy values; every array and object is truthy. */
  predicate Truthy(v: Json) {
    match v
    case JUndefined => false
    case JNull => false
    case JBool(b) => b
    case JNum(n) => n != 0
    case JStr(s) => s != ""
    case JArr(_) => true
    case JObj(_) => true
  }

  /** `a || b`. */
  function Or(a: Json, b: Json): (r: Json)
    ensures Truthy(a) ==> r == a
    ensures !Truthy(a) ==> r == b
  {
    if Truthy(a) then a else b
  }

  predicate Nullish(v: Json) {
    v.JUndefined? || v.JNull?
  }

  /** A property key that names an array or string element: a canonical
      decimal index such as `"0"` or `"12"` (not `"012"`). */
  predicate IsIndexKey(key: string) {
    |key| >= 1 && AllDigits(key) && (|key| == 1 || key[0] != '0')
  }

  /** `v?.key`: own properties of objects, `length` and elements of arrays
      and strings; everything else, including any key of `null` and
      `undefined`, reads as `undefined`. */
  function Get(v: Json, key: string): (r: Json)
    ensures Nullish(v) || v.JBool? || v.JNum? ==> r == JUndefined
    ensures v.JObj? ==> r == if key in v.fields then v.fields[key] else JUndefined
  {
    match v
    case JObj(m) => if key in m then m[key] else JUndefined
    case JArr(xs) =>
      if key == "length" then JNum(|xs|)
      else if IsIndexKey(key) && DecimalValue(key) < |xs| then xs[DecimalValue(key)]
      else JUndefined
    case JStr(s) =>
      if key == "length" then JNum(|s|)
      else if IsIndexKey(key) && DecimalValue(key) < |s| then JStr([s[DecimalValue(key)]])
      else JUndefined
    case _ => JUndefined
  }

  /** `v.key` without optional chaining: the same as `Get` except that it
      throws on `null` and `undefined`. */
  function Member(v: Json, key: string): (r: Result<Json, Exception>)
    ensures r.Failure? <==> Nullish(v)
    ensures r.Failure? ==> r.error == TypeError
    ensures r.Success? ==> r.value == Get(v, key)
  {
    if Nullish(v) then Failure(TypeError) else Success(Get(v, key))
  }

  /** The value of JavaScript's `ToNumber`: `NaN`, a finite number (kept
      exact here, without rounding to a double) or an infinity. */
  datatype Number = NaN | Finite(x: real) | Infinity(negative: bool)

  function Pow10(n: nat): (r: nat)
    ensures r >= 1
  {
    if n == 0 then 1 else 10 * Pow10(n - 1)
  }

  /** `m` times ten to the power `k`. */
  function Scale(m: nat, k: int): real {
    if k >= 0 then (m * Pow10(k)) as real else m as real / Pow10(-k) as real
  }

  /** The index of the first `a` or `b` in `s`, or `|s|` when there is
      none. */
  function MarkIndex(s: string, a: char, b: char): (r: nat)
    ensures r <= |s|
    ensures r < |s| ==> s[r] == a || s[r] == b
    ensures forall i :: 0 <= i < r ==> s[i] != a && s[i] != b
    decreases |s|
  {
    if |s| == 0 || s[0] == a || s[0] == b then 0 else 1 + MarkIndex(s[1..], a, b)
  }

  /** The radix a `0x`, `0o` or `0b` prefix selects, by its letter. */
  function RadixOf(c: char): (r: Option<nat>)
    ensures r.Some? ==> r.value in {2, 8, 16}
  {
    if c == 'x' || c == 'X' then Some(16)
    else if c == 'o' || c == 'O' then Some(8)
    else if c == 'b' || c == 'B' then Some(2)
    else None
  }

  /** The value of a digit in the given radix (letters of either case
      above 9), if it is one. */
  function RadixDigit(c: char, radix: nat): (r: Option<nat>)
    ensures r.Some? ==> r.value < radix
  {
    if '0' <= c <= '9' && (c as int - '0' as int) < radix then Some(c as int - '0' as int)
    else if radix == 16 && 'a' <= c <= 'f' then Some(c as int - 'a' as int + 10)
    else if radix == 16 && 'A' <= c <= 'F' then Some(c as int - 'A' as int + 10)
    else None
  }

  predicate AllRadixDigits(s: string, radix: nat) {
    forall i :: 0 <= i < |s| ==> RadixDigit(s[i], radix).Some?
  }

  function RadixValue(s: string, radix: nat): nat
    requires AllRadixDigits(s, radix)
    decreases |s|
  {
    if |s| == 0 then 0
    else radix * RadixValue(s[..|s| - 1], radix) + RadixDigit(s[|s| - 1], radix).value
  }

  /** The exponent after `e`/`E`: an optional sign and at least one
      decimal digit. */
  function ExponentValue(x: string): (r: Option<int>) {
    var signed := |x| >= 1 && (x[0] == '+' || x[0] == '-');
    var ds := if signed then x[1..] else x;
    if |ds| >= 1 && AllDigits(ds) then
      var e: int := DecimalValue(ds);
      Some(if signed && x[0] == '-' then -e else e)
    else None
  }

  /** The digits before an exponent: at most one `.`, with at least one
      digit on either side of it; the value of all the digits and how many
      of them follow the point. */
  function Mantissa(m: string): Option<(nat, nat)> {
    var d := MarkIndex(m, '.', '.');
    var whole := m[..d];
    var frac := if d == |m| then "" else m[d + 1..];
    if AllDigits(whole) && AllDigits(frac) && |whole| + |frac| >= 1 then
      Some((DecimalValue(whole + frac), |frac|))
    else None
  }

  /** An unsigned decimal literal: a mantissa, then an optional exponent. */
  function UnsignedDecimal(u: string): Option<real> {
    var e := MarkIndex(u, 'e', 'E');
    var exp := if e == |u| then Some(0) else ExponentValue(u[e + 1..]);
    match Mantissa(u[..e])
    case Some((digits, fracLength)) =>
      if exp.Some? then Some(Scale(digits, exp.value - fracLength)) else None
    case None => None
  }

  /** `ToNumber` on a string: surrounding white space is ignored, the
      empty string is `0`; otherwise the text must be a `0x`/`0o`/`0b`
      integer, or a sign followed by `Infinity` or by a decimal literal,
      and anything else is `NaN`. */
  function StringToNumber(s: string): (r: Number)
    ensures Trim(s) == "" ==> r == Finite(0.0)
  {
    LiteralValue(Trim(s))
  }

  /** The value of trimmed text. */
  function LiteralValue(t: string): Number {
    if t == "" then Finite(0.0)
    else if |t| > 2 && t[0] == '0' && RadixOf(t[1]).Some? then
      var radix := RadixOf(t[1]).value;
      if AllRadixDigits(t[2..], radix) then Finite(RadixValue(t[2..], radix) as real) else NaN
    else SignedDecimal(t)
  }

  /** An optional sign, then `Infinity` or an unsigned decimal literal. */
  function SignedDecimal(t: string): Number
    requires |t| >= 1
  {
    var negative := t[0] == '-';
    var u := if t[0] == '-' || t[0] == '+' then t[1..] else t;
    if u == "Infinity" then Infinity(negative)
    else match UnsignedDecimal(u)
      case Some(x) => Finite(if negative then -x else x)
      case None => NaN
  }

  lemma DigitsAreMantissa(m: string)
    requires |m| >= 1 && AllDigits(m)
    ensures Mantissa(m) == Some((DecimalValue(m), 0))
  {
    assert MarkIndex(m, '.', '.') == |m|;
    assert m[..|m|] + "" == m;
  }

  /** A run of decimal digits is a decimal literal with its plain value. */
  lemma DigitsAreDecimal(u: string)
    requires |u| >= 1 && AllDigits(u)
    ensures UnsignedDecimal(u) == Some(DecimalValue(u) as real)
  {
    assert MarkIndex(u, 'e', 'E') == |u|;
    assert u[..|u|] == u;
    DigitsAreMantissa(u);
    assert Scale(DecimalValue(u), 0) == DecimalValue(u) as real;
  }

  /** Whatever `${i}` writes for an integer reads back as that integer. */
  lemma IntStringToNumber(i: int)
    ensures StringToNumber(IntToString(i)) == Finite(i as real)
  {
    if i < 0 {
      var n: nat := -i;
      var t := "-" + NatToString(n);
      assert IntToString(i) == t;
      NegativeLiteral(n);
      assert StringToNumber(t) == Finite(-(n as real));
    } else {
      NaturalLiteral(i);
    }
  }

  lemma NaturalLiteral(n: nat)
    ensures StringToNumber(NatToString(n)) == Finite(n as real)
  {
    NoSpaceAtEnds(NatToString(n));
    NaturalLiteralValue(n);
  }

  lemma NegativeLiteral(n: nat)
    requires n > 0
    ensures StringToNumber("-" + NatToString(n)) == Finite(-(n as real))
  {
    NoSpaceAtEnds("-" + NatToString(n));
    NegativeLiteralValue(n);
  }

  /** Text that starts with a digit or `-` and ends with a digit is its
      own trim. */
  lemma NoSpaceAtEnds(t: string)
    requires |t| >= 1 && (IsDigit(t[0]) || t[0] == '-') && IsDigit(t[|t| - 1])
    ensures Trim(t) == t
  {
    TrimUntouched(t);
  }

  lemma NaturalLiteralValue(n: nat)
    ensures LiteralValue(NatToString(n)) == Finite(n as real)
  {
    var u := NatToString(n);
    assert !(|u| > 2 && u[0] == '0');
    assert u != "Infinity" by { assert IsDigit(u[0]); }
    DigitsAreDecimal(u);
    DecimalRoundTrip(n);
  }

  lemma NegativeLiteralValue(n: nat)
    requires n > 0
    ensures LiteralValue("-" + NatToString(n)) == Finite(-(n as real))
  {
    var u := NatToString(n);
    var t := "-" + u;
    assert t[1..] == u;
    assert u != "Infinity" by { assert IsDigit(u[0]); }
    DigitsAreDecimal(u);
    DecimalRoundTrip(n);
    assert SignedDecimal(t) == Finite(-(n as real));
  }

  /** A hexadecimal integer. */
  lemma HexLiteral()
    ensures LiteralValue("0x1F") == Finite(31.0)
  {
    assert "0x1F"[2..] == "1F";
    assert RadixValue("1F", 16) == 31 by {
      assert "1F"[..1] == "1";
      assert RadixValue("1", 16) == 1 by { assert "1"[..0] == ""; }
    }
  }

  /** A signed infinity, and an exponent without digits. */
  lemma NonFiniteLiterals()
    ensures LiteralValue("+Infinity") == Infinity(false)
    ensures LiteralValue("-Infinity") == Infinity(true)
    ensures LiteralValue("1e") == NaN
  {
    assert "+Infinity"[1..] == "Infinity" && "-Infinity"[1..] == "Infinity";
    assert MarkIndex("1e", 'e', 'E') == 1 && "1e"[2..] == "";
  }

  /** A sign and an exponent. */
  lemma SignedExponentLiteral()
    ensures LiteralValue("-1e3") == Finite(-1000.0)
  {
    assert "-1e3"[1..] == "1e3";
    assert MarkIndex("1e3", 'e', 'E') == 1;
    assert "1e3"[2..] == "3" && "1e3"[..1] == "1";
    assert ExponentValue("3") == Some(3);
    DigitsAreMantissa("1");
    assert UnsignedDecimal("1e3") == Some(Scale(1, 3));
  }

  /** `String(v)`: arrays join their elements with `,`, writing `null`
      and `undefined` elements as empty text, and every object is
      `[object Object]`. */
  function ToJsString(v: Json): (r: string)
    ensures v.JStr? ==> r == v.s
    decreases v
  {
    match v
    case JUndefined => "undefined"
    case JNull => "null"
    case JBool(b) => if b then "true" else "false"
    case JNum(n) => IntToString(n)
    case JStr(s) => s
    case JArr(xs) =>
      Join(seq(|xs|, i requires 0 <= i < |xs| => if Nullish(xs[i]) then "" else ToJsString(xs[i])), ",")
    case JObj(_) => "[object Object]"
  }

  /** `ToNumber` on a value. An array converts through its string form
      (so `[]` is `0` and `[7]` is `7`); an object's string form is never
      a number. */
  function ToNumeric(v: Json): (r: Number)
    ensures v.JNum? ==> r == Finite(v.n as real)
    ensures v.JUndefined? || v.JObj? ==> r.NaN?
  {
    match v
    case JUndefined => NaN
    case JNull => Finite(0.0)
    case JBool(b) => Finite(if b then 1.0 else 0.0)
    case JNum(n) => Finite(n as real)
    case JStr(s) => StringToNumber(s)
    case JArr(_) => StringToNumber(ToJsString(v))
    case JObj(_) => NaN
  }

  /** A number and its decimal string convert to the same value, and so
      does a one-element array holding either. */
  lemma NumberFormsAgree(n: int)
    ensures ToNumeric(JStr(IntToString(n))) == ToNumeric(JNum(n))
    ensures ToNumeric(JArr([JNum(n)])) == ToNumeric(JNum(n))
    ensures ToNumeric(JArr([JStr(IntToString(n))])) == ToNumeric(JNum(n))
  {
    IntStringToNumber(n);
    SingletonString(JNum(n));
    SingletonString(JStr(IntToString(n)));
  }

  /** A one-element array reads as its element. */
  lemma SingletonString(v: Json)
    requires !Nullish(v)
    ensures ToJsString(JArr([v])) == ToJsString(v)
  {
    var parts := seq(1, i requires 0 <= i < 1 => if Nullish([v][i]) then "" else ToJsString([v][i]));
    assert parts == [ToJsString(v)];
  }

  /** `v > k` for a number `k`: false whenever `v` converts to `NaN`. */
  predicate GreaterThan(v: Json, k: int) {
    match ToNumeric(v)
    case Finite(x) => x > k as real
    case Infinity(negative) => !negative
    case NaN => false
  }

  /** `a + v > k` for numbers `a` and `k`: when `v` is a string, array or
      object the `+` concatenates `a`'s decimal form with `v`'s string
      form and the comparison converts that text back; otherwise it adds
      `v`'s numeric value. */
  predicate SumGreaterThan(a: int, v: Json, k: int) {
    if v.JStr? || v.JArr? || v.JObj? then GreaterThan(JStr(IntToString(a) + ToJsString(v)), k)
    else match ToNumeric(v)
      case Finite(x) => a as real + x > k as real
      case Infinity(negative) => !negative
      case NaN => false
  }

  /** With a number on both sides `+` is plain addition. */
  lemma NumericSum(a: int, n: int, k: int)
    ensures SumGreaterThan(a, JNum(n), k) <==> a + n > k
  {
  }

  /** The elements a spread `...v` or a `for...of` over `v` visits: those
      of an array, the characters of a string (each a one-character
      string); any other value is not iterable and throws. */
  function Elements(v: Json): (r: Result<seq<Json>, Exception>)
    ensures r.Success? <==> v.JArr? || v.JStr?
    ensures v.JArr? ==> r.value == v.items
    ensures v.JStr? ==> |r.value| == |v.s|
    ensures r.Failure? ==> r.error == TypeError
  {
    match v
    case JArr(xs) => Success(xs)
    case JStr(s) => Success(seq(|s|, i requires 0 <= i < |s| => JStr([s[i]])))
    case _ => Failure(TypeError)
  }

  /** The own enumerable properties a spread `{...v}` copies: the fields of
      an object, the elements of an array or the characters of a string
      under their index keys, and nothing for any other value. */
  function OwnEntries(v: Json): (r: map<string, Json>)
    ensures v.JObj? ==> r == v.fields
    ensures !(v.JObj? || v.JArr? || v.JStr?) ==> r == map[]
  {
    match v
    case JObj(m) => m
    case JArr(xs) => IndexEntries(xs)
    case JStr(s) => IndexEntries(Elements(v).value)
    case _ => map[]
  }

  /** Elements keyed by their decimal index. */
  function IndexEntries(xs: seq<Json>): (r: map<string, Json>)
    ensures forall i :: 0 <= i < |xs| ==> NatToString(i) in r
    decreases |xs|
  {
    if |xs| == 0 then map[]
    else IndexEntries(xs[..|xs| - 1])[NatToString(|xs| - 1) := xs[|xs| - 1]]
  }
}

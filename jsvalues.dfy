/**
 * The JavaScript values that reach the route handlers from a JSON request
 * body or a token's subject claim, and the conversions the handlers apply
 * to them: `Number(v)`, truthiness (`!v`), `v < 1`, and the numeric value
 * MySQL compares an INT column with when `v` is bound as a query parameter.
 */
module JsValues {
  import opened Wrappers
  import opened Text

  /** A JavaScript number: a finite value, an infinity, or NaN (`-0` is read as `0`). */
  datatype JsNumber = NaN | Finite(r: real) | PosInfinity | NegInfinity

  /** A primitive JSON value, or `undefined` for a missing field. */
  datatype JsValue = Undefined | Null | Bool(b: bool) | Num(n: real) | Str(s: string)

  /**
   * A request body as `req.json()` sees it: unparsable text, `null`, or an
   * object. A JSON number, string or boolean is written `JsonObject(map[])`:
   * property access on it yields `undefined` just as on an object without fields.
   */
  datatype JsonBody = Malformed | JsonNull | JsonObject(fields: map<string, JsValue>)

  /** `body?.name` where `body` is the parsed JSON, or `null` when parsing failed. */
  function Field(body: JsonBody, name: string): (v: JsValue)
    ensures body.JsonObject? && name in body.fields ==> v == body.fields[name]
    ensures !(body.JsonObject? && name in body.fields) ==> v == Undefined
  {
    match body
    case JsonObject(fields) => if name in fields then fields[name] else Undefined
    case _ => Undefined
  }

  function Pow10(n: nat): (p: nat)
    ensures p >= 1
  {
    if n == 0 then 1 else 10 * Pow10(n - 1)
  }

  /** The index of the first `c` in `s`. */
  function IndexOf(s: string, c: char): (k: Option<nat>)
    ensures k.Some? ==> k.value < |s| && s[k.value] == c && c !in s[..k.value]
    ensures k.None? ==> c !in s
  {
    if s == [] then None
    else if s[0] == c then Some(0)
    else match IndexOf(s[1..], c)
      case Some(j) => (assert s[..j + 1] == [s[0]] + s[1..][..j]; Some(j + 1))
      case None => None
  }

  /** An unsigned decimal literal: `ddd`, `ddd.`, `ddd.ddd` or `.ddd`. */
  function UnsignedDecimal(t: string): (v: Option<real>)
    ensures v.Some? ==> v.value >= 0.0
    ensures v.Some? ==> exists i :: 0 <= i < |t| && IsDigit(t[i])
  {
    match IndexOf(t, '.')
    case None =>
      if t != [] && AllDigits(t) then (assert IsDigit(t[0]); Some(DigitsValue(t) as real)) else None
    case Some(k) =>
      var whole, frac := t[..k], t[k + 1..];
      if (whole != [] || frac != []) && AllDigits(whole) && AllDigits(frac) then
        assert whole != [] ==> IsDigit(t[0]);
        assert whole == [] ==> IsDigit(t[k + 1]);
        Some(DigitsValue(whole) as real + DigitsValue(frac) as real / Pow10(|frac|) as real)
      else None
  }

  /**
   * `Number(s)` for a string: surrounding whitespace is ignored, a blank
   * string is 0, `Infinity` may carry a sign, and otherwise a signed
   * decimal literal is read; anything else is NaN.
   */
  function StringToNumber(s: string): (n: JsNumber)
    ensures Trim(s) == [] ==> n == Finite(0.0)
  {
    var t := Trim(s);
    if t == [] then Finite(0.0)
    else if t == "Infinity" || t == "+Infinity" then PosInfinity
    else if t == "-Infinity" then NegInfinity
    else SignedDecimal(t)
  }

  /** A decimal literal after an optional `-` or `+`; a finite reading has a digit in it. */
  function SignedDecimal(t: string): (n: JsNumber)
    requires t != []
    ensures n.Finite? ==> exists i :: 0 <= i < |t| && IsDigit(t[i])
  {
    var signed := t[0] == '-' || t[0] == '+';
    var digits := if signed then t[1..] else t;
    match UnsignedDecimal(digits)
    case Some(v) =>
      var i :| 0 <= i < |digits| && IsDigit(digits[i]);
      assert IsDigit(t[if signed then i + 1 else i]);
      Finite(if t[0] == '-' then -v else v)
    case None => NaN
  }

  /** `Number(v)`. */
  function ToNumber(v: JsValue): (n: JsNumber)
    ensures v.Num? ==> n == Finite(v.n)
    ensures v.Undefined? ==> n.NaN?
  {
    match v
    case Undefined => NaN
    case Null => Finite(0.0)
    case Bool(b) => Finite(if b then 1.0 else 0.0)
    case Num(r) => Finite(r)
    case Str(s) => StringToNumber(s)
  }

  /** The truthiness of a number: only 0 and NaN are falsy. */
  predicate NumberTruthy(n: JsNumber) {
    !(n.NaN? || n == Finite(0.0))
  }

  /** The truthiness of a JSON value (`!v` is its negation). */
  predicate Truthy(v: JsValue) {
    match v
    case Undefined => false
    case Null => false
    case Bool(b) => b
    case Num(r) => r != 0.0
    case Str(s) => s != ""
  }

  /** `n < x` for a number `n`; every comparison with NaN is false. */
  predicate LessThan(n: JsNumber, x: real) {
    match n
    case Finite(r) => r < x
    case NegInfinity => true
    case _ => false
  }

  predicate IsInteger(r: real) { r == r.Floor as real }

  /**
   * The number MySQL compares an INT column with when `v` is bound as a
   * parameter in a `WHERE id = ?`: `true`/`false` are 1/0, a number is
   * itself, and a string is converted to a number. A string that is not a
   * number in full (`"abc"`, `"5x"`, `"Infinity"`) is truncated with error
   * 1292 under MySQL's strict mode, so the UPDATE or DELETE fails: None.
   * `undefined`/`null` (bound as NULL) never reach a comparison in the
   * handlers, which refuse a falsy id first.
   */
  function SqlNumber(v: JsValue): (n: Option<real>)
    requires !v.Undefined? && !v.Null?
    ensures v.Num? ==> n == Some(v.n)
    ensures v.Str? ==> (n.Some? <==> Trim(v.s) != [] && StringToNumber(v.s).Finite?)
    ensures v.Str? && n.Some? ==> StringToNumber(v.s) == Finite(n.value)
  {
    match v
    case Num(r) => Some(r)
    case Bool(b) => Some(if b then 1.0 else 0.0)
    case Str(s) =>
      if Trim(s) == [] then None
      else (match StringToNumber(s) case Finite(r) => Some(r) case _ => None)
  }

  /** A digit-free word in a `WHERE id = ?`, such as `"abc"`, fails the statement. */
  lemma WordIsNoSqlNumber(s: string)
    requires Trim(s) != [] && Trim(s) != "Infinity" && Trim(s) != "+Infinity" && Trim(s) != "-Infinity"
    requires forall i :: 0 <= i < |s| ==> !IsDigit(s[i])
    ensures SqlNumber(Str(s)).None?
  {
    WordIsNaN(s);
  }

  // ---- the subject of a session token: `String(id)` read back by `Number(sub)`

  lemma {:induction false} DigitsAreAnUnsignedDecimal(n: nat)
    ensures UnsignedDecimal(NatToDecimal(n)) == Some(n as real)
  {
    var t := NatToDecimal(n);
    assert IndexOf(t, '.') == None;
    DecimalRoundTrip(n);
  }

  /** `Number(String(n))` is `n` for every natural number. */
  lemma {:induction false} DecimalNumberRoundTrip(n: nat)
    ensures StringToNumber(NatToDecimal(n)) == Finite(n as real)
  {
    var s := NatToDecimal(n);
    DecimalHasNoSpace(n);
    TrimOfTrimmed(s);
    DigitsAreAnUnsignedDecimal(n);
    assert s[0] != '-' && s[0] != '+' by { assert IsDigit(s[0]); }
    assert s != "Infinity" && s != "+Infinity" && s != "-Infinity" by { assert IsDigit(s[0]); }
  }

  /** A string of whitespace only trims to nothing. */
  lemma BlankTrimsToNothing(s: string)
    requires forall i :: 0 <= i < |s| ==> IsSpace(s[i])
    ensures Trim(s) == []
  {
    BlankTrimStart(s);
  }

  lemma {:induction false} BlankTrimStart(s: string)
    requires forall i :: 0 <= i < |s| ==> IsSpace(s[i])
    ensures TrimStart(s) == []
  {
    if s != [] {
      assert IsSpace(s[0]);
      BlankTrimStart(s[1..]);
    }
  }

  /** `Number("")` and `Number("   ")` are 0: a blank subject reads as the id 0. */
  lemma BlankSubjectIsZero()
    ensures StringToNumber("") == Finite(0.0)
    ensures StringToNumber("   ") == Finite(0.0)
  {
    BlankTrimsToNothing("");
    BlankTrimsToNothing("   ");
  }

  lemma OnePointFive()
    ensures UnsignedDecimal("1.5") == Some(1.5)
  {
    var t := "1.5";
    assert IndexOf(t, '.') == Some(1) by {
      assert t[0] != '.';
      assert IndexOf(t[1..], '.') == Some(0);
    }
    assert t[..1] == "1" && t[2..] == "5";
    assert DigitsValue("1") == 1 by { assert "1"[..0] == ""; }
    assert DigitsValue("5") == 5 by { assert "5"[..0] == ""; }
    assert Pow10(1) == 10;
  }

  /** `Number("1.5")` is 1.5: a fractional subject is not rejected by the conversion. */
  lemma FractionalSubject()
    ensures StringToNumber("1.5") == Finite(1.5)
  {
    var t := "1.5";
    TrimOfTrimmed(t);
    OnePointFive();
    assert t[0] == '1';
    assert t != "Infinity" && t != "+Infinity" && t != "-Infinity";
  }

  /**
   * `Number(s)` is NaN for a non-blank string without a digit that is not
   * a spelling of Infinity, such as `"abc"`.
   */
  lemma WordIsNaN(s: string)
    requires Trim(s) != [] && Trim(s) != "Infinity" && Trim(s) != "+Infinity" && Trim(s) != "-Infinity"
    requires forall i :: 0 <= i < |s| ==> !IsDigit(s[i])
    ensures StringToNumber(s).NaN?
  {
    FiniteNeedsDigit(s);
  }

  /** A string that reads as a finite number other than the blank 0 holds a digit. */
  lemma FiniteNeedsDigit(s: string)
    ensures StringToNumber(s).Finite? && Trim(s) != [] ==> exists i :: 0 <= i < |s| && IsDigit(s[i])
  {
    var t := Trim(s);
    if StringToNumber(s).Finite? && t != [] {
      assert SignedDecimal(t).Finite?;
      var k :| 0 <= k < |t| && IsDigit(t[k]);
      assert t[k] == s[Lead(s) + k];
    }
  }
}

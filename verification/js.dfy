/** The slice of JavaScript's value semantics that the proxy's duck-typed
    JSON probing depends on: parsed JSON values plus `undefined`, truthiness,
    property access (which throws a TypeError on `null` and `undefined`),
    optional chaining, and the string conversion `Array.prototype.join`
    applies to its elements. */
module Js {
  import opened Strings

  datatype Option<+T> = None | Some(value: T)

  /** The result of evaluating an expression that may throw. */
  datatype Outcome<+T> = Ok(value: T) | Threw {
    predicate IsFailure() { Threw? }
    function PropagateFailure<U>(): Outcome<U>
      requires Threw?
    {
      Threw
    }
    function Extract(): T
      requires Ok?
    {
      value
    }
  }

  /** A value `JSON.parse` can produce. Numbers are integers here. */
  datatype Json =
    | JNull
    | JBool(b: bool)
    | JNum(n: int)
    | JStr(s: string)
    | JArr(items: seq<Json>)
    | JObj(fields: map<string, Json>)

  /** What an expression can evaluate to while probing a parsed body: a JSON
      value, or `undefined` for a property that is not there. */
  datatype JsVal = Undefined | Def(j: Json)

  /** JavaScript truthiness: `undefined`, `null`, `false`, `0` and `""` are
      falsy; every other value, including every array and object, is truthy. */
  predicate Truthy(v: JsVal) {
    match v
    case Undefined => false
    case Def(JNull) => false
    case Def(JBool(b)) => b
    case Def(JNum(n)) => n != 0
    case Def(JStr(s)) => s != ""
    case Def(JArr(_)) => true
    case Def(JObj(_)) => true
  }

  predicate IsDigit(c: char) { '0' <= c <= '9' }

  function DigitValue(c: char): nat
    requires IsDigit(c)
  {
    c as int - '0' as int
  }

  /** The value of a string of decimal digits. */
  function DecimalValue(s: string): nat
    requires forall k :: 0 <= k < |s| ==> IsDigit(s[k])
  {
    if |s| == 0 then 0 else DecimalValue(s[..|s| - 1]) * 10 + DigitValue(s[|s| - 1])
  }

  /** The index a property key denotes on an array or string: a key that is
      the canonical decimal form of a natural number ("0", "17", but not "017"
      or "+1"). */
  function ArrayIndex(key: string): (r: Option<nat>)
    ensures r.Some? ==> key == NatToString(r.value)
  {
    if |key| > 0 && (forall k :: 0 <= k < |key| ==> IsDigit(key[k])) && (key == "0" || key[0] != '0')
    then
      CanonicalDigits(key);
      Some(DecimalValue(key))
    else None
  }

  /** The decimal digits of a natural number, most significant first. */
  function NatToString(n: nat): (r: string)
    ensures |r| > 0 && forall k :: 0 <= k < |r| ==> IsDigit(r[k])
  {
    if n < 10 then [('0' as int + n) as char]
    else NatToString(n / 10) + [('0' as int + n % 10) as char]
  }

  /** `String(n)` for an integer-valued number. */
  function NumberToString(n: int): string {
    if n < 0 then "-" + NatToString(-n) else NatToString(n)
  }

  /** Reading digits back gives the number that was printed. */
  lemma {:induction false} DecimalOfNatToString(n: nat)
    ensures DecimalValue(NatToString(n)) == n
  {
    if n >= 10 {
      var r := NatToString(n);
      DecimalOfNatToString(n / 10);
      assert r[..|r| - 1] == NatToString(n / 10);
    }
  }

  /** A canonical digit string is the printed form of its own value. */
  lemma {:induction false} CanonicalDigits(key: string)
    requires |key| > 0 && forall k :: 0 <= k < |key| ==> IsDigit(key[k])
    requires key == "0" || key[0] != '0'
    ensures NatToString(DecimalValue(key)) == key
  {
    var init := key[..|key| - 1];
    if |init| == 0 {
      assert key == [key[0]];
    } else {
      assert |key| >= 2 && init[0] == key[0];
      assert key[0] != '0';
      CanonicalDigits(init);
      LeadingNonZeroIsPositive(init);
      assert key == init + [key[|key| - 1]];
    }
  }

  lemma {:induction false} LeadingNonZeroIsPositive(s: string)
    requires |s| > 0 && forall k :: 0 <= k < |s| ==> IsDigit(s[k])
    requires s[0] != '0'
    ensures DecimalValue(s) > 0
  {
    if |s| > 1 {
      LeadingNonZeroIsPositive(s[..|s| - 1]);
    }
  }

  /** Printing a natural number and reading it back as an index round-trips. */
  lemma IndexOfPrintedNat(n: nat)
    ensures ArrayIndex(NatToString(n)) == Some(n)
  {
    var r := NatToString(n);
    DecimalOfNatToString(n);
    if n >= 10 {
      NatToStringLeading(n);
    }
  }

  lemma {:induction false} NatToStringLeading(n: nat)
    requires n >= 10
    ensures NatToString(n)[0] != '0'
  {
    if n / 10 >= 10 {
      NatToStringLeading(n / 10);
    }
  }

  /** Property access `v[key]` / `v.key` on the values a parsed body holds.
      It throws on `undefined` and `null`; a string and an array answer
      `length` and their indices; an object answers its own keys; booleans and
      numbers have none of the properties the proxy reads. */
  function Get(v: JsVal, key: string): (r: Outcome<JsVal>)
    ensures r.Threw? <==> v == Undefined || v == Def(JNull)
    ensures v.Def? && v.j.JObj? ==> r == Ok(if key in v.j.fields then Def(v.j.fields[key]) else Undefined)
  {
    match v
    case Undefined => Threw
    case Def(JNull) => Threw
    case Def(JBool(_)) => Ok(Undefined)
    case Def(JNum(_)) => Ok(Undefined)
    case Def(JStr(s)) =>
      if key == "length" then Ok(Def(JNum(|s|)))
      else (match ArrayIndex(key)
            case Some(i) => if i < |s| then Ok(Def(JStr([s[i]]))) else Ok(Undefined)
            case None => Ok(Undefined))
    case Def(JArr(xs)) =>
      if key == "length" then Ok(Def(JNum(|xs|)))
      else (match ArrayIndex(key)
            case Some(i) => if i < |xs| then Ok(Def(xs[i])) else Ok(Undefined)
            case None => Ok(Undefined))
    case Def(JObj(m)) => Ok(if key in m then Def(m[key]) else Undefined)
  }

  /** Optional chaining `v?.key`: `undefined` instead of a throw when `v` is
      `null` or `undefined`. */
  function OptGet(v: JsVal, key: string): (r: Outcome<JsVal>)
    ensures r.Ok?
    ensures v == Undefined || v == Def(JNull) ==> r == Ok(Undefined)
    ensures v != Undefined && v != Def(JNull) ==> r == Get(v, key)
  {
    if v == Undefined || v == Def(JNull) then Ok(Undefined) else Get(v, key)
  }

  /** `x || fallback` where `fallback` is a JSON value. */
  function OrElse(x: JsVal, fallback: Json): (r: Json)
    ensures Truthy(x) ==> Def(r) == x
    ensures !Truthy(x) ==> r == fallback
  {
    if Truthy(x) then x.j else fallback
  }

  /** Whether converting `v` to a string throws: `JSON.parse` makes a key
      "toString" an own data property, which is not callable, so `String` of
      such an object is a TypeError (its inherited `valueOf` gives back the
      object itself, so no primitive is found). An array converts through its
      elements, so one such object anywhere inside it throws too. */
  predicate ThrowsOnString(v: Json) {
    match v
    case JObj(f) => "toString" in f
    case JArr(xs) => exists k :: 0 <= k < |xs| && ThrowsOnString(xs[k])
    case _ => false
  }

  /** `String(v)` for a JSON value. Arrays convert by joining their elements
      with ","; a plain object converts to "[object Object]". */
  function ToStr(v: Json): (r: Outcome<string>)
    ensures r.Threw? <==> ThrowsOnString(v)
    ensures v.JStr? ==> r == Ok(v.s)
    decreases v, 1
  {
    match v
    case JNull => Ok("null")
    case JBool(b) => Ok(if b then "true" else "false")
    case JNum(n) => Ok(NumberToString(n))
    case JStr(s) => Ok(s)
    case JArr(xs) => JoinElems(xs, ",")
    case JObj(f) => if "toString" in f then Threw else Ok("[object Object]")
  }

  /** `xs.join(sep)`: the elements converted to strings, `null` becoming "",
      separated by `sep`; the first element that cannot be converted makes
      the join throw. */
  function JoinElems(xs: seq<Json>, sep: string): (r: Outcome<string>)
    ensures r.Threw? <==> exists k :: 0 <= k < |xs| && ThrowsOnString(xs[k])
    decreases xs, 0
  {
    if |xs| == 0 then Ok("")
    else
      var first :- if xs[0] == JNull then Ok("") else ToStr(xs[0]);
      if |xs| == 1 then Ok(first)
      else
        var rest :- JoinElems(xs[1..], sep);
        Ok(first + sep + rest)
  }

  /** Wraps each string as a JSON string. */
  function Strs(ss: seq<string>): (r: seq<Json>)
    ensures |r| == |ss| && forall k :: 0 <= k < |ss| ==> r[k] == JStr(ss[k])
  {
    if |ss| == 0 then [] else [JStr(ss[0])] + Strs(ss[1..])
  }

  /** On JSON strings, the array `join` is the string `join`. */
  lemma {:induction false} JoinElemsOfStrings(ss: seq<string>, sep: string)
    ensures JoinElems(Strs(ss), sep) == Ok(Join(ss, sep))
  {
    if |ss| > 1 {
      JoinElemsOfStrings(ss[1..], sep);
      assert Strs(ss)[1..] == Strs(ss[1..]);
    }
  }
}

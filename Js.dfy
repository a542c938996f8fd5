/**
 The slice of JavaScript value semantics that the route handler and the page
 rely on: decoded JSON values plus `undefined`, truthiness, `??` and `||`,
 optional property access, `String(...)` and `padStart`.
 */
module Js {

  /** A JavaScript value as the code sees it: a decoded JSON value, or
      `undefined` for a property that is missing. Numbers are integers here. */
  datatype Value =
    | Undefined
    | Null
    | Bool(b: bool)
    | Num(n: int)
    | Str(s: string)
    | Arr(items: seq<Value>)
    | Obj(fields: map<string, Value>)

  /** `v == null`: null or undefined. */
  predicate Nullish(v: Value) {
    v.Undefined? || v.Null?
  }

  predicate NotNullish(v: Value) {
    !Nullish(v)
  }

  /** JavaScript's ToBoolean on the values above. */
  predicate Truthy(v: Value) {
    match v
    case Undefined => false
    case Null => false
    case Bool(b) => b
    case Num(n) => n != 0
    case Str(s) => s != ""
    case Arr(_) => true
    case Obj(_) => true
  }

  /** `v?.name`: an own property of an object, `undefined` for every other
      value (no property name read by this code is inherited or built in). */
  function Prop(v: Value, name: string): Value {
    if v.Obj? && name in v.fields then v.fields[name] else Undefined
  }

  /** The common shape of `a ?? b` and `a || b`: keep `a` when it passes the test. */
  function Pick(a: Value, b: Value, keep: Value -> bool): Value {
    if keep(a) then a else b
  }

  /** `a ?? b` */
  function Coalesce(a: Value, b: Value): Value {
    Pick(a, b, NotNullish)
  }

  /** `a || b` */
  function Or(a: Value, b: Value): Value {
    Pick(a, b, Truthy)
  }

  /** `vs[0] op vs[1] op … op vs[n-1]`, grouped from the left as JavaScript parses it. */
  function Chain(vs: seq<Value>, keep: Value -> bool): Value
    requires |vs| > 0
  {
    if |vs| == 1 then vs[0] else Pick(Chain(vs[..|vs| - 1], keep), vs[|vs| - 1], keep)
  }

  /** `vs[0] ?? vs[1] ?? …` */
  function CoalesceAll(vs: seq<Value>): Value
    requires |vs| > 0
  {
    Chain(vs, NotNullish)
  }

  /** `vs[0] || vs[1] || …` */
  function OrAll(vs: seq<Value>): Value
    requires |vs| > 0
  {
    Chain(vs, Truthy)
  }

  /** The position of the first element that passes `keep`, or `|vs|` when none does. */
  function FirstKept(vs: seq<Value>, keep: Value -> bool): (i: nat)
    ensures i <= |vs|
    ensures i < |vs| ==> keep(vs[i])
    ensures forall j :: 0 <= j < i ==> !keep(vs[j])
  {
    if |vs| == 0 then 0
    else if keep(vs[0]) then 0
    else 1 + FirstKept(vs[1..], keep)
  }

  /** A chain of `??` or `||` yields its first operand that passes the test,
      and its last operand when none does. */
  lemma {:induction false} ChainIsFirstKept(vs: seq<Value>, keep: Value -> bool)
    requires |vs| > 0
    ensures Chain(vs, keep) == (var i := FirstKept(vs, keep); if i < |vs| then vs[i] else vs[|vs| - 1])
  {
    if |vs| > 1 {
      var init := vs[..|vs| - 1];
      ChainIsFirstKept(init, keep);
      var i, k := FirstKept(vs, keep), FirstKept(init, keep);
      if k < |init| {
        assert init[k] == vs[k];
        assert i == k;
      } else {
        assert forall j :: 0 <= j < |init| ==> init[j] == vs[j];
        assert i >= |init|;
      }
    }
  }

  /** `String(v)` for the values above (integers print in decimal). */
  function ToStr(v: Value): string
    decreases v, 1
  {
    match v
    case Undefined => "undefined"
    case Null => "null"
    case Bool(b) => if b then "true" else "false"
    case Num(n) => if n < 0 then "-" + Decimal(-n) else Decimal(n)
    case Str(s) => s
    case Arr(items) => Join(ElementStrings(v, |items|), ",")
    case Obj(_) => "[object Object]"
  }

  /** The first `k` elements of an array as `Array.prototype.join` prints
      them: null and undefined elements print as "". */
  function ElementStrings(v: Value, k: nat): (parts: seq<string>)
    requires v.Arr? && k <= |v.items|
    ensures |parts| == k
    decreases v, 0, k
  {
    if k == 0 then []
    else
      var e := v.items[k - 1];
      ElementStrings(v, k - 1) + [if Nullish(e) then "" else ToStr(e)]
  }

  function Join(parts: seq<string>, sep: string): string {
    if |parts| == 0 then ""
    else if |parts| == 1 then parts[0]
    else parts[0] + sep + Join(parts[1..], sep)
  }

  predicate IsDigit(c: char) {
    '0' <= c <= '9'
  }

  predicate AllDigits(s: string) {
    forall i :: 0 <= i < |s| ==> IsDigit(s[i])
  }

  /** The character of the decimal digit `d`. */
  function Digit(d: nat): (c: char)
    requires d < 10
    ensures IsDigit(c)
  {
    ('0' as int + d) as char
  }

  /** The number a string of decimal digits denotes, most significant first. */
  function DigitsValue(s: string): int {
    if |s| == 0 then 0
    else DigitsValue(s[..|s| - 1]) * 10 + (s[|s| - 1] as int - '0' as int)
  }

  /** The decimal digits of `n`, without leading zeros. */
  function Decimal(n: nat): (s: string)
    ensures |s| > 0 && AllDigits(s)
    ensures n > 0 ==> s[0] != '0'
  {
    if n < 10 then [Digit(n)]
    else Decimal(n / 10) + [Digit(n % 10)]
  }

  /** The printed digits denote the number printed. */
  lemma {:induction false} DecimalValue(n: nat)
    ensures DigitsValue(Decimal(n)) == n
  {
    if n >= 10 {
      DecimalValue(n / 10);
      var p := Decimal(n / 10);
      var s := p + [Digit(n % 10)];
      assert s[..|s| - 1] == p;
    }
  }

  /** A one-digit number prints as its digit, and pads to two characters with a leading '0'. */
  lemma OneDigit(d: nat)
    requires 1 <= d <= 9
    ensures ToStr(Num(d)) == [Digit(d)]
    ensures PadStart(ToStr(Num(d)), 2, '0') == ['0', Digit(d)]
  {
  }

  /** A four-digit number prints as its four digits. */
  lemma FourDigits(n: nat)
    requires 1000 <= n <= 9999
    ensures ToStr(Num(n)) ==
      [Digit(n / 1000), Digit(n / 100 % 10), Digit(n / 10 % 10), Digit(n % 10)]
  {
    var a, b, c := n / 10, n / 100, n / 1000;
    assert a / 10 == b && b / 10 == c;
    assert 1 <= c < 10 && 10 <= b && 100 <= a;
    assert Decimal(c) == [Digit(c)];
    assert Decimal(b) == Decimal(c) + [Digit(b % 10)];
    assert Decimal(a) == Decimal(b) + [Digit(a % 10)];
    assert Decimal(n) == Decimal(a) + [Digit(n % 10)];
  }

  /** Every truthy value except an array prints as a non-empty string. */
  lemma TruthyPrintsNonEmpty(v: Value)
    requires Truthy(v) && !v.Arr?
    ensures ToStr(v) != ""
  {
  }

  /** A truthy array can still print as "": `String([])` and `String([null])` are "". */
  lemma TruthyArrayMayPrintEmpty()
    ensures Truthy(Arr([])) && ToStr(Arr([])) == ""
    ensures Truthy(Arr([Null])) && ToStr(Arr([Null])) == ""
  {
    assert ElementStrings(Arr([Null]), 1) == [""];
  }

  /** `k` copies of `c` (none when `k <= 0`). */
  function Fill(c: char, k: int): (r: string)
    ensures |r| == if k <= 0 then 0 else k
    ensures forall i :: 0 <= i < |r| ==> r[i] == c
  {
    if k <= 0 then [] else [c] + Fill(c, k - 1)
  }

  /** `s.padStart(n, c)`: `c` put in front of `s` until it is `n` long. */
  function PadStart(s: string, n: nat, c: char): (r: string)
    ensures r == Fill(c, n - |s|) + s
    ensures |r| == if |s| >= n then |s| else n
  {
    if |s| >= n then s else [c] + PadStart(s, n - 1, c)
  }
}

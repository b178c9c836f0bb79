/** JavaScript values as the user interface handles them: the parsed JSON of a
    response and the runtime operations the interface applies to it
    (truthiness, `||`, property reads, `String(v)`, `JSON.stringify`,
    `parseInt`). Numbers are integers: NaN, infinities and fractions are not
    part of this model. */
module JsValues {
  import opened Wrappers
  import opened Text

  /** A value. An object lists its own enumerable properties in the order
      `for...in` visits them (integer-like keys first, then insertion order). */
  datatype Js =
    | Undefined
    | Null
    | Bool(b: bool)
    | Num(n: int)
    | Str(s: string)
    | Arr(items: seq<Js>)
    | Obj(props: seq<(string, Js)>)

  /** What a `throw` carries: an `Error` the code builds, with its message, or
      an error the engine raises, whose message is the engine's own. */
  datatype Thrown = Error(message: string) | TypeError | SyntaxError

  predicate Nullish(v: Js) { v.Undefined? || v.Null? }

  /** `ToBoolean`: undefined, null, false, 0 and the empty string are falsy. */
  predicate Truthy(v: Js)
  {
    match v
    case Undefined => false
    case Null => false
    case Bool(b) => b
    case Num(n) => n != 0
    case Str(s) => s != []
    case Arr(_) => true
    case Obj(_) => true
  }

  /** `a || b`. */
  function Or(a: Js, b: Js): Js
  {
    if Truthy(a) then a else b
  }

  /** The value of the first property named `key`. */
  function Lookup(props: seq<(string, Js)>, key: string): (r: Option<Js>)
    ensures r.None? <==> forall i :: 0 <= i < |props| ==> props[i].0 != key
    ensures r.Some? ==> (key, r.value) in props
  {
    if props == [] then None
    else if props[0].0 == key then Some(props[0].1)
    else Lookup(props[1..], key)
  }

  /** `v?.key`, and `v.key` where `v` is neither null nor undefined: an
      object's property, undefined for a missing one and for any other value. */
  function Get(v: Js, key: string): Js
  {
    if v.Obj? then Lookup(v.props, key).GetOr(Undefined) else Undefined
  }

  /** `v[i]` on an array. */
  function At(items: seq<Js>, i: nat): Js
  {
    if i < |items| then items[i] else Undefined
  }

  /** `v.length` where `v` is neither null nor undefined: the size of a list
      or a string, an object's own `length` property, undefined otherwise. */
  function Length(v: Js): Js
  {
    match v
    case Arr(items) => Num(|items|)
    case Str(s) => Num(|s|)
    case Obj(_) => Get(v, "length")
    case _ => Undefined
  }

  /** `v[i]`: an element of a list, a one-character string of a string, the
      property named by the index on an object, undefined otherwise. */
  function Index(v: Js, i: nat): Js
  {
    match v
    case Arr(items) => At(items, i)
    case Str(s) => if i < |s| then Str([s[i]]) else Undefined
    case Obj(_) => Get(v, NatToString(i))
    case _ => Undefined
  }

  /** Assignment `o.key = v` on an object: an existing property keeps its
      place and takes the value, a new one is appended. */
  function SetProp(props: seq<(string, Js)>, key: string, v: Js): (r: seq<(string, Js)>)
    ensures Lookup(r, key) == Some(v)
    ensures forall k :: k != key ==> Lookup(r, k) == Lookup(props, k)
    ensures Lookup(props, key).Some? ==> |r| == |props|
    ensures Lookup(props, key).None? ==> r == props + [(key, v)]
  {
    if props == [] then [(key, v)]
    else if props[0].0 == key then
      LookupCons((key, v), props[1..]);
      LookupCons(props[0], props[1..]);
      [(key, v)] + props[1..]
    else
      var rest := SetProp(props[1..], key, v);
      LookupCons(props[0], rest);
      LookupCons(props[0], props[1..]);
      [props[0]] + rest
  }

  /** Looking up in a property list with one more property in front. */
  lemma LookupCons(p: (string, Js), rest: seq<(string, Js)>)
    ensures forall k :: Lookup([p] + rest, k) == if p.0 == k then Some(p.1) else Lookup(rest, k)
  {
    assert ([p] + rest)[1..] == rest;
  }

  // ---------------------------------------------------------------- text

  /** `parts.join(sep)`. */
  function Join(parts: seq<string>, sep: string): string
  {
    if parts == [] then ""
    else if |parts| == 1 then parts[0]
    else parts[0] + sep + Join(parts[1..], sep)
  }

  /** `String(v)`, which template literals apply to what they interpolate:
      an array joins its elements' texts with commas, writing null and
      undefined elements as empty text, and an object is `[object Object]`. */
  function ToStr(v: Js): string
  {
    match v
    case Undefined => "undefined"
    case Null => "null"
    case Bool(b) => if b then "true" else "false"
    case Num(n) => IntToString(n)
    case Str(s) => s
    case Arr(items) =>
      Join(seq(|items|, i requires 0 <= i < |items| => if Nullish(items[i]) then "" else ToStr(items[i])), ",")
    case Obj(_) => "[object Object]"
  }

  function HexDigit(d: int): char
    requires 0 <= d < 16
  {
    if d < 10 then ('0' as int + d) as char else ('a' as int + d - 10) as char
  }

  /** How `JSON.stringify` writes one character inside a string literal. */
  function Escape(c: char): string
  {
    if c == '"' then "\\\""
    else if c == '\\' then "\\\\"
    else if c == '\U{8}' then "\\b"
    else if c == '\U{C}' then "\\f"
    else if c == '\n' then "\\n"
    else if c == '\r' then "\\r"
    else if c == '\t' then "\\t"
    else if c < ' ' then "\\u00" + [HexDigit(c as int / 16), HexDigit(c as int % 16)]
    else [c]
  }

  function Concat(parts: seq<string>): string
  {
    if parts == [] then "" else parts[0] + Concat(parts[1..])
  }

  /** A JSON string literal. */
  function Quote(s: string): (r: string)
    ensures |r| >= 2 && r[0] == '"' && r[|r| - 1] == '"'
  {
    "\"" + Concat(seq(|s|, i requires 0 <= i < |s| => Escape(s[i]))) + "\""
  }

  /** The present values of a sequence of options, in order. */
  function Present(parts: seq<Option<string>>): seq<string>
  {
    if parts == [] then []
    else (if parts[0].Some? then [parts[0].value] else []) + Present(parts[1..])
  }

  /** `JSON.stringify` of a value held in an array or passed at the top:
      undefined is written `null` there, and an object leaves out the
      properties whose value is undefined. */
  function Json(v: Js): string
  {
    match v
    case Undefined => "null"
    case Null => "null"
    case Bool(b) => if b then "true" else "false"
    case Num(n) => IntToString(n)
    case Str(s) => Quote(s)
    case Arr(items) =>
      "[" + Join(seq(|items|, i requires 0 <= i < |items| => Json(items[i])), ",") + "]"
    case Obj(props) =>
      "{" + Join(Present(seq(|props|, i requires 0 <= i < |props| =>
                   if props[i].1.Undefined? then None else Some(Quote(props[i].0) + ":" + Json(props[i].1)))), ",") + "}"
  }

  /** `JSON.stringify(v)`: no text at all for undefined. Values here hold no
      cycles and no BigInt, so it never throws. */
  function Stringify(v: Js): (r: Option<string>)
    ensures r.None? <==> v.Undefined?
    ensures v.Arr? ==> r.Some? && |r.value| >= 2 && r.value[0] == '[' && r.value[|r.value| - 1] == ']'
    ensures v.Obj? ==> r.Some? && |r.value| >= 2 && r.value[0] == '{' && r.value[|r.value| - 1] == '}'
    ensures v.Str? ==> r == Some(Quote(v.s))
  {
    if v.Undefined? then None else Some(Json(v))
  }

  // ---------------------------------------------------------------- parseInt

  /** The white space and line terminators `parseInt` skips: tab, the line
      breaks, vertical tab, form feed, the space separators of Unicode, the
      byte order mark and the line and paragraph separators. */
  predicate IsJsSpace(c: char)
  {
    c == '\t' || c == '\n' || c == '\U{B}' || c == '\U{C}' || c == '\r' || c == ' ' ||
    c == '\U{A0}' || c == '\U{1680}' || ('\U{2000}' <= c <= '\U{200A}') ||
    c == '\U{2028}' || c == '\U{2029}' || c == '\U{202F}' || c == '\U{205F}' ||
    c == '\U{3000}' || c == '\U{FEFF}'
  }

  /** The number of leading white-space characters. */
  function LeadingSpace(s: string): (n: nat)
    ensures n <= |s|
    ensures forall i :: 0 <= i < n ==> IsJsSpace(s[i])
    ensures n < |s| ==> !IsJsSpace(s[n])
  {
    if s == [] || !IsJsSpace(s[0]) then 0 else 1 + LeadingSpace(s[1..])
  }

  /** The value of a digit in base 10 or 16, or 16 when it is none. */
  function RadixDigit(c: char): nat
  {
    if '0' <= c <= '9' then c as int - '0' as int
    else if 'a' <= c <= 'f' then c as int - 'a' as int + 10
    else if 'A' <= c <= 'F' then c as int - 'A' as int + 10
    else 16
  }

  /** The length of the longest prefix of digits of the radix. */
  function DigitRun(s: string, radix: nat): (n: nat)
    ensures n <= |s|
    ensures forall i :: 0 <= i < n ==> RadixDigit(s[i]) < radix
    ensures n < |s| ==> RadixDigit(s[n]) >= radix
  {
    if s == [] || RadixDigit(s[0]) >= radix then 0 else 1 + DigitRun(s[1..], radix)
  }

  function RadixValue(s: string, radix: nat): nat
  {
    if s == [] then 0 else radix * RadixValue(s[..|s| - 1], radix) + RadixDigit(s[|s| - 1])
  }

  /** The digits after the sign: a `0x` or `0X` prefix selects base 16, and
      the longest run of digits of the base is read; without a digit there
      is no number (None). */
  function ParseMagnitude(u: string): (r: Option<nat>)
  {
    var hex := |u| >= 2 && u[0] == '0' && (u[1] == 'x' || u[1] == 'X');
    var body := if hex then u[2..] else u;
    var radix := if hex then 16 else 10;
    var n := DigitRun(body, radix);
    if n == 0 then None else Some(RadixValue(body[..n], radix))
  }

  /** `parseInt(s)` with no radix: leading white space is skipped, one sign
      is read, then the magnitude; NaN is None. */
  function ParseInt(s: string): (r: Option<int>)
  {
    var t := s[LeadingSpace(s)..];
    if |t| > 0 && t[0] == '-' then
      var m := ParseMagnitude(t[1..]);
      if m.None? then None else Some(-(m.value as int))
    else
      ParseMagnitude(if |t| > 0 && t[0] == '+' then t[1..] else t)
  }

  lemma {:induction false} DecimalRunIsAll(s: string)
    requires AllDigits(s)
    ensures DigitRun(s, 10) == |s|
  {
    if s != [] {
      DecimalRunIsAll(s[1..]);
    }
  }

  lemma {:induction false} DecimalValue(s: string)
    requires AllDigits(s)
    ensures RadixValue(s, 10) == DigitsValue(s)
  {
    if s != [] {
      DecimalValue(s[..|s| - 1]);
    }
  }

  /** A natural number's decimal text is read back as its magnitude. */
  lemma MagnitudeOfText(n: nat)
    ensures ParseMagnitude(NatToString(n)) == Some(n)
  {
    var d := NatToString(n);
    if d[0] == '0' {
      assert d == "0";
    }
    DecimalRunIsAll(d);
    DecimalValue(d);
    assert d[..|d|] == d;
  }

  lemma ParseNegativeText(n: nat)
    requires n > 0
    ensures ParseInt("-" + NatToString(n)) == Some(-(n as int))
  {
    var s := "-" + NatToString(n);
    assert LeadingSpace(s) == 0;
    assert s[0..] == s && s[1..] == NatToString(n);
    MagnitudeOfText(n);
  }

  lemma ParseNaturalText(n: nat)
    ensures ParseInt(NatToString(n)) == Some(n)
  {
    var s := NatToString(n);
    assert LeadingSpace(s) == 0;
    assert s[0..] == s;
    MagnitudeOfText(n);
  }

  /** `parseInt(String(n))` is `n`: the text an integer is written as reads
      back as that integer. */
  lemma ParseIntOfText(n: int)
    ensures ParseInt(IntToString(n)) == Some(n)
    ensures ParseInt(ToStr(Num(n))) == Some(n)
  {
    if n >= 0 {
      ParseNaturalText(n);
    } else {
      ParseNegativeText(-n);
    }
  }

  /** `parseInt` skips leading white space: one more in front changes
      nothing. */
  lemma ParseIntSkipsSpace(c: char, s: string)
    requires IsJsSpace(c)
    ensures ParseInt([c] + s) == ParseInt(s)
  {
    assert ([c] + s)[1..] == s;
    var n := LeadingSpace(s);
    assert LeadingSpace([c] + s) == 1 + n;
    assert ([c] + s)[1 + n..] == s[n..];
  }

  /** A run of digits of the radix followed by a character that is none
      runs to the end of the digits. */
  lemma {:induction false} DigitRunAppend(s: string, t: string, radix: nat)
    requires forall i :: 0 <= i < |s| ==> RadixDigit(s[i]) < radix
    requires t == [] || RadixDigit(t[0]) >= radix
    ensures DigitRun(s + t, radix) == |s|
  {
    if s != [] {
      assert (s + t)[0] == s[0] && (s + t)[1..] == s[1..] + t;
      DigitRunAppend(s[1..], t, radix);
    } else {
      assert s + t == t;
    }
  }

  /** `parseInt` stops at the first character that is not a digit: decimal
      digits followed by anything else read as the digits' value, unless the
      digits are a lone 0 and the rest begins the `0x` prefix. */
  lemma ParseIntStopsAtLetter(s: string, t: string)
    requires s != [] && AllDigits(s)
    requires t == [] || !IsDigit(t[0])
    requires !(s == "0" && t != [] && (t[0] == 'x' || t[0] == 'X'))
    ensures ParseInt(s + t) == Some(DigitsValue(s))
  {
    var u := s + t;
    assert u[0] == s[0];
    assert LeadingSpace(u) == 0;
    assert u[0..] == u;
    assert !(|u| >= 2 && u[0] == '0' && (u[1] == 'x' || u[1] == 'X')) by {
      assert |s| >= 2 ==> u[1] == s[1];
      assert |s| == 1 && t != [] ==> u[1] == t[0];
    }
    assert forall i :: 0 <= i < |s| ==> RadixDigit(s[i]) < 10;
    DigitRunAppend(s, t, 10);
    assert u[..|s|] == s;
    DecimalValue(s);
    assert ParseMagnitude(u) == Some(DigitsValue(s));
  }

  /** `parseInt` reads a `0x` prefix as base 16: hexadecimal digits after it
      read as their value in base 16. */
  lemma ParseIntHexPrefix(s: string)
    requires s != [] && forall i :: 0 <= i < |s| ==> RadixDigit(s[i]) < 16
    ensures ParseInt("0x" + s) == Some(RadixValue(s, 16))
  {
    var u := "0x" + s;
    assert u[0] == '0' && u[1] == 'x' && u[2..] == s;
    assert LeadingSpace(u) == 0;
    assert u[0..] == u;
    DigitRunAppend(s, [], 16);
    assert s + [] == s && s[..|s|] == s;
  }

  /** Without a digit `parseInt` gives NaN. */
  lemma ParseIntNaN()
    ensures ParseInt("abc") == None && ParseInt("") == None && ParseInt("-") == None
  {
    assert LeadingSpace("abc") == 0 && "abc"[0..] == "abc";
    assert LeadingSpace("-") == 0 && "-"[0..] == "-" && "-"[1..] == [];
  }
}

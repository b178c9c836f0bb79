/** Character classes and string operations of the Java and JavaScript runtimes
    that the log parser and the user interface rely on. Characters are Unicode
    scalar values; case mapping is ASCII only. */
module Text {
  import opened Wrappers

  /** Java's `\d` without UNICODE_CHARACTER_CLASS. */
  predicate IsDigit(c: char) { '0' <= c <= '9' }

  /** Java's `\w`: `[a-zA-Z_0-9]`. */
  predicate IsWordChar(c: char)
  {
    ('a' <= c <= 'z') || ('A' <= c <= 'Z') || c == '_' || IsDigit(c)
  }

  /** Java's `\s`: `[ \t\n\x0B\f\r]`. */
  predicate IsSpace(c: char)
  {
    c == ' ' || c == '\t' || c == '\n' || c == '\U{B}' || c == '\U{C}' || c == '\r'
  }

  /** The line terminators that Java's `.` refuses and `$` looks past. */
  predicate IsLineTerminator(c: char)
  {
    c == '\n' || c == '\r' || c == '\U{85}' || c == '\U{2028}' || c == '\U{2029}'
  }

  predicate AllDigits(s: string) { forall i :: 0 <= i < |s| ==> IsDigit(s[i]) }

  predicate NoSpace(s: string) { forall i :: 0 <= i < |s| ==> !IsSpace(s[i]) }

  lemma DigitsSlice(s: string, i: nat, j: nat)
    requires i <= j <= |s| && forall k :: i <= k < j ==> IsDigit(s[k])
    ensures AllDigits(s[i..j])
  {
  }

  lemma NoSpaceSlice(s: string, i: nat, j: nat)
    requires i <= j <= |s| && forall k :: i <= k < j ==> !IsSpace(s[k])
    ensures NoSpace(s[i..j])
  {
  }

  /** A slice followed by the character after it is a literal of `s`. */
  lemma SliceThenChar(s: string, i: nat, j: nat)
    requires i <= j < |s|
    ensures LiteralAt(s, i, s[i..j] + [s[j]])
  {
    assert s[i..j + 1] == s[i..j] + [s[j]];
  }

  predicate StartsWith(s: string, prefix: string)
  {
    |prefix| <= |s| && s[..|prefix|] == prefix
  }

  /** `s` holds `lit` at position `i`. */
  predicate LiteralAt(s: string, i: nat, lit: string)
  {
    i + |lit| <= |s| && s[i..i + |lit|] == lit
  }

  /** JavaScript's `String.prototype.includes` and Java's `String.contains`. */
  predicate Contains(s: string, sub: string)
  {
    exists i :: 0 <= i <= |s| - |sub| && LiteralAt(s, i, sub)
  }

  // ---------------------------------------------------------------- trim

  /** Characters that Java's `String.trim` strips: everything up to U+0020. */
  predicate IsTrimmable(c: char) { c <= ' ' }

  predicate IsBlank(s: string) { forall i :: 0 <= i < |s| ==> IsTrimmable(s[i]) }

  /** The first index from `i` on whose character is above U+0020, or `|s|`. */
  function TrimStartIndex(s: string, i: nat): (k: nat)
    requires i <= |s|
    ensures i <= k <= |s|
    ensures forall m :: i <= m < k ==> IsTrimmable(s[m])
    ensures k == |s| || !IsTrimmable(s[k])
    decreases |s| - i
  {
    if i == |s| || !IsTrimmable(s[i]) then i else TrimStartIndex(s, i + 1)
  }

  /** The end of the last character above U+0020 before `j`, or `lo`. */
  function TrimEndIndex(s: string, lo: nat, j: nat): (k: nat)
    requires lo <= j <= |s|
    ensures lo <= k <= j
    ensures forall m :: k <= m < j ==> IsTrimmable(s[m])
    ensures k == lo || !IsTrimmable(s[k - 1])
  {
    if j == lo || !IsTrimmable(s[j - 1]) then j else TrimEndIndex(s, lo, j - 1)
  }

  /** Java's `String.trim`: `s` without the characters up to U+0020 at either
      end. */
  function Trim(s: string): (r: string)
    ensures r == [] || (!IsTrimmable(r[0]) && !IsTrimmable(r[|r| - 1]))
    ensures r == [] <==> IsBlank(s)
  {
    var i := TrimStartIndex(s, 0);
    s[i..TrimEndIndex(s, i, |s|)]
  }

  /** What `Trim` keeps is a slice of `s`, and everything it cuts off, on
      either side, is a character up to U+0020. */
  lemma TrimIsSlice(s: string)
    ensures var i := TrimStartIndex(s, 0);
            i <= |s| - |Trim(s)| && Trim(s) == s[i..i + |Trim(s)|] &&
            forall m :: 0 <= m < |s| && !(i <= m < i + |Trim(s)|) ==> IsTrimmable(s[m])
  {
    var i := TrimStartIndex(s, 0);
    var j := TrimEndIndex(s, i, |s|);
    assert Trim(s) == s[i..j] && |Trim(s)| == j - i;
    assert forall m :: 0 <= m < |s| && !(i <= m < j) ==> IsTrimmable(s[m]) by {
      forall m | 0 <= m < |s| && !(i <= m < j)
        ensures IsTrimmable(s[m])
      {
        if m >= j {
          assert j <= m < |s|;
        }
      }
    }
  }

  // ---------------------------------------------------------------- split

  /** The pieces of `s` between its `\n` characters (`s.split("\n", -1)`). */
  function Pieces(s: string): (r: seq<string>)
    ensures |r| >= 1
    ensures forall k, i :: 0 <= k < |r| && 0 <= i < |r[k]| ==> r[k][i] != '\n'
    decreases |s|
  {
    if '\n' !in s then [s]
    else
      var i := FirstIndex(s, '\n');
      [s[..i]] + Pieces(s[i + 1..])
  }

  function FirstIndex(s: string, c: char): (i: nat)
    requires c in s
    ensures i < |s| && s[i] == c && c !in s[..i]
  {
    if s[0] == c then 0 else 1 + FirstIndex(s[1..], c)
  }

  /** Joins pieces with `\n` between them. */
  function JoinLines(ps: seq<string>): string
    requires |ps| >= 1
  {
    if |ps| == 1 then ps[0] else ps[0] + "\n" + JoinLines(ps[1..])
  }

  lemma {:induction false} PiecesJoin(s: string)
    ensures JoinLines(Pieces(s)) == s
    decreases |s|
  {
    if '\n' in s {
      var i := FirstIndex(s, '\n');
      var rest := Pieces(s[i + 1..]);
      PiecesJoin(s[i + 1..]);
      JoinCons(s[..i], rest);
      assert s == s[..i] + "\n" + s[i + 1..];
    }
  }

  /** Joining with one more piece in front. */
  lemma JoinCons(p: string, rest: seq<string>)
    requires |rest| >= 1
    ensures JoinLines([p] + rest) == p + "\n" + JoinLines(rest)
  {
    assert ([p] + rest)[1..] == rest;
  }

  /** Drops one trailing `\r`, the part of a `\r\n` separator left on a piece. */
  function DropCr(p: string): (r: string)
    ensures r == p || (p == r + "\r")
  {
    if |p| > 0 && p[|p| - 1] == '\r' then p[..|p| - 1] else p
  }

  /** Every piece followed by a `\n` loses the `\r` of a `\r\n`; the last one
      keeps its characters. */
  function CrStripped(ps: seq<string>): (r: seq<string>)
    requires |ps| >= 1
    ensures |r| == |ps| && r[|r| - 1] == ps[|ps| - 1]
    ensures forall k :: 0 <= k < |ps| - 1 ==> r[k] == DropCr(ps[k])
  {
    seq(|ps|, k requires 0 <= k < |ps| => if k < |ps| - 1 then DropCr(ps[k]) else ps[k])
  }

  /** Drops the trailing empty strings, as Java's `split` with no limit does. */
  function DropTrailingEmpty(ps: seq<string>): (r: seq<string>)
    ensures |r| <= |ps| && r == ps[..|r|]
    ensures r == [] || r[|r| - 1] != []
    ensures forall k :: |r| <= k < |ps| ==> ps[k] == []
  {
    if ps == [] || ps[|ps| - 1] != [] then ps
    else DropTrailingEmpty(ps[..|ps| - 1])
  }

  /** Java's `content.split("\\r?\\n")` on a non-empty content: cut at every
      `\n`, let a `\r` just before a `\n` belong to the separator, and drop
      trailing empty strings. (A content without `\n` comes back whole.) */
  function SplitLines(content: string): (r: seq<string>)
    ensures forall k, i :: 0 <= k < |r| && 0 <= i < |r[k]| ==> r[k][i] != '\n'
    ensures '\n' !in content ==> r == [content]
    // each line is the piece between two `\n`, less the `\r` of a `\r\n`;
    // the last piece, which no `\n` follows, keeps its characters
    ensures var ps := Pieces(content);
            |r| <= |ps| &&
            forall k :: 0 <= k < |r| ==> r[k] == if k < |ps| - 1 then DropCr(ps[k]) else ps[k]
    // what is dropped is empty once its separator is removed
    ensures var ps := Pieces(content);
            '\n' in content ==>
              (forall k :: |r| <= k < |ps| - 1 ==> DropCr(ps[k]) == []) &&
              (|r| < |ps| ==> ps[|ps| - 1] == []) &&
              (r == [] || r[|r| - 1] != [])
  {
    if '\n' !in content then [content]
    else
      var ps := Pieces(content);
      StrippedLines(ps);
      DropTrailingEmpty(CrStripped(ps))
  }

  /** What stripping and dropping leave of the pieces. */
  lemma StrippedLines(ps: seq<string>)
    requires |ps| >= 1
    requires forall k, i :: 0 <= k < |ps| && 0 <= i < |ps[k]| ==> ps[k][i] != '\n'
    ensures var r := DropTrailingEmpty(CrStripped(ps));
            |r| <= |ps| &&
            (forall k :: 0 <= k < |r| ==> r[k] == if k < |ps| - 1 then DropCr(ps[k]) else ps[k]) &&
            (forall k, i :: 0 <= k < |r| && 0 <= i < |r[k]| ==> r[k][i] != '\n') &&
            (forall k :: |r| <= k < |ps| - 1 ==> DropCr(ps[k]) == []) &&
            (|r| < |ps| ==> ps[|ps| - 1] == []) &&
            (r == [] || r[|r| - 1] != [])
  {
    var stripped := CrStripped(ps);
    var r := DropTrailingEmpty(stripped);
    assert forall k :: 0 <= k < |r| ==> r[k] == stripped[k];
  }

  // ---------------------------------------------------------------- numbers

  const Int32Max: int := 0x7fff_ffff
  const Int32Min: int := -0x8000_0000

  function DigitValue(c: char): nat
    requires IsDigit(c)
  {
    (c as int) - ('0' as int)
  }

  /** Decimal value of a run of ASCII digits. */
  function DigitsValue(s: string): nat
    requires AllDigits(s)
  {
    if s == [] then 0 else 10 * DigitsValue(s[..|s| - 1]) + DigitValue(s[|s| - 1])
  }

  /** Java's `Integer.parseInt` on ASCII input: an optional sign, at least one
      digit, and a value inside the 32-bit range; anything else throws
      `NumberFormatException` (None). */
  function ParseJavaInt(s: string): (r: Option<int>)
    ensures r.Some? ==> Int32Min <= r.value <= Int32Max
    ensures AllDigits(s) && s != [] ==>
              (r.Some? <==> DigitsValue(s) <= Int32Max) && (r.Some? ==> r.value == DigitsValue(s))
  {
    if s == [] then None
    else
      var neg := s[0] == '-';
      var body := if s[0] == '-' || s[0] == '+' then s[1..] else s;
      if body == [] || !AllDigits(body) then None
      else
        var d: int := DigitsValue(body);
        var v := if neg then -d else d;
        if Int32Min <= v <= Int32Max then Some(v) else None
  }

  function NatToString(n: nat): (r: string)
    ensures |r| >= 1 && AllDigits(r)
    ensures DigitsValue(r) == n
    ensures r[0] == '0' ==> n == 0
  {
    if n < 10 then [('0' as int + n) as char]
    else
      var p := NatToString(n / 10);
      var r := p + [('0' as int + n % 10) as char];
      assert r[..|r| - 1] == p;
      r
  }

  /** Decimal text of an integer, as Java's string concatenation and
      JavaScript's `String(n)` write it. */
  function IntToString(n: int): (r: string)
    ensures |r| >= 1
    ensures n >= 0 ==> r == NatToString(n)
    ensures n < 0 ==> r == "-" + NatToString(-n)
  {
    if n >= 0 then NatToString(n) else "-" + NatToString(-n)
  }

  // ---------------------------------------------------------------- case

  function UpperChar(c: char): char
  {
    if 'a' <= c <= 'z' then (c as int - 32) as char else c
  }

  function LowerChar(c: char): char
  {
    if 'A' <= c <= 'Z' then (c as int + 32) as char else c
  }

  /** `toUpperCase` on ASCII letters. */
  function ToUpper(s: string): (r: string)
    ensures |r| == |s| && forall i :: 0 <= i < |s| ==> r[i] == UpperChar(s[i])
  {
    seq(|s|, i requires 0 <= i < |s| => UpperChar(s[i]))
  }

  /** `toLowerCase` on ASCII letters. */
  function ToLower(s: string): (r: string)
    ensures |r| == |s| && forall i :: 0 <= i < |s| ==> r[i] == LowerChar(s[i])
  {
    seq(|s|, i requires 0 <= i < |s| => LowerChar(s[i]))
  }

  /** An upper-case ASCII letter and its lower-case form are matched by the
      same characters. */
  lemma FoldChar(c: char, upper: char)
    requires 'A' <= upper <= 'Z'
    ensures UpperChar(c) == upper <==> LowerChar(c) == LowerChar(upper)
  {
  }

  /** Comparing `s.toUpperCase()` with an upper-case word is the same as
      comparing `s.toLowerCase()` with its lower-case form. */
  lemma FoldWord(s: string, w: string)
    requires forall i :: 0 <= i < |w| ==> 'A' <= w[i] <= 'Z'
    ensures ToUpper(s) == w <==> ToLower(s) == ToLower(w)
  {
    if ToUpper(s) == w {
      forall i | 0 <= i < |s| ensures ToLower(s)[i] == ToLower(w)[i] {
        FoldChar(s[i], w[i]);
      }
    }
    if ToLower(s) == ToLower(w) {
      forall i | 0 <= i < |s| ensures ToUpper(s)[i] == w[i] {
        assert ToLower(s)[i] == ToLower(w)[i];
        FoldChar(s[i], w[i]);
      }
    }
  }
}

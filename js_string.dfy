/**
 * The parts of ECMAScript string behaviour that the services rely on:
 * the whitespace set of `\s` and `trim`, ASCII lower-casing, `includes`,
 * decimal digits, integer-to-string conversion and `split(',')[1]`.
 */
module JsString {
  import opened Wrappers

  /** ECMAScript WhiteSpace or LineTerminator: what `\s` matches and `trim` removes. */
  predicate IsSpace(c: char) {
    c == '\t' || c == '\n' || c == '\U{000B}' || c == '\U{000C}' || c == '\r' || c == ' '
    || c == '\U{00A0}' || c == '\U{1680}' || ('\U{2000}' <= c <= '\U{200A}')
    || c == '\U{2028}' || c == '\U{2029}' || c == '\U{202F}' || c == '\U{205F}'
    || c == '\U{3000}' || c == '\U{FEFF}'
  }

  predicate AllSpace(s: string) {
    forall i :: 0 <= i < |s| ==> IsSpace(s[i])
  }

  /** Number of whitespace characters at the start of `s`. */
  function LeadingSpace(s: string): (n: nat)
    ensures n <= |s| && AllSpace(s[..n])
    ensures n < |s| ==> !IsSpace(s[n])
  {
    if |s| > 0 && IsSpace(s[0]) then 1 + LeadingSpace(s[1..]) else 0
  }

  /** Number of whitespace characters at the end of `s`. */
  function TrailingSpace(s: string): (n: nat)
    ensures n <= |s| && AllSpace(s[|s| - n..])
    ensures n < |s| ==> !IsSpace(s[|s| - 1 - n])
  {
    if |s| > 0 && IsSpace(s[|s| - 1]) then 1 + TrailingSpace(s[..|s| - 1]) else 0
  }

  /** `String.prototype.trim`: `s` without its leading and trailing whitespace. */
  function Trim(s: string): (r: string)
    ensures |r| == 0 || (!IsSpace(r[0]) && !IsSpace(r[|r| - 1]))
    ensures exists a: nat, b: nat :: a <= b <= |s| && r == s[a..b] && AllSpace(s[..a]) && AllSpace(s[b..])
  {
    var a := LeadingSpace(s);
    var b := |s| - TrailingSpace(s[a..]);
    assert s[b..] == s[a..][b - a..];
    s[a..b]
  }

  /** ASCII letters are the only characters whose case this model changes. */
  function LowerChar(c: char): char {
    if 'A' <= c <= 'Z' then (c as int + 32) as char else c
  }

  /** `String.prototype.toLowerCase`, restricted to ASCII letters. */
  function ToLowerAscii(s: string): (r: string)
    ensures |r| == |s|
    ensures forall i :: 0 <= i < |s| ==> r[i] == LowerChar(s[i])
  {
    seq(|s|, i requires 0 <= i < |s| => LowerChar(s[i]))
  }

  /** `n` occurs in `s` starting at index `i`. */
  predicate OccursAt(s: string, n: string, i: nat) {
    i + |n| <= |s| && s[i..i + |n|] == n
  }

  /** `String.prototype.includes`: `n` occurs in `s` at some position. */
  predicate Includes(s: string, n: string) {
    exists i: nat :: i <= |s| && OccursAt(s, n, i)
  }

  predicate IsDigit(c: char) {
    '0' <= c <= '9'
  }

  predicate AllDigits(s: string) {
    forall i :: 0 <= i < |s| ==> IsDigit(s[i])
  }

  function DigitChar(d: nat): (c: char)
    requires d < 10
    ensures IsDigit(c)
  {
    ('0' as int + d) as char
  }

  /** The value of a string of decimal digits, as `parseInt(s, 10)` reads it. */
  function DecimalValue(s: string): (r: nat)
    requires AllDigits(s)
    ensures |s| > 0 && s[0] == '0' ==> r == DecimalValue(s[1..])
  {
    if s == [] then 0
    else
      var init := s[..|s| - 1];
      assert |s| > 1 ==> s[1..][..|s| - 2] == init[1..];
      DecimalValue(init) * 10 + (s[|s| - 1] as int - '0' as int)
  }

  /** `String(n)` for a non-negative integer: its decimal digits without leading zeros. */
  function NumberToString(n: nat): (r: string)
    ensures |r| > 0 && AllDigits(r)
    ensures |r| > 1 ==> r[0] != '0'
  {
    if n < 10 then [DigitChar(n)] else NumberToString(n / 10) + [DigitChar(n % 10)]
  }

  /** The index of the first occurrence of `c` in `s`, if any. */
  function IndexOf(s: string, c: char): (r: Option<nat>)
    ensures r.None? <==> c !in s
    ensures r.Some? ==> r.value < |s| && s[r.value] == c && c !in s[..r.value]
  {
    if s == [] then None
    else if s[0] == c then Some(0)
    else match IndexOf(s[1..], c)
      case None => None
      case Some(i) => Some(i + 1)
  }

  /**
   * `s.split(',')[1]`: the text between the first comma and the next one (or
   * the end). It is undefined exactly when there is no comma, and never holds one.
   */
  function SecondCommaField(s: string): (r: Option<string>)
    ensures r.None? <==> ',' !in s
    ensures r.Some? ==> ',' !in r.value
  {
    match IndexOf(s, ',')
    case None => None
    case Some(i) =>
      var rest := s[i + 1..];
      match IndexOf(rest, ',')
      case None => Some(rest)
      case Some(j) =>
        assert forall k :: 0 <= k < j ==> rest[..j][k] == rest[k];
        Some(rest[..j])
  }

  /** Converting a number to text and reading it back gives the number. */
  lemma {:induction false} DecimalValueOfNumberToString(n: nat)
    ensures DecimalValue(NumberToString(n)) == n
    decreases n
  {
    if n >= 10 {
      DecimalValueOfNumberToString(n / 10);
      var s := NumberToString(n);
      assert s[..|s| - 1] == NumberToString(n / 10);
    }
  }

  /** Joining a comma-free header and a comma-free field with a comma, and splitting again, gives the field back. */
  lemma SecondCommaFieldOfJoin(head: string, field: string, tail: string)
    requires ',' !in head && ',' !in field
    ensures SecondCommaField(head + "," + field) == Some(field)
    ensures SecondCommaField(head + "," + field + "," + tail) == Some(field)
  {
    var s1 := head + "," + field;
    IndexOfJoin(head, ',', field);
    assert s1[|head| + 1..] == field;
    var rest := field + "," + tail;
    var s2 := head + "," + rest;
    assert s2 == head + "," + field + "," + tail;
    IndexOfJoin(head, ',', rest);
    assert s2[|head| + 1..] == rest;
    IndexOfJoin(field, ',', tail);
    assert rest[..|field|] == field;
  }

  /** The first `c` in `a + [c] + b` is the one after `a` when `a` has none. */
  lemma {:induction false} IndexOfJoin(a: string, c: char, b: string)
    requires c !in a
    ensures IndexOf(a + [c] + b, c) == Some(|a|)
    decreases |a|
  {
    var s := a + [c] + b;
    if a != [] {
      assert s[0] == a[0];
      assert s[1..] == a[1..] + [c] + b;
      IndexOfJoin(a[1..], c, b);
    }
  }

  /** A string is found in any concatenation that has it as a middle part. */
  lemma IncludesMiddle(a: string, b: string, c: string)
    ensures Includes(a + b + c, b)
  {
    var t := a + b + c;
    assert t[|a|..|a| + |b|] == b;
    assert OccursAt(t, b, |a|);
  }

  /** Whitespace padding does not change whether a whitespace-free needle occurs. */
  lemma IncludesIgnoresPadding(s: string, a: nat, b: nat, n: string)
    requires a <= b <= |s| && AllSpace(s[..a]) && AllSpace(s[b..])
    requires |n| > 0 && forall k :: 0 <= k < |n| ==> !IsSpace(n[k])
    ensures Includes(s[a..b], n) <==> Includes(s, n)
  {
    if Includes(s[a..b], n) {
      var i: nat :| i <= b - a && OccursAt(s[a..b], n, i);
      forall k | 0 <= k < |n| ensures s[a + i..a + i + |n|][k] == n[k] {
        assert s[a..b][i..i + |n|][k] == n[k];
      }
      assert OccursAt(s, n, a + i);
    }
    if Includes(s, n) {
      var i: nat :| i <= |s| && OccursAt(s, n, i);
      assert s[i..i + |n|][0] == n[0];
      var last := i + |n| - 1;
      assert s[i..i + |n|][|n| - 1] == n[|n| - 1];
      assert forall k :: 0 <= k < |n| ==> s[a..b][i - a..i - a + |n|][k] == n[k];
      assert OccursAt(s[a..b], n, i - a);
    }
  }

  /** Lower-casing commutes with slicing and keeps whitespace in place. */
  lemma LowerOfSlice(s: string, a: nat, b: nat)
    requires a <= b <= |s|
    ensures ToLowerAscii(s[a..b]) == ToLowerAscii(s)[a..b]
    ensures AllSpace(s[..a]) ==> AllSpace(ToLowerAscii(s)[..a])
    ensures AllSpace(s[b..]) ==> AllSpace(ToLowerAscii(s)[b..])
  {
    if AllSpace(s[b..]) {
      forall i | 0 <= i < |s| - b ensures IsSpace(ToLowerAscii(s)[b..][i]) {
        assert s[b..][i] == s[b + i];
      }
    }
  }

  /** A whitespace-free needle occurs in the trimmed, lower-cased text exactly when it occurs in the lower-cased text. */
  lemma IncludesLowerTrim(s: string, n: string)
    requires |n| > 0 && forall k :: 0 <= k < |n| ==> !IsSpace(n[k])
    ensures Includes(ToLowerAscii(Trim(s)), n) <==> Includes(ToLowerAscii(s), n)
  {
    var a: nat, b: nat :| a <= b <= |s| && Trim(s) == s[a..b] && AllSpace(s[..a]) && AllSpace(s[b..]);
    LowerOfSlice(s, a, b);
    IncludesIgnoresPadding(ToLowerAscii(s), a, b, n);
  }
}

/** The parts of JavaScript's dynamic semantics that the betting core depends on:
    truthiness (`||`, `!x`), `Number(x)` and `parseFloat(x)` coercion, integer printing,
    `String.prototype.split`, `trim`, `toLowerCase` and `includes`.
    Numeric text is read with the grammar `[+|-] digits [. digits]` (at least one digit);
    see README for what of JavaScript's number syntax lies outside it. */
module Js {
  import opened Wrappers

  /** A request-body or document field as JavaScript sees it. */
  datatype Value = Undefined | Null | Bool(b: bool) | Num(n: real) | NaN | Str(s: string)

  /** JavaScript truthiness: `undefined`, `null`, `false`, `0`, `NaN` and `""` are falsy. */
  predicate Truthy(v: Value)
  {
    match v
    case Undefined => false
    case Null => false
    case Bool(b) => b
    case Num(n) => n != 0.0
    case NaN => false
    case Str(s) => |s| > 0
  }

  /** `typeof v === 'number'` (NaN included). */
  predicate IsNumber(v: Value)
  {
    v.Num? || v.NaN?
  }

  /** `Number(v)`; None is NaN. */
  function ToNum(v: Value): (r: Option<real>)
    ensures v.Num? ==> r == Some(v.n)
    ensures v.Undefined? || v.NaN? ==> r == None
    ensures v.Null? ==> r == Some(0.0)
  {
    match v
    case Undefined => None
    case Null => Some(0.0)
    case Bool(b) => Some(if b then 1.0 else 0.0)
    case Num(n) => Some(n)
    case NaN => None
    case Str(s) => ToNumber(s)
  }

  /** The JavaScript number for an optional real: None becomes NaN. */
  function FromOption(x: Option<real>): (v: Value)
    ensures ToNum(v) == x
  {
    match x
    case Some(r) => Num(r)
    case None => NaN
  }

  // ---------------------------------------------------------------- digits

  predicate IsDigit(c: char)
  {
    '0' <= c <= '9'
  }

  predicate AllDigits(s: string)
  {
    forall i :: 0 <= i < |s| ==> IsDigit(s[i])
  }

  function DigitValue(c: char): (d: nat)
    requires IsDigit(c)
    ensures d <= 9
  {
    c as int - '0' as int
  }

  function DigitChar(d: nat): (c: char)
    requires d <= 9
    ensures IsDigit(c) && DigitValue(c) == d
  {
    ('0' as int + d) as char
  }

  /** The natural number a digit string denotes. */
  function DigitsValue(s: string): nat
    requires AllDigits(s)
  {
    if |s| == 0 then 0 else DigitsValue(s[..|s| - 1]) * 10 + DigitValue(s[|s| - 1])
  }

  /** The value of the digits after a decimal point: `FracValue("25") == 0.25`. */
  function FracValue(s: string): (r: real)
    requires AllDigits(s)
    ensures 0.0 <= r <= 1.0
  {
    if |s| == 0 then 0.0 else (DigitValue(s[0]) as real + FracValue(s[1..])) / 10.0
  }

  /** The length of the longest all-digit prefix. */
  function DigitRun(s: string): (n: nat)
    ensures n <= |s|
    ensures AllDigits(s[..n])
    ensures n < |s| ==> !IsDigit(s[n])
  {
    if |s| == 0 || !IsDigit(s[0]) then 0
    else
      var n := 1 + DigitRun(s[1..]);
      assert s[..n] == [s[0]] + s[1..][..n - 1];
      n
  }

  lemma DigitRunOfDigits(s: string)
    requires AllDigits(s)
    ensures DigitRun(s) == |s|
  {
  }

  // ---------------------------------------------------------------- Number() and parseFloat()

  /** An unsigned decimal that must span the whole text. */
  function WholeDecimal(s: string): Option<real>
  {
    var i := DigitRun(s);
    if i == |s| then
      if i == 0 then None else Some(DigitsValue(s) as real)
    else if s[i] == '.' && AllDigits(s[i + 1..]) && (i > 0 || i + 1 < |s|) then
      Some(DigitsValue(s[..i]) as real + FracValue(s[i + 1..]))
    else
      None
  }

  /** `Number(s)` for a string: the empty string is 0, malformed text is NaN (None). */
  function ToNumber(s: string): Option<real>
  {
    if |s| == 0 then Some(0.0)
    else if s[0] == '-' then
      match WholeDecimal(s[1..])
      case Some(v) => Some(-v)
      case None => None
    else if s[0] == '+' then WholeDecimal(s[1..])
    else WholeDecimal(s)
  }

  /** An unsigned decimal read from the front of the text, ignoring what follows it. */
  function DecimalPrefix(s: string): Option<real>
  {
    var i := DigitRun(s);
    if i < |s| && s[i] == '.' then
      var j := DigitRun(s[i + 1..]);
      if i + j == 0 then None
      else Some(DigitsValue(s[..i]) as real + FracValue(s[i + 1..][..j]))
    else if i == 0 then None
    else Some(DigitsValue(s[..i]) as real)
  }

  /** `parseFloat(s)`: the longest numeric prefix; NaN (None) when there is none. */
  function ParseFloat(s: string): Option<real>
  {
    if |s| == 0 then None
    else if s[0] == '-' then
      match DecimalPrefix(s[1..])
      case Some(v) => Some(-v)
      case None => None
    else if s[0] == '+' then DecimalPrefix(s[1..])
    else DecimalPrefix(s)
  }

  /** `parseFloat(v)` for any value: a number reads back as itself, a string is parsed,
      everything else is NaN. */
  function ParseFloatValue(v: Value): (r: Option<real>)
    ensures v.Num? ==> r == Some(v.n)
  {
    match v
    case Num(n) => Some(n)
    case Str(s) => ParseFloat(s)
    case _ => None
  }

  lemma WholeDecimalIsPrefix(s: string)
    requires WholeDecimal(s).Some?
    ensures DecimalPrefix(s) == WholeDecimal(s)
  {
    var i := DigitRun(s);
    if i < |s| {
      var t := s[i + 1..];
      DigitRunOfDigits(t);
      assert t[..DigitRun(t)] == t;
    } else {
      assert s[..i] == s;
    }
  }

  /** Text that `Number` accepts (other than the empty string) is read identically by
      `parseFloat`. */
  lemma ToNumberAgreesWithParseFloat(s: string)
    requires |s| > 0 && ToNumber(s).Some?
    ensures ParseFloat(s) == ToNumber(s)
  {
    if s[0] == '-' || s[0] == '+' {
      WholeDecimalIsPrefix(s[1..]);
    } else {
      WholeDecimalIsPrefix(s);
    }
  }

  // ---------------------------------------------------------------- printing integers

  function NatToString(n: nat): (s: string)
    ensures |s| > 0 && AllDigits(s)
  {
    if n < 10 then [DigitChar(n)] else NatToString(n / 10) + [DigitChar(n % 10)]
  }

  /** `String(i)` for an integer. */
  function IntToString(i: int): (s: string)
    ensures |s| > 0
  {
    if i < 0 then "-" + NatToString(-i) else NatToString(i)
  }

  lemma {:induction false} NatToStringValue(n: nat)
    ensures DigitsValue(NatToString(n)) == n
  {
    if n >= 10 {
      var s := NatToString(n);
      var pre := NatToString(n / 10);
      assert s[..|s| - 1] == pre;
      NatToStringValue(n / 10);
    }
  }

  /** Printing an integer and reading it back with `Number` is the identity. */
  lemma IntToStringRoundTrip(i: int)
    ensures ToNumber(IntToString(i)) == Some(i as real)
  {
    var n: nat := if i < 0 then -i else i;
    var t := NatToString(n);
    NatToStringValue(n);
    DigitRunOfDigits(t);
    if i < 0 {
      assert IntToString(i)[1..] == t;
    }
  }

  // ---------------------------------------------------------------- strings

  /** `s.split(sep)` for a one-character separator. */
  function Split(s: string, sep: char): (parts: seq<string>)
    ensures |parts| >= 1
  {
    if |s| == 0 then [""]
    else if s[0] == sep then [""] + Split(s[1..], sep)
    else
      var rest := Split(s[1..], sep);
      [[s[0]] + rest[0]] + rest[1..]
  }

  /** `parts.join(sep)`. */
  function Join(parts: seq<string>, sep: char): string
    requires |parts| >= 1
  {
    if |parts| == 1 then parts[0] else parts[0] + [sep] + Join(parts[1..], sep)
  }

  function Count(s: string, c: char): nat
  {
    if |s| == 0 then 0 else (if s[0] == c then 1 else 0) + Count(s[1..], c)
  }

  /** Splitting and joining with the same separator gives the text back. */
  lemma {:induction false} JoinSplit(s: string, sep: char)
    ensures Join(Split(s, sep), sep) == s
  {
    if |s| > 0 {
      JoinSplit(s[1..], sep);
      var rest := Split(s[1..], sep);
      if s[0] != sep && |rest| > 1 {
        assert ([[s[0]] + rest[0]] + rest[1..])[1..] == rest[1..];
      }
    }
  }

  /** There is one more part than there are separators, and no part holds a separator. */
  lemma {:induction false} SplitShape(s: string, sep: char)
    ensures |Split(s, sep)| == Count(s, sep) + 1
    ensures forall k :: 0 <= k < |Split(s, sep)| ==> sep !in Split(s, sep)[k]
  {
    if |s| > 0 {
      SplitShape(s[1..], sep);
    }
  }

  /** Text without the separator is a single part. */
  lemma {:induction false} SplitWithoutSeparator(s: string, sep: char)
    requires sep !in s
    ensures Split(s, sep) == [s]
  {
    if |s| > 0 {
      assert sep !in s[1..];
      SplitWithoutSeparator(s[1..], sep);
      assert [s[0]] + s[1..] == s;
    }
  }

  /** Splitting at the first separator peels off the text before it. */
  lemma {:induction false} SplitAtFirst(a: string, b: string, sep: char)
    requires sep !in a
    ensures Split(a + [sep] + b, sep) == [a] + Split(b, sep)
  {
    var s := a + [sep] + b;
    if |a| == 0 {
      assert s[1..] == b;
    } else {
      assert s[1..] == a[1..] + [sep] + b;
      assert sep !in a[1..];
      SplitAtFirst(a[1..], b, sep);
      assert [a[0]] + a[1..] == a;
    }
  }

  /** Printed integers hold only digits and a leading minus sign. */
  lemma IntToStringChars(i: int, c: char)
    requires c != '-' && !IsDigit(c)
    ensures c !in IntToString(i)
  {
    var t := NatToString(if i < 0 then -i else i);
    assert c !in t;
  }

  /** `s.toLowerCase()` on ASCII letters. */
  function Lower(s: string): (r: string)
    ensures |r| == |s|
  {
    if |s| == 0 then ""
    else [if 'A' <= s[0] <= 'Z' then (s[0] as int + 32) as char else s[0]] + Lower(s[1..])
  }

  /** The characters `String.prototype.trim` removes: the white space and line terminator
      characters of section 12.2 and 12.3 of ECMA-262. */
  predicate IsWhitespace(c: char)
  {
    || c == ' ' || c == '\t' || c == '\n' || c == '\U{B}' || c == '\U{C}' || c == '\r'
    || c == '\U{A0}' || c == '\U{1680}' || ('\U{2000}' <= c <= '\U{200A}') || c == '\U{2028}'
    || c == '\U{2029}' || c == '\U{202F}' || c == '\U{205F}' || c == '\U{3000}' || c == '\U{FEFF}'
  }

  /** Neither end is white space. */
  predicate IsTrimmed(s: string)
  {
    |s| == 0 || (!IsWhitespace(s[0]) && !IsWhitespace(s[|s| - 1]))
  }

  /** The first index from `i` on that is not white space, or `|s|`. */
  function SkipWhitespace(s: string, i: nat): (n: nat)
    requires i <= |s|
    ensures i <= n <= |s| && forall k :: i <= k < n ==> IsWhitespace(s[k])
    ensures n < |s| ==> !IsWhitespace(s[n])
    decreases |s| - i
  {
    if i < |s| && IsWhitespace(s[i]) then SkipWhitespace(s, i + 1) else i
  }

  /** The last index `n`, from `lo` up to `j`, below which `s[lo..j]` has no trailing white
      space. */
  function BackWhitespace(s: string, lo: nat, j: nat): (n: nat)
    requires lo <= j <= |s|
    ensures lo <= n <= j && forall k :: n <= k < j ==> IsWhitespace(s[k])
    ensures n > lo ==> !IsWhitespace(s[n - 1])
  {
    if j > lo && IsWhitespace(s[j - 1]) then BackWhitespace(s, lo, j - 1) else j
  }

  /** How much leading white space `s` has. */
  function LeadingWhitespace(s: string): (n: nat)
    ensures n <= |s| && forall k :: 0 <= k < n ==> IsWhitespace(s[k])
    ensures n < |s| ==> !IsWhitespace(s[n])
  {
    SkipWhitespace(s, 0)
  }

  /** `s.trim()`: the middle part of `s` after its leading white space, with white space on
      neither end; text already trimmed comes back unchanged. */
  function Trim(s: string): (r: string)
    ensures IsTrimmed(r)
    ensures var i := LeadingWhitespace(s);
            && i + |r| <= |s| && r == s[i..i + |r|]
            && forall k :: i + |r| <= k < |s| ==> IsWhitespace(s[k])
    ensures r == s <==> IsTrimmed(s)
  {
    var i := LeadingWhitespace(s);
    var j := BackWhitespace(s, i, |s|);
    assert j > i ==> s[i..j][0] == s[i] && s[i..j][j - i - 1] == s[j - 1];
    assert IsTrimmed(s) ==> i == 0 && j == |s|;
    s[i..j]
  }

  /** `s.includes(sub)`. */
  predicate Contains(s: string, sub: string)
    decreases |s|
  {
    if |s| < |sub| then false
    else s[..|sub|] == sub || (|s| > 0 && Contains(s[1..], sub))
  }
  // ---------------------------------------------------------------- comparisons with a number

  /** `v < c` for a number `c`: `v` is coerced with `Number(...)`, and NaN compares false. */
  predicate LessThan(v: Value, c: real)
  {
    var n := ToNum(v);
    n.Some? && n.value < c
  }

  /** `v > c` for a number `c`, with the same coercion. */
  predicate GreaterThan(v: Value, c: real)
  {
    var n := ToNum(v);
    n.Some? && n.value > c
  }

  /** `Number.isInteger(v)`: only a finite whole number qualifies; nothing is coerced. */
  predicate IsInteger(v: Value)
  {
    v.Num? && v.n == v.n.Floor as real
  }

  // ---------------------------------------------------------------- objects

  /** Some pair of the list has the key. */
  predicate HasKey<V>(pairs: seq<(string, V)>, key: string)
  {
    exists k :: 0 <= k < |pairs| && pairs[k].0 == key
  }

  /** No key occurs twice, as in the entry list of an object. */
  predicate DistinctKeys<V>(pairs: seq<(string, V)>)
  {
    forall i, j :: 0 <= i < j < |pairs| ==> pairs[i].0 != pairs[j].0
  }

  /** `o[key]` on an object written as its key/value pairs in order: the value of the last
      pair with that key, since a later key overwrites an earlier one, or None when the
      key is absent. */
  function Get<V>(pairs: seq<(string, V)>, key: string): (r: Option<V>)
    ensures r.None? <==> !HasKey(pairs, key)
    ensures r.Some? ==> exists k :: 0 <= k < |pairs| && pairs[k] == (key, r.value)
                                    && forall k' :: k < k' < |pairs| ==> pairs[k'].0 != key
  {
    if |pairs| == 0 then None
    else if pairs[|pairs| - 1].0 == key then Some(pairs[|pairs| - 1].1)
    else
      var r := Get(pairs[..|pairs| - 1], key);
      assert forall k :: 0 <= k < |pairs| - 1 ==> pairs[..|pairs| - 1][k] == pairs[k];
      r
  }

  /** A pair with no later pair of the same key is the one `Get` reads. */
  lemma GetIsLast<V>(pairs: seq<(string, V)>, k: nat)
    requires k < |pairs|
    requires forall k' :: k < k' < |pairs| ==> pairs[k'].0 != pairs[k].0
    ensures Get(pairs, pairs[k].0) == Some(pairs[k].1)
  {
    var r := Get(pairs, pairs[k].0);
    var j :| 0 <= j < |pairs| && pairs[j] == (pairs[k].0, r.value)
             && forall k' :: j < k' < |pairs| ==> pairs[k'].0 != pairs[k].0;
    assert !(j < k) && !(k < j);
  }

  /** `o[key] = value` on an object listed as its entries: an existing key keeps its
      place and takes the new value, a new key is appended at the end. */
  function Put<V>(o: seq<(string, V)>, key: string, value: V): (r: seq<(string, V)>)
    ensures Get(r, key) == Some(value)
    ensures forall n :: n != key ==> Get(r, n) == Get(o, n)
    ensures HasKey(o, key) ==> |r| == |o| && forall i :: 0 <= i < |o| ==> r[i].0 == o[i].0
    ensures !HasKey(o, key) ==> r == o + [(key, value)]
    ensures DistinctKeys(o) ==> DistinctKeys(r)
  {
    if HasKey(o, key) then
      var r := seq(|o|, i requires 0 <= i < |o| => if o[i].0 == key then (key, value) else o[i]);
      PutSets(o, key, value, r);
      forall n | n != key
        ensures Get(r, n) == Get(o, n)
      {
        PutKeeps(o, key, r, n);
      }
      r
    else
      var r := o + [(key, value)];
      GetIsLast(r, |o|);
      forall n | n != key
        ensures Get(r, n) == Get(o, n)
      {
        PutKeeps(o, key, r, n);
      }
      r
  }

  /** A list whose every pair of `key` is `(key, value)` reads `value` under `key`. */
  lemma PutSets<V>(o: seq<(string, V)>, key: string, value: V, r: seq<(string, V)>)
    requires HasKey(o, key) && |r| == |o|
    requires forall i :: 0 <= i < |o| ==> if o[i].0 == key then r[i] == (key, value) else r[i] == o[i]
    ensures Get(r, key) == Some(value)
  {
    var i :| 0 <= i < |o| && o[i].0 == key;
    assert r[i].0 == key;
    var k :| 0 <= k < |r| && r[k] == (key, Get(r, key).value);
    assert r[k] == (key, value);
  }

  /** A key other than `key` reads the same through either list when the two agree, place
      by place, on every pair of another key and `r` adds at most one pair, of `key`. */
  lemma PutKeeps<V>(o: seq<(string, V)>, key: string, r: seq<(string, V)>, n: string)
    requires |o| <= |r| <= |o| + 1 && n != key
    requires forall i :: 0 <= i < |o| ==> if o[i].0 == key then r[i].0 == key else r[i] == o[i]
    requires |r| == |o| + 1 ==> r[|o|].0 == key
    ensures Get(r, n) == Get(o, n)
  {
    if HasKey(o, n) {
      var v := Get(o, n).value;
      var k :| 0 <= k < |o| && o[k] == (n, v) && forall k' :: k < k' < |o| ==> o[k'].0 != n;
      assert forall k' :: k < k' < |r| ==> r[k'].0 != n;
      GetIsLast(r, k);
    } else {
      assert forall i :: 0 <= i < |r| ==> r[i].0 != n;
    }
  }

  /** The object that key/value pairs build in order (a JSON body, say): each key once,
      in the place of its first occurrence, with the value of its last. JavaScript lists
      integer-like keys first; nothing modelled with this depends on the order. */
  function Entries<V>(pairs: seq<(string, V)>): (o: seq<(string, V)>)
    ensures DistinctKeys(o)
    ensures forall n :: Get(o, n) == Get(pairs, n)
  {
    if |pairs| == 0 then []
    else
      var last := pairs[|pairs| - 1];
      Put(Entries(pairs[..|pairs| - 1]), last.0, last.1)
  }

  /** Pairs with distinct keys already are the object's entry list. */
  lemma {:induction false} EntriesOfDistinct<V>(pairs: seq<(string, V)>)
    requires DistinctKeys(pairs)
    ensures Entries(pairs) == pairs
  {
    if |pairs| > 0 {
      var init := pairs[..|pairs| - 1];
      EntriesOfDistinct(init);
      assert !HasKey(init, pairs[|pairs| - 1].0);
      assert init + [pairs[|pairs| - 1]] == pairs;
    }
  }

  /** In an entry list with distinct keys, `o[key] = value` for a key present rewrites
      exactly one place. */
  lemma PutReplaces<V>(o: seq<(string, V)>, key: string, value: V) returns (i: nat)
    requires DistinctKeys(o) && HasKey(o, key)
    ensures i < |o| && o[i].0 == key && Put(o, key, value) == o[i := (key, value)]
  {
    i :| 0 <= i < |o| && o[i].0 == key;
    assert forall j :: 0 <= j < |o| && j != i ==> o[j].0 != key;
  }

  /** Removing one entry of an object keeps the keys distinct and drops the removed key. */
  lemma RemoveDistinct<V>(b: seq<(string, V)>, j: nat)
    requires DistinctKeys(b) && j < |b|
    ensures DistinctKeys(b[..j] + b[j + 1..]) && !HasKey(b[..j] + b[j + 1..], b[j].0)
  {
    var r := b[..j] + b[j + 1..];
    assert forall m :: 0 <= m < |r| ==> r[m] == if m < j then b[m] else b[m + 1];
  }

  /** Removing one entry of an object leaves every other key reading as before. */
  lemma RemoveKeeps<V>(b: seq<(string, V)>, j: nat, n: string)
    requires DistinctKeys(b) && j < |b| && n != b[j].0
    ensures Get(b[..j] + b[j + 1..], n) == Get(b, n)
  {
    var r := b[..j] + b[j + 1..];
    assert forall m :: 0 <= m < |r| ==> r[m] == b[if m < j then m else m + 1];
    ShiftedKeeps(b, r, j, n);
  }

  /** The list `r`, which is `b` without place j, reads every other key as `b` does. */
  lemma ShiftedKeeps<V>(b: seq<(string, V)>, r: seq<(string, V)>, j: nat, n: string)
    requires DistinctKeys(b) && j < |b| && n != b[j].0 && |r| == |b| - 1
    requires forall m :: 0 <= m < |r| ==> r[m] == b[if m < j then m else m + 1]
    ensures Get(r, n) == Get(b, n)
  {
    if HasKey(b, n) {
      var k :| 0 <= k < |b| && b[k].0 == n;
      GetIsLast(b, k);
      ShiftedIsLast(b, r, j, k);
    } else {
      assert !HasKey(r, n);
    }
  }

  /** The list `r`, which is `b` without place j, reads entry k of `b` under its key. */
  lemma ShiftedIsLast<V>(b: seq<(string, V)>, r: seq<(string, V)>, j: nat, k: nat)
    requires DistinctKeys(b) && j < |b| && k < |b| && k != j && |r| == |b| - 1
    requires forall m :: 0 <= m < |r| ==> r[m] == b[if m < j then m else m + 1]
    ensures Get(r, b[k].0) == Some(b[k].1)
  {
    var k' := if k < j then k else k - 1;
    assert r[k'] == b[k];
    GetIsLast(r, k');
  }
}

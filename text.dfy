/** Character classes and the string primitives the form component relies on:
    filtering by a character class (the `replace(/\D/g, '')` idiom), clamped
    prefixes and suffixes (JavaScript `substring`), insertion of one separator,
    substring search and ASCII lower-casing. */
module Text {

  /** A value that may be absent: a chosen file, a previous text, a nullable column. */
  datatype Option<T> = None | Some(value: T)

  /** A decimal digit as `\d` matches it without the Unicode flag: 0-9 only. */
  predicate IsDigit(c: char) {
    '0' <= c <= '9'
  }

  /** A hexadecimal digit in either case. */
  predicate IsHex(c: char) {
    IsDigit(c) || 'a' <= c <= 'f' || 'A' <= c <= 'F'
  }

  /** The character classes a mask keeps. */
  datatype CharClass = Decimal | Hexadecimal

  predicate Keeps(cls: CharClass, c: char) {
    match cls
    case Decimal => IsDigit(c)
    case Hexadecimal => IsHex(c)
  }

  predicate AllKept(cls: CharClass, s: string) {
    forall i :: 0 <= i < |s| ==> Keeps(cls, s[i])
  }

  /** The characters of `s` of class `cls`, in order. */
  function Filter(cls: CharClass, s: string): (r: string)
    ensures |r| <= |s|
    ensures AllKept(cls, r)
  {
    if s == [] then []
    else (if Keeps(cls, s[0]) then [s[0]] else []) + Filter(cls, s[1..])
  }

  /** `value.replace(/\D/g, '')`: only the decimal digits of `s`. */
  function Digits(s: string): string {
    Filter(Decimal, s)
  }

  /** `value.replace(/[^0-9a-fA-F]/g, '')`: only the hexadecimal digits of `s`. */
  function HexDigits(s: string): string {
    Filter(Hexadecimal, s)
  }

  lemma {:induction false} FilterAppend(cls: CharClass, a: string, b: string)
    ensures Filter(cls, a + b) == Filter(cls, a) + Filter(cls, b)
  {
    if a == [] {
      assert a + b == b;
    } else {
      var head := if Keeps(cls, a[0]) then [a[0]] else [];
      assert (a + b)[0] == a[0];
      assert (a + b)[1..] == a[1..] + b;
      calc {
        Filter(cls, a + b);
        head + Filter(cls, a[1..] + b);
        { FilterAppend(cls, a[1..], b); }
        head + (Filter(cls, a[1..]) + Filter(cls, b));
        (head + Filter(cls, a[1..])) + Filter(cls, b);
        Filter(cls, a) + Filter(cls, b);
      }
    }
  }

  /** Filtering a string that is already of the class changes nothing. */
  lemma {:induction false} FilterKept(cls: CharClass, s: string)
    requires AllKept(cls, s)
    ensures Filter(cls, s) == s
  {
    if s != [] {
      FilterKept(cls, s[1..]);
    }
  }

  /** Filtering a string with no character of the class leaves nothing. */
  lemma {:induction false} FilterNone(cls: CharClass, s: string)
    requires forall i :: 0 <= i < |s| ==> !Keeps(cls, s[i])
    ensures Filter(cls, s) == []
  {
    if s != [] {
      FilterNone(cls, s[1..]);
    }
  }

  /** Removing one character outside the class does not change the filtered text. */
  lemma FilterSkip(cls: CharClass, s: string, i: nat)
    requires i < |s| && !Keeps(cls, s[i])
    ensures Filter(cls, s[..i] + s[i + 1..]) == Filter(cls, s)
  {
    assert s == s[..i] + [s[i]] + s[i + 1..];
    FilterAppend(cls, s[..i] + [s[i]], s[i + 1..]);
    FilterAppend(cls, s[..i], [s[i]]);
    FilterAppend(cls, s[..i], s[i + 1..]);
  }

  function Min(a: int, b: int): int {
    if a <= b then a else b
  }

  /** `s.substring(0, n)`: the first `n` characters, or all of `s` if shorter. */
  function Prefix(s: string, n: nat): (r: string)
    ensures |r| == Min(n, |s|)
  {
    s[..Min(n, |s|)]
  }

  /** `s.substring(n)`: what follows the first `n` characters. */
  function Drop(s: string, n: nat): (r: string)
    ensures |r| == |s| - Min(n, |s|)
  {
    s[Min(n, |s|)..]
  }

  /** Cutting at `n` splits the text: the prefix starts the text, is all of
      it once `n` reaches its length, and the rest follows it. */
  lemma PrefixDropSplit(s: string, n: nat)
    ensures Prefix(s, n) <= s
    ensures |s| <= n ==> Prefix(s, n) == s
    ensures Prefix(s, n) + Drop(s, n) == s
  {
  }

  /** `s.substring(from, to)` for `from <= to`: indices are clamped to the length. */
  function Substring(s: string, from: nat, to: nat): string
    requires from <= to
  {
    s[Min(from, |s|)..Min(to, |s|)]
  }

  /** One step of the masks: when `s` is longer than `p`, put `c` at index `p`. */
  function InsertAt(s: string, p: nat, c: char): (r: string)
    ensures |s| > p ==> |r| == |s| + 1 && r[p] == c
    ensures |s| <= p ==> r == s
  {
    if |s| > p then s[..p] + [c] + s[p..] else s
  }

  /** Inserting inside a string splits it at the insertion point. */
  lemma InsertAtSplit(a: string, b: string, c: char)
    requires b != []
    ensures InsertAt(a + b, |a|, c) == a + [c] + b
  {
    assert (a + b)[..|a|] == a && (a + b)[|a|..] == b;
  }

  /** Inserting past a leading block leaves that block alone. */
  lemma InsertAtBehind(a: string, b: string, p: nat, c: char)
    requires |a| <= p
    ensures InsertAt(a + b, p, c) == a + InsertAt(b, p - |a|, c)
  {
    if |a + b| > p {
      var q := p - |a|;
      assert (a + b)[..p] == a + b[..q];
      assert (a + b)[p..] == b[q..];
      assert InsertAt(b, q, c) == b[..q] + [c] + b[q..];
      assert a + b[..q] + [c] + b[q..] == a + (b[..q] + [c] + b[q..]);
    } else {
      assert InsertAt(b, p - |a|, c) == b;
    }
  }

  lemma PrefixBehind(a: string, b: string, n: nat)
    requires |a| <= n
    ensures Prefix(a + b, n) == a + Prefix(b, n - |a|)
  {
    assert (a + b)[..|a| + Min(n - |a|, |b|)] == a + b[..Min(n - |a|, |b|)];
  }

  lemma PrefixDrop(s: string, a: nat, b: nat)
    ensures Prefix(s, a) + Prefix(Drop(s, a), b) == Prefix(s, a + b)
  {
  }

  /** `s.includes(sub)`. */
  function Contains(s: string, sub: string): bool
    decreases |s|
  {
    if |s| < |sub| then false
    else s[..|sub|] == sub || Contains(s[1..], sub)
  }

  /** `s.toLowerCase()` restricted to the ASCII letters. */
  function Lower(s: string): (r: string)
    ensures |r| == |s|
  {
    if s == [] then []
    else [if 'A' <= s[0] <= 'Z' then (s[0] as int + 32) as char else s[0]] + Lower(s[1..])
  }

  /** Lower-casing twice is lower-casing once. */
  lemma {:induction false} LowerIdempotent(s: string)
    ensures Lower(Lower(s)) == Lower(s)
  {
    if s != [] {
      LowerIdempotent(s[1..]);
      assert Lower(s)[1..] == Lower(s[1..]);
    }
  }

  function DigitChar(n: nat): char
    requires n < 10
  {
    ('0' as int + n) as char
  }

  /** The decimal text of a natural number, as template literals print it. */
  function NatText(n: nat): (r: string)
    ensures r != [] && AllKept(Decimal, r)
  {
    if n < 10 then [DigitChar(n)] else NatText(n / 10) + [DigitChar(n % 10)]
  }

  /** The decimal text of an integer. */
  function IntText(n: int): string {
    if n < 0 then "-" + NatText(-n) else NatText(n)
  }
}

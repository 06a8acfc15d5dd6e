/** String operations the modelled code takes from the JavaScript library, and the laws used about them. */
module Text {

  datatype Option<+T> = None | Some(value: T)

  predicate StartsWith(s: string, p: string) {
    p <= s
  }

  predicate EndsWith(s: string, p: string) {
    |p| <= |s| && s[|s| - |p|..] == p
  }

  /** The text m stands in s at position i. */
  predicate OccursAt(s: string, m: string, i: int) {
    0 <= i && i + |m| <= |s| && s[i..i + |m|] == m
  }

  predicate Includes(s: string, m: string) {
    exists i :: 0 <= i <= |s| && OccursAt(s, m, i)
  }

  /** `indexOf`: the first position at or after `from` where m stands, or -1. */
  function IndexFrom(s: string, m: string, from: nat): (r: int)
    requires from <= |s|
    ensures r == -1 || from <= r <= |s| - |m|
    decreases |s| - from
  {
    if OccursAt(s, m, from) then from
    else if from == |s| then -1
    else IndexFrom(s, m, from + 1)
  }

  function IndexOf(s: string, m: string): int {
    IndexFrom(s, m, 0)
  }

  /** m stands in s at i, and nowhere before. */
  ghost predicate First(s: string, m: string, i: int) {
    OccursAt(s, m, i) && forall j :: j < i ==> !OccursAt(s, m, j)
  }

  lemma {:induction false} IndexFromFinds(s: string, m: string, from: nat)
    requires from <= |s|
    ensures var r := IndexFrom(s, m, from);
            if r == -1 then forall i :: from <= i ==> !OccursAt(s, m, i)
            else from <= r && OccursAt(s, m, r) && forall i :: from <= i < r ==> !OccursAt(s, m, i)
    decreases |s| - from
  {
    if !OccursAt(s, m, from) && from < |s| {
      IndexFromFinds(s, m, from + 1);
    }
  }

  /** `indexOf` returns exactly the first position, if there is one. */
  lemma IndexOfIsFirst(s: string, m: string, i: int)
    ensures First(s, m, i) <==> IndexOf(s, m) == i && i != -1
    ensures IndexOf(s, m) == -1 ==> !OccursAt(s, m, i)
  {
    IndexFromFinds(s, m, 0);
  }

  /** `replaceAll` of one character. */
  function ReplaceChar(s: string, c: char, esc: string): string {
    if s == [] then []
    else (if s[0] == c then esc else [s[0]]) + ReplaceChar(s[1..], c, esc)
  }

  lemma {:induction false} ReplaceCharConcat(a: string, b: string, c: char, esc: string)
    ensures ReplaceChar(a + b, c, esc) == ReplaceChar(a, c, esc) + ReplaceChar(b, c, esc)
  {
    if a == [] {
      assert a + b == b;
    } else {
      ReplaceCharConcat(a[1..], b, c, esc);
      assert (a + b)[1..] == a[1..] + b;
      ConcatAssoc(if a[0] == c then esc else [a[0]], ReplaceChar(a[1..], c, esc), ReplaceChar(b, c, esc));
    }
  }

  // ---------- split and join on one separator character ----------

  /** The pieces when one character is put in front of a text. */
  function SplitMore(c: char, rest: seq<string>, sep: char): seq<string>
    requires rest != []
  {
    if c == sep then [[]] + rest else [[c] + rest[0]] + rest[1..]
  }

  function Split(s: string, sep: char): (parts: seq<string>)
    ensures |parts| >= 1
    ensures forall p :: p in parts ==> sep !in p
  {
    if s == [] then [[]]
    else SplitMore(s[0], Split(s[1..], sep), sep)
  }

  function Join(parts: seq<string>, sep: char): string {
    if parts == [] then []
    else if |parts| == 1 then parts[0]
    else parts[0] + [sep] + Join(parts[1..], sep)
  }

  lemma {:induction false} JoinSplit(s: string, sep: char)
    ensures Join(Split(s, sep), sep) == s
  {
    if s != [] {
      JoinSplit(s[1..], sep);
      var rest := Split(s[1..], sep);
      if s[0] == sep {
        assert Split(s, sep)[1..] == rest;
      } else {
        assert Split(s, sep)[1..] == rest[1..];
      }
    }
  }

  lemma {:induction false} SplitSingle(s: string, sep: char)
    requires sep !in s
    ensures Split(s, sep) == [s]
  {
    if s != [] {
      SplitSingle(s[1..], sep);
      assert s == [s[0]] + s[1..];
    }
  }

  lemma SplitMoreConcat(c: char, left: seq<string>, right: seq<string>, sep: char)
    requires left != []
    ensures SplitMore(c, left + right, sep) == SplitMore(c, left, sep) + right
  {
    assert (left + right)[1..] == left[1..] + right;
  }

  /** Splitting at one separator in the middle splits the two halves. */
  lemma {:induction false} SplitConcat(a: string, b: string, sep: char)
    ensures Split(a + [sep] + b, sep) == Split(a, sep) + Split(b, sep)
  {
    var s := a + [sep] + b;
    if a == [] {
      assert s[1..] == b;
    } else {
      SplitConcat(a[1..], b, sep);
      assert s[1..] == a[1..] + [sep] + b;
      SplitMoreConcat(a[0], Split(a[1..], sep), Split(b, sep), sep);
    }
  }

  lemma {:induction false} SplitJoin(parts: seq<string>, sep: char)
    requires parts != []
    requires forall p :: p in parts ==> sep !in p
    ensures Split(Join(parts, sep), sep) == parts
  {
    SplitSingle(parts[0], sep);
    if |parts| > 1 {
      SplitJoin(parts[1..], sep);
      SplitConcat(parts[0], Join(parts[1..], sep), sep);
      assert parts == [parts[0]] + parts[1..];
    }
  }

  lemma ConcatAssoc<T>(a: seq<T>, b: seq<T>, c: seq<T>)
    ensures a + b + c == a + (b + c)
  {
  }

  // ---------- trim ----------

  /** White space and line terminators, as `String.prototype.trim` removes them. */
  predicate IsSpace(c: char) {
    '\t' <= c <= '\r' || c == ' ' || c == '\U{A0}' || c == '\U{1680}' || '\U{2000}' <= c <= '\U{200A}'
    || c == '\U{2028}' || c == '\U{2029}' || c == '\U{202F}' || c == '\U{205F}' || c == '\U{3000}'
    || c == '\U{FEFF}'
  }

  function TrimStart(s: string): string {
    if s != [] && IsSpace(s[0]) then TrimStart(s[1..]) else s
  }

  function TrimEnd(s: string): string {
    if s != [] && IsSpace(s[|s| - 1]) then TrimEnd(s[..|s| - 1]) else s
  }

  function Trim(s: string): string {
    TrimEnd(TrimStart(s))
  }

  predicate Trimmed(s: string) {
    s != [] ==> !IsSpace(s[0]) && !IsSpace(s[|s| - 1])
  }

  lemma {:induction false} TrimStartEdge(s: string)
    ensures var t := TrimStart(s); t != [] ==> !IsSpace(t[0])
  {
    if s != [] && IsSpace(s[0]) {
      TrimStartEdge(s[1..]);
    }
  }

  lemma {:induction false} TrimEndEdge(s: string)
    ensures var t := TrimEnd(s); t <= s && (t != [] ==> !IsSpace(t[|t| - 1]))
  {
    if s != [] && IsSpace(s[|s| - 1]) {
      TrimEndEdge(s[..|s| - 1]);
    }
  }

  /** A trimmed text has no space at either edge, and trimming it again changes nothing. */
  lemma TrimIsTrimmed(s: string)
    ensures Trimmed(Trim(s)) && Trim(Trim(s)) == Trim(s)
  {
    TrimStartEdge(s);
    TrimEndEdge(TrimStart(s));
  }

  // ---------- decimal numbers ----------

  predicate IsDigit(c: char) {
    '0' <= c <= '9'
  }

  function DigitChar(d: nat): char
    requires d < 10
  {
    (d as char) + '0'
  }

  /** A number in base ten, without leading zeros. */
  function Decimal(n: nat): (s: string)
    ensures s != [] && forall c :: c in s ==> IsDigit(c)
  {
    if n < 10 then [DigitChar(n)] else Decimal(n / 10) + [DigitChar(n % 10)]
  }

  function DigitOf(c: char): nat
    requires IsDigit(c)
  {
    c as int - '0' as int
  }

  function DigitsValue(s: string): nat
    requires forall c :: c in s ==> IsDigit(c)
  {
    if s == [] then 0 else DigitsValue(s[..|s| - 1]) * 10 + DigitOf(s[|s| - 1])
  }

  lemma {:induction false} DecimalReadsBack(n: nat)
    ensures DigitsValue(Decimal(n)) == n
  {
    var s := Decimal(n);
    assert DigitOf(DigitChar(n % 10)) == n % 10;
    if n >= 10 {
      DecimalReadsBack(n / 10);
      assert s[..|s| - 1] == Decimal(n / 10);
    } else {
      assert s[..0] == [];
    }
  }

  lemma DecimalInjective(m: nat, n: nat)
    requires Decimal(m) == Decimal(n)
    ensures m == n
  {
    DecimalReadsBack(m);
    DecimalReadsBack(n);
  }
}

/** Shared vocabulary: optional and failing results, and the identifier grammars that several
    components of the room must agree on. */
module Common {

  datatype Option<+T> = None | Some(value: T)

  datatype Result<+T, +E> = Ok(value: T) | Err(error: E)

  predicate Lower(c: char) { 'a' <= c <= 'z' }

  predicate Digit(c: char) { '0' <= c <= '9' }

  predicate HexLower(c: char) { Digit(c) || 'a' <= c <= 'f' }

  predicate AllHex(s: string) { forall i | 0 <= i < |s| :: HexLower(s[i]) }

  // [0-9a-f]{16,64}
  predicate IsJobId(s: string) { 16 <= |s| <= 64 && AllHex(s) }

  // [0-9a-f]{64}: a SHA-256 digest or an HMAC-SHA256 signature in lowercase hexadecimal
  predicate IsDigest(s: string) { |s| == 64 && AllHex(s) }

  predicate ProviderChar(c: char) { Lower(c) || Digit(c) || c == '_' || c == '-' }

  // [a-z][a-z0-9_-]{0,63}
  predicate IsProviderId(s: string) {
    && 1 <= |s| <= 64
    && Lower(s[0])
    && forall i | 0 <= i < |s| :: ProviderChar(s[i])
  }

  // The grammars, by character code.
  lemma GrammarsAre(s: string)
    ensures var hex := forall i | 0 <= i < |s| :: 48 <= s[i] as int <= 57 || 97 <= s[i] as int <= 102;
            && (IsJobId(s) <==> 16 <= |s| <= 64 && hex)
            && (IsDigest(s) <==> |s| == 64 && hex)
    ensures IsProviderId(s)
       <==> && 1 <= |s| <= 64 && 97 <= s[0] as int <= 122
            && forall i | 0 <= i < |s| ::
                 97 <= s[i] as int <= 122 || 48 <= s[i] as int <= 57 || s[i] as int in {45, 95}
  {
  }

  // ---- bytes in hexadecimal ---------------------------------------------------------------

  type Byte = b: int | 0 <= b < 256

  function HexChar(d: nat): char requires d < 16 { if d < 10 then (48 + d) as char else (87 + d) as char }

  // bytes.hex()
  function HexText(bs: seq<Byte>): string {
    if bs == [] then "" else HexPair(bs[0]) + HexText(bs[1..])
  }

  function HexPair(b: Byte): string { [HexChar(b / 16), HexChar(b % 16)] }

  lemma {:induction false} HexTextIsHex(bs: seq<Byte>)
    ensures AllHex(HexText(bs)) && |HexText(bs)| == 2 * |bs|
  {
    if bs != [] {
      HexTextIsHex(bs[1..]);
      assert AllHex(HexPair(bs[0]));
    }
  }

  lemma HexPairOf(s: string) returns (b: Byte)
    requires |s| == 2 && AllHex(s)
    ensures HexPair(b) == s
  {
    var high := if Digit(s[0]) then s[0] as int - 48 else s[0] as int - 87;
    var low := if Digit(s[1]) then s[1] as int - 48 else s[1] as int - 87;
    b := 16 * high + low;
    assert b / 16 == high && b % 16 == low;
  }

  // Every lowercase hexadecimal text of even length is that of some bytes.
  lemma {:induction false} HexTextOf(s: string) returns (bs: seq<Byte>)
    requires AllHex(s) && |s| % 2 == 0
    ensures HexText(bs) == s && 2 * |bs| == |s|
  {
    if s == "" {
      bs := [];
    } else {
      var b := HexPairOf(s[..2]);
      var rest := HexTextOf(s[2..]);
      bs := [b] + rest;
      assert bs[1..] == rest && s == s[..2] + s[2..];
    }
  }

  predicate NoRepeats<T(==)>(s: seq<T>) { forall i, j | 0 <= i < j < |s| :: s[i] != s[j] }

  // Python's set(s)
  function Elements<T(==)>(s: seq<T>): set<T> { set x | x in s }

  function Each<T, U>(f: T -> U, s: seq<T>): (r: seq<U>)
    ensures |r| == |s|
  {
    seq(|s|, i requires 0 <= i < |s| => f(s[i]))
  }

  lemma EachEnds<T, U>(f: T -> U, s: seq<T>)
    requires s != []
    ensures Each(f, s) == [f(s[0])] + Each(f, s[1..])
    ensures Each(f, s) == Each(f, s[..|s| - 1]) + [f(s[|s| - 1])]
  {
  }

  // ---- folds ------------------------------------------------------------------------------

  function Fold<S, E>(f: (S, E) -> S, s: S, es: seq<E>): S {
    if es == [] then s else f(Fold(f, s, es[..|es| - 1]), es[|es| - 1])
  }

  ghost predicate Commutes<S(!new), E(!new)>(f: (S, E) -> S) {
    forall s, a, b :: f(f(s, a), b) == f(f(s, b), a)
  }

  function Without<E>(es: seq<E>, k: nat): seq<E>
    requires k < |es|
  {
    es[..k] + es[k + 1..]
  }

  lemma WithoutTakesOne<E>(es: seq<E>, k: nat)
    requires k < |es|
    ensures multiset(es) == multiset(Without(es, k)) + multiset{es[k]}
  {
    assert es == es[..k] + [es[k]] + es[k + 1..];
  }

  lemma BagsCancel<E>(x: multiset<E>, y: multiset<E>, e: E)
    requires x + multiset{e} == y + multiset{e}
    ensures x == y
  {
    forall t ensures x[t] == y[t] { assert (x + multiset{e})[t] == (y + multiset{e})[t]; }
  }

  // An element counts the same wherever it stands.
  lemma {:induction false} FoldPicks<S(!new), E(!new)>(f: (S, E) -> S, s: S, es: seq<E>, k: nat)
    requires Commutes(f) && k < |es|
    ensures Fold(f, s, es) == f(Fold(f, s, Without(es, k)), es[k])
  {
    var n := |es| - 1;
    if k < n {
      FoldPicks(f, s, es[..n], k);
      var rest := Without(es, k);
      assert rest[..n - 1] == Without(es[..n], k) && rest[n - 1] == es[n];
    } else {
      assert Without(es, k) == es[..n];
    }
  }

  lemma {:induction false} FoldIgnoresOrder<S(!new), E(!new)>(f: (S, E) -> S, s: S, a: seq<E>, b: seq<E>)
    requires Commutes(f) && multiset(a) == multiset(b)
    ensures Fold(f, s, a) == Fold(f, s, b)
    decreases |a|
  {
    assert |a| == |multiset(a)| == |multiset(b)| == |b|;
    if a != [] {
      var n := |a| - 1;
      assert a[n] in multiset(a);
      var k :| 0 <= k < |b| && b[k] == a[n];
      assert Without(a, n) == a[..n];
      WithoutTakesOne(a, n);
      WithoutTakesOne(b, k);
      BagsCancel(multiset(a[..n]), multiset(Without(b, k)), a[n]);
      FoldIgnoresOrder(f, s, a[..n], Without(b, k));
      FoldPicks(f, s, b, k);
    }
  }

  // ---- decimal text -----------------------------------------------------------------------

  function DigitChar(d: nat): char requires d < 10 { "0123456789"[d] }

  function DigitValue(c: char): nat requires Digit(c) { c as int - '0' as int }

  function Digits(n: nat): (s: string)
    ensures s != ""
  {
    if n < 10 then [DigitChar(n)] else Digits(n / 10) + [DigitChar(n % 10)]
  }

  // str(n)
  function Decimal(n: int): string { if n < 0 then "-" + Digits(-n) else Digits(n) }

  predicate AllDigits(s: string) { s != "" && forall i | 0 <= i < |s| :: Digit(s[i]) }

  function NatOf(s: string): nat
    requires forall i | 0 <= i < |s| :: Digit(s[i])
  {
    if s == "" then 0 else 10 * NatOf(s[..|s| - 1]) + DigitValue(s[|s| - 1])
  }

  lemma {:induction false} DigitsRoundTrip(n: nat)
    ensures AllDigits(Digits(n)) && NatOf(Digits(n)) == n
  {
    if n >= 10 {
      DigitsRoundTrip(n / 10);
      assert Digits(n)[..|Digits(n)| - 1] == Digits(n / 10);
    }
  }

  // The text reads as n, and is the shortest that does.
  predicate ReadsAs(text: string, n: int) {
    if n >= 0 then AllDigits(text) && NatOf(text) == n && (|text| > 1 ==> text[0] != '0')
    else |text| > 1 && text[0] == '-' && AllDigits(text[1..]) && NatOf(text[1..]) == -n && text[1] != '0'
  }

  lemma {:induction false} DigitsLead(n: nat)
    ensures n > 0 ==> Digits(n)[0] != '0'
  {
    if n >= 10 { DigitsLead(n / 10); }
  }

  lemma DecimalReadsBack(n: int)
    ensures ReadsAs(Decimal(n), n)
  {
    var m := if n < 0 then -n else n;
    DigitsRoundTrip(m);
    DigitsLead(m);
    if n < 0 { assert Decimal(n)[1..] == Digits(m); }
  }

  // ---- finding a separator ----------------------------------------------------------------

  // The position of the first c, or the length.
  function Find(s: string, c: char): (i: nat)
    ensures i <= |s|
    ensures i < |s| ==> s[i] == c
    ensures forall k | 0 <= k < i :: s[k] != c
  {
    if s == "" || s[0] == c then 0 else 1 + Find(s[1..], c)
  }

  // Text before a separator it does not contain is determined, and so is the text after it.
  lemma SeparatorSplits(c: char, x: string, y: string)
    requires forall i | 0 <= i < |x| :: x[i] != c
    ensures var s := x + [c] + y; Find(s, c) == |x| && s[..|x|] == x && s[|x| + 1..] == y
  {
    var s := x + [c] + y;
    assert s[|x|] == c && forall i | 0 <= i < |x| :: s[i] == x[i];
  }

  // ---- trimming and splitting -------------------------------------------------------------

  // ASCII white space, as str.strip and str.split see it.
  predicate Space(c: char) { c == ' ' || '\t' <= c <= '\r' || '\U{1C}' <= c <= '\U{1F}' }

  function TrimLeft(s: string): (r: string)
    ensures |r| <= |s|
  {
    if s != "" && Space(s[0]) then TrimLeft(s[1..]) else s
  }

  function TrimRight(s: string): string {
    if s != "" && Space(s[|s| - 1]) then TrimRight(s[..|s| - 1]) else s
  }

  // str.strip()
  function Strip(s: string): string { TrimRight(TrimLeft(s)) }

  // s.split(c)
  function Split(s: string, c: char): seq<string>
    decreases |s|
  {
    var i := Find(s, c);
    if i == |s| then [s] else [s[..i]] + Split(s[i + 1..], c)
  }

  predicate AllSpace(s: string) { forall i | 0 <= i < |s| :: Space(s[i]) }

  lemma SpaceIs(c: char)
    ensures Space(c) <==> 9 <= c as int <= 13 || 28 <= c as int <= 32
  {
  }

  lemma {:induction false} TrimLeftIs(s: string) returns (a: string)
    ensures s == a + TrimLeft(s) && AllSpace(a) && (TrimLeft(s) != "" ==> !Space(TrimLeft(s)[0]))
  {
    if s != "" && Space(s[0]) {
      a := TrimLeftIs(s[1..]);
      a := [s[0]] + a;
    } else {
      a := "";
    }
  }

  lemma {:induction false} TrimRightIs(s: string) returns (b: string)
    ensures s == TrimRight(s) + b && AllSpace(b)
    ensures TrimRight(s) != "" ==> !Space(TrimRight(s)[|TrimRight(s)| - 1]) && TrimRight(s)[0] == s[0]
  {
    if s != "" && Space(s[|s| - 1]) {
      b := TrimRightIs(s[..|s| - 1]);
      b := b + [s[|s| - 1]];
    } else {
      b := "";
    }
  }

  // Stripping takes white space off both ends and leaves none there.
  lemma StripIs(s: string) returns (a: string, b: string)
    ensures s == a + Strip(s) + b && AllSpace(a) && AllSpace(b)
    ensures Strip(s) != "" ==> !Space(Strip(s)[0]) && !Space(Strip(s)[|Strip(s)| - 1])
  {
    a := TrimLeftIs(s);
    b := TrimRightIs(TrimLeft(s));
  }

  lemma {:induction false} TrimLeftOfSpace(s: string)
    requires AllSpace(s)
    ensures TrimLeft(s) == ""
  {
    if s != "" { TrimLeftOfSpace(s[1..]); }
  }

  // Only white space strips to nothing.
  lemma BlankIff(s: string)
    ensures Strip(s) == "" <==> AllSpace(s)
  {
    if AllSpace(s) { TrimLeftOfSpace(s); }
    if Strip(s) == "" { var a, b := StripIs(s); }
  }

  // A text without white space at its ends strips to itself.
  lemma StripKeeps(s: string)
    requires s != "" && !Space(s[0]) && !Space(s[|s| - 1])
    ensures Strip(s) == s
  {
  }

  // c.join(parts)
  function Joined(parts: seq<string>, c: char): string {
    if parts == [] then "" else if |parts| == 1 then parts[0] else parts[0] + [c] + Joined(parts[1..], c)
  }

  // Splitting at c is undoing a join of parts without c.
  lemma {:induction false} SplitUndoesJoin(parts: seq<string>, c: char)
    requires parts != [] && forall p | p in parts :: c !in p
    ensures Split(Joined(parts, c), c) == parts
    decreases |parts|
  {
    assert parts[0] in parts;
    if |parts| > 1 {
      SeparatorSplits(c, parts[0], Joined(parts[1..], c));
      SplitUndoesJoin(parts[1..], c);
    }
  }

  lemma {:induction false} JoinUndoesSplit(s: string, c: char)
    ensures Split(s, c) != [] && Joined(Split(s, c), c) == s && forall p | p in Split(s, c) :: c !in p
    decreases |s|
  {
    var i := Find(s, c);
    if i < |s| {
      JoinUndoesSplit(s[i + 1..], c);
      assert s == s[..i] + [c] + s[i + 1..];
      assert Split(s, c)[1..] == Split(s[i + 1..], c);
    }
  }
}

/** Natural ordering of task file names (automation/activities/tasks.go). Strings are byte
    strings; numbers accumulate in a 64-bit signed integer and wrap around. */
module NaturalOrder {
  import opened Lexicographic

  predicate IsDigit(c: char) {
    '0' <= c <= '9'
  }

  const TWO_63: int := 0x8000_0000_0000_0000
  const TWO_64: int := 0x1_0000_0000_0000_0000

  /** Go's int on a 64-bit machine. */
  function Wrap64(n: int): int {
    (n + TWO_63) % TWO_64 - TWO_63
  }

  function Accumulate(n: int, c: char): int {
    Wrap64(n * 10 + (c as int - '0' as int))
  }

  /** Where the digit run through position `i` ends. */
  function RunEnd(s: string, i: nat): (e: nat)
    requires i <= |s|
    ensures i <= e <= |s|
    ensures forall k :: i <= k < e ==> IsDigit(s[k])
    ensures e < |s| ==> !IsDigit(s[e])
    decreases |s| - i
  {
    if i < |s| && IsDigit(s[i]) then RunEnd(s, i + 1) else i
  }

  function ScanValue(s: string, i: nat, n: int): int
    requires i <= |s|
    decreases |s| - i
  {
    if i < |s| && IsDigit(s[i]) then ScanValue(s, i + 1, Accumulate(n, s[i])) else n
  }

  method ScanNumber(s: string, start: nat) returns (next: nat, n: int)
    requires start <= |s|
    ensures next == RunEnd(s, start) && n == ScanValue(s, start, 0)
  {
    var i := start;
    n := 0;
    while i < |s| && IsDigit(s[i])
      invariant start <= i <= |s|
      invariant RunEnd(s, i) == RunEnd(s, start) && ScanValue(s, i, n) == ScanValue(s, start, 0)
    {
      n := Accumulate(n, s[i]);
      i := i + 1;
    }
    next := i;
  }

  /** A name is a sequence of characters and numbers. */
  datatype Token = Chr(c: char) | Num(n: int)

  function TokensFrom(s: string, i: nat): seq<Token>
    requires i <= |s|
    decreases |s| - i
  {
    if i == |s| then []
    else if IsDigit(s[i]) then [Num(ScanValue(s, i, 0))] + TokensFrom(s, RunEnd(s, i + 1))
    else [Chr(s[i])] + TokensFrom(s, i + 1)
  }

  function Tokens(s: string): seq<Token> {
    TokensFrom(s, 0)
  }

  /** Numbers by value, characters by code, and every number where the digits stand. */
  function Rank(t: Token): int {
    match t
    case Num(n) => n
    case Chr(c) => if c < '0' then c as int - 2 * TWO_64 else c as int + 2 * TWO_64
  }

  function Ranks(t: seq<Token>): seq<int> {
    seq(|t|, i requires 0 <= i < |t| => Rank(t[i]))
  }

  /** The declarative order: lexicographic on tokens. */
  predicate NaturallyBefore(a: string, b: string) {
    Before(Ranks(Tokens(a)), Ranks(Tokens(b)))
  }

  lemma RanksCons(t: Token, rest: seq<Token>)
    ensures Ranks([t] + rest) == [Rank(t)] + Ranks(rest)
  {
  }

  lemma BeforeCons(x: int, a: seq<int>, y: int, b: seq<int>)
    ensures Before([x] + a, [y] + b) == (x < y || (x == y && Before(a, b)))
  {
    assert ([x] + a)[1..] == a && ([y] + b)[1..] == b;
  }

  lemma ScanValueBounded(s: string, i: nat, n: int)
    requires i <= |s| && -TWO_63 <= n < TWO_63
    ensures -TWO_63 <= ScanValue(s, i, n) < TWO_63
    decreases |s| - i
  {
  }

  /** One step of the two-cursor comparison, on the tokens it looks at. */
  lemma CompareStep(a: string, i: nat, b: string, j: nat)
    requires i < |a| && j < |b|
    ensures var rest := Before(Ranks(TokensFrom(a, i)), Ranks(TokensFrom(b, j)));
      if IsDigit(a[i]) && IsDigit(b[j]) then
        var na, nb := ScanValue(a, i, 0), ScanValue(b, j, 0);
        rest == (na < nb || (na == nb && Before(Ranks(TokensFrom(a, RunEnd(a, i))), Ranks(TokensFrom(b, RunEnd(b, j))))))
      else
        rest == (a[i] < b[j] || (a[i] == b[j] && Before(Ranks(TokensFrom(a, i + 1)), Ranks(TokensFrom(b, j + 1)))))
  {
    var ta, tb := TokensFrom(a, i), TokensFrom(b, j);
    RanksCons(ta[0], ta[1..]);
    RanksCons(tb[0], tb[1..]);
    assert ta == [ta[0]] + ta[1..] && tb == [tb[0]] + tb[1..];
    BeforeCons(Rank(ta[0]), Ranks(ta[1..]), Rank(tb[0]), Ranks(tb[1..]));
    ScanValueBounded(a, i, 0);
    ScanValueBounded(b, j, 0);
  }

  /** naturalLess's cursors walk the two token sequences in step: it decides the declarative
      order. */
  method NaturalLess(a: string, b: string) returns (less: bool)
    ensures less == NaturallyBefore(a, b)
  {
    var i: nat, j: nat := 0, 0;
    while i < |a| && j < |b|
      invariant i <= |a| && j <= |b|
      invariant NaturallyBefore(a, b) == Before(Ranks(TokensFrom(a, i)), Ranks(TokensFrom(b, j)))
    {
      CompareStep(a, i, b, j);
      var ca, cb := a[i], b[j];
      if IsDigit(ca) && IsDigit(cb) {
        var ni, na := ScanNumber(a, i);
        var nj, nb := ScanNumber(b, j);
        if na != nb {
          return na < nb;
        }
        i, j := ni, nj;
        continue;
      }
      if ca != cb {
        return ca < cb;
      }
      i := i + 1;
      j := j + 1;
    }
    return |a| - i < |b| - j;
  }

  /** naturalLess is a strict weak order, as sort.Slice needs: irreflexive and transitive, with
      names incomparable exactly when they have the same tokens. */
  lemma NaturalIsStrictWeak(a: string, b: string, c: string)
    ensures !NaturallyBefore(a, a)
    ensures NaturallyBefore(a, b) && NaturallyBefore(b, c) ==> NaturallyBefore(a, c)
    ensures !NaturallyBefore(a, b) && !NaturallyBefore(b, a) <==> Tokens(a) == Tokens(b)
    ensures NaturallyBefore(a, b) ==> !NaturallyBefore(b, a)
  {
    var ra, rb, rc := Ranks(Tokens(a)), Ranks(Tokens(b)), Ranks(Tokens(c));
    BeforeTotal(ra, ra);
    BeforeTotal(ra, rb);
    if Before(ra, rb) && Before(rb, rc) {
      BeforeTransitive(ra, rb, rc);
    }
    if ra == rb {
      RanksInjective(a, b);
    }
  }

  lemma RanksInjective(a: string, b: string)
    requires Ranks(Tokens(a)) == Ranks(Tokens(b))
    ensures Tokens(a) == Tokens(b)
  {
    var ta, tb := Tokens(a), Tokens(b);
    assert |ta| == |Ranks(ta)| == |tb|;
    TokensBounded(a, 0);
    TokensBounded(b, 0);
    forall i | 0 <= i < |ta| ensures ta[i] == tb[i] {
      assert Ranks(ta)[i] == Ranks(tb)[i];
    }
  }

  lemma {:induction false} TokensBounded(s: string, i: nat)
    requires i <= |s|
    ensures forall k :: 0 <= k < |TokensFrom(s, i)| ==>
      var t := TokensFrom(s, i)[k]; t.Num? ==> -TWO_63 <= t.n < TWO_63
    decreases |s| - i
  {
    if i < |s| {
      ScanValueBounded(s, i, 0);
      TokensBounded(s, if IsDigit(s[i]) then RunEnd(s, i + 1) else i + 1);
    }
  }

  // ----- Numbers -----

  ghost predicate AllDigits(s: string) {
    forall k :: 0 <= k < |s| ==> IsDigit(s[k])
  }

  /** The number the first `i` characters of a digit string spell. */
  function Decimal(s: string, i: nat): (n: int)
    requires i <= |s| && AllDigits(s)
    ensures n >= 0
  {
    if i == 0 then 0 else Decimal(s, i - 1) * 10 + (s[i - 1] as int - '0' as int)
  }

  lemma WrapForgets(n: int, k: int)
    ensures Wrap64(n + k * TWO_64) == Wrap64(n)
  {
    var x, y := n + TWO_63, n + k * TWO_64 + TWO_63;
    var d := x / TWO_64 + k - y / TWO_64;
    assert d * TWO_64 == y % TWO_64 - x % TWO_64;
    assert -1 < d < 1;
  }

  lemma WrapRange(n: int)
    ensures -TWO_63 <= n < TWO_63 ==> Wrap64(n) == n
    ensures TWO_63 <= n < TWO_64 ==> Wrap64(n) == n - TWO_64 < 0
  {
    if -TWO_63 <= n < TWO_63 {
      assert 0 <= n + TWO_63 < TWO_64;
    } else if TWO_63 <= n < TWO_64 {
      WrapForgets(n - TWO_64, 1);
      assert 0 <= n - TWO_64 + TWO_63 < TWO_64;
    }
  }

  lemma WrapAccumulates(n: int, c: char)
    ensures Accumulate(Wrap64(n), c) == Wrap64(n * 10 + (c as int - '0' as int))
  {
    var k := (n + TWO_63) / TWO_64;
    assert Wrap64(n) == n - k * TWO_64;
    WrapForgets(n * 10 + (c as int - '0' as int), -10 * k);
  }

  lemma {:induction false} ScanIsWrappedDecimal(s: string, i: nat)
    requires i <= |s| && AllDigits(s)
    ensures ScanValue(s, i, Wrap64(Decimal(s, i))) == Wrap64(Decimal(s, |s|))
    decreases |s| - i
  {
    if i < |s| {
      WrapAccumulates(Decimal(s, i), s[i]);
      ScanIsWrappedDecimal(s, i + 1);
    }
  }

  /** Digit runs compare by the numbers they spell modulo 64-bit wrap-around: numerically,
      whatever their zero padding, while both numbers are below 2^63; and a number from there
      up to 2^64 reads as negative, ahead of every shorter one. */
  lemma RunsCompareWrapped(a: string, b: string)
    requires a != [] && b != [] && AllDigits(a) && AllDigits(b)
    ensures var na, nb := Decimal(a, |a|), Decimal(b, |b|);
      && (NaturallyBefore(a, b) <==> Wrap64(na) < Wrap64(nb))
      && (na < TWO_63 && nb < TWO_63 ==> (NaturallyBefore(a, b) <==> na < nb))
      && (TWO_63 <= na < TWO_64 && nb < TWO_63 ==> NaturallyBefore(a, b))
  {
    RunsCompareByScan(a, b);
    ScanIsWrappedDecimal(a, 0);
    ScanIsWrappedDecimal(b, 0);
    WrapRange(0);
    WrapRange(Decimal(a, |a|));
    WrapRange(Decimal(b, |b|));
  }

  /** Below 2^64, then, two different numbers compare numerically if and only if both or neither
      are below 2^63. */
  lemma RunsCompareNumericallyIff(a: string, b: string)
    requires a != [] && b != [] && AllDigits(a) && AllDigits(b)
    requires Decimal(a, |a|) != Decimal(b, |b|) && Decimal(a, |a|) < TWO_64 && Decimal(b, |b|) < TWO_64
    ensures var na, nb := Decimal(a, |a|), Decimal(b, |b|);
      ((NaturallyBefore(a, b) <==> na < nb) <==> ((na < TWO_63) == (nb < TWO_63)))
  {
    RunsCompareWrapped(a, b);
    WrapRange(Decimal(a, |a|));
    WrapRange(Decimal(b, |b|));
  }

  lemma RunsCompareByScan(a: string, b: string)
    requires a != [] && b != [] && AllDigits(a) && AllDigits(b)
    ensures NaturallyBefore(a, b) <==> ScanValue(a, 0, 0) < ScanValue(b, 0, 0)
  {
    CompareStep(a, 0, b, 0);
    assert RunEnd(a, 0) == |a| && RunEnd(b, 0) == |b|;
    assert Ranks(TokensFrom(a, |a|)) == [] && Ranks(TokensFrom(b, |b|)) == [];
  }
}

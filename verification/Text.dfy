/** The Go text conversions the Redis hash codec relies on (strconv and strings). */
module Text {
  import opened Prelude
  import opened NaturalOrder

  // ----- Integers -----

  function Digit(d: int): char
    requires 0 <= d < 10
  {
    (d + '0' as int) as char
  }

  function Digits(n: nat): string {
    if n < 10 then [Digit(n)] else Digits(n / 10) + [Digit(n % 10)]
  }

  /** strconv.Itoa. */
  function Itoa(n: int): string {
    if n < 0 then "-" + Digits(-n) else Digits(n)
  }

  predicate InInt64(n: int) {
    -TWO_63 <= n < TWO_63
  }

  /** The number a digit string denotes, None if anything else is in it. */
  function DigitsValue(s: string): Option<nat> {
    if s == "" then Some(0)
    else
      var init, c := DigitsValue(s[..|s| - 1]), s[|s| - 1];
      if init.None? || !IsDigit(c) then None else Some(init.value * 10 + (c as int - '0' as int))
  }

  /** strconv.Atoi: an optional sign, at least one digit, within 64 bits. */
  function Atoi(s: string): Option<int> {
    var signed := s != "" && (s[0] == '-' || s[0] == '+');
    var body := if signed then s[1..] else s;
    var magnitude := DigitsValue(body);
    if body == "" || magnitude.None? then None
    else
      var n: int := if signed && s[0] == '-' then 0 - magnitude.value else magnitude.value;
      if InInt64(n) then Some(n) else None
  }

  lemma {:induction false} DigitsRead(n: nat)
    ensures Digits(n) != "" && IsDigit(Digits(n)[0])
    ensures DigitsValue(Digits(n)) == Some(n)
  {
    if n < 10 {
      assert Digits(n)[..0] == "";
    } else {
      DigitsRead(n / 10);
      assert Digits(n)[..|Digits(n)| - 1] == Digits(n / 10);
    }
  }

  lemma AtoiItoa(n: int)
    ensures Itoa(n) != ""
    ensures Atoi(Itoa(n)) == if InInt64(n) then Some(n) else None
  {
    DigitsRead(if n < 0 then -n else n);
    if n < 0 {
      assert Itoa(n)[1..] == Digits(-n);
    }
  }

  /** What a text of digits denotes. */
  lemma {:induction false} DigitsValueExact(s: string)
    ensures DigitsValue(s).Some? <==> AllDigits(s)
    ensures AllDigits(s) ==> DigitsValue(s) == Some(Decimal(s, |s|))
  {
    if s != "" {
      var init := s[..|s| - 1];
      DigitsValueExact(init);
      assert s == init + [s[|s| - 1]];
      if AllDigits(s) {
        DecimalAgrees(s, |s| - 1, |s| - 1);
      }
    }
  }

  lemma {:induction false} DecimalAgrees(s: string, n: nat, i: nat)
    requires AllDigits(s) && i <= n <= |s|
    ensures Decimal(s[..n], i) == Decimal(s, i)
  {
    if i > 0 {
      DecimalAgrees(s, n, i - 1);
    }
  }

  /** Atoi takes digits after an optional sign, read in decimal, and nothing else. */
  lemma AtoiExact(s: string)
    ensures s != "" && AllDigits(s) ==>
      var n := Decimal(s, |s|);
      && Atoi(s) == (if n < TWO_63 then Some(n) else None)
      && Atoi("+" + s) == Atoi(s) && Atoi("-" + s) == (if n <= TWO_63 then Some(-n) else None)
    ensures Atoi(s).Some? ==> s != "" && (AllDigits(s) || (|s| > 1 && s[0] in {'+', '-'} && AllDigits(s[1..])))
  {
    DigitsValueExact(s);
    assert ("+" + s)[1..] == s && ("-" + s)[1..] == s;
    if s != "" {
      DigitsValueExact(s[1..]);
    }
  }

  // ----- Booleans -----

  function FormatBool(b: bool): string {
    if b then "true" else "false"
  }

  /** strconv.ParseBool. */
  function ParseBool(s: string): Option<bool> {
    if s in ["1", "t", "T", "true", "TRUE", "True"] then Some(true)
    else if s in ["0", "f", "F", "false", "FALSE", "False"] then Some(false)
    else None
  }

  // ----- Lists -----

  /** strings.Join. */
  function Join(parts: seq<string>, sep: char): string {
    if parts == [] then ""
    else if |parts| == 1 then parts[0]
    else parts[0] + [sep] + Join(parts[1..], sep)
  }

  /** How far `s` goes without `sep`. */
  function Run(s: string, sep: char): (n: nat)
    ensures n <= |s|
    ensures sep !in s[..n]
    ensures n < |s| ==> s[n] == sep
  {
    if s == "" || s[0] == sep then 0
    else
      assert s[..1 + Run(s[1..], sep)] == [s[0]] + s[1..][..Run(s[1..], sep)];
      1 + Run(s[1..], sep)
  }

  /** strings.Split. */
  function Split(s: string, sep: char): (parts: seq<string>)
    ensures parts != []
  {
    var n := Run(s, sep);
    if n == |s| then [s] else [s[..n]] + Split(s[n + 1..], sep)
  }

  lemma {:induction false} SplitPieces(s: string, sep: char)
    ensures forall p :: p in Split(s, sep) ==> sep !in p
    ensures Join(Split(s, sep), sep) == s
  {
    var n := Run(s, sep);
    if n == |s| {
      assert s[..n] == s;
    } else {
      var rest := s[n + 1..];
      SplitPieces(rest, sep);
      assert ([s[..n]] + Split(rest, sep))[1..] == Split(rest, sep);
      assert s == s[..n] + [sep] + rest;
    }
  }

  lemma RunOfPiece(p: string, rest: string, sep: char)
    requires sep !in p
    ensures Run(p + [sep] + rest, sep) == |p|
  {
    var s := p + [sep] + rest;
    assert s[|p|] == sep;
    assert forall k :: 0 <= k < |p| ==> s[k] == p[k];
  }

  /** Splitting undoes joining exactly for non-empty lists of parts without the separator. */
  lemma {:induction false} SplitJoin(parts: seq<string>, sep: char)
    ensures Split(Join(parts, sep), sep) == parts <==> parts != [] && forall p :: p in parts ==> sep !in p
  {
    SplitPieces(Join(parts, sep), sep);
    if parts != [] && forall p :: p in parts ==> sep !in p {
      JoinedSplits(parts, sep);
    }
  }

  lemma {:induction false} JoinedSplits(parts: seq<string>, sep: char)
    requires parts != [] && forall p :: p in parts ==> sep !in p
    ensures Split(Join(parts, sep), sep) == parts
  {
    if |parts| == 1 {
      assert parts == [parts[0]] && parts[0] in parts;
    } else {
      var p, rest := parts[0], Join(parts[1..], sep);
      assert p in parts;
      JoinedSplits(parts[1..], sep);
      RunOfPiece(p, rest, sep);
      var s := p + [sep] + rest;
      assert s[..|p|] == p && s[|p| + 1..] == rest;
      assert parts == [p] + parts[1..];
    }
  }
}

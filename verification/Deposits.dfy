/**
 Scanned deposits and their "tx:n" identifiers: how an identifier is printed, when two deposits share one, and which
 identifiers the exchange's validity check lets through.
 */
module Deposits {
  import opened Common

  datatype DepositStatus = NotProcessed | Rejected | Accepted

  datatype Deposit = Deposit(coinType: string, address: string, value: int64, height: int,
                             tx: string, n: uint32, status: DepositStatus)
  {
    function ID(): string {
      tx + ":" + Decimal(n)
    }
  }

  // Decimal notation, as fmt prints an unsigned integer and strconv reads it back

  predicate IsDigit(c: char) {
    '0' <= c <= '9'
  }

  predicate AllDigits(s: string) {
    forall i :: 0 <= i < |s| ==> IsDigit(s[i])
  }

  function Decimal(n: nat): (s: string)
    ensures s != [] && AllDigits(s)
  {
    var digit := ('0' as int + n % 10) as char;
    if n < 10 then [digit] else Decimal(n / 10) + [digit]
  }

  function DigitsValue(s: string): (v: nat)
    requires AllDigits(s)
  {
    if s == [] then 0
    else 10 * DigitsValue(s[..|s| - 1]) + (s[|s| - 1] as int - '0' as int)
  }

  lemma {:induction false} DecimalReadsBack(n: nat)
    ensures DigitsValue(Decimal(n)) == n
  {
    if n >= 10 {
      DecimalReadsBack(n / 10);
      assert Decimal(n)[..|Decimal(n)| - 1] == Decimal(n / 10);
    }
  }

  /** And it is the shortest notation: no zero in front, but for zero itself. */
  lemma {:induction false} DecimalIsShortest(n: nat)
    ensures n == 0 ==> Decimal(n) == "0"
    ensures n > 0 ==> Decimal(n)[0] != '0'
  {
    if n >= 10 {
      DecimalIsShortest(n / 10);
    }
  }

  /** Two deposits share an identifier exactly when they are the same output of the same transaction. */
  lemma IdentifierInjective(a: Deposit, b: Deposit)
    ensures a.ID() == b.ID() <==> a.tx == b.tx && a.n == b.n
  {
    if a.ID() == b.ID() {
      if |Decimal(a.n)| < |Decimal(b.n)| {
        ColonSeparates(a, b);
      } else if |Decimal(b.n)| < |Decimal(a.n)| {
        ColonSeparates(b, a);
      } else {
        assert a.tx == a.ID()[..|a.tx|] == b.ID()[..|b.tx|] == b.tx;
        assert Decimal(a.n) == a.ID()[|a.tx| + 1..] == b.ID()[|b.tx| + 1..] == Decimal(b.n);
        DecimalReadsBack(a.n);
        DecimalReadsBack(b.n);
      }
    }
  }

  lemma ColonSeparates(a: Deposit, b: Deposit)
    requires |Decimal(a.n)| < |Decimal(b.n)|
    ensures a.ID() != b.ID()
  {
    if |a.ID()| == |b.ID()| {
      var k := |a.tx|;
      assert a.ID()[k] == ':';
      assert b.ID()[k] == Decimal(b.n)[k - |b.tx| - 1];
    }
  }

  // strings.Split and strconv.ParseInt

  /** One more character in front of what is already split. */
  function Prepend(c: char, sep: char, parts: seq<string>): (r: seq<string>)
    requires parts != []
    ensures r != []
  {
    if c == sep then [""] + parts else [[c] + parts[0]] + parts[1..]
  }

  function Split(s: string, sep: char): (parts: seq<string>)
    ensures parts != []
  {
    if s == [] then [""] else Prepend(s[0], sep, Split(s[1..], sep))
  }

  lemma {:induction false} SplitNone(s: string, sep: char)
    requires sep !in s
    ensures Split(s, sep) == [s]
  {
    if s != [] {
      SplitNone(s[1..], sep);
      assert [s[0]] + s[1..] == s;
    }
  }

  /** A character in front of the left part does not touch the right part. */
  lemma PrependLeft(c: char, sep: char, left: seq<string>, right: seq<string>)
    requires left != []
    ensures Prepend(c, sep, left + right) == Prepend(c, sep, left) + right
  {
    assert (left + right)[1..] == left[1..] + right;
  }

  /** The part before a separator and the part after it are split independently. */
  lemma {:induction false} SplitAt(a: string, sep: char, b: string)
    ensures Split(a + [sep] + b, sep) == Split(a, sep) + Split(b, sep)
  {
    var whole := a + [sep] + b;
    if a == [] {
      assert whole[1..] == b;
    } else {
      assert whole[1..] == a[1..] + [sep] + b;
      SplitAt(a[1..], sep, b);
      PrependLeft(a[0], sep, Split(a[1..], sep), Split(b, sep));
    }
  }

  lemma {:induction false} SplitSome(s: string, sep: char)
    requires sep in s
    ensures |Split(s, sep)| >= 2
  {
    if s[0] != sep {
      SplitSome(s[1..], sep);
    }
  }

  /** ParseInt(s, 10, 64) succeeds: an optional sign, then digits, and a value that fits in 64 bits. */
  predicate ParsesAsInt64(s: string) {
    var negative := s != [] && s[0] == '-';
    var digits := if s != [] && (s[0] == '+' || s[0] == '-') then s[1..] else s;
    digits != [] && AllDigits(digits) &&
    if negative then DigitsValue(digits) <= TWO_TO_63 else DigitsValue(digits) < TWO_TO_63
  }

  predicate IsValidBtcTx(btcTx: string) {
    if btcTx == "" then false
    else
      var parts := Split(btcTx, ':');
      |parts| == 2 && parts[0] != "" && parts[1] != "" && ParsesAsInt64(parts[1])
  }

  /** The identifiers that pass the exchange's check are those of transactions with a non-empty, colon-free hash. */
  lemma IdentifierValidity(d: Deposit)
    ensures IsValidBtcTx(d.ID()) <==> d.tx != "" && ':' !in d.tx
  {
    var digits := Decimal(d.n);
    assert d.ID() == d.tx + [':'] + digits;
    SplitAt(d.tx, ':', digits);
    SplitNone(digits, ':');
    DecimalReadsBack(d.n);
    if ':' in d.tx {
      SplitSome(d.tx, ':');
    } else {
      SplitNone(d.tx, ':');
      assert IsDigit(digits[0]);
    }
  }
}

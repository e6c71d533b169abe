/** Types shared by every module: results, Go's integer widths, and the key order of a bolt bucket. */
module Common {

  datatype Option<+T> = None | Some(value: T)

  datatype Result<+T, +E> = Ok(value: T) | Err(error: E) {
    predicate IsFailure() {
      Err?
    }

    function PropagateFailure<U>(): Result<U, E>
      requires Err?
    {
      Err(error)
    }

    function Extract(): T
      requires Ok?
    {
      value
    }
  }

  const COIN_BTC := "BTC"
  const COIN_SKY := "SKY"

  predicate SupportedCoin(coinType: string) {
    coinType == COIN_BTC || coinType == COIN_SKY
  }

  // Go's fixed-width integers

  const TWO_TO_63 := 0x8000_0000_0000_0000
  const TWO_TO_64 := 0x1_0000_0000_0000_0000

  type int64 = x: int | -TWO_TO_63 <= x < TWO_TO_63
  type uint32 = x: int | 0 <= x < 0x1_0000_0000

  /** The int64 that Go's two's-complement arithmetic leaves for the mathematical value x. */
  function Wrap64(x: int): (r: int64)
    ensures -TWO_TO_63 <= x < TWO_TO_63 ==> r == x
    ensures (x - r) % TWO_TO_64 == 0
  {
    var m := x % TWO_TO_64;
    if m < TWO_TO_63 then m else m - TWO_TO_64
  }

  /** Wrapping after every addition is the same as wrapping the exact sum once. */
  lemma WrapAdd(a: int, b: int)
    ensures Wrap64(Wrap64(a) + b) == Wrap64(a + b)
  {
    SameWrap(Wrap64(a) + b, a + b);
  }

  lemma SameWrap(x: int, y: int)
    requires (y - x) % TWO_TO_64 == 0
    ensures Wrap64(x) == Wrap64(y)
  {
    assert y == x + TWO_TO_64 * ((y - x) / TWO_TO_64);
  }

  // Key order of a bolt bucket

  predicate Less(a: string, b: string) {
    b != [] && (a == [] || a[0] < b[0] || (a[0] == b[0] && Less(a[1..], b[1..])))
  }

  lemma {:induction false} LessTotal(a: string, b: string)
    ensures a == b || Less(a, b) || Less(b, a)
  {
    if a != [] && b != [] && a[0] == b[0] {
      LessTotal(a[1..], b[1..]);
      assert a == [a[0]] + a[1..] && b == [b[0]] + b[1..];
    }
  }

  lemma {:induction false} LessAsymmetric(a: string, b: string)
    requires Less(a, b)
    ensures !Less(b, a) && a != b
  {
    if a != [] && a[0] == b[0] {
      LessAsymmetric(a[1..], b[1..]);
    }
  }

  lemma {:induction false} LessTransitive(a: string, b: string, c: string)
    requires Less(a, b) && Less(b, c)
    ensures Less(a, c)
  {
    if a != [] && a[0] == b[0] == c[0] {
      LessTransitive(a[1..], b[1..], c[1..]);
    }
  }

  ghost predicate IsLeast(m: string, keys: set<string>) {
    m in keys && forall k :: k in keys && k != m ==> Less(m, k)
  }

  lemma {:induction false} LeastExists(keys: set<string>)
    requires keys != {}
    ensures exists m :: IsLeast(m, keys)
  {
    var k :| k in keys;
    var rest := keys - {k};
    if rest == {} {
      assert keys == {k};
      assert IsLeast(k, keys);
    } else {
      LeastExists(rest);
      var m :| IsLeast(m, rest);
      LessTotal(k, m);
      if Less(k, m) {
        forall j | j in keys && j != k ensures Less(k, j) {
          if j != m { LessTransitive(k, m, j); }
        }
        assert IsLeast(k, keys);
      } else {
        assert IsLeast(m, keys);
      }
    }
  }

  ghost predicate Ascending(ks: seq<string>) {
    forall i, j :: 0 <= i < j < |ks| ==> Less(ks[i], ks[j])
  }

  /** The order in which bolt's ForEach visits the keys of a bucket. */
  ghost function KeysInOrder(keys: set<string>): (ks: seq<string>)
    ensures Ascending(ks)
    ensures forall k :: k in ks <==> k in keys
    ensures |ks| == |keys|
  {
    if keys == {} then []
    else
      LeastExists(keys);
      var m :| IsLeast(m, keys);
      var rest := KeysInOrder(keys - {m});
      assert forall k :: k in rest ==> k in keys && k != m;
      [m] + rest
  }

  method LeastKey(keys: set<string>) returns (m: string)
    requires keys != {}
    ensures IsLeast(m, keys)
  {
    m :| m in keys;
    var todo := keys - {m};
    while todo != {}
      invariant m in keys && todo <= keys && m !in todo
      invariant forall k :: k in keys && k != m && k !in todo ==> Less(m, k)
      decreases |todo|
    {
      var k :| k in todo;
      todo := todo - {k};
      LessTotal(k, m);
      if Less(k, m) {
        forall j | j in keys && j != k && j !in todo ensures Less(k, j) {
          if j != m { LessTransitive(k, m, j); }
        }
        m := k;
      }
    }
  }

  /** ForEach as code can use it: the keys of a bucket, in key order. */
  method ForEachKey(keys: set<string>) returns (ks: seq<string>)
    ensures ks == KeysInOrder(keys)
    decreases |keys|
  {
    if keys == {} {
      ks := [];
    } else {
      var m := LeastKey(keys);
      var rest := ForEachKey(keys - {m});
      KeysInOrderStep(keys, m);
      ks := [m] + rest;
    }
  }

  lemma KeysInOrderStep(keys: set<string>, m: string)
    requires IsLeast(m, keys)
    ensures KeysInOrder(keys) == [m] + KeysInOrder(keys - {m})
  {
    LeastUnique(keys, m);
  }

  lemma LeastUnique(keys: set<string>, m: string)
    requires IsLeast(m, keys)
    ensures forall m' :: IsLeast(m', keys) ==> m' == m
  {
    forall m' | IsLeast(m', keys) ensures m' == m {
      if m' != m {
        LessAsymmetric(m, m');
      }
    }
  }
}

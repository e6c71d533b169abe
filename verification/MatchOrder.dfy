/**
 The order in which a scan of a block lists what it finds: by transaction, then by output, then by address, each place
 of the block that pays a watched address once.
 */
module MatchOrder {
  import opened Common
  import opened Deposits
  import opened ScanStore

  /** An address of an output of a transaction of the block. */
  datatype Place = Place(tx: int, out: int, addr: int)

  predicate Before(p: Place, q: Place) {
    p.tx < q.tx || (p.tx == q.tx && (p.out < q.out || (p.out == q.out && p.addr < q.addr)))
  }

  ghost predicate MatchAt(block: CommonBlock, coin: string, watched: set<string>, d: Deposit, p: Place) {
    IsMatch(block, coin, watched, d, p.tx, p.out, p.addr)
  }

  /** ds lists the matches at exactly the places before end, in the order of their places. */
  ghost predicate ListsUpTo(block: CommonBlock, coin: string, watched: set<string>, ds: seq<Deposit>, at: seq<Place>,
                            end: Place) {
    && |at| == |ds|
    && (forall n :: 0 <= n < |ds| ==> MatchAt(block, coin, watched, ds[n], at[n]) && Before(at[n], end))
    && (forall m, n :: 0 <= m < n < |at| ==> Before(at[m], at[n]))
    && (forall d, p :: MatchAt(block, coin, watched, d, p) && Before(p, end) ==> p in at)
  }

  lemma MoveEnd(block: CommonBlock, coin: string, watched: set<string>, ds: seq<Deposit>, at: seq<Place>, end: Place,
                end': Place)
    requires ListsUpTo(block, coin, watched, ds, at, end)
    requires forall p :: Before(p, end) ==> Before(p, end')
    requires forall d, p :: MatchAt(block, coin, watched, d, p) && Before(p, end') ==> Before(p, end)
    ensures ListsUpTo(block, coin, watched, ds, at, end')
  {
  }

  predicate OutputAt(block: CommonBlock, i: int, j: int) {
    0 <= i < |block.rawTx| && 0 <= j < |block.rawTx[i].vout|
  }

  lemma OneAddress(block: CommonBlock, coin: string, watched: set<string>, ds: seq<Deposit>, at: seq<Place>, i: int,
                   j: int, k: int) returns (at': seq<Place>)
    requires OutputAt(block, i, j) && 0 <= k < |block.rawTx[i].vout[j].addresses|
    requires ListsUpTo(block, coin, watched, ds, at, Place(i, j, k))
    ensures var tx, v := block.rawTx[i], block.rawTx[i].vout[j];
            ListsUpTo(block, coin, watched,
                      ds + (if v.addresses[k] in watched
                            then [Deposit(coin, v.addresses[k], v.value, block.height, tx.txid, v.n, NotProcessed)]
                            else []), at', Place(i, j, k + 1))
  {
    var here := Place(i, j, k);
    if block.rawTx[i].vout[j].addresses[k] in watched {
      at' := at + [here];
      assert forall p :: p in at ==> p in at';
      assert here in at';
    } else {
      assert ds + [] == ds;
      at' := at;
    }
    forall p: Place | Before(p, Place(i, j, k + 1)) && !Before(p, here) ensures p == here {
      assert p.tx == i && p.out == j && p.addr == k;
    }
  }

  lemma {:induction false} AddressesInOrder(block: CommonBlock, coin: string, watched: set<string>, ds: seq<Deposit>,
                                            at: seq<Place>, i: int, j: int, k: int) returns (at': seq<Place>)
    requires OutputAt(block, i, j) && 0 <= k <= |block.rawTx[i].vout[j].addresses|
    requires ListsUpTo(block, coin, watched, ds, at, Place(i, j, 0))
    ensures var tx, v := block.rawTx[i], block.rawTx[i].vout[j];
            ListsUpTo(block, coin, watched, ds + MatchAddresses(block, coin, watched, tx, v, v.addresses[..k]), at',
                      Place(i, j, k))
    decreases k
  {
    var tx, v := block.rawTx[i], block.rawTx[i].vout[j];
    if k == 0 {
      assert ds + [] == ds;
      at' := at;
    } else {
      hide ListsUpTo;
      at' := AddressesInOrder(block, coin, watched, ds, at, i, j, k - 1);
      var before := MatchAddresses(block, coin, watched, tx, v, v.addresses[..k - 1]);
      at' := OneAddress(block, coin, watched, ds + before, at', i, j, k - 1);
      assert v.addresses[..k][..k - 1] == v.addresses[..k - 1];
      var a := v.addresses[k - 1];
      Associative(ds, before, if a in watched
          then [Deposit(coin, a, v.value, block.height, tx.txid, v.n, NotProcessed)] else []);
    }
  }

  lemma {:induction false} OutputsInOrder(block: CommonBlock, coin: string, watched: set<string>, ds: seq<Deposit>,
                                          at: seq<Place>, i: int, j: int) returns (at': seq<Place>)
    requires 0 <= i < |block.rawTx| && 0 <= j <= |block.rawTx[i].vout|
    requires ListsUpTo(block, coin, watched, ds, at, Place(i, 0, 0))
    ensures var tx := block.rawTx[i];
            ListsUpTo(block, coin, watched, ds + MatchOuts(block, coin, watched, tx, tx.vout[..j]), at', Place(i, j, 0))
    decreases j
  {
    var tx := block.rawTx[i];
    if j == 0 {
      assert ds + [] == ds;
      at' := at;
    } else {
      hide ListsUpTo, MatchAddresses;
      var v := tx.vout[j - 1];
      at' := OutputsInOrder(block, coin, watched, ds, at, i, j - 1);
      var before := MatchOuts(block, coin, watched, tx, tx.vout[..j - 1]);
      at' := AddressesInOrder(block, coin, watched, ds + before, at', i, j - 1, |v.addresses|);
      assert v.addresses[..|v.addresses|] == v.addresses;
      assert tx.vout[..j][..j - 1] == tx.vout[..j - 1];
      var found := MatchAddresses(block, coin, watched, tx, v, v.addresses);
      Associative(ds, before, found);
      MoveEnd(block, coin, watched, ds + (before + found), at', Place(i, j - 1, |v.addresses|), Place(i, j, 0));
    }
  }

  lemma {:induction false} TxsInOrder(block: CommonBlock, coin: string, watched: set<string>, i: int)
    returns (at: seq<Place>)
    requires 0 <= i <= |block.rawTx|
    ensures ListsUpTo(block, coin, watched, MatchTxs(block, coin, watched, block.rawTx[..i]), at, Place(i, 0, 0))
    decreases i
  {
    if i == 0 {
      at := [];
    } else {
      hide ListsUpTo, MatchOuts;
      var tx := block.rawTx[i - 1];
      at := TxsInOrder(block, coin, watched, i - 1);
      var before := MatchTxs(block, coin, watched, block.rawTx[..i - 1]);
      at := OutputsInOrder(block, coin, watched, before, at, i - 1, |tx.vout|);
      assert tx.vout[..|tx.vout|] == tx.vout;
      assert block.rawTx[..i][..i - 1] == block.rawTx[..i - 1];
      var found := MatchOuts(block, coin, watched, tx, tx.vout);
      MoveEnd(block, coin, watched, before + found, at, Place(i - 1, |tx.vout|, 0), Place(i, 0, 0));
    }
  }

  /** A scan lists its finds in block order: there are places, in ascending order, one for each find and at which the
      find is made, and every place that pays a watched address is among them. */
  lemma MatchesInOrder(block: CommonBlock, coin: string, watched: set<string>)
    ensures exists at: seq<Place> ::
              && |at| == |Matches(block, coin, watched)|
              && (forall n :: 0 <= n < |at| ==> MatchAt(block, coin, watched, Matches(block, coin, watched)[n], at[n]))
              && (forall m, n :: 0 <= m < n < |at| ==> Before(at[m], at[n]))
              && (forall d, p :: MatchAt(block, coin, watched, d, p) ==> p in at)
  {
    var at := TxsInOrder(block, coin, watched, |block.rawTx|);
    assert block.rawTx[..|block.rawTx|] == block.rawTx;
    assert forall d, p :: MatchAt(block, coin, watched, d, p) ==> Before(p, Place(|block.rawTx|, 0, 0));
  }
}

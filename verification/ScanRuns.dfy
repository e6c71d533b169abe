/**
 What the scan loop guarantees: consecutive confirmed blocks, each once, and exactly when every deposit they hold is
 kept.
 */
module ScanRuns {
  import opened Common
  import opened Deposits
  import opened ScanStore
  import opened ScanHistory
  import opened ChainWalk
  import opened ScanLoop
  import FakeChain

  /** Gapless confirmed scanning: the blocks committed for the coin are those of the chain at the initial height, the
      next, and so on, each once and in order. If the coin's deposits at the start had their confirmations on the
      chain of the first round, then all that are persisted have them on the chain of the last one. */
  lemma ScanIsGapless(coin: string, last: Chain, base: int, from: int, confirmations: int, ticks: seq<Tick>, used: nat,
                      db0: ScanDb, db: ScanDb, l: Loop)
    requires Rounds(ticks, base, last) && LoopInv(coin, last, from, confirmations, ticks, used, db0, db, l)
    ensures forall k :: 0 <= k < |l.blocks| ==> l.blocks[k].height == from + k && IsBlock(coin, last, l.blocks[k])
    ensures db == ScanHistory.Run(History(db0, []), l.ops).db && BlocksOf(coin, l.ops) == l.blocks
    ensures FoundFor(coin, db0, l.ops) == l.found && l.sent <= l.found
    ensures used > 0 && AllConfirmed(coin, ticks[0].node.chain, confirmations, db0) ==>
              AllConfirmed(coin, ticks[used - 1].node.chain, confirmations, db)
  {
    forall id | id in db.deposits && db.deposits[id].coinType == coin
      ensures id in db0.deposits ==>
                db0.deposits[id].coinType == coin && db0.deposits[id].height == db.deposits[id].height
      ensures id !in db0.deposits ==>
                0 < used && Confirmed(coin, ticks[used - 1].node.chain, confirmations, db.deposits[id].height)
    {
      if id in db0.deposits {
        AcceptedForever(History(db0, []), l.ops, id);
      } else {
        NewComesFromBlock(db0, coin, l.ops, id);
      }
    }
    if used > 1 {
      assert ticks[0].node.chain.best <= ticks[used - 1].node.chain.best;
    }
  }

  function Heights(a: int, b: int): (hs: set<int>)
    requires a <= b
    ensures forall h :: h in hs <==> a <= h < b
    ensures |hs| == b - a
    decreases b - a
  {
    if a == b then {} else Heights(a, b - 1) + {b - 1}
  }

  /** A block has its confirmations exactly when that many blocks of the chain are above it; for Skycoin, whose count is
      one more, the block itself is one of them. */
  lemma ConfirmedIff(coin: string, c: Chain, base: int, confirmations: int, height: int)
    requires FakeChain.Linked(c, base) && height in c.hashes
    ensures Confirmed(coin, c, confirmations, height) <==>
            confirmations <= |set h | h in c.hashes && (h > height || (coin != COIN_BTC && h == height))|
  {
    var first := if coin == COIN_BTC then height + 1 else height;
    assert |Heights(first, c.best + 1)| == c.best + 1 - first;
    assert (set h | h in c.hashes && (h > height || (coin != COIN_BTC && h == height))) == Heights(first, c.best + 1);
  }

  /** Every stored deposit of the coin has its confirmations on this chain. */
  ghost predicate AllConfirmed(coin: string, c: Chain, confirmations: int, db: ScanDb) {
    forall id :: id in db.deposits && db.deposits[id].coinType == coin ==>
      Confirmed(coin, c, confirmations, db.deposits[id].height)
  }

  // What a scan of a converted block finds

  /** d is the payment of output j of transaction i of the node's block, to a watched address. */
  ghost predicate Pays(b: FakeChain.Block, coin: string, watched: set<string>, d: Deposit, i: int, j: int) {
    && 0 <= i < |b.txs| && 0 <= j < |b.txs[i].outs|
    && var out := b.txs[i].outs[j];
       out.address in watched &&
       d == Deposit(coin, out.address, out.value, b.height, b.txs[i].txid, 0, NotProcessed)
  }

  lemma PaidIffMatched(b: FakeChain.Block, block: CommonBlock, coin: string, watched: set<string>, d: Deposit)
    requires block.height == b.height && SameTxs(b.txs, block.rawTx)
    ensures d in Matches(block, coin, watched) <==> exists i, j :: Pays(b, coin, watched, d, i, j)
  {
    MatchesExact(block, coin, watched, d);
    if i, j, k :| IsMatch(block, coin, watched, d, i, j, k) {
      assert block.rawTx[i].vout[j].addresses == [b.txs[i].outs[j].address];
      assert Pays(b, coin, watched, d, i, j);
    }
    if i, j :| Pays(b, coin, watched, d, i, j) {
      assert block.rawTx[i].vout[j].addresses == [b.txs[i].outs[j].address];
      assert IsMatch(block, coin, watched, d, i, j, 0);
    }
  }

  /** What a scan finds in the conversion of a node's block is exactly the payments of its outputs to watched addresses,
      each with the transaction, value, address and height that the node has. */
  lemma PaymentsFound(coin: string, b: FakeChain.Block, watched: set<string>, d: Deposit)
    requires ToCommonBlock(coin, b).Some?
    ensures d in Matches(ToCommonBlock(coin, b).value, coin, watched) <==>
            exists i, j :: Pays(b, coin, watched, d, i, j)
  {
    ConvertedIsSame(coin, b);
    PaidIffMatched(b, ToCommonBlock(coin, b).value, coin, watched, d);
  }

  /** The same for the blocks that the scan loop commits. */
  lemma BlockPaymentsFound(coin: string, last: Chain, block: CommonBlock, watched: set<string>, d: Deposit)
    requires IsBlock(coin, last, block)
    ensures d in Matches(block, coin, watched) <==>
            exists i, j :: Pays(last.blocks[block.hash], coin, watched, d, i, j)
  {
    RawTxIsSame(last.blocks[block.hash].txs);
    PaidIffMatched(last.blocks[block.hash], block, coin, watched, d);
  }

  // What the scans keep of what they find

  /** The conversions leave every output number at 0. */
  ghost predicate NoNumbers(block: CommonBlock) {
    forall i, j :: 0 <= i < |block.rawTx| && 0 <= j < |block.rawTx[i].vout| ==> block.rawTx[i].vout[j].n == 0
  }

  lemma {:induction false} VoutsHaveNoNumbers(outs: seq<FakeChain.TxOut>)
    ensures forall v :: v in Vouts(outs) ==> v.n == 0
  {
    if outs != [] {
      VoutsHaveNoNumbers(outs[..|outs| - 1]);
    }
  }

  lemma {:induction false} RawTxHasNoNumbers(txs: seq<FakeChain.BlockTx>)
    ensures forall tx, v :: tx in RawTx(txs) && v in tx.vout ==> v.n == 0
  {
    if txs != [] {
      RawTxHasNoNumbers(txs[..|txs| - 1]);
      VoutsHaveNoNumbers(txs[|txs| - 1].outs);
    }
  }

  lemma ConvertedHasNoNumbers(coin: string, last: Chain, block: CommonBlock)
    requires IsBlock(coin, last, block)
    ensures NoNumbers(block)
  {
    RawTxHasNoNumbers(last.blocks[block.hash].txs);
    forall i, j | 0 <= i < |block.rawTx| && 0 <= j < |block.rawTx[i].vout| ensures block.rawTx[i].vout[j].n == 0 {
      assert block.rawTx[i] in block.rawTx && block.rawTx[i].vout[j] in block.rawTx[i].vout;
    }
  }

  lemma FoundHasNoNumbers(db: ScanDb, op: Op)
    requires op.Committed? ==> NoNumbers(op.block)
    ensures forall d :: d in FoundBy(db, op) ==> d.n == 0
  {
    forall d | d in FoundBy(db, op) ensures d.n == 0 {
      MatchesExact(op.block, op.coin, AsSet(ScanAddresses(db, op.coin).value), d);
    }
  }

  /** No two positions of the list are of one transaction, and no transaction has a deposit stored before. */
  ghost predicate OneEachTransaction(m: Bucket, ds: seq<Deposit>) {
    && (forall i :: 0 <= i < |ds| ==> ds[i].ID() !in m)
    && (forall i, j :: 0 <= i < j < |ds| ==> ds[i].tx != ds[j].tx)
  }

  lemma WithoutNumbersIff(m: Bucket, ds: seq<Deposit>)
    requires forall d :: d in ds ==> d.n == 0
    ensures AllNew(m, ds) <==> OneEachTransaction(m, ds)
  {
    forall i, j | 0 <= i < j < |ds| ensures SameOutput(ds[i], ds[j]) <==> ds[i].tx == ds[j].tx {
      assert ds[i] in ds && ds[j] in ds;
    }
  }

  /** Scanning a block of the chain makes an entry for every payment in it exactly when no transaction of the block
      has two payments to watched addresses, be they equal or different, and none has one stored before. Otherwise
      fewer entries are made, and when values are positive, less value is stored. */
  lemma BlockKeepsAllIff(coin: string, last: Chain, block: CommonBlock, watched: set<string>, m: Bucket)
    requires IsBlock(coin, last, block)
    ensures var ds := Matches(block, coin, watched);
            && (Fresh(m, ds) == ds <==> OneEachTransaction(m, ds))
            && (!OneEachTransaction(m, ds) ==> |Fresh(m, ds)| < |ds|)
            && ((forall d :: d in ds ==> d.value > 0) ==>
                  ValueOf(Fresh(m, ds)) <= ValueOf(ds) &&
                  (ValueOf(Fresh(m, ds)) == ValueOf(ds) <==> OneEachTransaction(m, ds)))
  {
    var ds := Matches(block, coin, watched);
    ConvertedHasNoNumbers(coin, last, block);
    forall d | d in ds ensures d.n == 0 {
      MatchesExact(block, coin, watched, d);
    }
    WithoutNumbersIff(m, ds);
    AllFreshIff(m, ds);
    if forall d :: d in ds ==> d.value > 0 {
      AllValueIff(m, ds);
    }
  }

  /** Over a whole run of the loop: every payment that any scan found got a new entry, and was returned, exactly when
      no two of the finds are the same output and none was stored before; for blocks without output numbers, when no
      two of them are of one transaction. */
  lemma ScanKeepsAllIff(coin: string, last: Chain, from: int, confirmations: int, ticks: seq<Tick>, used: nat,
                        db0: ScanDb, db: ScanDb, l: Loop)
    requires LoopInv(coin, last, from, confirmations, ticks, used, db0, db, l)
    ensures var found := ScanHistory.Found(History(db0, []), l.ops);
            var returned := ScanHistory.Run(History(db0, []), l.ops).returned;
            && (returned == found <==> AllNew(db0.deposits, found))
            && (AllNew(db0.deposits, found) ==> forall d :: d in found ==> Kept(db.deposits, d))
            && (!AllNew(db0.deposits, found) ==> |returned| < |found|)
            && ((forall op :: op in l.ops && op.Committed? ==> NoNumbers(op.block)) ==>
                  (returned == found <==> OneEachTransaction(db0.deposits, found)))
  {
    var found := ScanHistory.Found(History(db0, []), l.ops);
    HistoryIsOneScan(db0, l.ops);
    AllFreshIff(Strip(db0.deposits), found);
    assert AllNew(Strip(db0.deposits), found) <==> AllNew(db0.deposits, found);
    if AllNew(db0.deposits, found) {
      FoundAreKept(db0, db, l.ops);
    }
    if forall op :: op in l.ops && op.Committed? ==> NoNumbers(op.block) {
      AllFoundHaveNoNumbers(db0, l.ops);
      WithoutNumbersIff(db0.deposits, found);
    }
  }

  lemma FoundAreKept(db0: ScanDb, db: ScanDb, ops: seq<Op>)
    requires db == ScanHistory.Run(History(db0, []), ops).db
    requires AllNew(db0.deposits, ScanHistory.Found(History(db0, []), ops))
    ensures forall d :: d in ScanHistory.Found(History(db0, []), ops) ==> Kept(db.deposits, d)
  {
    var found := ScanHistory.Found(History(db0, []), ops);
    HistoryIsOneScan(db0, ops);
    NewDoNotClash(db0.deposits, Strip(db0.deposits), found);
    AllKeptIff(Strip(db0.deposits), found);
    assert forall d :: Kept(Strip(db.deposits), d) <==> Kept(db.deposits, d);
  }

  lemma NewDoNotClash(m: Bucket, m': Bucket, ds: seq<Deposit>)
    requires AllNew(m, ds) && m'.Keys == m.Keys
    ensures NoClash(m', ds)
  {
    forall d, e | d in ds && e in ds && d.tx == e.tx && d.n == e.n ensures d == e {
      var i :| 0 <= i < |ds| && ds[i] == d;
      var j :| 0 <= j < |ds| && ds[j] == e;
      assert SameOutput(ds[i], ds[j]) && SameOutput(ds[j], ds[i]);
    }
  }

  lemma {:induction false} AllFoundHaveNoNumbers(db0: ScanDb, ops: seq<Op>)
    requires forall op :: op in ops && op.Committed? ==> NoNumbers(op.block)
    ensures forall d :: d in ScanHistory.Found(History(db0, []), ops) ==> d.n == 0
  {
    if ops != [] {
      AllFoundHaveNoNumbers(db0, ops[..|ops| - 1]);
      FoundHasNoNumbers(ScanHistory.Run(History(db0, []), ops[..|ops| - 1]).db, ops[|ops| - 1]);
    }
  }

  // The stand-in node puts all deposits of a block into one transaction

  /** The block that the node builds from these deposits, as the scanner sees it. */
  function BlockOf(coin: string, ds: seq<FakeChain.Deposit>, height: int, hash: string, txid: string): CommonBlock {
    CommonBlock(height, hash, "", RawTx(if ds == [] then []
        else [FakeChain.BlockTx(txid, FakeChain.PlaceAll(ds).outs)]))
  }

  /** The node's chain after one more block, paying these deposits. */
  function ChainWith(c: Chain, ds: seq<FakeChain.Deposit>, hash: string, txid: string): Chain
    requires c.best in c.hashes
  {
    FakeChain.Extend(c, ds, hash, txid).value
  }

  /** On a linked chain the new block is the block of the chain at its best height, and converts to BlockOf. */
  lemma BlockOfIsBuilt(coin: string, c: Chain, base: int, ds: seq<FakeChain.Deposit>, hash: string, txid: string)
    requires FakeChain.Linked(c, base) && hash != "" && hash !in c.blocks && ds != []
    ensures c.best in c.hashes && FakeChain.Linked(ChainWith(c, ds, hash, txid), base)
    ensures var c' := ChainWith(c, ds, hash, txid);
            && c'.best == c.best + 1 && c'.best in c'.hashes && c'.hashes[c'.best] == hash && hash in c'.blocks
            && ToCommonBlock(coin, c'.blocks[hash]) == Some(BlockOf(coin, ds, c'.best, hash, txid))
            && IsBlock(coin, c', BlockOf(coin, ds, c'.best, hash, txid))
  {
    FakeChain.ExtendLinked(c, base, ds, hash, txid);
    assert FakeChain.LinkedAt(c, c.best);
  }

  /** The deposit that the scanner should find for a deposit given to the node. */
  function DepositFor(coin: string, p: FakeChain.Deposit, height: int, txid: string): Deposit {
    Deposit(coin, p.address, p.value, height, txid, 0, NotProcessed)
  }

  lemma {:induction false} OutputsArePaid(coin: string, ds: seq<FakeChain.Deposit>, b: FakeChain.Block, txid: string,
                                         watched: set<string>, d: Deposit)
    requires FakeChain.Increasing(ds) && d.address != ""
    requires b.txs == [FakeChain.BlockTx(txid, FakeChain.PlaceAll(ds).outs)]
    ensures (exists i, j :: Pays(b, coin, watched, d, i, j)) <==>
            exists k :: 0 <= k < |ds| && ds[k].address in watched && d == DepositFor(coin, ds[k], b.height, txid)
  {
    if i, j :| Pays(b, coin, watched, d, i, j) {
      FakeChain.OutputsExact(ds, j);
      var k :| 0 <= k < |ds| && ds[k].n == j;
      assert d == DepositFor(coin, ds[k], b.height, txid);
    }
    if k :| 0 <= k < |ds| && ds[k].address in watched && d == DepositFor(coin, ds[k], b.height, txid) {
      FakeChain.PlacedLength(ds);
      assert k == |ds| - 1 || ds[k].n < ds[|ds| - 1].n;
      FakeChain.OutputsExact(ds, ds[k].n);
      assert Pays(b, coin, watched, d, 0, ds[k].n);
    }
  }

  /** From the node's input to the scanner's finds: with increasing indices, a scan of the newest block of a linked
      chain finds exactly the given deposits to watched addresses, under the block's height and transaction. */
  lemma GivenDepositsFound(coin: string, c: Chain, base: int, ds: seq<FakeChain.Deposit>, hash: string, txid: string,
                           watched: set<string>, d: Deposit)
    requires FakeChain.Linked(c, base) && hash != "" && hash !in c.blocks && ds != []
    requires FakeChain.Increasing(ds) && d.address != ""
    ensures c.best in c.hashes && hash in ChainWith(c, ds, hash, txid).blocks
    ensures var block := ToCommonBlock(coin, ChainWith(c, ds, hash, txid).blocks[hash]);
            block.Some? &&
            (d in Matches(block.value, coin, watched) <==>
               exists k :: 0 <= k < |ds| && ds[k].address in watched &&
                           d == DepositFor(coin, ds[k], c.best + 1, txid))
  {
    assert FakeChain.LinkedAt(c, c.best);
    BlockOfIsBuilt(coin, c, base, ds, hash, txid);
    var b := ChainWith(c, ds, hash, txid).blocks[hash];
    PaymentsFound(coin, b, watched, d);
    OutputsArePaid(coin, ds, b, txid, watched, d);
  }

  /** However many payments the newest block of a linked chain holds, a scan of it stores at most one of them. */
  lemma NodeBlockStoresOne(coin: string, c: Chain, base: int, ds: seq<FakeChain.Deposit>, hash: string, txid: string,
                           watched: set<string>, m: Bucket)
    requires FakeChain.Linked(c, base) && hash != "" && hash !in c.blocks && ds != []
    ensures c.best in c.hashes && hash in ChainWith(c, ds, hash, txid).blocks
    ensures var block := ToCommonBlock(coin, ChainWith(c, ds, hash, txid).blocks[hash]);
            block.Some? && IsBlock(coin, ChainWith(c, ds, hash, txid), block.value) &&
            |Fresh(m, Matches(block.value, coin, watched))| <= 1
  {
    BlockOfIsBuilt(coin, c, base, ds, hash, txid);
    OneTransactionStoresOne(coin, ds, c.best + 1, hash, txid, watched, m);
  }

  lemma OneTransactionStoresOne(coin: string, ds: seq<FakeChain.Deposit>, height: int, hash: string, txid: string,
                                watched: set<string>, m: Bucket)
    ensures |Fresh(m, Matches(BlockOf(coin, ds, height, hash, txid), coin, watched))| <= 1
  {
    var block := BlockOf(coin, ds, height, hash, txid);
    var found := Matches(block, coin, watched);
    var txs := if ds == [] then [] else [FakeChain.BlockTx(txid, FakeChain.PlaceAll(ds).outs)];
    RawTxHasNoNumbers(txs);
    assert ds != [] ==> txs[..0] == [] && RawTx(txs) == [] + [CommonTx(txid, Vouts(txs[0].outs))];
    forall d | d in found ensures d.tx == txid && d.n == 0 {
      MatchesExact(block, coin, watched, d);
      var i, j, k :| IsMatch(block, coin, watched, d, i, j, k);
      assert block.rawTx[i] in block.rawTx && block.rawTx[i].vout[j] in block.rawTx[i].vout;
    }
    FreshExact(m, found);
    var stored := Fresh(m, found);
    if |stored| > 1 {
      assert stored[0] in stored && stored[1] in stored;
      IdentifierInjective(stored[0], stored[1]);
    }
  }

  /** Two payments in one transaction. */
  function TwoPayments(a: string, v: int64, b: string, w: int64): seq<FakeChain.Deposit> {
    [FakeChain.Deposit(a, v, 0), FakeChain.Deposit(b, w, 1)]
  }

  function Payment(a: string, v: int64, height: int, txid: string): Deposit {
    Deposit(COIN_BTC, a, v, height, txid, 0, NotProcessed)
  }

  lemma TwoPaymentsPlaced(a: string, v: int64, b: string, w: int64)
    ensures FakeChain.PlaceAll(TwoPayments(a, v, b, w)).outs == [FakeChain.TxOut(v, a), FakeChain.TxOut(w, b)]
  {
    var ds, outs := TwoPayments(a, v, b, w), [FakeChain.TxOut(v, a), FakeChain.TxOut(w, b)];
    assert ds[..1] == [ds[0]] && ds[..1][..0] == [];
    assert FakeChain.PlaceAll([ds[0]]) == FakeChain.Outputs(outs[..1], 1);
  }

  function TwoOutputs(a: string, v: int64, b: string, w: int64, txid: string): CommonTx {
    CommonTx(txid, [CommonVout(v, 0, [a]), CommonVout(w, 0, [b])])
  }

  lemma TwoPaymentsConverted(a: string, v: int64, b: string, w: int64, height: int, hash: string, txid: string)
    ensures BlockOf(COIN_BTC, TwoPayments(a, v, b, w), height, hash, txid).rawTx == [TwoOutputs(a, v, b, w, txid)]
  {
    var outs := [FakeChain.TxOut(v, a), FakeChain.TxOut(w, b)];
    TwoPaymentsPlaced(a, v, b, w);
    assert outs[..1][..0] == [] && Vouts(outs[..1]) == [CommonVout(v, 0, [a])];
    assert Vouts(outs) == TwoOutputs(a, v, b, w, txid).vout;
    var txs := [FakeChain.BlockTx(txid, outs)];
    assert txs[..0] == [] && RawTx([]) == [];
    assert RawTx(txs) == [] + [TwoOutputs(a, v, b, w, txid)];
  }

  lemma OutputFound(block: CommonBlock, watched: set<string>, tx: CommonTx, v: CommonVout, a: string)
    requires v.addresses == [a] && a in watched && v.n == 0
    ensures MatchAddresses(block, COIN_BTC, watched, tx, v, v.addresses) == [Payment(a, v.value, block.height, tx.txid)]
  {
    assert [a][..0] == [];
  }

  lemma TwoPaymentsFound(block: CommonBlock, a: string, v: int64, b: string, w: int64, txid: string,
                         watched: set<string>)
    requires a in watched && b in watched && block.rawTx == [TwoOutputs(a, v, b, w, txid)]
    ensures Matches(block, COIN_BTC, watched) == [Payment(a, v, block.height, txid), Payment(b, w, block.height, txid)]
  {
    var tx := TwoOutputs(a, v, b, w, txid);
    OutputFound(block, watched, tx, tx.vout[0], a);
    OutputFound(block, watched, tx, tx.vout[1], b);
    assert tx.vout[..1][..0] == [] && [tx][..0] == [];
    assert MatchOuts(block, COIN_BTC, watched, tx, tx.vout[..1]) == [Payment(a, v, block.height, txid)];
    assert MatchTxs(block, COIN_BTC, watched, []) == [];
  }

  /** The newest block of a linked chain pays two watched addresses, the same or not, in one transaction: both
      payments are found and only the first is stored. */
  lemma SecondOutputIsLost(c: Chain, base: int, hash: string, txid: string, watched: set<string>,
                           a: string, v: int64, b: string, w: int64)
    requires FakeChain.Linked(c, base) && hash != "" && hash !in c.blocks && a in watched && b in watched
    ensures c.best in c.hashes && hash in ChainWith(c, TwoPayments(a, v, b, w), hash, txid).blocks
    ensures var c' := ChainWith(c, TwoPayments(a, v, b, w), hash, txid);
            var block := ToCommonBlock(COIN_BTC, c'.blocks[hash]);
            && block.Some? && IsBlock(COIN_BTC, c', block.value)
            && var found := Matches(block.value, COIN_BTC, watched);
               && found == [Payment(a, v, c'.best, txid), Payment(b, w, c'.best, txid)]
               && Fresh(map[], found) == [Payment(a, v, c'.best, txid)]
               && ValueOf(found) == v + w && ValueOf(Fresh(map[], found)) == v
  {
    BlockOfIsBuilt(COIN_BTC, c, base, TwoPayments(a, v, b, w), hash, txid);
    TwoPaymentsConverted(a, v, b, w, c.best + 1, hash, txid);
    TwoPaymentsFound(BlockOf(COIN_BTC, TwoPayments(a, v, b, w), c.best + 1, hash, txid), a, v, b, w, txid, watched);
    OneOfTwo(Payment(a, v, c.best + 1, txid), Payment(b, w, c.best + 1, txid));
  }

  lemma OneOfTwo(d: Deposit, e: Deposit)
    requires SameOutput(d, e)
    ensures Fresh(map[], [d, e]) == [d] && ValueOf([d, e]) == d.value + e.value && ValueOf([d]) == d.value
  {
    IdentifierInjective(d, e);
    assert [d, e][..1] == [d] && [d][..0] == [];
    assert PushAll(map[], []) == map[] && Fresh(map[], []) == [] && ValueOf([]) == 0;
    assert PushAll(map[], [d]) == map[d.ID() := d] && Fresh(map[], [d]) == [d];
    assert ValueOf([d]) == ValueOf([]) + d.value;
  }

  /** Two payments of 5 to one address in one transaction: 10 are found and 5 stored, though each find is in the
      store. */
  lemma EqualOutputIsLost(c: Chain, base: int, hash: string, txid: string)
    requires FakeChain.Linked(c, base) && hash != "" && hash !in c.blocks
    ensures c.best in c.hashes && hash in ChainWith(c, TwoPayments("a", 5, "a", 5), hash, txid).blocks
    ensures var block := ToCommonBlock(COIN_BTC, ChainWith(c, TwoPayments("a", 5, "a", 5), hash, txid).blocks[hash]);
            && block.Some?
            && var found := Matches(block.value, COIN_BTC, {"a"});
               && ValueOf(found) == 10 && ValueOf(Fresh(map[], found)) == 5
               && forall d :: d in found ==> Kept(PushAll(map[], found), d)
  {
    SecondOutputIsLost(c, base, hash, txid, {"a"}, "a", 5, "a", 5);
    EqualOnesAreKept(Payment("a", 5, c.best + 1, txid));
  }

  lemma EqualOnesAreKept(d: Deposit)
    ensures forall e :: e in [d, d] ==> Kept(PushAll(map[], [d, d]), e)
  {
    AllKeptIff(map[], [d, d]);
  }
}

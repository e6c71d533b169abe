/**
 The scanner's store: the scan-address lists, the bucket of scanned deposits, and the transaction that scans one
 block. Scanning with repeats, aborted transactions and restarts is proved to leave exactly what one clean scan
 leaves.
 */
module ScanStore {
  import opened Common
  import opened Deposits

  datatype CommonVout = CommonVout(value: int64, n: uint32, addresses: seq<string>)
  datatype CommonTx = CommonTx(txid: string, vout: seq<CommonVout>)
  datatype CommonBlock = CommonBlock(height: int, hash: string, nextHash: string, rawTx: seq<CommonTx>)

  type Bucket = map<string, Deposit>

  /** The scanner's buckets. A coin has a key in scanMeta once AddSupportedCoin has created its bucket. */
  datatype ScanDb = ScanDb(scanMeta: map<string, seq<string>>, deposits: Bucket)

  datatype ScanError =
    | UnsupportedCoinType
    | BucketNotExist
    | DuplicateDepositAddress(address: string)
    | ObjectNotExist
    | IdMismatch

  // Matching the outputs of a block

  function MatchAddresses(block: CommonBlock, coin: string, watched: set<string>,
                          tx: CommonTx, v: CommonVout, addresses: seq<string>): seq<Deposit>
  {
    if addresses == [] then []
    else
      var a := addresses[|addresses| - 1];
      MatchAddresses(block, coin, watched, tx, v, addresses[..|addresses| - 1]) +
      if a in watched then [Deposit(coin, a, v.value, block.height, tx.txid, v.n, NotProcessed)] else []
  }

  function MatchOuts(block: CommonBlock, coin: string, watched: set<string>,
                     tx: CommonTx, vout: seq<CommonVout>): seq<Deposit>
  {
    if vout == [] then []
    else
      var v := vout[|vout| - 1];
      MatchOuts(block, coin, watched, tx, vout[..|vout| - 1]) +
      MatchAddresses(block, coin, watched, tx, v, v.addresses)
  }

  function MatchTxs(block: CommonBlock, coin: string, watched: set<string>, txs: seq<CommonTx>): seq<Deposit> {
    if txs == [] then []
    else
      var tx := txs[|txs| - 1];
      MatchTxs(block, coin, watched, txs[..|txs| - 1]) + MatchOuts(block, coin, watched, tx, tx.vout)
  }

  /** The deposits of a block to the watched addresses, in block order. */
  function Matches(block: CommonBlock, coin: string, watched: set<string>): seq<Deposit> {
    MatchTxs(block, coin, watched, block.rawTx)
  }

  /** d pays watched address number k of output j of transaction i. */
  ghost predicate IsMatch(block: CommonBlock, coin: string, watched: set<string>, d: Deposit, i: int, j: int, k: int) {
    && 0 <= i < |block.rawTx|
    && 0 <= j < |block.rawTx[i].vout|
    && 0 <= k < |block.rawTx[i].vout[j].addresses|
    && var v := block.rawTx[i].vout[j];
       v.addresses[k] in watched &&
       d == Deposit(coin, v.addresses[k], v.value, block.height, block.rawTx[i].txid, v.n, NotProcessed)
  }

  lemma {:induction false} MatchAddressesExact(block: CommonBlock, coin: string, watched: set<string>,
                                               tx: CommonTx, v: CommonVout, addresses: seq<string>, d: Deposit)
    ensures d in MatchAddresses(block, coin, watched, tx, v, addresses) <==>
            exists k :: 0 <= k < |addresses| && addresses[k] in watched &&
                        d == Deposit(coin, addresses[k], v.value, block.height, tx.txid, v.n, NotProcessed)
  {
    if addresses != [] {
      var n := |addresses| - 1;
      MatchAddressesExact(block, coin, watched, tx, v, addresses[..n], d);
      assert forall k :: 0 <= k < n ==> addresses[..n][k] == addresses[k];
    }
  }

  lemma {:induction false} MatchOutsExact(block: CommonBlock, coin: string, watched: set<string>,
                                          tx: CommonTx, vout: seq<CommonVout>, d: Deposit)
    ensures d in MatchOuts(block, coin, watched, tx, vout) <==>
            exists j :: 0 <= j < |vout| && d in MatchAddresses(block, coin, watched, tx, vout[j], vout[j].addresses)
  {
    if vout != [] {
      var n := |vout| - 1;
      MatchOutsExact(block, coin, watched, tx, vout[..n], d);
      assert forall j :: 0 <= j < n ==> vout[..n][j] == vout[j];
    }
  }

  lemma {:induction false} MatchTxsExact(block: CommonBlock, coin: string, watched: set<string>, txs: seq<CommonTx>,
                                         d: Deposit)
    ensures d in MatchTxs(block, coin, watched, txs) <==>
            exists i :: 0 <= i < |txs| && d in MatchOuts(block, coin, watched, txs[i], txs[i].vout)
  {
    if txs != [] {
      var n := |txs| - 1;
      MatchTxsExact(block, coin, watched, txs[..n], d);
      assert forall i :: 0 <= i < n ==> txs[..n][i] == txs[i];
    }
  }

  /** Scanning a block finds every output to a watched address and nothing else. */
  lemma MatchesExact(block: CommonBlock, coin: string, watched: set<string>, d: Deposit)
    ensures d in Matches(block, coin, watched) <==> exists i, j, k :: IsMatch(block, coin, watched, d, i, j, k)
  {
    MatchTxsExact(block, coin, watched, block.rawTx, d);
    if d in Matches(block, coin, watched) {
      var i :| 0 <= i < |block.rawTx| && d in MatchOuts(block, coin, watched, block.rawTx[i], block.rawTx[i].vout);
      var tx := block.rawTx[i];
      MatchOutsExact(block, coin, watched, tx, tx.vout, d);
      var j :| 0 <= j < |tx.vout| && d in MatchAddresses(block, coin, watched, tx, tx.vout[j], tx.vout[j].addresses);
      var v := tx.vout[j];
      MatchAddressesExact(block, coin, watched, tx, v, v.addresses, d);
      var k :| 0 <= k < |v.addresses| && v.addresses[k] in watched &&
               d == Deposit(coin, v.addresses[k], v.value, block.height, tx.txid, v.n, NotProcessed);
      assert IsMatch(block, coin, watched, d, i, j, k);
    }
    if i, j, k :| IsMatch(block, coin, watched, d, i, j, k) {
      var tx := block.rawTx[i];
      var v := tx.vout[j];
      MatchAddressesExact(block, coin, watched, tx, v, v.addresses, d);
      MatchOutsExact(block, coin, watched, tx, tx.vout, d);
    }
  }

  // Storing deposits: the first one with a given identifier wins

  function Push(m: Bucket, d: Deposit): Bucket {
    if d.ID() in m then m else m[d.ID() := d]
  }

  function PushAll(m: Bucket, ds: seq<Deposit>): Bucket {
    if ds == [] then m else Push(PushAll(m, ds[..|ds| - 1]), ds[|ds| - 1])
  }

  /** The deposits of ds that PushAll really stores, in order: what ScanBlock returns. */
  function Fresh(m: Bucket, ds: seq<Deposit>): seq<Deposit> {
    if ds == [] then []
    else
      var init := ds[..|ds| - 1];
      var d := ds[|ds| - 1];
      Fresh(m, init) + if d.ID() in PushAll(m, init) then [] else [d]
  }

  ghost predicate FirstAt(ds: seq<Deposit>, id: string, k: int) {
    0 <= k < |ds| && ds[k].ID() == id && forall j :: 0 <= j < k ==> ds[j].ID() != id
  }

  /** What PushAll leaves under each identifier: the old entry, else the first deposit that has it. */
  lemma {:induction false} PushAllFirstWins(m: Bucket, ds: seq<Deposit>, id: string)
    ensures id in PushAll(m, ds) <==> id in m || exists k :: FirstAt(ds, id, k)
    ensures id in m ==> PushAll(m, ds)[id] == m[id]
    ensures forall k :: id !in m && FirstAt(ds, id, k) ==> PushAll(m, ds)[id] == ds[k]
  {
    if ds != [] {
      var n := |ds| - 1;
      PushAllFirstWins(m, ds[..n], id);
      assert forall k :: 0 <= k < n ==> (FirstAt(ds[..n], id, k) <==> FirstAt(ds, id, k));
      if ds[n].ID() == id && id !in PushAll(m, ds[..n]) {
        if j :| 0 <= j < n && ds[j].ID() == id {
          FirstExists(ds[..n], id, j);
        }
        assert FirstAt(ds, id, n);
      }
    }
  }

  lemma {:induction false} FirstExists(ds: seq<Deposit>, id: string, j: int)
    requires 0 <= j < |ds| && ds[j].ID() == id
    ensures exists k :: FirstAt(ds, id, k)
    decreases j
  {
    if i :| 0 <= i < j && ds[i].ID() == id {
      FirstExists(ds, id, i);
    } else {
      assert FirstAt(ds, id, j);
    }
  }

  lemma {:induction false} PushAllConcat(m: Bucket, a: seq<Deposit>, b: seq<Deposit>)
    ensures PushAll(m, a + b) == PushAll(PushAll(m, a), b)
  {
    if b == [] {
      assert a + b == a;
    } else {
      var n := |b| - 1;
      PushAllConcat(m, a, b[..n]);
      assert (a + b)[..|a + b| - 1] == a + b[..n];
    }
  }

  lemma FreshOneMore(m: Bucket, ds: seq<Deposit>, init: seq<Deposit>, d: Deposit)
    requires ds == init + [d]
    ensures Fresh(m, ds) == Fresh(m, init) + if d.ID() in PushAll(m, init) then [] else [d]
  {
    assert ds[..|ds| - 1] == init;
  }

  lemma Associative<T>(a: seq<T>, b: seq<T>, c: seq<T>)
    ensures (a + b) + c == a + (b + c)
  {
  }

  lemma {:induction false} FreshConcat(m: Bucket, a: seq<Deposit>, b: seq<Deposit>)
    ensures Fresh(m, a + b) == Fresh(m, a) + Fresh(PushAll(m, a), b)
  {
    if b == [] {
      assert a + b == a;
    } else {
      hide Fresh, PushAll;
      var init, d := b[..|b| - 1], b[|b| - 1];
      FreshConcat(m, a, init);
      PushAllConcat(m, a, init);
      assert b == init + [d];
      Associative(a, init, [d]);
      FreshOneMore(m, a + b, a + init, d);
      FreshOneMore(PushAll(m, a), b, init, d);
      Associative(Fresh(m, a), Fresh(PushAll(m, a), init), if d.ID() in PushAll(m, a + init) then [] else [d]);
    }
  }

  /** Everything that is returned is stored as returned, and no identifier is returned twice. */
  lemma {:induction false} FreshExact(m: Bucket, ds: seq<Deposit>)
    ensures forall d :: d in Fresh(m, ds) ==>
              d in ds && d.ID() !in m && d.ID() in PushAll(m, ds) && PushAll(m, ds)[d.ID()] == d
    ensures forall id :: id in PushAll(m, ds) ==> id in m || exists d :: d in Fresh(m, ds) && d.ID() == id
    ensures forall i, j :: 0 <= i < j < |Fresh(m, ds)| ==> Fresh(m, ds)[i].ID() != Fresh(m, ds)[j].ID()
    ensures forall id :: id in m ==> id in PushAll(m, ds) && PushAll(m, ds)[id] == m[id]
  {
    if ds != [] {
      var n := |ds| - 1;
      var f := Fresh(m, ds[..n]);
      FreshExact(m, ds[..n]);
      assert forall k :: 0 <= k < |f| ==> f[k] in f;
      if ds[n].ID() !in PushAll(m, ds[..n]) {
        assert ds[n] in Fresh(m, ds);
      }
    }
  }

  // When nothing is lost by sharing an identifier

  /** Equal up to the status. */
  predicate SameData(a: Deposit, b: Deposit) {
    a.(status := b.status) == b
  }

  /** The bucket holds d as itself. */
  predicate Kept(m: Bucket, d: Deposit) {
    d.ID() in m && SameData(m[d.ID()], d)
  }

  /** No deposit of the list meets another one under its identifier, in the bucket or in the list. */
  ghost predicate NoClash(m: Bucket, ds: seq<Deposit>) {
    && (forall d :: d in ds && d.ID() in m ==> SameData(m[d.ID()], d))
    && (forall d, e :: d in ds && e in ds && d.tx == e.tx && d.n == e.n ==> SameData(d, e))
  }

  /** Storing a list keeps every deposit of it exactly when no two different ones, stored before or in the list, are
      the same output number of the same transaction. */
  lemma AllKeptIff(m: Bucket, ds: seq<Deposit>)
    ensures (forall d :: d in ds ==> Kept(PushAll(m, ds), d)) <==> NoClash(m, ds)
  {
    forall d | d in ds
      ensures d.ID() in m ==> d.ID() in PushAll(m, ds) && PushAll(m, ds)[d.ID()] == m[d.ID()]
      ensures exists k :: FirstAt(ds, d.ID(), k)
      ensures forall k :: d.ID() !in m && FirstAt(ds, d.ID(), k) ==>
              d.ID() in PushAll(m, ds) && PushAll(m, ds)[d.ID()] == ds[k]
    {
      var k :| 0 <= k < |ds| && ds[k] == d;
      FirstExists(ds, d.ID(), k);
      PushAllFirstWins(m, ds, d.ID());
    }
    forall d, e | d in ds && e in ds ensures d.ID() == e.ID() <==> d.tx == e.tx && d.n == e.n {
      IdentifierInjective(d, e);
    }
    if NoClash(m, ds) {
      forall d | d in ds ensures Kept(PushAll(m, ds), d) {
        var k :| FirstAt(ds, d.ID(), k);
        assert ds[k] in ds;
      }
    }
  }

  predicate SameOutput(a: Deposit, b: Deposit) {
    a.tx == b.tx && a.n == b.n
  }

  lemma TakenIff(m: Bucket, ds: seq<Deposit>, d: Deposit)
    ensures d.ID() in PushAll(m, ds) <==> d.ID() in m || exists i :: 0 <= i < |ds| && SameOutput(ds[i], d)
  {
    PushAllFirstWins(m, ds, d.ID());
    forall i | 0 <= i < |ds| ensures SameOutput(ds[i], d) <==> ds[i].ID() == d.ID() {
      IdentifierInjective(ds[i], d);
    }
    if i :| 0 <= i < |ds| && SameOutput(ds[i], d) {
      FirstExists(ds, d.ID(), i);
    }
  }

  /** The deposits of the list are new to the bucket and no two of them are the same output. */
  ghost predicate AllNew(m: Bucket, ds: seq<Deposit>) {
    && (forall i :: 0 <= i < |ds| ==> ds[i].ID() !in m)
    && (forall i, j :: 0 <= i < j < |ds| ==> !SameOutput(ds[i], ds[j]))
  }

  lemma AllNewStep(m: Bucket, init: seq<Deposit>, d: Deposit, ds: seq<Deposit>)
    requires ds == init + [d]
    ensures AllNew(m, ds) <==> AllNew(m, init) && d.ID() !in PushAll(m, init)
  {
    TakenIff(m, init, d);
    assert forall i :: 0 <= i < |init| ==> ds[i] == init[i];
    assert ds[|init|] == d;
  }

  function ValueOf(ds: seq<Deposit>): int {
    if ds == [] then 0 else ValueOf(ds[..|ds| - 1]) + ds[|ds| - 1].value
  }

  lemma ValueSnoc(ds: seq<Deposit>, d: Deposit)
    ensures ValueOf(ds + [d]) == ValueOf(ds) + d.value
  {
    assert (ds + [d])[..|ds|] == ds;
  }

  /** Storing a list makes one new entry for each of its positions exactly when their outputs are distinct and new, and
      fewer otherwise. */
  lemma {:induction false} AllFreshIff(m: Bucket, ds: seq<Deposit>)
    ensures if AllNew(m, ds) then Fresh(m, ds) == ds else |Fresh(m, ds)| < |ds|
  {
    if ds == [] {
      return;
    }
    hide Fresh, PushAll, AllNew;
    var init, d := ds[..|ds| - 1], ds[|ds| - 1];
    assert ds == init + [d];
    AllFreshIff(m, init);
    AllNewStep(m, init, d, ds);
    FreshOneMore(m, ds, init, d);
  }

  lemma ValueStep(m: Bucket, init: seq<Deposit>, d: Deposit, ds: seq<Deposit>)
    requires ds == init + [d]
    ensures ValueOf(ds) == ValueOf(init) + d.value
    ensures ValueOf(Fresh(m, ds)) == ValueOf(Fresh(m, init)) + if d.ID() in PushAll(m, init) then 0 else d.value
  {
    hide *;
    FreshOneMore(m, ds, init, d);
    ValueSnoc(init, d);
    ValueSnoc(Fresh(m, init), d);
    assert Fresh(m, init) + [] == Fresh(m, init);
  }

  /** When all values are positive, storing a list stores its whole value exactly then, and less otherwise. */
  lemma {:induction false} AllValueIff(m: Bucket, ds: seq<Deposit>)
    requires forall d :: d in ds ==> d.value > 0
    ensures ValueOf(Fresh(m, ds)) <= ValueOf(ds)
    ensures ValueOf(Fresh(m, ds)) == ValueOf(ds) <==> AllNew(m, ds)
  {
    if ds == [] {
      return;
    }
    hide *;
    var init, d := ds[..|ds| - 1], ds[|ds| - 1];
    assert ds == init + [d] && d in ds;
    AllValueIff(m, init);
    AllNewStep(m, init, d, ds);
    ValueStep(m, init, d, ds);
  }

  // Transactions of the store, as functions of the buckets

  function ScanAddresses(db: ScanDb, coin: string): Result<seq<string>, ScanError> {
    if !SupportedCoin(coin) then Err(UnsupportedCoinType)
    else if coin !in db.scanMeta then Err(BucketNotExist)
    else Ok(db.scanMeta[coin])
  }

  function AddAddress(db: ScanDb, addr: string, coin: string): Result<ScanDb, ScanError> {
    var addrs :- ScanAddresses(db, coin);
    if addr in addrs then Err(DuplicateDepositAddress(addr))
    else Ok(db.(scanMeta := db.scanMeta[coin := addrs + [addr]]))
  }

  function AsSet(s: seq<string>): set<string> {
    set a | a in s
  }

  function Scan(db: ScanDb, block: CommonBlock, coin: string): Result<(ScanDb, seq<Deposit>), ScanError> {
    var addrs :- ScanAddresses(db, coin);
    var found := Matches(block, coin, AsSet(addrs));
    Ok((db.(deposits := PushAll(db.deposits, found)), Fresh(db.deposits, found)))
  }

  function Process(db: ScanDb, id: string): Result<ScanDb, ScanError> {
    if id !in db.deposits then Err(ObjectNotExist)
    else if db.deposits[id].ID() != id then Err(IdMismatch)
    else Ok(db.(deposits := db.deposits[id := db.deposits[id].(status := Accepted)]))
  }

  /** The NotProcessed deposits among the given keys, in that order. */
  ghost function UnprocessedOf(m: Bucket, ks: seq<string>): (ds: seq<Deposit>)
    requires forall k :: k in ks ==> k in m
  {
    if ks == [] then []
    else
      var k := ks[|ks| - 1];
      UnprocessedOf(m, ks[..|ks| - 1]) + if m[k].status.NotProcessed? then [m[k]] else []
  }

  ghost function Unprocessed(m: Bucket): (ds: seq<Deposit>) {
    UnprocessedOf(m, KeysInOrder(m.Keys))
  }

  lemma UnprocessedStep(m: Bucket, ks: seq<string>, i: nat)
    requires i < |ks| && forall k :: k in ks ==> k in m
    ensures ks[i] in m
    ensures UnprocessedOf(m, ks[..i + 1]) ==
            UnprocessedOf(m, ks[..i]) + if m[ks[i]].status.NotProcessed? then [m[ks[i]]] else []
  {
    assert ks[..i + 1][..i] == ks[..i];
  }

  lemma {:induction false} UnprocessedOfExact(m: Bucket, ks: seq<string>, d: Deposit)
    requires forall k :: k in ks ==> k in m
    ensures d in UnprocessedOf(m, ks) <==> exists k :: k in ks && m[k] == d && d.status.NotProcessed?
  {
    if ks != [] {
      var n := |ks| - 1;
      UnprocessedOfExact(m, ks[..n], d);
      assert forall k :: k in ks <==> k in ks[..n] || k == ks[n];
    }
  }

  /** The start-up list holds exactly the deposits not processed yet. */
  lemma UnprocessedExact(m: Bucket, d: Deposit)
    ensures d in Unprocessed(m) <==> exists id :: id in m && m[id] == d && d.status.NotProcessed?
  {
    UnprocessedOfExact(m, KeysInOrder(m.Keys), d);
  }

  ghost predicate Keyed(m: Bucket) {
    forall id :: id in m ==> m[id].ID() == id
  }

  lemma ListedIff(m: Bucket, d: Deposit)
    requires Keyed(m)
    ensures d in Unprocessed(m) <==> d.ID() in m && m[d.ID()] == d && d.status.NotProcessed?
  {
    UnprocessedExact(m, d);
  }

  lemma {:induction false} UnprocessedOfInOrder(m: Bucket, ks: seq<string>)
    requires Keyed(m) && Ascending(ks) && forall k :: k in ks ==> k in m
    ensures forall i, j :: 0 <= i < j < |UnprocessedOf(m, ks)| ==>
              Less(UnprocessedOf(m, ks)[i].ID(), UnprocessedOf(m, ks)[j].ID())
    ensures forall d :: d in UnprocessedOf(m, ks) ==> d.ID() in ks
  {
    if ks != [] {
      var init, k := ks[..|ks| - 1], ks[|ks| - 1];
      UnprocessedOfInOrder(m, init);
      var before := UnprocessedOf(m, init);
      forall i | 0 <= i < |before| ensures Less(before[i].ID(), k) {
        assert before[i] in before;
      }
    }
  }

  /** The start-up list is in the order of the identifiers, so together with its members it is determined. */
  lemma UnprocessedInOrder(m: Bucket)
    requires Keyed(m)
    ensures forall i, j :: 0 <= i < j < |Unprocessed(m)| ==> Less(Unprocessed(m)[i].ID(), Unprocessed(m)[j].ID())
  {
    UnprocessedOfInOrder(m, KeysInOrder(m.Keys));
  }

  /** Marking a deposit takes it, and nothing else, off the next start-up list. */
  lemma MarkedLeavesList(m: Bucket, id: string, m': Bucket, d: Deposit)
    requires Keyed(m) && m' == if id in m then m[id := m[id].(status := Accepted)] else m
    ensures d in Unprocessed(m') <==> d in Unprocessed(m) && d.ID() != id
  {
    hide Unprocessed;
    ListedIff(m, d);
    ListedIff(m', d);
  }

  /** The store object; a method that fails leaves the buckets as they were. */
  class Store {
    var scanMeta: map<string, seq<string>>
    var deposits: Bucket

    ghost function Db(): ScanDb
      reads this
    {
      ScanDb(scanMeta, deposits)
    }

    constructor ()
      ensures Db() == ScanDb(map[], map[])
    {
      scanMeta, deposits := map[], map[];
    }

    method AddSupportedCoin(coin: string) returns (r: Result<(), ScanError>)
      modifies this`scanMeta
      ensures r == if SupportedCoin(coin) then Ok(()) else Err(UnsupportedCoinType)
      ensures scanMeta == if SupportedCoin(coin) && coin !in old(scanMeta) then old(scanMeta)[coin := []]
              else old(scanMeta)
    {
      if !SupportedCoin(coin) {
        return Err(UnsupportedCoinType);
      }
      if coin !in scanMeta {
        scanMeta := scanMeta[coin := []];
      }
      return Ok(());
    }

    method GetScanAddresses(coin: string) returns (r: Result<seq<string>, ScanError>)
      ensures r == ScanAddresses(Db(), coin)
    {
      if !SupportedCoin(coin) {
        return Err(UnsupportedCoinType);
      }
      if coin !in scanMeta {
        return Err(BucketNotExist);
      }
      return Ok(scanMeta[coin]);
    }

    method AddScanAddress(addr: string, coin: string) returns (r: Result<(), ScanError>)
      modifies this`scanMeta
      ensures match AddAddress(old(Db()), addr, coin)
              case Ok(db) => r == Ok(()) && Db() == db
              case Err(e) => r == Err(e) && Db() == old(Db())
    {
      var addrs := GetScanAddresses(coin);
      if addrs.Err? {
        return Err(addrs.error);
      }
      for i := 0 to |addrs.value|
        invariant addr !in addrs.value[..i]
      {
        if addrs.value[i] == addr {
          return Err(DuplicateDepositAddress(addr));
        }
      }
      scanMeta := scanMeta[coin := addrs.value + [addr]];
      return Ok(());
    }

    method SetDepositProcessed(key: string) returns (r: Result<(), ScanError>)
      modifies this`deposits
      ensures match Process(old(Db()), key)
              case Ok(db) => r == Ok(()) && Db() == db
              case Err(e) => r == Err(e) && Db() == old(Db())
    {
      if key !in deposits {
        return Err(ObjectNotExist);
      }
      var dv := deposits[key];
      if dv.ID() != key {
        return Err(IdMismatch);
      }
      dv := dv.(status := Accepted);
      deposits := deposits[dv.ID() := dv];
      return Ok(());
    }

    method GetUnprocessedDeposits() returns (dvs: seq<Deposit>)
      ensures dvs == Unprocessed(deposits)
    {
      dvs := [];
      var ks := ForEachKey(deposits.Keys);
      for i := 0 to |ks|
        invariant dvs == UnprocessedOf(deposits, ks[..i])
      {
        UnprocessedStep(deposits, ks, i);
        var dv := deposits[ks[i]];
        if dv.status.NotProcessed? {
          dvs := dvs + [dv];
        }
      }
      assert ks[..|ks|] == ks;
    }

    method ScanBlock(block: CommonBlock, coin: string) returns (r: Result<seq<Deposit>, ScanError>)
      modifies this`deposits
      ensures match Scan(old(Db()), block, coin)
              case Ok((db, stored)) => r == Ok(stored) && Db() == db
              case Err(e) => r == Err(e) && Db() == old(Db())
    {
      var addrs := GetScanAddresses(coin);
      if addrs.Err? {
        return Err(addrs.error);
      }
      var found := ScanSpecifiedBlock(block, coin, addrs.value);
      var dvs := [];
      var tx := deposits;
      for i := 0 to |found|
        invariant tx == PushAll(deposits, found[..i])
        invariant dvs == Fresh(deposits, found[..i])
      {
        assert found[..i + 1][..i] == found[..i];
        var key := found[i].ID();
        if key !in tx {
          tx := tx[key := found[i]];
          dvs := dvs + [found[i]];
        }
      }
      assert found[..|found|] == found;
      deposits := tx;
      return Ok(dvs);
    }
  }

  method ScanSpecifiedBlock(block: CommonBlock, coin: string, depositAddrs: seq<string>) returns (dv: seq<Deposit>)
    ensures dv == Matches(block, coin, AsSet(depositAddrs))
  {
    var watched := {};
    for i := 0 to |depositAddrs|
      invariant watched == AsSet(depositAddrs[..i])
    {
      watched := watched + {depositAddrs[i]};
    }
    assert depositAddrs[..|depositAddrs|] == depositAddrs;

    dv := [];
    for i := 0 to |block.rawTx|
      invariant dv == MatchTxs(block, coin, watched, block.rawTx[..i])
    {
      var found := MatchTransaction(block, coin, watched, block.rawTx[i]);
      assert block.rawTx[..i + 1][..i] == block.rawTx[..i];
      dv := dv + found;
    }
    assert block.rawTx[..|block.rawTx|] == block.rawTx;
  }

  method MatchTransaction(block: CommonBlock, coin: string, watched: set<string>, tx: CommonTx)
    returns (dv: seq<Deposit>)
    ensures dv == MatchOuts(block, coin, watched, tx, tx.vout)
  {
    dv := [];
    for j := 0 to |tx.vout|
      invariant dv == MatchOuts(block, coin, watched, tx, tx.vout[..j])
    {
      var found := MatchOutput(block, coin, watched, tx, tx.vout[j]);
      assert tx.vout[..j + 1][..j] == tx.vout[..j];
      dv := dv + found;
    }
    assert tx.vout[..|tx.vout|] == tx.vout;
  }

  method MatchOutput(block: CommonBlock, coin: string, watched: set<string>, tx: CommonTx, v: CommonVout)
    returns (dv: seq<Deposit>)
    ensures dv == MatchAddresses(block, coin, watched, tx, v, v.addresses)
  {
    dv := [];
    for k := 0 to |v.addresses|
      invariant dv == MatchAddresses(block, coin, watched, tx, v, v.addresses[..k])
    {
      var a := v.addresses[k];
      assert v.addresses[..k + 1][..k] == v.addresses[..k];
      if a in watched {
        dv := dv + [Deposit(coin, a, v.value, block.height, tx.txid, v.n, NotProcessed)];
      }
    }
    assert v.addresses[..|v.addresses|] == v.addresses;
  }
}

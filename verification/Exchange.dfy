/**
 The exchange's store and the buy step: address bindings, deposit records with their sequence numbers and per-address
 index, payment tracks, and the transaction that credits a deposit. A bolt transaction works on a copy of the buckets
 and commits by replacing them, so a failing transaction changes nothing.
 */
module Exchange {
  import opened Common
  import opened Deposits

  datatype Status = WaitDeposit | WaitSend | WaitPartial | WaitConfirm | Done | Unknown | WaitDecide

  datatype BoundAddress = BoundAddress(kittyID: string, address: string, coinType: string)

  datatype DepositInfo = DepositInfo(seq_: nat, status: Status, coinType: string, kittyID: string,
                                     depositAddress: string, depositID: string, txid: string,
                                     depositValue: int64, error: string, deposit: Deposit)

  datatype DepositTrack = DepositTrack(deposited: int64, kittyID: string, required: int64)

  datatype Price = Price(btc: int64, sky: int64)

  /** The buckets: records and their sequence counter, ids by address, tracks by address, bindings by coin and
      address, and the prices in the agent's reservation bucket. */
  datatype Db = Db(infos: map<string, DepositInfo>, lastSeq: nat, txs: map<string, seq<string>>,
                   tracks: map<string, DepositTrack>, binds: map<(string, string), BoundAddress>,
                   prices: map<string, Price>)

  datatype Invalid =
    | SeqMissing | KittyIDMissing | DepositAddressMissing | DepositIDMissing | DepositIDInvalid
    | DepositValueZero | TxidMissing | StatusNotStorable

  datatype Error =
    | UnsupportedCoinType | InvalidCoinType | CoinTypeMismatch
    | NoBoundAddress | AddressAlreadyBound
    | ObjectNotExist | AlreadyExists | KeyMismatch | KeyRequired
    | InvalidInfo(reason: Invalid)

  const ERR_EMPTY_SEND_AMOUNT := "Sending no kitty"

  // Validity of a record

  function CheckWaitSend(di: DepositInfo): Result<(), Invalid> {
    if di.seq_ == 0 then Err(SeqMissing)
    else if di.kittyID == "" then Err(KittyIDMissing)
    else if di.depositAddress == "" then Err(DepositAddressMissing)
    else if di.depositID == "" then Err(DepositIDMissing)
    else if di.coinType == COIN_BTC && !IsValidBtcTx(di.depositID) then Err(DepositIDInvalid)
    else if di.depositValue == 0 then Err(DepositValueZero)
    else Ok(())
  }

  function ValidateForStatus(di: DepositInfo): Result<(), Invalid> {
    match di.status
    case Done => if di.error != ERR_EMPTY_SEND_AMOUNT && di.txid == "" then Err(TxidMissing) else CheckWaitSend(di)
    case WaitConfirm => if di.txid == "" then Err(TxidMissing) else CheckWaitSend(di)
    case WaitSend => CheckWaitSend(di)
    case WaitPartial => CheckWaitSend(di)
    case WaitDecide => CheckWaitSend(di)
    case WaitDeposit => Err(StatusNotStorable)
    case Unknown => Err(StatusNotStorable)
  }

  // Steps inside a transaction

  function GetBindAddress(tx: Db, address: string, coin: string): Result<Option<BoundAddress>, Error> {
    if !SupportedCoin(coin) then Err(UnsupportedCoinType)
    else if (coin, address) in tx.binds then Ok(Some(tx.binds[(coin, address)]))
    else Ok(None)
  }

  function BindAddress(tx: Db, kittyID: string, address: string, coin: string): Result<Db, Error> {
    var existing :- GetBindAddress(tx, address, coin);
    if existing.Some? then Err(AddressAlreadyBound)
    else if address == "" then Err(KeyRequired)
    else Ok(tx.(binds := tx.binds[(coin, address) := BoundAddress(kittyID, address, coin)]))
  }

  function KittyPrice(tx: Db, kittyID: string, coin: string): Result<int64, Error> {
    if kittyID !in tx.prices then Err(ObjectNotExist)
    else if coin == COIN_SKY then Ok(tx.prices[kittyID].sky)
    else if coin == COIN_BTC then Ok(tx.prices[kittyID].btc)
    else Err(InvalidCoinType)
  }

  function CreateTrack(tx: Db, bound: BoundAddress): Result<Db, Error> {
    if bound.address in tx.tracks then Ok(tx)
    else
      var price :- KittyPrice(tx, bound.kittyID, bound.coinType);
      if bound.address == "" then Err(KeyRequired)
      else Ok(tx.(tracks := tx.tracks[bound.address := DepositTrack(0, bound.kittyID, price)]))
  }

  function AddInfo(tx: Db, di: DepositInfo): Result<(Db, DepositInfo), Error> {
    if di.depositID in tx.infos then Err(AlreadyExists)
    else
      var updated := di.(seq_ := tx.lastSeq + 1);
      var valid := ValidateForStatus(updated);
      if valid.Err? then Err(InvalidInfo(valid.error))
      else
        var ids := if di.depositAddress in tx.txs then tx.txs[di.depositAddress] else [];
        Ok((tx.(lastSeq := tx.lastSeq + 1,
                infos := tx.infos[di.depositID := updated],
                txs := tx.txs[di.depositAddress := ids + [di.depositID]]), updated))
  }

  function NewInfo(dv: Deposit, kittyID: string): DepositInfo {
    DepositInfo(0, WaitDecide, dv.coinType, kittyID, dv.address, dv.ID(), "", dv.value, "", dv)
  }

  // Whole transactions

  function GetOrCreate(db: Db, dv: Deposit): Result<(Db, DepositInfo), Error> {
    if dv.ID() in db.infos then Ok((db, db.infos[dv.ID()]))
    else
      var bound :- GetBindAddress(db, dv.address, dv.coinType);
      if bound.None? then Err(NoBoundAddress)
      else
        var tx :- CreateTrack(db, bound.value);
        if bound.value.coinType != dv.coinType then Err(CoinTypeMismatch)
        else AddInfo(tx, NewInfo(dv, bound.value.kittyID))
  }

  function UpdateInfo(db: Db, id: string, update: DepositInfo -> DepositInfo,
                      callback: (DepositInfo, Db) -> Result<Db, Error>): Result<(Db, DepositInfo), Error>
  {
    if id !in db.infos then Err(ObjectNotExist)
    else if db.infos[id].depositID != id then Err(KeyMismatch)
    else
      var updated := update(db.infos[id]);
      if id == "" then Err(KeyRequired)
      else
        var tx :- callback(updated, db.(infos := db.infos[id := updated]));
        Ok((tx, updated))
  }

  /** The key of the write that completes a payment: the record's Txid, as the code has it, or the record's own key. */
  datatype CompletionKey = AsWritten | Intended

  function KeyFor(key: CompletionKey, di: DepositInfo): string {
    match key case AsWritten => di.txid case Intended => di.depositID
  }

  /** The callback of updateStatus: add the deposit to the track of its address, and release the record once the track
      is full. */
  function Credit(tx: Db, di: DepositInfo, key: CompletionKey): Result<Db, Error> {
    if di.depositAddress !in tx.tracks then Err(ObjectNotExist)
    else if di.depositAddress == "" then Err(KeyRequired)
    else
      var dt := tx.tracks[di.depositAddress];
      var paid := dt.(deposited := Wrap64(dt.deposited + di.depositValue));
      var credited := tx.(tracks := tx.tracks[di.depositAddress := paid]);
      if paid.deposited < paid.required then Ok(credited)
      else if KeyFor(key, di) == "" then Err(KeyRequired)
      else Ok(credited.(infos := credited.infos[KeyFor(key, di) := di.(status := WaitSend)]))
  }

  function UpdateStatus(db: Db, di: DepositInfo, key: CompletionKey): Result<(Db, DepositInfo), Error> {
    UpdateInfo(db, di.depositID, (i: DepositInfo) => i.(status := WaitPartial), (_, tx) => Credit(tx, di, key))
  }

  // Totals over the records

  function CoinTotal(infos: map<string, DepositInfo>, ks: seq<string>, coin: string): int
    requires forall k :: k in ks ==> k in infos
  {
    if ks == [] then 0
    else
      var di := infos[ks[|ks| - 1]];
      CoinTotal(infos, ks[..|ks| - 1], coin) + if di.coinType == coin then di.depositValue else 0
  }

  function DoneCount(infos: map<string, DepositInfo>, ks: seq<string>): int
    requires forall k :: k in ks ==> k in infos
  {
    if ks == [] then 0
    else DoneCount(infos, ks[..|ks| - 1]) + if infos[ks[|ks| - 1]].status.Done? then 1 else 0
  }

  ghost function DoneAmong(infos: map<string, DepositInfo>, ks: seq<string>): set<string> {
    set id | id in ks && id in infos && infos[id].status.Done?
  }

  lemma AscendingLast(ks: seq<string>)
    requires Ascending(ks) && ks != []
    ensures Ascending(ks[..|ks| - 1]) && ks[|ks| - 1] !in ks[..|ks| - 1]
    ensures forall id :: id in ks <==> id in ks[..|ks| - 1] || id == ks[|ks| - 1]
  {
    forall i | 0 <= i < |ks| - 1 ensures ks[i] != ks[|ks| - 1] {
      LessAsymmetric(ks[i], ks[|ks| - 1]);
    }
  }

  lemma {:induction false} DoneCountOf(infos: map<string, DepositInfo>, ks: seq<string>)
    requires Ascending(ks) && forall k :: k in ks ==> k in infos
    ensures DoneCount(infos, ks) == |DoneAmong(infos, ks)|
  {
    if ks == [] {
      return;
    }
    hide Ascending;
    var init, k := ks[..|ks| - 1], ks[|ks| - 1];
    AscendingLast(ks);
    DoneCountOf(infos, init);
    var before := DoneAmong(infos, init);
    assert k !in before;
    assert DoneAmong(infos, ks) == if infos[k].status.Done? then before + {k} else before;
  }

  /** The number of records that are Done, each counted once. */
  lemma DoneCountExact(infos: map<string, DepositInfo>)
    ensures DoneCount(infos, KeysInOrder(infos.Keys)) == |set id | id in infos && infos[id].status.Done?|
  {
    var ks := KeysInOrder(infos.Keys);
    DoneCountOf(infos, ks);
    assert DoneAmong(infos, ks) == set id | id in infos && infos[id].status.Done?;
  }

  /** One step of an int64 running total. */
  function AddTo(total: int64, di: DepositInfo, coin: string): int64 {
    if di.coinType == coin then Wrap64(total + di.depositValue) else total
  }

  function RunningTotal(infos: map<string, DepositInfo>, ks: seq<string>, coin: string): int64
    requires forall k :: k in ks ==> k in infos
  {
    if ks == [] then 0 else AddTo(RunningTotal(infos, ks[..|ks| - 1], coin), infos[ks[|ks| - 1]], coin)
  }

  /** A running int64 total is the wrapped exact total. */
  lemma {:induction false} RunningTotalExact(infos: map<string, DepositInfo>, ks: seq<string>, coin: string)
    requires forall k :: k in ks ==> k in infos
    ensures RunningTotal(infos, ks, coin) == Wrap64(CoinTotal(infos, ks, coin))
  {
    if ks != [] {
      var init := ks[..|ks| - 1];
      RunningTotalExact(infos, init, coin);
      WrapAdd(CoinTotal(infos, init, coin), infos[ks[|ks| - 1]].depositValue);
    }
  }

  datatype Stats = Stats(btc: int64, sky: int64, boxes: int)

  /** What one record adds to the three running totals. */
  function Count(st: Stats, dpi: DepositInfo): Stats {
    Stats(AddTo(st.btc, dpi, COIN_BTC), AddTo(st.sky, dpi, COIN_SKY), if dpi.status.Done? then st.boxes + 1
        else st.boxes)
  }

  function CountAll(infos: map<string, DepositInfo>, ks: seq<string>): Stats
    requires forall k :: k in ks ==> k in infos
  {
    if ks == [] then Stats(0, 0, 0) else Count(CountAll(infos, ks[..|ks| - 1]), infos[ks[|ks| - 1]])
  }

  lemma CountAllStep(infos: map<string, DepositInfo>, ks: seq<string>, i: nat)
    requires i < |ks| && forall k :: k in ks ==> k in infos
    ensures CountAll(infos, ks[..i + 1]) == Count(CountAll(infos, ks[..i]), infos[ks[i]])
  {
    assert ks[..i + 1][..i] == ks[..i];
  }

  lemma {:induction false} CountAllTotals(infos: map<string, DepositInfo>, ks: seq<string>)
    requires forall k :: k in ks ==> k in infos
    ensures CountAll(infos, ks) ==
            Stats(RunningTotal(infos, ks, COIN_BTC), RunningTotal(infos, ks, COIN_SKY), DoneCount(infos, ks))
  {
    if ks != [] {
      CountAllTotals(infos, ks[..|ks| - 1]);
    }
  }

  /** The exact amount of one coin over all records. */
  ghost function Total(infos: map<string, DepositInfo>, coin: string): int {
    CoinTotal(infos, KeysInOrder(infos.Keys), coin)
  }

  /** The store object; db is the database file. */
  class Store {
    var db: Db

    constructor ()
      ensures db == Db(map[], 0, map[], map[], map[], map[])
    {
      db := Db(map[], 0, map[], map[], map[], map[]);
    }

    method BindAddressTo(kittyID: string, address: string, coin: string) returns (r: Result<BoundAddress, Error>)
      modifies this
      ensures match BindAddress(old(db), kittyID, address, coin)
              case Ok(tx) => r == Ok(BoundAddress(kittyID, address, coin)) && db == tx
              case Err(e) => r == Err(e) && db == old(db)
    {
      var tx := db;
      var existing := GetBindAddress(tx, address, coin);
      if existing.Err? {
        return Err(existing.error);
      }
      if existing.value.Some? {
        return Err(AddressAlreadyBound);
      }
      if address == "" {
        return Err(KeyRequired);
      }
      var bound := BoundAddress(kittyID, address, coin);
      tx := tx.(binds := tx.binds[(coin, address) := bound]);
      db := tx;
      return Ok(bound);
    }

    method GetOrCreateDepositInfo(dv: Deposit) returns (r: Result<DepositInfo, Error>)
      modifies this
      ensures match GetOrCreate(old(db), dv)
              case Ok((tx, di)) => r == Ok(di) && db == tx
              case Err(e) => r == Err(e) && db == old(db)
    {
      var tx := db;
      if dv.ID() in tx.infos {
        return Ok(tx.infos[dv.ID()]);
      }
      var bound := GetBindAddress(tx, dv.address, dv.coinType);
      if bound.Err? {
        return Err(bound.error);
      }
      if bound.value.None? {
        return Err(NoBoundAddress);
      }
      var boundAddr := bound.value.value;
      if boundAddr.address !in tx.tracks {
        var price := KittyPrice(tx, boundAddr.kittyID, boundAddr.coinType);
        if price.Err? {
          return Err(price.error);
        }
        if boundAddr.address == "" {
          return Err(KeyRequired);
        }
        tx := tx.(tracks := tx.tracks[boundAddr.address := DepositTrack(0, boundAddr.kittyID, price.value)]);
      }
      if boundAddr.coinType != dv.coinType {
        return Err(CoinTypeMismatch);
      }
      var di := NewInfo(dv, boundAddr.kittyID);
      tx := tx.(lastSeq := tx.lastSeq + 1);
      di := di.(seq_ := tx.lastSeq);
      var valid := ValidateForStatus(di);
      if valid.Err? {
        return Err(InvalidInfo(valid.error));
      }
      tx := tx.(infos := tx.infos[di.depositID := di]);
      var ids := [];
      if di.depositAddress in tx.txs {
        ids := tx.txs[di.depositAddress];
      }
      ids := ids + [di.depositID];
      tx := tx.(txs := tx.txs[di.depositAddress := ids]);
      db := tx;
      return Ok(di);
    }

    method UpdateDepositInfoCallback(id: string, update: DepositInfo -> DepositInfo,
                                     callback: (DepositInfo, Db) -> Result<Db, Error>)
      returns (r: Result<DepositInfo, Error>)
      modifies this
      ensures match UpdateInfo(old(db), id, update, callback)
              case Ok((tx, di)) => r == Ok(di) && db == tx
              case Err(e) => r == Err(e) && db == old(db)
    {
      var tx := db;
      if id !in tx.infos {
        return Err(ObjectNotExist);
      }
      var dpi := tx.infos[id];
      if dpi.depositID != id {
        return Err(KeyMismatch);
      }
      dpi := update(dpi);
      if id == "" {
        return Err(KeyRequired);
      }
      tx := tx.(infos := tx.infos[id := dpi]);
      var called := callback(dpi, tx);
      if called.Err? {
        return Err(called.error);
      }
      db := called.value;
      return Ok(dpi);
    }

    method GetDepositStats() returns (btc: int64, sky: int64, boxes: int)
      ensures btc == Wrap64(Total(db.infos, COIN_BTC))
      ensures sky == Wrap64(Total(db.infos, COIN_SKY))
      ensures boxes == |set id | id in db.infos && db.infos[id].status.Done?|
    {
      var totals := CountRecords(db.infos);
      ghost var ks := KeysInOrder(db.infos.Keys);
      CountAllTotals(db.infos, ks);
      RunningTotalExact(db.infos, ks, COIN_BTC);
      RunningTotalExact(db.infos, ks, COIN_SKY);
      DoneCountExact(db.infos);
      return totals.btc, totals.sky, totals.boxes;
    }
  }

  method CountRecords(infos: map<string, DepositInfo>) returns (totals: Stats)
    ensures totals == CountAll(infos, KeysInOrder(infos.Keys))
  {
    totals := Stats(0, 0, 0);
    var ks := ForEachKey(infos.Keys);
    for i := 0 to |ks|
      invariant totals == CountAll(infos, ks[..i])
    {
      CountAllStep(infos, ks, i);
      totals := Count(totals, infos[ks[i]]);
    }
    assert ks[..|ks|] == ks;
  }

  class Buy {
    const store: Store
    const key: CompletionKey

    constructor (store: Store, key: CompletionKey)
      ensures this.store == store && this.key == key
    {
      this.store, this.key := store, key;
    }

    method UpdateDepositStatus(di: DepositInfo) returns (r: Result<DepositInfo, Error>)
      modifies store
      ensures match UpdateStatus(old(store.db), di, key)
              case Ok((tx, updated)) => r == Ok(updated) && store.db == tx
              case Err(e) => r == Err(e) && store.db == old(store.db)
    {
      var k := key;
      r := store.UpdateDepositInfoCallback(di.depositID,
                                           (i: DepositInfo) => i.(status := WaitPartial),
                                           (_, tx) => Credit(tx, di, k));
    }
  }
}

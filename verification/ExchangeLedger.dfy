/**
 Runs of the exchange's transactions, in any order and with any redelivery: deposits are recorded, records are
 credited, addresses are bound, prices change. The ledger adds to the buckets the list of committed credits, one entry
 for each updateStatus transaction that was not rolled back.
 */
module ExchangeLedger {
  import opened Common
  import opened Deposits
  import opened Exchange

  datatype Entry = Entry(address: string, id: string, value: int64)

  datatype Ledger = Ledger(db: Db, credits: seq<Entry>)

  datatype Op =
    | Deliver(dv: Deposit)
    | Decide(id: string, status: Status)  // the record, with the status it had when it was queued
    | Bind(kittyID: string, address: string, coin: string)
    | SetPrice(kittyID: string, price: Price)

  function DeliverTo(l: Ledger, dv: Deposit): Ledger {
    match GetOrCreate(l.db, dv) case Ok((db, _)) => l.(db := db) case Err(_) => l
  }

  function DecideOn(l: Ledger, di: DepositInfo, key: CompletionKey): Ledger {
    match UpdateStatus(l.db, di, key)
    case Ok((db, _)) => Ledger(db, l.credits + [Entry(di.depositAddress, di.depositID, di.depositValue)])
    case Err(_) => l
  }

  function BindTo(l: Ledger, kittyID: string, address: string, coin: string): Ledger {
    match BindAddress(l.db, kittyID, address, coin) case Ok(db) => l.(db := db) case Err(_) => l
  }

  function SetPriceOf(l: Ledger, kittyID: string, price: Price): Ledger {
    l.(db := l.db.(prices := l.db.prices[kittyID := price]))
  }

  function Apply(l: Ledger, op: Op, key: CompletionKey): Ledger {
    match op
    case Deliver(dv) => DeliverTo(l, dv)
    case Decide(id, status) => if id in l.db.infos then DecideOn(l, l.db.infos[id].(status := status), key) else l
    case Bind(kittyID, address, coin) => BindTo(l, kittyID, address, coin)
    case SetPrice(kittyID, price) => SetPriceOf(l, kittyID, price)
  }

  function Run(l: Ledger, ops: seq<Op>, key: CompletionKey): Ledger {
    if ops == [] then l else Apply(Run(l, ops[..|ops| - 1], key), ops[|ops| - 1], key)
  }

  const EMPTY := Ledger(Db(map[], 0, map[], map[], map[], map[]), [])

  // Sums over the list of credits

  function CreditedAt(credits: seq<Entry>, address: string): int {
    if credits == [] then 0
    else
      var c := credits[|credits| - 1];
      CreditedAt(credits[..|credits| - 1], address) + if c.address == address then c.value else 0
  }

  function CreditedTo(credits: seq<Entry>, id: string): int {
    if credits == [] then 0
    else
      var c := credits[|credits| - 1];
      CreditedTo(credits[..|credits| - 1], id) + if c.id == id then c.value else 0
  }

  function TimesCredited(credits: seq<Entry>, id: string): nat {
    if credits == [] then 0
    else TimesCredited(credits[..|credits| - 1], id) + if credits[|credits| - 1].id == id then 1 else 0
  }

  // The invariant

  ghost predicate SameInfo(a: DepositInfo, b: DepositInfo) {
    a.(status := b.status) == b
  }

  /** Every binding sits under its own coin and address. */
  ghost predicate BindsKeyed(db: Db) {
    forall k :: k in db.binds ==> k.1 != "" && db.binds[k].coinType == k.0 && db.binds[k].address == k.1
  }

  /** Every record sits under its own id and carries its deposit's data. */
  ghost predicate InfosKeyed(db: Db) {
    forall id :: id in db.infos ==>
      var di := db.infos[id];
      && di.depositID == id && di.deposit.ID() == id
      && SameInfo(NewInfo(di.deposit, di.kittyID).(seq_ := di.seq_), di)
      && di.status in {WaitDecide, WaitPartial, WaitSend}
  }

  /** Every record passes the validity check. */
  ghost predicate InfosValid(db: Db) {
    forall id :: id in db.infos ==> ValidateForStatus(db.infos[id]).Ok?
  }

  ghost predicate HasSeq(infos: map<string, DepositInfo>, s: nat) {
    exists id :: id in infos && infos[id].seq_ == s
  }

  /** Sequence numbers are exactly 1..lastSeq, each used once. */
  ghost predicate Sequenced(db: Db) {
    && (forall id :: id in db.infos ==> 1 <= db.infos[id].seq_ <= db.lastSeq)
    && (forall i, j :: i in db.infos && j in db.infos && i != j ==> db.infos[i].seq_ != db.infos[j].seq_)
    && (forall s :: 1 <= s <= db.lastSeq ==> HasSeq(db.infos, s))
  }

  ghost predicate ListsAddress(infos: map<string, DepositInfo>, address: string, ids: seq<string>) {
    && (forall id :: id in ids <==> id in infos && infos[id].depositAddress == address)
    && (forall j, k :: 0 <= j < k < |ids| ==> infos[ids[j]].seq_ < infos[ids[k]].seq_)
  }

  /** The index of an address lists its records, once each, in sequence order; every recorded address is indexed and
      has a track. */
  ghost predicate Indexed(db: Db) {
    && (forall a :: a in db.txs ==> ListsAddress(db.infos, a, db.txs[a]))
    && (forall id :: id in db.infos ==>
         db.infos[id].depositAddress in db.txs && db.infos[id].depositAddress in db.tracks)
  }

  /** Every credit belongs to a record, and a record has left WaitDecide exactly when it was credited. */
  ghost predicate CreditsRecorded(l: Ledger) {
    && (forall c :: c in l.credits ==>
          c.id in l.db.infos && c.address == l.db.infos[c.id].depositAddress
              && c.value == l.db.infos[c.id].depositValue)
    && (forall id :: id in l.db.infos ==>
          (l.db.infos[id].status.WaitDecide? <==> TimesCredited(l.credits, id) == 0))
  }

  /** The amount on a track is the int64 sum of the credits of its address. */
  ghost predicate Conserved(l: Ledger) {
    && (forall a :: a in l.db.tracks ==> l.db.tracks[a].deposited == Wrap64(CreditedAt(l.credits, a)))
    && (forall a :: a !in l.db.tracks ==> CreditedAt(l.credits, a) == 0)
  }

  ghost predicate NoNegativeAt(credits: seq<Entry>, a: string) {
    forall c :: c in credits && c.address == a ==> c.value >= 0
  }

  /** A released record's address has received what its track requires, unless one of its credits is negative or their
      int64 sum overflowed. */
  ghost predicate PaidBeforeRelease(l: Ledger) {
    forall id :: id in l.db.infos && l.db.infos[id].status.WaitSend? ==>
      var a := l.db.infos[id].depositAddress;
      NoNegativeAt(l.credits, a) && CreditedAt(l.credits, a) < TWO_TO_63 ==>
        a in l.db.tracks && l.db.tracks[a].required <= CreditedAt(l.credits, a)
  }

  ghost predicate Structured(db: Db) {
    BindsKeyed(db) && InfosKeyed(db) && InfosValid(db) && Sequenced(db) && Indexed(db)
  }

  ghost predicate Inv(l: Ledger) {
    Structured(l.db) && CreditsRecorded(l) && Conserved(l) && PaidBeforeRelease(l)
  }

  // Recording a deposit

  /** The exact effect of recording a deposit for the first time. */
  ghost predicate Created(db: Db, dv: Deposit, db': Db, di: DepositInfo) {
    && dv.ID() !in db.infos && SupportedCoin(dv.coinType) && (dv.coinType, dv.address) in db.binds
    && var bound := db.binds[(dv.coinType, dv.address)];
       && di == NewInfo(dv, bound.kittyID).(seq_ := db.lastSeq + 1)
       && ValidateForStatus(di).Ok?
       && db'.infos == db.infos[dv.ID() := di] && db'.lastSeq == db.lastSeq + 1
       && db'.txs == db.txs[dv.address := (if dv.address in db.txs then db.txs[dv.address] else []) + [dv.ID()]]
       && db'.binds == db.binds && db'.prices == db.prices
       && (if dv.address in db.tracks then db'.tracks == db.tracks
           else KittyPrice(db, bound.kittyID, dv.coinType).Ok? &&
                db'.tracks == db.tracks[dv.address := DepositTrack(0, bound.kittyID,
                    KittyPrice(db, bound.kittyID, dv.coinType).value)])
  }

  /** A delivery either finds the record and changes nothing, or creates it, or fails and changes nothing. */
  lemma DeliverOutcome(db: Db, dv: Deposit)
    requires BindsKeyed(db)
    ensures match GetOrCreate(db, dv)
            case Ok((db', di)) =>
              if dv.ID() in db.infos then db' == db && di == db.infos[dv.ID()] else Created(db, dv, db', di)
            case Err(_) => dv.ID() !in db.infos
  {
  }

  lemma CreatedKeepsSequence(db: Db, dv: Deposit, db': Db, di: DepositInfo)
    requires Sequenced(db) && Created(db, dv, db', di)
    ensures Sequenced(db')
  {
    forall s | 1 <= s <= db'.lastSeq ensures HasSeq(db'.infos, s) {
      if s == db'.lastSeq {
        assert db'.infos[dv.ID()].seq_ == s;
      } else {
        assert HasSeq(db.infos, s);
        var id :| id in db.infos && db.infos[id].seq_ == s;
        assert db'.infos[id].seq_ == s;
      }
    }
  }

  lemma ListFrame(infos: map<string, DepositInfo>, infos': map<string, DepositInfo>, a: string, ids: seq<string>)
    requires ListsAddress(infos, a, ids)
    requires forall id :: id in infos && infos[id].depositAddress == a ==>
                            id in infos' && infos'[id].depositAddress == a && infos'[id].seq_ == infos[id].seq_
    requires forall id :: id in infos' && infos'[id].depositAddress == a ==>
             id in infos && infos[id].depositAddress == a
    ensures ListsAddress(infos', a, ids)
  {
    forall j | 0 <= j < |ids| ensures ids[j] in ids {}
  }

  lemma ListAppend(infos: map<string, DepositInfo>, id: string, di: DepositInfo, ids: seq<string>)
    requires ListsAddress(infos, di.depositAddress, ids) && id !in infos
    requires forall i :: i in infos ==> infos[i].seq_ < di.seq_
    ensures ListsAddress(infos[id := di], di.depositAddress, ids + [id])
  {
    forall j | 0 <= j < |ids| ensures ids[j] in ids {}
  }

  lemma CreatedKeepsIndex(db: Db, dv: Deposit, db': Db, di: DepositInfo)
    requires InfosKeyed(db) && Sequenced(db) && Indexed(db) && Created(db, dv, db', di)
    ensures Indexed(db')
  {
    forall a | a in db'.txs ensures ListsAddress(db'.infos, a, db'.txs[a]) {
      if a == dv.address {
        ListAppend(db.infos, dv.ID(), di, if a in db.txs then db.txs[a] else []);
      } else {
        ListFrame(db.infos, db'.infos, a, db.txs[a]);
      }
    }
  }

  lemma DeliverKeepsInv(l: Ledger, dv: Deposit)
    requires Inv(l)
    ensures Inv(DeliverTo(l, dv))
  {
    DeliverOutcome(l.db, dv);
    var r := GetOrCreate(l.db, dv);
    if r.Ok? && dv.ID() !in l.db.infos {
      CreatedKeepsInv(l, dv, r.value.0, r.value.1);
    }
  }

  lemma CreatedKeepsInv(l: Ledger, dv: Deposit, db': Db, di: DepositInfo)
    requires Inv(l) && Created(l.db, dv, db', di)
    ensures Inv(l.(db := db'))
  {
    CreatedKeepsStructure(l.db, dv, db', di);
    CreatedKeepsMoney(l, dv, db', di);
  }

  lemma CreatedKeepsKeys(db: Db, dv: Deposit, db': Db, di: DepositInfo)
    requires BindsKeyed(db) && InfosKeyed(db) && InfosValid(db) && Created(db, dv, db', di)
    ensures BindsKeyed(db') && InfosKeyed(db') && InfosValid(db')
  {
  }

  lemma CreatedKeepsStructure(db: Db, dv: Deposit, db': Db, di: DepositInfo)
    requires Structured(db) && Created(db, dv, db', di)
    ensures Structured(db')
  {
    CreatedKeepsKeys(db, dv, db', di);
    CreatedKeepsSequence(db, dv, db', di);
    CreatedKeepsIndex(db, dv, db', di);
  }

  lemma {:induction false} NotCredited(credits: seq<Entry>, id: string)
    requires forall c :: c in credits ==> c.id != id
    ensures TimesCredited(credits, id) == 0
  {
    if credits != [] {
      NotCredited(credits[..|credits| - 1], id);
    }
  }

  lemma CreatedKeepsMoney(l: Ledger, dv: Deposit, db': Db, di: DepositInfo)
    requires CreditsRecorded(l) && Conserved(l) && PaidBeforeRelease(l) && Created(l.db, dv, db', di)
    ensures CreditsRecorded(l.(db := db')) && Conserved(l.(db := db')) && PaidBeforeRelease(l.(db := db'))
  {
    NotCredited(l.credits, dv.ID());
  }

  // Crediting a record

  /** The exact effect of a credit that commits: the record and the track of its address change together. */
  ghost predicate Credited(db: Db, di: DepositInfo, key: CompletionKey, db': Db) {
    && di.depositID in db.infos && di.depositAddress in db.tracks
    && var dt := db.tracks[di.depositAddress];
       var paid := dt.(deposited := Wrap64(dt.deposited + di.depositValue));
       && db' == db.(tracks := db.tracks[di.depositAddress := paid], infos := db'.infos)
       && (if paid.deposited < paid.required
           then db'.infos == db.infos[di.depositID := db.infos[di.depositID].(status := WaitPartial)]
           else key.Intended? && db'.infos == db.infos[di.depositID := di.(status := WaitSend)])
  }

  /** For a record read from the store, the credit commits exactly when the payment stays incomplete or the completing
      write has a key; the caller always sees WaitPartial. */
  lemma DecideOutcome(db: Db, di: DepositInfo, key: CompletionKey)
    requires Structured(db) && di.depositID in db.infos && SameInfo(db.infos[di.depositID], di)
    ensures di.depositAddress in db.tracks
    ensures var dt := db.tracks[di.depositAddress];
            var incomplete := Wrap64(dt.deposited + di.depositValue) < dt.required;
            match UpdateStatus(db, di, key)
            case Ok((db', updated)) =>
              (incomplete || key.Intended?) && Credited(db, di, key, db')
                  && updated == db.infos[di.depositID].(status := WaitPartial)
            case Err(e) => !incomplete && key.AsWritten? && e == KeyRequired
  {
    RecordFacts(db, di.depositID);
    DecideCases(db, di, key);
  }

  lemma RecordFacts(db: Db, id: string)
    requires Structured(db) && id in db.infos
    ensures var di := db.infos[id];
            di.depositID == id != "" && di.txid == "" && di.depositAddress != "" && di.depositAddress in db.tracks
  {
  }

  lemma DecideCases(db: Db, di: DepositInfo, key: CompletionKey)
    requires di.depositID in db.infos && SameInfo(db.infos[di.depositID], di) && di.depositID != ""
    requires di.txid == "" && di.depositAddress != "" && di.depositAddress in db.tracks
    ensures var dt := db.tracks[di.depositAddress];
            var incomplete := Wrap64(dt.deposited + di.depositValue) < dt.required;
            match UpdateStatus(db, di, key)
            case Ok((db', updated)) =>
              (incomplete || key.Intended?) && Credited(db, di, key, db')
                  && updated == db.infos[di.depositID].(status := WaitPartial)
            case Err(e) => !incomplete && key.AsWritten? && e == KeyRequired
  {
    var updated := db.infos[di.depositID].(status := WaitPartial);
    var tx := db.(infos := db.infos[di.depositID := updated]);
    assert UpdateStatus(db, di, key) == match Credit(tx, di, key) case Ok(t) => Ok((t, updated)) case Err(e) => Err(e);
    assert tx.infos[di.depositID := di.(status := WaitSend)] == db.infos[di.depositID := di.(status := WaitSend)];
  }

  lemma StatusChangeKeepsSequence(db: Db, id: string, status: Status, db': Db)
    requires Sequenced(db) && id in db.infos
    requires db'.infos == db.infos[id := db.infos[id].(status := status)] && db'.lastSeq == db.lastSeq
    ensures Sequenced(db')
  {
    forall s | 1 <= s <= db'.lastSeq ensures HasSeq(db'.infos, s) {
      assert HasSeq(db.infos, s);
      var i :| i in db.infos && db.infos[i].seq_ == s;
      assert db'.infos[i].seq_ == s;
    }
  }

  lemma StatusChangeKeepsIndex(db: Db, id: string, status: Status, db': Db)
    requires Indexed(db) && id in db.infos
    requires db'.infos == db.infos[id := db.infos[id].(status := status)]
    requires db'.txs == db.txs && db'.tracks.Keys == db.tracks.Keys
    ensures Indexed(db')
  {
    forall a | a in db'.txs ensures ListsAddress(db'.infos, a, db'.txs[a]) {
      ListFrame(db.infos, db'.infos, a, db.txs[a]);
    }
  }

  lemma StatusChangeKeepsKeys(db: Db, id: string, status: Status, db': Db)
    requires InfosKeyed(db) && id in db.infos && status in {WaitDecide, WaitPartial, WaitSend}
    requires db'.infos == db.infos[id := db.infos[id].(status := status)]
    ensures InfosKeyed(db')
  {
  }

  lemma StatusChangeKeepsValid(db: Db, id: string, status: Status, db': Db)
    requires InfosKeyed(db) && InfosValid(db) && id in db.infos && status in {WaitDecide, WaitPartial, WaitSend}
    requires db'.infos == db.infos[id := db.infos[id].(status := status)]
    ensures InfosValid(db')
  {
    assert CheckWaitSend(db.infos[id].(status := status)) == CheckWaitSend(db.infos[id]);
  }

  lemma StatusChangeKeepsStructure(db: Db, id: string, status: Status, db': Db)
    requires Structured(db) && id in db.infos && status in {WaitDecide, WaitPartial, WaitSend}
    requires db'.infos == db.infos[id := db.infos[id].(status := status)]
    requires db'.lastSeq == db.lastSeq && db'.txs == db.txs && db'.binds == db.binds
             && db'.tracks.Keys == db.tracks.Keys
    ensures Structured(db')
  {
    StatusChangeKeepsKeys(db, id, status, db');
    StatusChangeKeepsValid(db, id, status, db');
    StatusChangeKeepsSequence(db, id, status, db');
    StatusChangeKeepsIndex(db, id, status, db');
  }

  /** What a committed credit of a stored record does to the ledger. */
  ghost predicate CreditStep(l: Ledger, di: DepositInfo, key: CompletionKey, l': Ledger) {
    && Credited(l.db, di, key, l'.db)
    && l'.credits == l.credits + [Entry(di.depositAddress, di.depositID, di.depositValue)]
  }

  lemma CreditedInfos(db: Db, di: DepositInfo, key: CompletionKey, db': Db)
    requires di.depositID in db.infos && SameInfo(db.infos[di.depositID], di) && Credited(db, di, key, db')
    ensures di.depositID in db'.infos && db'.infos[di.depositID].status in {WaitPartial, WaitSend}
    ensures db'.infos == db.infos[di.depositID := db.infos[di.depositID].(status := db'.infos[di.depositID].status)]
  {
  }

  lemma CreditKeepsStructure(db: Db, di: DepositInfo, key: CompletionKey, db': Db)
    requires Structured(db) && di.depositID in db.infos && SameInfo(db.infos[di.depositID], di)
    requires Credited(db, di, key, db')
    ensures Structured(db')
  {
    CreditedInfos(db, di, key, db');
    StatusChangeKeepsStructure(db, di.depositID, db'.infos[di.depositID].status, db');
  }

  lemma CreditKeepsRecords(l: Ledger, di: DepositInfo, key: CompletionKey, l': Ledger)
    requires CreditsRecorded(l) && CreditStep(l, di, key, l') && SameInfo(l.db.infos[di.depositID], di)
    ensures CreditsRecorded(l')
  {
    CreditedInfos(l.db, di, key, l'.db);
    assert l'.credits[..|l'.credits| - 1] == l.credits;
  }

  lemma CreditAddsToSum(credits: seq<Entry>, e: Entry)
    ensures forall a :: CreditedAt(credits + [e], a) == CreditedAt(credits, a) + if a == e.address then e.value else 0
  {
    assert (credits + [e])[..|credits|] == credits;
  }

  lemma CreditKeepsSum(l: Ledger, e: Entry, l': Ledger)
    requires Conserved(l) && e.address in l.db.tracks && l'.credits == l.credits + [e]
    requires var dt := l.db.tracks[e.address];
             l'.db.tracks == l.db.tracks[e.address := dt.(deposited := Wrap64(dt.deposited + e.value))]
    ensures Conserved(l')
  {
    CreditAddsToSum(l.credits, e);
    WrapAdd(CreditedAt(l.credits, e.address), e.value);
  }

  lemma {:induction false} SumNotNegative(credits: seq<Entry>, a: string)
    requires NoNegativeAt(credits, a)
    ensures CreditedAt(credits, a) >= 0
  {
    if credits != [] {
      SumNotNegative(credits[..|credits| - 1], a);
    }
  }

  lemma CreditKeepsPaid(l: Ledger, di: DepositInfo, key: CompletionKey, l': Ledger)
    requires Conserved(l) && Conserved(l') && PaidBeforeRelease(l) && CreditStep(l, di, key, l')
    requires SameInfo(l.db.infos[di.depositID], di)
    requires forall id :: id in l.db.infos ==> l.db.infos[id].depositAddress in l.db.tracks
    ensures PaidBeforeRelease(l')
  {
    var e := Entry(di.depositAddress, di.depositID, di.depositValue);
    CreditedInfos(l.db, di, key, l'.db);
    CreditAddsToSum(l.credits, e);
    forall id | id in l'.db.infos && l'.db.infos[id].status.WaitSend?
        && NoNegativeAt(l'.credits, l'.db.infos[id].depositAddress)
      ensures var a := l'.db.infos[id].depositAddress;
              CreditedAt(l'.credits, a) < TWO_TO_63 ==>
                a in l'.db.tracks && l'.db.tracks[a].required <= CreditedAt(l'.credits, a)
    {
      var a := l'.db.infos[id].depositAddress;
      SumNotNegative(l'.credits, a);
      assert forall c :: c in l.credits ==> c in l'.credits;
      assert e in l'.credits;
    }
  }

  lemma DecideKeepsInv(l: Ledger, di: DepositInfo, key: CompletionKey)
    requires Inv(l) && di.depositID in l.db.infos && SameInfo(l.db.infos[di.depositID], di)
    ensures Inv(DecideOn(l, di, key))
  {
    DecideOutcome(l.db, di, key);
    RecordFacts(l.db, di.depositID);
    if UpdateStatus(l.db, di, key).Ok? {
      CreditKeepsInv(l, di, key, DecideOn(l, di, key));
    }
  }

  lemma CreditKeepsMoney(l: Ledger, di: DepositInfo, key: CompletionKey, l': Ledger)
    requires Conserved(l) && PaidBeforeRelease(l) && CreditStep(l, di, key, l')
             && SameInfo(l.db.infos[di.depositID], di)
    requires forall id :: id in l.db.infos ==> l.db.infos[id].depositAddress in l.db.tracks
    ensures Conserved(l') && PaidBeforeRelease(l')
  {
    CreditKeepsSum(l, Entry(di.depositAddress, di.depositID, di.depositValue), l');
    CreditKeepsPaid(l, di, key, l');
  }

  lemma CreditKeepsInv(l: Ledger, di: DepositInfo, key: CompletionKey, l': Ledger)
    requires Inv(l) && CreditStep(l, di, key, l') && SameInfo(l.db.infos[di.depositID], di)
    ensures Inv(l')
  {
    CreditKeepsStructure(l.db, di, key, l'.db);
    CreditKeepsRecords(l, di, key, l');
    CreditKeepsMoney(l, di, key, l');
  }

  /** Other bindings and prices do not disturb the exchange's own buckets. */
  lemma OutsideKeepsInv(l: Ledger, binds: map<(string, string), BoundAddress>, prices: map<string, Price>)
    requires Inv(l) && BindsKeyed(l.db.(binds := binds))
    ensures Inv(l.(db := l.db.(binds := binds, prices := prices)))
  {
  }

  lemma InvIsStructured(l: Ledger)
    requires Inv(l)
    ensures Structured(l.db) && BindsKeyed(l.db) && InfosKeyed(l.db)
  {
  }

  lemma BindOutcome(l: Ledger, kittyID: string, address: string, coin: string)
    requires BindsKeyed(l.db)
    ensures var l' := BindTo(l, kittyID, address, coin);
            BindsKeyed(l'.db) && l' == l.(db := l.db.(binds := l'.db.binds, prices := l.db.prices))
  {
  }

  lemma DeliverOpKeepsInv(l: Ledger, dv: Deposit, key: CompletionKey)
    requires Inv(l)
    ensures Inv(Apply(l, Deliver(dv), key))
  {
    hide Inv, DeliverTo;
    DeliverKeepsInv(l, dv);
  }

  lemma DecideOpKeepsInv(l: Ledger, id: string, status: Status, key: CompletionKey)
    requires Inv(l)
    ensures Inv(Apply(l, Decide(id, status), key))
  {
    InvIsStructured(l);
    hide Inv, DecideOn;
    if id in l.db.infos {
      DecideKeepsInv(l, l.db.infos[id].(status := status), key);
    }
  }

  lemma OutsideOpOutcome(l: Ledger, op: Op, key: CompletionKey)
    requires BindsKeyed(l.db) && (op.Bind? || op.SetPrice?)
    ensures var db' := Apply(l, op, key).db;
            && Apply(l, op, key) == l.(db := l.db.(binds := db'.binds, prices := db'.prices))
            && BindsKeyed(l.db.(binds := db'.binds))
  {
    if op.Bind? {
      BindOutcome(l, op.kittyID, op.address, op.coin);
    }
  }

  lemma OutsideOpKeepsInv(l: Ledger, op: Op, key: CompletionKey)
    requires Inv(l) && (op.Bind? || op.SetPrice?)
    ensures Inv(Apply(l, op, key))
  {
    InvIsStructured(l);
    hide *;
    OutsideOpOutcome(l, op, key);
    OutsideKeepsInv(l, Apply(l, op, key).db.binds, Apply(l, op, key).db.prices);
  }

  lemma StepKeepsInv(l: Ledger, op: Op, key: CompletionKey)
    requires Inv(l)
    ensures Inv(Apply(l, op, key))
  {
    hide *;
    match op
    case Deliver(dv) => DeliverOpKeepsInv(l, dv, key);
    case Decide(id, status) => DecideOpKeepsInv(l, id, status, key);
    case _ => OutsideOpKeepsInv(l, op, key);
  }

  lemma EmptyInv()
    ensures Inv(EMPTY)
  {
  }

  /** Index agreement, conservation and paid-before-release hold after every run. */
  lemma {:induction false} RunKeepsInv(l: Ledger, ops: seq<Op>, key: CompletionKey)
    requires Inv(l)
    ensures Inv(Run(l, ops, key))
  {
    if ops != [] {
      RunKeepsInv(l, ops[..|ops| - 1], key);
      StepKeepsInv(Run(l, ops[..|ops| - 1], key), ops[|ops| - 1], key);
    }
  }
}

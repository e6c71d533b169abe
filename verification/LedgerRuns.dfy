/**
 What the ledger's invariant means for money and for redelivery: credits against records, payment before release, the
 run of the code as written, exactly-once recording, and the totals.
 */
module LedgerRuns {
  import opened Common
  import opened Deposits
  import opened Exchange
  import opened ExchangeLedger

  // Conservation: the credits of an address against its records

  /** The value of the listed records that have left WaitDecide. */
  function LeftValue(infos: map<string, DepositInfo>, ids: seq<string>): int
    requires forall id :: id in ids ==> id in infos
  {
    if ids == [] then 0
    else
      var di := infos[ids[|ids| - 1]];
      LeftValue(infos, ids[..|ids| - 1]) + if di.status.WaitDecide? then 0 else di.depositValue
  }

  function CreditedToAll(credits: seq<Entry>, ids: seq<string>): int {
    if ids == [] then 0 else CreditedToAll(credits, ids[..|ids| - 1]) + CreditedTo(credits, ids[|ids| - 1])
  }

  predicate Distinct(ids: seq<string>) {
    forall i, j :: 0 <= i < j < |ids| ==> ids[i] != ids[j]
  }

  lemma {:induction false} CreditedToAllStep(credits: seq<Entry>, c: Entry, ids: seq<string>)
    requires Distinct(ids)
    ensures CreditedToAll(credits + [c], ids) == CreditedToAll(credits, ids) + if c.id in ids then c.value else 0
  {
    assert (credits + [c])[..|credits|] == credits;
    if ids != [] {
      CreditedToAllStep(credits, c, ids[..|ids| - 1]);
    }
  }

  /** The credits of an address are the credits of the records that its index lists. */
  lemma {:induction false} CreditsByRecord(credits: seq<Entry>, a: string, ids: seq<string>)
    requires Distinct(ids)
    requires forall c :: c in credits ==> (c.address == a <==> c.id in ids)
    ensures CreditedAt(credits, a) == CreditedToAll(credits, ids)
  {
    if credits == [] {
      NoCredits(ids);
    } else {
      var n := |credits| - 1;
      CreditsByRecord(credits[..n], a, ids);
      CreditedToAllStep(credits[..n], credits[n], ids);
      assert credits == credits[..n] + [credits[n]];
    }
  }

  lemma {:induction false} NoCredits(ids: seq<string>)
    ensures CreditedToAll([], ids) == 0
  {
    if ids != [] {
      NoCredits(ids[..|ids| - 1]);
    }
  }

  lemma {:induction false} CreditedToBounds(credits: seq<Entry>, id: string, v: int)
    requires forall c :: c in credits && c.id == id ==> c.value == v
    ensures TimesCredited(credits, id) == 0 ==> CreditedTo(credits, id) == 0
    ensures TimesCredited(credits, id) == 1 ==> CreditedTo(credits, id) == v
    ensures TimesCredited(credits, id) >= 1 && v >= 0 ==> CreditedTo(credits, id) >= v
  {
    if credits != [] {
      CreditedToBounds(credits[..|credits| - 1], id, v);
    }
  }

  lemma {:induction false} LeftAgainstCredited(l: Ledger, ids: seq<string>)
    requires CreditsRecorded(l) && forall id :: id in ids ==> id in l.db.infos
    ensures (forall id :: id in ids ==> TimesCredited(l.credits, id) <= 1) ==>
            CreditedToAll(l.credits, ids) == LeftValue(l.db.infos, ids)
    ensures (forall id :: id in ids ==> l.db.infos[id].depositValue >= 0) ==>
            CreditedToAll(l.credits, ids) >= LeftValue(l.db.infos, ids)
  {
    if ids != [] {
      var n := |ids| - 1;
      LeftAgainstCredited(l, ids[..n]);
      CreditedToBounds(l.credits, ids[n], l.db.infos[ids[n]].depositValue);
      assert ids[n] in ids;
    }
  }

  lemma IndexDistinct(l: Ledger, a: string)
    requires Indexed(l.db) && a in l.db.txs
    ensures Distinct(l.db.txs[a]) && forall id :: id in l.db.txs[a] <==>
            id in l.db.infos && l.db.infos[id].depositAddress == a
  {
    var ids := l.db.txs[a];
    assert ListsAddress(l.db.infos, a, ids);
    forall i, j | 0 <= i < j < |ids| ensures ids[i] != ids[j] {
      assert l.db.infos[ids[i]].seq_ < l.db.infos[ids[j]].seq_;
    }
  }

  /** The track of an address holds the wrapped sum of its credits. That sum is the value of its records that left
      WaitDecide when none of them was credited twice, and never less when their values are not negative. */
  lemma ConservationByRecord(l: Ledger, a: string)
    requires Inv(l) && a in l.db.txs
    ensures forall id :: id in l.db.txs[a] ==> id in l.db.infos
    ensures a in l.db.tracks ==> l.db.tracks[a].deposited == Wrap64(CreditedAt(l.credits, a))
    ensures (forall id :: id in l.db.txs[a] ==> TimesCredited(l.credits, id) <= 1) ==>
              CreditedAt(l.credits, a) == LeftValue(l.db.infos, l.db.txs[a])
    ensures (forall id :: id in l.db.txs[a] ==> l.db.infos[id].depositValue >= 0) ==>
              CreditedAt(l.credits, a) >= LeftValue(l.db.infos, l.db.txs[a])
  {
    IndexDistinct(l, a);
    CreditsByRecord(l.credits, a, l.db.txs[a]);
    LeftAgainstCredited(l, l.db.txs[a]);
  }

  lemma {:induction false} LeftValueStep(infos: map<string, DepositInfo>, id: string, status: Status, ids: seq<string>)
    requires Distinct(ids) && id in infos && !status.WaitDecide? && forall i :: i in ids ==> i in infos
    ensures LeftValue(infos[id := infos[id].(status := status)], ids) ==
            LeftValue(infos, ids) + if id in ids && infos[id].status.WaitDecide? then infos[id].depositValue else 0
  {
    if ids != [] {
      var n := |ids| - 1;
      LeftValueStep(infos, id, status, ids[..n]);
      assert id in ids <==> id in ids[..n] || id == ids[n];
    }
  }

  /** Which records a credit makes count: the record it credits, if that was still WaitDecide. */
  lemma CreditCountsOnce(l: Ledger, di: DepositInfo, key: CompletionKey, l': Ledger)
    requires Structured(l.db) && CreditStep(l, di, key, l') && SameInfo(l.db.infos[di.depositID], di)
    ensures di.depositAddress in l.db.txs && l'.db.txs == l.db.txs
    ensures forall id :: id in l.db.txs[di.depositAddress] ==> id in l.db.infos && id in l'.db.infos
    ensures CreditedAt(l'.credits, di.depositAddress) == CreditedAt(l.credits, di.depositAddress) + di.depositValue
    ensures LeftValue(l'.db.infos, l'.db.txs[di.depositAddress]) ==
            LeftValue(l.db.infos, l.db.txs[di.depositAddress]) +
            if l.db.infos[di.depositID].status.WaitDecide? then di.depositValue else 0
  {
    var a := di.depositAddress;
    CreditedInfos(l.db, di, key, l'.db);
    IndexDistinct(l, a);
    CreditAddsToSum(l.credits, Entry(a, di.depositID, di.depositValue));
    LeftValueStep(l.db.infos, di.depositID, l'.db.infos[di.depositID].status, l.db.txs[a]);
  }

  /** A credit keeps the credits of its address equal to the value of the credited records exactly when the stored
      record is still WaitDecide, or its value is 0. */
  lemma CreditStaysExactIff(l: Ledger, di: DepositInfo, key: CompletionKey, l': Ledger)
    requires Structured(l.db) && CreditStep(l, di, key, l') && SameInfo(l.db.infos[di.depositID], di)
    requires di.depositAddress in l.db.txs && forall id :: id in l.db.txs[di.depositAddress] ==> id in l.db.infos
    requires CreditedAt(l.credits, di.depositAddress) == LeftValue(l.db.infos, l.db.txs[di.depositAddress])
    ensures di.depositAddress in l'.db.txs && forall id :: id in l'.db.txs[di.depositAddress] ==> id in l'.db.infos
    ensures CreditedAt(l'.credits, di.depositAddress) == LeftValue(l'.db.infos, l'.db.txs[di.depositAddress]) <==>
            l.db.infos[di.depositID].status.WaitDecide? || di.depositValue == 0
  {
    CreditCountsOnce(l, di, key, l');
  }

  // Paid before release

  /** A record is WaitSend only if its address has been paid in full, for as long as the int64 sum of the non-negative
      credits does not overflow. */
  lemma ReleasedIsPaid(ops: seq<Op>, key: CompletionKey, id: string)
    requires var l := Run(EMPTY, ops, key);
             id in l.db.infos && l.db.infos[id].status.WaitSend?
                 && NoNegativeAt(l.credits, l.db.infos[id].depositAddress) &&
             CreditedAt(l.credits, l.db.infos[id].depositAddress) < TWO_TO_63
    ensures var l := Run(EMPTY, ops, key);
            var a := l.db.infos[id].depositAddress;
            a in l.db.tracks && l.db.tracks[a].required <= l.db.tracks[a].deposited == CreditedAt(l.credits, a)
  {
    RunKeepsInv(EMPTY, ops, key);
    ReleasedIsPaidNow(Run(EMPTY, ops, key), id);
  }

  lemma ReleasedIsPaidNow(l: Ledger, id: string)
    requires Conserved(l) && PaidBeforeRelease(l)
    requires id in l.db.infos && l.db.infos[id].status.WaitSend?
             && NoNegativeAt(l.credits, l.db.infos[id].depositAddress)
    requires CreditedAt(l.credits, l.db.infos[id].depositAddress) < TWO_TO_63
    ensures var a := l.db.infos[id].depositAddress;
            a in l.db.tracks && l.db.tracks[a].required <= l.db.tracks[a].deposited == CreditedAt(l.credits, a)
  {
    SumNotNegative(l.credits, l.db.infos[id].depositAddress);
  }

  /** Paid by distinct records: when no record of the address was credited twice, the records behind a release add up
      to what the track requires. */
  lemma ReleasedIsPaidByRecords(l: Ledger, id: string)
    requires Inv(l) && id in l.db.infos && l.db.infos[id].status.WaitSend?
             && NoNegativeAt(l.credits, l.db.infos[id].depositAddress)
    requires CreditedAt(l.credits, l.db.infos[id].depositAddress) < TWO_TO_63
    requires var a := l.db.infos[id].depositAddress;
             a in l.db.txs && forall i :: i in l.db.txs[a] ==> i in l.db.infos && TimesCredited(l.credits, i) <= 1
    ensures var a := l.db.infos[id].depositAddress;
            a in l.db.tracks && l.db.tracks[a].required <= LeftValue(l.db.infos, l.db.txs[a])
  {
    ReleasedIsPaidNow(l, id);
    ConservationByRecord(l, l.db.infos[id].depositAddress);
  }

  /** The value of the distinct records that count once di has been credited. */
  ghost function EarnedAfter(l: Ledger, di: DepositInfo): int
    requires di.depositID in l.db.infos && di.depositAddress in l.db.txs
    requires forall id :: id in l.db.txs[di.depositAddress] ==> id in l.db.infos
  {
    LeftValue(l.db.infos, l.db.txs[di.depositAddress]) +
    if l.db.infos[di.depositID].status.WaitDecide? then di.depositValue else 0
  }

  /** Whether the track of a credited address is then paid for by distinct records, and whether the credit releases
      its record without that: both are decided by the amounts before the credit and by whether the stored record is
      still WaitDecide, whatever was credited twice before and whatever overflowed. */
  lemma ReleaseIsEarnedIff(l: Ledger, di: DepositInfo, key: CompletionKey, l': Ledger)
    requires Structured(l.db) && CreditStep(l, di, key, l') && SameInfo(l.db.infos[di.depositID], di)
    ensures di.depositAddress in l.db.txs && di.depositAddress in l'.db.txs && di.depositAddress in l'.db.tracks
    ensures di.depositID in l'.db.infos
    ensures forall id :: id in l.db.txs[di.depositAddress] ==> id in l.db.infos && id in l'.db.infos
    ensures var required, a := l.db.tracks[di.depositAddress].required, di.depositAddress;
            && l'.db.tracks[a].required == required
            && (required <= LeftValue(l'.db.infos, l'.db.txs[a]) <==> required <= EarnedAfter(l, di))
            && (l'.db.infos[di.depositID].status.WaitSend? && LeftValue(l'.db.infos, l'.db.txs[a]) < required <==>
                EarnedAfter(l, di) < required <= Wrap64(l.db.tracks[a].deposited + di.depositValue))
  {
    CreditCountsOnce(l, di, key, l');
    ReleasedIffFull(l, di, key, l');
  }

  lemma ReleasedIffFull(l: Ledger, di: DepositInfo, key: CompletionKey, l': Ledger)
    requires CreditStep(l, di, key, l') && SameInfo(l.db.infos[di.depositID], di)
    ensures di.depositID in l'.db.infos && di.depositAddress in l'.db.tracks
    ensures var dt := l.db.tracks[di.depositAddress];
            && l'.db.tracks[di.depositAddress].required == dt.required
            && (l'.db.infos[di.depositID].status.WaitSend? <==> dt.required <= Wrap64(dt.deposited + di.depositValue))
  {
  }

  /** A full track stays full under one more credit exactly when the int64 amount does not overflow. */
  lemma StaysPaidIff(db: Db, di: DepositInfo, key: CompletionKey, db': Db)
    requires Credited(db, di, key, db') && di.depositValue >= 0
    requires var dt := db.tracks[di.depositAddress]; 0 <= dt.required <= dt.deposited
    ensures var dt, dt' := db.tracks[di.depositAddress], db'.tracks[di.depositAddress];
            dt'.required <= dt'.deposited <==> dt.deposited + di.depositValue < TWO_TO_63
  {
    var sum := db.tracks[di.depositAddress].deposited + di.depositValue;
    if sum >= TWO_TO_63 {
      SameWrap(sum, sum - TWO_TO_64);
    }
  }

  /** A track that holds nothing, or less than it requires. */
  ghost predicate NeverFull(db: Db) {
    && (forall id :: id in db.infos ==> !db.infos[id].status.WaitSend?)
    && (forall a :: a in db.tracks ==> db.tracks[a].deposited == 0 || db.tracks[a].deposited < db.tracks[a].required)
  }

  /** As the code is written the completing write has an empty key, so the credit that would complete a payment is
      always rolled back: no record is ever released and no track that requires something is ever full. */
  lemma {:induction false} AsWrittenNeverReleases(ops: seq<Op>)
    ensures NeverFull(Run(EMPTY, ops, AsWritten).db)
    ensures var db := Run(EMPTY, ops, AsWritten).db;
            forall a :: a in db.tracks && db.tracks[a].required > 0 ==> db.tracks[a].deposited < db.tracks[a].required
  {
    if ops != [] {
      var init := ops[..|ops| - 1];
      var l := Run(EMPTY, init, AsWritten);
      AsWrittenNeverReleases(init);
      RunKeepsInv(EMPTY, init, AsWritten);
      AsWrittenStep(l, ops[|ops| - 1]);
    }
  }

  lemma AsWrittenStep(l: Ledger, op: Op)
    requires Inv(l) && NeverFull(l.db)
    ensures NeverFull(Apply(l, op, AsWritten).db)
  {
    match op
    case Deliver(dv) => DeliverOutcome(l.db, dv);
    case Decide(id, status) =>
      if id in l.db.infos {
        RecordFacts(l.db, id);
        AsWrittenDecide(l, l.db.infos[id].(status := status));
      }
    case _ =>
  }

  lemma AsWrittenDecide(l: Ledger, di: DepositInfo)
    requires Structured(l.db) && NeverFull(l.db) && di.depositID in l.db.infos && SameInfo(l.db.infos[di.depositID], di)
    ensures NeverFull(DecideOn(l, di, AsWritten).db)
  {
    DecideOutcome(l.db, di, AsWritten);
    var r := UpdateStatus(l.db, di, AsWritten);
    if r.Ok? {
      CreditedNeverFull(l.db, di, r.value.0);
    }
  }

  lemma CreditedNeverFull(db: Db, di: DepositInfo, db': Db)
    requires NeverFull(db) && di.depositID in db.infos && Credited(db, di, AsWritten, db')
    ensures NeverFull(db')
  {
  }

  /** With the record's own key, a credit always commits, and it releases the record exactly when the payment is then
      complete. */
  lemma IntendedReleasesWhenFull(l: Ledger, di: DepositInfo)
    requires Inv(l) && di.depositID in l.db.infos && SameInfo(l.db.infos[di.depositID], di)
    ensures var l' := DecideOn(l, di, Intended);
            && |l'.credits| == |l.credits| + 1
            && di.depositID in l'.db.infos && di.depositAddress in l'.db.tracks
            && var dt := l'.db.tracks[di.depositAddress];
               (l'.db.infos[di.depositID].status.WaitSend? <==> dt.deposited >= dt.required)
  {
    DecideOutcome(l.db, di, Intended);
  }

  // What a run never changes

  /** A record keeps its data and its sequence number, a track its kitty and its required amount. */
  ghost predicate Extends(db: Db, db': Db) {
    && (forall id :: id in db.infos ==> id in db'.infos && SameInfo(db.infos[id], db'.infos[id]))
    && (forall a :: a in db.tracks ==>
          a in db'.tracks && db'.tracks[a].required == db.tracks[a].required
              && db'.tracks[a].kittyID == db.tracks[a].kittyID)
    && (forall k :: k in db.binds ==> k in db'.binds && db'.binds[k] == db.binds[k])
  }

  lemma DeliverExtends(l: Ledger, dv: Deposit, key: CompletionKey)
    requires BindsKeyed(l.db)
    ensures Extends(l.db, Apply(l, Deliver(dv), key).db)
  {
    DeliverOutcome(l.db, dv);
  }

  lemma CreditedExtends(db: Db, di: DepositInfo, key: CompletionKey, db': Db)
    requires di.depositID in db.infos && SameInfo(db.infos[di.depositID], di) && Credited(db, di, key, db')
    ensures Extends(db, db') && db'.infos.Keys == db.infos.Keys
  {
    CreditedInfos(db, di, key, db');
  }

  lemma DecideExtends(l: Ledger, di: DepositInfo, key: CompletionKey)
    requires Structured(l.db) && di.depositID in l.db.infos && SameInfo(l.db.infos[di.depositID], di)
    ensures Extends(l.db, DecideOn(l, di, key).db)
    ensures DecideOn(l, di, key).db.infos.Keys == l.db.infos.Keys
  {
    DecideOutcome(l.db, di, key);
    var r := UpdateStatus(l.db, di, key);
    if r.Ok? {
      CreditedExtends(l.db, di, key, r.value.0);
    }
  }

  lemma DecideOpExtends(l: Ledger, id: string, status: Status, key: CompletionKey)
    requires Structured(l.db)
    ensures Extends(l.db, Apply(l, Decide(id, status), key).db)
    ensures Apply(l, Decide(id, status), key).db.infos.Keys == l.db.infos.Keys
  {
    if id in l.db.infos {
      RecordFacts(l.db, id);
      DecideExtends(l, l.db.infos[id].(status := status), key);
    }
  }

  lemma BindExtends(l: Ledger, op: Op, key: CompletionKey)
    requires op.Bind? || op.SetPrice?
    ensures Extends(l.db, Apply(l, op, key).db) && Apply(l, op, key).db.infos.Keys == l.db.infos.Keys
  {
  }

  lemma StepExtends(l: Ledger, op: Op, key: CompletionKey)
    requires Inv(l)
    ensures Extends(l.db, Apply(l, op, key).db)
    ensures !op.Deliver? ==> Apply(l, op, key).db.infos.Keys == l.db.infos.Keys
  {
    match op
    case Deliver(dv) => DeliverExtends(l, dv, key);
    case Decide(id, status) => DecideOpExtends(l, id, status, key);
    case _ => BindExtends(l, op, key);
  }

  lemma {:induction false} RunExtends(l: Ledger, ops: seq<Op>, key: CompletionKey)
    requires Inv(l)
    ensures Extends(l.db, Run(l, ops, key).db)
  {
    if ops != [] {
      RunExtends(l, ops[..|ops| - 1], key);
      RunKeepsInv(l, ops[..|ops| - 1], key);
      StepExtends(Run(l, ops[..|ops| - 1], key), ops[|ops| - 1], key);
    }
  }

  // Exactly-once recording

  function Feed(l: Ledger, ds: seq<Deposit>): Ledger {
    if ds == [] then l else DeliverTo(Feed(l, ds[..|ds| - 1]), ds[|ds| - 1])
  }

  /** Every binding is for a supported coin and its kitty has a price, as reservations guarantee. */
  ghost predicate PricesKnown(db: Db) {
    forall k :: k in db.binds ==> SupportedCoin(k.0) && db.binds[k].kittyID in db.prices
  }

  /** The deposits that can be recorded; this depends on the bindings only. */
  predicate Acceptable(db: Db, dv: Deposit) {
    && SupportedCoin(dv.coinType) && (dv.coinType, dv.address) in db.binds
    && CheckWaitSend(NewInfo(dv, db.binds[(dv.coinType, dv.address)].kittyID).(seq_ := 1)).Ok?
  }

  function RecordOf(db: Db, dv: Deposit): DepositInfo
    requires Acceptable(db, dv)
  {
    NewInfo(dv, db.binds[(dv.coinType, dv.address)].kittyID)
  }

  lemma CheckIgnoresSeq(di: DepositInfo, n: nat)
    requires di.status.WaitDecide? && n > 0
    ensures ValidateForStatus(di.(seq_ := n)).Ok? <==> CheckWaitSend(di.(seq_ := 1)).Ok?
  {
  }

  lemma DeliverAcceptable(db: Db, dv: Deposit)
    requires BindsKeyed(db) && PricesKnown(db) && dv.ID() !in db.infos
    ensures Acceptable(db, dv) <==> GetOrCreate(db, dv).Ok?
    ensures Acceptable(db, dv) ==>
              GetOrCreate(db, dv).value.0.infos == db.infos[dv.ID() := RecordOf(db, dv).(seq_ := db.lastSeq + 1)]
  {
    if SupportedCoin(dv.coinType) && (dv.coinType, dv.address) in db.binds {
      CheckIgnoresSeq(NewInfo(dv, db.binds[(dv.coinType, dv.address)].kittyID), db.lastSeq + 1);
    }
  }

  /** What makes a deposit recordable, in terms of the deposit and the binding alone. */
  predicate Recordable(db: Db, dv: Deposit) {
    && SupportedCoin(dv.coinType) && (dv.coinType, dv.address) in db.binds
    && db.binds[(dv.coinType, dv.address)].kittyID != "" && dv.value != 0
    && (dv.coinType == COIN_BTC ==> dv.tx != "" && ':' !in dv.tx)
  }

  /** Acceptable deposits are those of a supported coin to an address bound to a box, of a value that is not 0, and for
      Bitcoin with a transaction hash that is not empty and has no colon. */
  lemma AcceptableIff(db: Db, dv: Deposit)
    requires BindsKeyed(db)
    ensures Acceptable(db, dv) <==> Recordable(db, dv)
  {
    IdentifierValidity(dv);
  }

  /** The record of a new deposit, field by field, and the buckets around it. */
  ghost predicate RecordedAs(db: Db, dv: Deposit, db': Db, di: DepositInfo)
    requires (dv.coinType, dv.address) in db.binds
  {
    var bound := db.binds[(dv.coinType, dv.address)];
    && di.seq_ == db.lastSeq + 1 && di.status == WaitDecide && di.txid == "" && di.error == ""
    && di.coinType == dv.coinType && di.depositAddress == dv.address && di.depositValue == dv.value
    && di.depositID == dv.ID() && di.deposit == dv && di.kittyID == bound.kittyID
    && db'.infos == db.infos[dv.ID() := di] && db'.lastSeq == db.lastSeq + 1
    && db'.binds == db.binds && db'.prices == db.prices
    && dv.address in db'.txs && dv.address in db'.tracks
    && db'.txs == db.txs[dv.address := db'.txs[dv.address]] && db'.txs[dv.address] != []
    && db'.txs[dv.address][|db'.txs[dv.address]| - 1] == dv.ID()
    && db'.tracks == db.tracks[dv.address := db'.tracks[dv.address]]
    && (dv.address in db.txs ==> |db'.txs[dv.address]| == |db.txs[dv.address]| + 1
                                 && db.txs[dv.address] <= db'.txs[dv.address])
    && (dv.address !in db.txs ==> |db'.txs[dv.address]| == 1)
    && if dv.address in db.tracks then db'.tracks == db.tracks
       else
         var dt := db'.tracks[dv.address];
         && dt.deposited == 0 && dt.kittyID == bound.kittyID && bound.kittyID in db.prices
         && dt.required == if dv.coinType == COIN_BTC then db.prices[bound.kittyID].btc
                           else db.prices[bound.kittyID].sky
  }

  /** Exactly which new deposits are recorded: with known prices, the recordable ones; without, the box must have a
      price unless the address has its track already. */
  lemma RecordedIff(db: Db, dv: Deposit)
    requires BindsKeyed(db) && dv.ID() !in db.infos
    ensures GetOrCreate(db, dv).Ok? <==>
            Recordable(db, dv) &&
            (dv.address in db.tracks || db.binds[(dv.coinType, dv.address)].kittyID in db.prices)
    ensures PricesKnown(db) ==> (GetOrCreate(db, dv).Ok? <==> Recordable(db, dv))
  {
    IdentifierValidity(dv);
  }

  /** Why a new deposit is not recorded: the first of these that applies. */
  lemma NotRecordedBecause(db: Db, dv: Deposit)
    requires BindsKeyed(db) && dv.ID() !in db.infos && GetOrCreate(db, dv).Err?
    ensures var e, k := GetOrCreate(db, dv).error, (dv.coinType, dv.address);
            if !SupportedCoin(dv.coinType) then e == UnsupportedCoinType
            else if k !in db.binds then e == NoBoundAddress
            else if dv.address !in db.tracks && db.binds[k].kittyID !in db.prices then e == ObjectNotExist
            else if db.binds[k].kittyID == "" then e == InvalidInfo(KittyIDMissing)
            else if dv.coinType == COIN_BTC && (dv.tx == "" || ':' in dv.tx) then e == InvalidInfo(DepositIDInvalid)
            else dv.value == 0 && e == InvalidInfo(DepositValueZero)
  {
    IdentifierValidity(dv);
  }

  /** An address can be bound exactly when its coin is supported and it is free and not empty; the binding is under its
      coin and address, for this box. */
  lemma BoundIff(db: Db, kittyID: string, address: string, coin: string)
    ensures BindAddress(db, kittyID, address, coin).Ok? <==>
            SupportedCoin(coin) && (coin, address) !in db.binds && address != ""
    ensures BindAddress(db, kittyID, address, coin).Ok? ==>
              var db' := BindAddress(db, kittyID, address, coin).value;
              && db' == db.(binds := db'.binds) && db'.binds.Keys == db.binds.Keys + {(coin, address)}
              && (forall k :: k in db.binds ==> db'.binds[k] == db.binds[k])
              && var b := db'.binds[(coin, address)];
                 b.kittyID == kittyID && b.address == address && b.coinType == coin
    ensures BindAddress(db, kittyID, address, coin) == Err(AddressAlreadyBound) <==>
            SupportedCoin(coin) && (coin, address) in db.binds
  {
  }

  /** A new deposit is recorded under the next number with its own data and its binding's box; the index of its address
      gains its identifier, and a first deposit makes a track at the box's price in its coin. */
  lemma RecordedFields(db: Db, dv: Deposit)
    requires BindsKeyed(db) && dv.ID() !in db.infos && GetOrCreate(db, dv).Ok?
    ensures (dv.coinType, dv.address) in db.binds
    ensures RecordedAs(db, dv, GetOrCreate(db, dv).value.0, GetOrCreate(db, dv).value.1)
  {
  }

  ghost predicate FirstAcceptable(db: Db, ds: seq<Deposit>, id: string, k: int) {
    && 0 <= k < |ds| && ds[k].ID() == id && Acceptable(db, ds[k])
    && forall j :: 0 <= j < k && Acceptable(db, ds[j]) ==> ds[j].ID() != id
  }

  /** Whatever is delivered, however often: the records are the old ones plus one for each identifier with an
      acceptable deposit, made from the first such deposit. */
  lemma {:induction false} FeedOutcome(l: Ledger, ds: seq<Deposit>, id: string)
    requires BindsKeyed(l.db) && PricesKnown(l.db)
    ensures Recordings(l.db, ds, id, Feed(l, ds).db)
  {
    if ds != [] {
      var n := |ds| - 1;
      FeedOutcome(l, ds[..n], id);
      DeliveryOutcome(Feed(l, ds[..n]).db, ds[n]);
      OneMoreRecording(l.db, ds, id, Feed(l, ds[..n]).db, Feed(l, ds).db);
    }
  }

  /** db' holds under id what delivering ds to db must leave there. */
  ghost predicate Recordings(db: Db, ds: seq<Deposit>, id: string, db': Db) {
    && db'.binds == db.binds && db'.prices == db.prices
    && (id in db'.infos <==> id in db.infos || exists k :: FirstAcceptable(db, ds, id, k))
    && (id in db.infos ==> db'.infos[id] == db.infos[id])
    && (forall k :: id !in db.infos && FirstAcceptable(db, ds, id, k) ==>
          SameRecord(db'.infos[id], RecordOf(db, ds[k])))
  }

  /** One delivery: recorded once if it is acceptable and new, no effect otherwise. */
  ghost predicate Delivered(db: Db, dv: Deposit, db': Db) {
    && db'.binds == db.binds && db'.prices == db.prices
    && if dv.ID() !in db.infos && Acceptable(db, dv)
       then db'.infos == db.infos[dv.ID() := RecordOf(db, dv).(seq_ := db.lastSeq + 1)]
       else db' == db
  }

  lemma DeliveryOutcome(db: Db, dv: Deposit)
    requires BindsKeyed(db) && PricesKnown(db)
    ensures Delivered(db, dv, DeliverTo(Ledger(db, []), dv).db)
    ensures forall l: Ledger :: l.db == db ==> DeliverTo(l, dv).db == DeliverTo(Ledger(db, []), dv).db
  {
    DeliverOutcome(db, dv);
    if dv.ID() !in db.infos {
      DeliverAcceptable(db, dv);
    }
  }

  lemma FirstInInit(db: Db, ds: seq<Deposit>, init: seq<Deposit>, id: string, k: int)
    requires ds != [] && init == ds[..|ds| - 1]
    ensures FirstAcceptable(db, init, id, k) <==> k < |init| && FirstAcceptable(db, ds, id, k)
  {
  }

  lemma OneMoreRecording(db: Db, ds: seq<Deposit>, id: string, before: Db, after: Db)
    requires ds != [] && Recordings(db, ds[..|ds| - 1], id, before) && Delivered(before, ds[|ds| - 1], after)
    ensures Recordings(db, ds, id, after)
  {
    var last, init := ds[|ds| - 1], ds[..|ds| - 1];
    forall k ensures FirstAcceptable(db, init, id, k) <==> k < |init| && FirstAcceptable(db, ds, id, k) {
      FirstInInit(db, ds, init, id, k);
    }
    if Acceptable(db, last) && last.ID() == id {
      LastRecorded(db, ds, id, before, after);
    } else {
      assert !FirstAcceptable(db, ds, id, |init|);
      assert id in after.infos <==> id in before.infos;
      assert id in before.infos ==> after.infos[id] == before.infos[id];
    }
  }

  lemma LastRecorded(db: Db, ds: seq<Deposit>, id: string, before: Db, after: Db)
    requires ds != [] && Recordings(db, ds[..|ds| - 1], id, before) && Delivered(before, ds[|ds| - 1], after)
    requires Acceptable(db, ds[|ds| - 1]) && ds[|ds| - 1].ID() == id
    requires forall k :: FirstAcceptable(db, ds[..|ds| - 1], id, k) <==> k < |ds| - 1 && FirstAcceptable(db, ds, id, k)
    ensures Recordings(db, ds, id, after)
  {
    var init := ds[..|ds| - 1];
    if id !in before.infos {
      NoEarlierAcceptable(db, ds, init, id);
    } else if id !in db.infos {
      var k :| FirstAcceptable(db, init, id, k);
      assert FirstAcceptable(db, ds, id, k);
    }
  }

  ghost predicate SameRecord(a: DepositInfo, b: DepositInfo) {
    a.(seq_ := b.seq_) == b
  }

  lemma NoEarlierAcceptable(db: Db, ds: seq<Deposit>, init: seq<Deposit>, id: string)
    requires ds != [] && init == ds[..|ds| - 1] && ds[|ds| - 1].ID() == id && Acceptable(db, ds[|ds| - 1])
    requires !exists k :: FirstAcceptable(db, init, id, k)
    ensures FirstAcceptable(db, ds, id, |ds| - 1)
  {
    forall j | 0 <= j < |init| && Acceptable(db, init[j]) ensures ds[j].ID() != id {
      if init[j].ID() == id {
        FirstAcceptableExists(db, init, id, j);
      }
    }
  }

  lemma {:induction false} FirstAcceptableExists(db: Db, ds: seq<Deposit>, id: string, j: int)
    requires 0 <= j < |ds| && Acceptable(db, ds[j]) && ds[j].ID() == id
    ensures exists k :: FirstAcceptable(db, ds, id, k)
    decreases j
  {
    if i :| 0 <= i < j && Acceptable(db, ds[i]) && ds[i].ID() == id {
      FirstAcceptableExists(db, ds, id, i);
    } else {
      assert FirstAcceptable(db, ds, id, j);
    }
  }

  /** Two deliveries of the same deposits, in any order and with any repeats, record the same: the scanner's store
      holds one deposit per identifier. */
  lemma FeedIgnoresRepeatsAndOrder(l: Ledger, a: seq<Deposit>, b: seq<Deposit>)
    requires BindsKeyed(l.db) && PricesKnown(l.db)
    requires forall d :: d in a <==> d in b
    requires forall d, e :: d in a && e in a && d.ID() == e.ID() ==> d == e
    ensures forall id :: id in Feed(l, a).db.infos <==> id in Feed(l, b).db.infos
    ensures forall id :: id in Feed(l, a).db.infos ==> SameRecord(Feed(l, a).db.infos[id], Feed(l, b).db.infos[id])
  {
    forall id
      ensures id in Feed(l, a).db.infos <==> id in Feed(l, b).db.infos
      ensures id in Feed(l, a).db.infos ==> SameRecord(Feed(l, a).db.infos[id], Feed(l, b).db.infos[id])
    {
      FeedOutcome(l, a, id);
      FeedOutcome(l, b, id);
      if k :| FirstAcceptable(l.db, a, id, k) {
        assert a[k] in b;
        var j :| 0 <= j < |b| && b[j] == a[k];
        FirstAcceptableExists(l.db, b, id, j);
        var k' :| FirstAcceptable(l.db, b, id, k');
        assert b[k'] in a;
      }
      if k :| FirstAcceptable(l.db, b, id, k) {
        assert b[k] in a;
        var j :| 0 <= j < |a| && a[j] == b[k];
        FirstAcceptableExists(l.db, a, id, j);
      }
    }
  }

  // Totals

  lemma {:induction false} CoinTotalRemove(infos: map<string, DepositInfo>, ks: seq<string>, k: int, coin: string)
    requires forall id :: id in ks ==> id in infos
    requires 0 <= k < |ks|
    ensures forall id :: id in ks[..k] + ks[k + 1..] ==> id in infos
    ensures CoinTotal(infos, ks, coin) ==
            CoinTotal(infos, ks[..k] + ks[k + 1..], coin) + if infos[ks[k]].coinType == coin
                then infos[ks[k]].depositValue else 0
  {
    var n := |ks| - 1;
    var rest := ks[..k] + ks[k + 1..];
    if k < n {
      CoinTotalRemove(infos, ks[..n], k, coin);
      assert rest[..|rest| - 1] == ks[..n][..k] + ks[..n][k + 1..];
    } else {
      assert rest == ks[..n];
    }
  }

  lemma RemoveAt(ks: seq<string>, k: int)
    requires Distinct(ks) && 0 <= k < |ks|
    ensures Distinct(ks[..k] + ks[k + 1..])
    ensures forall id :: id in ks[..k] + ks[k + 1..] <==> id in ks && id != ks[k]
  {
    forall id | id in ks && id != ks[k] ensures id in ks[..k] + ks[k + 1..] {
      var i :| 0 <= i < |ks| && ks[i] == id;
      assert if i < k then id in ks[..k] else id in ks[k + 1..];
    }
  }

  /** The total does not depend on the order of the keys. */
  lemma {:induction false} CoinTotalOrder(infos: map<string, DepositInfo>, a: seq<string>, b: seq<string>, coin: string)
    requires Distinct(a) && Distinct(b) && forall id :: id in a <==> id in b
    requires forall id :: id in a ==> id in infos
    ensures CoinTotal(infos, a, coin) == CoinTotal(infos, b, coin)
  {
    if a == [] {
      assert forall i :: 0 <= i < |b| ==> b[i] in b;
    } else {
      var n := |a| - 1;
      assert a[n] in b;
      var k :| 0 <= k < |b| && b[k] == a[n];
      var rest := b[..k] + b[k + 1..];
      RemoveAt(a, n);
      RemoveAt(b, k);
      assert a[..n] + a[n + 1..] == a[..n];
      assert forall id :: id in a[..n] <==> id in a && id != a[n];
      CoinTotalRemove(infos, b, k, coin);
      CoinTotalOrder(infos, a[..n], rest, coin);
    }
  }

  lemma {:induction false} CoinTotalFrame(infos: map<string, DepositInfo>, infos': map<string, DepositInfo>,
                                          ks: seq<string>, coin: string)
    requires forall id :: id in ks ==> id in infos && id in infos' && SameInfo(infos[id], infos'[id])
    ensures CoinTotal(infos', ks, coin) == CoinTotal(infos, ks, coin)
  {
    if ks != [] {
      CoinTotalFrame(infos, infos', ks[..|ks| - 1], coin);
    }
  }

  lemma KeysDistinct(ks: seq<string>)
    requires Ascending(ks)
    ensures Distinct(ks)
  {
    forall i, j | 0 <= i < j < |ks| ensures ks[i] != ks[j] {
      LessAsymmetric(ks[i], ks[j]);
    }
  }

  lemma TotalOfNew(infos: map<string, DepositInfo>, id: string, di: DepositInfo, coin: string)
    requires id !in infos
    ensures Total(infos[id := di], coin) == Total(infos, coin) + if di.coinType == coin then di.depositValue else 0
  {
    var infos' := infos[id := di];
    var ks := KeysInOrder(infos.Keys);
    var ks' := KeysInOrder(infos'.Keys);
    KeysDistinct(ks);
    KeysDistinct(ks');
    CoinTotalOrder(infos', ks', ks + [id], coin);
    assert (ks + [id])[..|ks|] == ks;
    CoinTotalFrame(infos, infos', ks, coin);
  }

  /** The value that an operation records for the first time. */
  function Recorded(l: Ledger, op: Op, coin: string): int {
    match op
    case Deliver(dv) =>
      if dv.ID() !in l.db.infos && GetOrCreate(l.db, dv).Ok? && dv.coinType == coin then dv.value else 0
    case _ => 0
  }

  function RecordedBy(l: Ledger, ops: seq<Op>, key: CompletionKey, coin: string): int {
    if ops == [] then 0
    else RecordedBy(l, ops[..|ops| - 1], key, coin) + Recorded(Run(l, ops[..|ops| - 1], key), ops[|ops| - 1], coin)
  }

  lemma SameKeysSameTotal(db: Db, db': Db, coin: string)
    requires Extends(db, db') && db'.infos.Keys == db.infos.Keys
    ensures Total(db'.infos, coin) == Total(db.infos, coin)
  {
    CoinTotalFrame(db.infos, db'.infos, KeysInOrder(db.infos.Keys), coin);
  }

  lemma StepTotal(l: Ledger, op: Op, key: CompletionKey, coin: string)
    requires Inv(l)
    ensures Total(Apply(l, op, key).db.infos, coin) == Total(l.db.infos, coin) + Recorded(l, op, coin)
  {
    StepExtends(l, op, key);
    if op.Deliver? {
      DeliverOutcome(l.db, op.dv);
      if op.dv.ID() !in l.db.infos && GetOrCreate(l.db, op.dv).Ok? {
        TotalOfNew(l.db.infos, op.dv.ID(), GetOrCreate(l.db, op.dv).value.1, coin);
      }
    } else {
      SameKeysSameTotal(l.db, Apply(l, op, key).db, coin);
    }
  }

  /** The received total of a coin counts each recorded deposit once, whatever is redelivered and however statuses
      change. */
  lemma {:induction false} TotalCountsEachRecordOnce(l: Ledger, ops: seq<Op>, key: CompletionKey, coin: string)
    requires Inv(l)
    ensures Total(Run(l, ops, key).db.infos, coin) == Total(l.db.infos, coin) + RecordedBy(l, ops, key, coin)
  {
    if ops != [] {
      var init := ops[..|ops| - 1];
      TotalCountsEachRecordOnce(l, init, key, coin);
      RunKeepsInv(l, init, key);
      StepTotal(Run(l, init, key), ops[|ops| - 1], key, coin);
    }
  }
}

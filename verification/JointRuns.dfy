/**
 Runs in which reservations and the exchange work on the same file: the bindings and the prices that the exchange
 reads are those that committed reservations have stored.
 */
module JointRuns {
  import opened Common
  import opened Reservations
  import opened ReservationSafety
  import opened ReservationPrices
  import D = Deposits
  import E = Exchange
  import L = ExchangeLedger
  import R = LedgerRuns

  /** The service and its buckets, and the exchange's buckets. */
  datatype Joint = Joint(service: State, exchange: L.Ledger)

  datatype Step =
    | Serve(op: Op)                        // a reservation request, or a restart
    | Deliver(dv: D.Deposit)
    | Decide(id: string, status: E.Status)

  /** The exchange reads bindings and prices from the buckets that the service writes. */
  function Synced(j: Joint): Joint {
    var view := ExchangeView(j.service.db);
    j.(exchange := j.exchange.(db := j.exchange.db.(binds := view.binds, prices := view.prices)))
  }

  function Apply(cfg: Config, key: E.CompletionKey, j: Joint, step: Step): Joint {
    match step
    case Serve(op) => Synced(j.(service := ReservationSafety.Apply(cfg, j.service, op)))
    case Deliver(dv) => j.(exchange := L.Apply(j.exchange, L.Deliver(dv), key))
    case Decide(id, status) => j.(exchange := L.Apply(j.exchange, L.Decide(id, status), key))
  }

  function Run(cfg: Config, key: E.CompletionKey, j: Joint, steps: seq<Step>): Joint {
    if steps == [] then j else Apply(cfg, key, Run(cfg, key, j, steps[..|steps| - 1]), steps[|steps| - 1])
  }

  /** The service has been started on buckets without bindings; the exchange's are empty. */
  function Started(cfg: Config, s0: State, entries: seq<Entry>): Joint {
    Synced(Joint(Restart(cfg, s0, entries), L.EMPTY))
  }

  function PriceIn(r: Reservation, coin: string): int64 {
    if coin == COIN_SKY then r.priceSKY else r.priceBTC
  }

  /** The track of an address asks for the price of the box whose reservation is stored at that address. */
  ghost predicate TrackIsPriced(db: Db, a: string, dt: E.DepositTrack) {
    exists coin :: PricedBy(db, a, dt, coin)
  }

  ghost predicate PricedBy(db: Db, a: string, dt: E.DepositTrack, coin: string) {
    && BindingReserved(db, (coin, a)) && db.binds[(coin, a)].kittyID == dt.kittyID
    && dt.required == PriceIn(db.reservations[dt.kittyID], coin)
  }

  ghost predicate AllPriced(db: Db, tracks: map<string, E.DepositTrack>) {
    forall a :: a in tracks ==> TrackIsPriced(db, a, tracks[a])
  }

  ghost predicate TracksPriced(j: Joint) {
    AllPriced(j.service.db, j.exchange.db.tracks)
  }

  ghost predicate JointInv(j: Joint) {
    && Inv(j.service) && L.Inv(j.exchange) && Synced(j) == j && TracksPriced(j)
  }

  lemma ViewIsKeyed(db: Db)
    requires DbInv(db)
    ensures L.BindsKeyed(ExchangeView(db)) && R.PricesKnown(ExchangeView(db))
  {
    forall k | k in db.binds ensures BindingReserved(db, k) {}
  }

  lemma PermanentKeepsPrice(db: Db, db': Db, a: string, dt: E.DepositTrack)
    requires DbInv(db') && Permanent(db, db') && TrackIsPriced(db, a, dt)
    ensures TrackIsPriced(db', a, dt)
  {
    var coin :| PricedBy(db, a, dt, coin);
    assert BindingReserved(db', (coin, a));
    assert PricedBy(db', a, dt, coin);
  }

  lemma ServeKeepsInv(cfg: Config, key: E.CompletionKey, j: Joint, op: Op)
    requires JointInv(j)
    ensures JointInv(Apply(cfg, key, j, Serve(op)))
  {
    StepOutcome(cfg, j.service, op);
    var after := ReservationSafety.Apply(cfg, j.service, op);
    ViewIsKeyed(after.db);
    L.OutsideKeepsInv(j.exchange, ExchangeView(after.db).binds, ExchangeView(after.db).prices);
    forall a | a in j.exchange.db.tracks ensures TrackIsPriced(after.db, a, j.exchange.db.tracks[a]) {
      PermanentKeepsPrice(j.service.db, after.db, a, j.exchange.db.tracks[a]);
    }
  }

  lemma ViewPrice(db: Db, kitty: string, coin: string)
    requires E.KittyPrice(ExchangeView(db), kitty, coin).Ok?
    ensures kitty in db.reservations && E.KittyPrice(ExchangeView(db), kitty, coin).value ==
            PriceIn(db.reservations[kitty], coin)
  {
  }

  /** A first delivery makes a track with the stored price; any other leaves the tracks as they are. */
  lemma DeliveredTracks(db: Db, e: E.Db, dv: D.Deposit)
    requires DbInv(db) && L.BindsKeyed(e) && e.binds == db.binds && e.prices == ExchangeView(db).prices
    requires E.GetOrCreate(e, dv).Ok?
    ensures var e' := E.GetOrCreate(e, dv).value.0;
            && e'.binds == e.binds && e'.prices == e.prices
            && (e'.tracks == e.tracks ||
                (dv.address in e'.tracks && e'.tracks == e.tracks[dv.address := e'.tracks[dv.address]] &&
                 TrackIsPriced(db, dv.address, e'.tracks[dv.address])))
  {
    L.DeliverOutcome(e, dv);
    var e' := E.GetOrCreate(e, dv).value.0;
    if dv.ID() !in e.infos && dv.address !in e.tracks {
      var kitty := e.binds[(dv.coinType, dv.address)].kittyID;
      assert E.KittyPrice(e, kitty, dv.coinType) == E.KittyPrice(ExchangeView(db), kitty, dv.coinType);
      ViewPrice(db, kitty, dv.coinType);
      assert BindingReserved(db, (dv.coinType, dv.address));
      assert PricedBy(db, dv.address, e'.tracks[dv.address], dv.coinType);
    }
  }

  lemma SyncedBuckets(j: Joint)
    requires Synced(j) == j
    ensures j.exchange.db.binds == j.service.db.binds && j.exchange.db.prices == ExchangeView(j.service.db).prices
  {
  }

  lemma KeepsJointInv(j: Joint, l: L.Ledger)
    requires Inv(j.service) && L.Inv(l) && Synced(j) == j
    requires l.db.binds == j.exchange.db.binds && l.db.prices == j.exchange.db.prices
    requires TracksPriced(j.(exchange := l))
    ensures JointInv(j.(exchange := l))
  {
  }

  lemma SamePrice(db: Db, a: string, dt: E.DepositTrack, dt': E.DepositTrack)
    requires TrackIsPriced(db, a, dt) && dt'.required == dt.required && dt'.kittyID == dt.kittyID
    ensures TrackIsPriced(db, a, dt')
  {
    var coin :| PricedBy(db, a, dt, coin);
    assert PricedBy(db, a, dt', coin);
  }

  lemma DecideKeepsBuckets(l: L.Ledger, id: string, status: E.Status, key: E.CompletionKey)
    requires L.Structured(l.db)
    ensures var db' := L.Apply(l, L.Decide(id, status), key).db;
            db'.binds == l.db.binds && db'.prices == l.db.prices && db'.tracks.Keys == l.db.tracks.Keys
  {
    if id in l.db.infos {
      L.RecordFacts(l.db, id);
      L.DecideOutcome(l.db, l.db.infos[id].(status := status), key);
    }
  }

  lemma JointParts(j: Joint)
    requires JointInv(j)
    ensures DbInv(j.service.db) && L.Structured(j.exchange.db) && L.BindsKeyed(j.exchange.db)
  {
  }

  lemma DeliverKeepsTracks(j: Joint, dv: D.Deposit)
    requires JointInv(j)
    ensures var l' := L.DeliverTo(j.exchange, dv);
            l'.db.binds == j.exchange.db.binds && l'.db.prices == j.exchange.db.prices
                && TracksPriced(j.(exchange := l'))
  {
    JointParts(j);
    SyncedBuckets(j);
    DeliverPrices(j.service.db, j.exchange, dv);
  }

  lemma DeliverPrices(db: Db, l: L.Ledger, dv: D.Deposit)
    requires DbInv(db) && L.BindsKeyed(l.db) && l.db.binds == db.binds && l.db.prices == ExchangeView(db).prices
    requires AllPriced(db, l.db.tracks)
    ensures var e' := L.DeliverTo(l, dv).db;
            e'.binds == l.db.binds && e'.prices == l.db.prices && AllPriced(db, e'.tracks)
  {
    if E.GetOrCreate(l.db, dv).Ok? {
      DeliveredTracks(db, l.db, dv);
    }
  }

  lemma DecideKeepsTracks(j: Joint, id: string, status: E.Status, key: E.CompletionKey)
    requires JointInv(j)
    ensures var l' := L.Apply(j.exchange, L.Decide(id, status), key);
            l'.db.binds == j.exchange.db.binds && l'.db.prices == j.exchange.db.prices
                && TracksPriced(j.(exchange := l'))
  {
    JointParts(j);
    R.DecideOpExtends(j.exchange, id, status, key);
    DecideKeepsBuckets(j.exchange, id, status, key);
    DecidePrices(j.service.db, j.exchange.db, L.Apply(j.exchange, L.Decide(id, status), key).db);
  }

  lemma DecidePrices(db: Db, e: E.Db, e': E.Db)
    requires AllPriced(db, e.tracks) && e'.tracks.Keys == e.tracks.Keys && R.Extends(e, e')
    ensures AllPriced(db, e'.tracks)
  {
    forall a | a in e'.tracks ensures TrackIsPriced(db, a, e'.tracks[a]) {
      SamePrice(db, a, e.tracks[a], e'.tracks[a]);
    }
  }

  lemma ExchangeKeepsInv(j: Joint, op: L.Op, key: E.CompletionKey)
    requires JointInv(j) && (op.Deliver? || op.Decide?)
    ensures JointInv(j.(exchange := L.Apply(j.exchange, op, key)))
  {
    L.StepKeepsInv(j.exchange, op, key);
    match op
    case Deliver(dv) => DeliverKeepsTracks(j, dv);
    case Decide(id, status) => DecideKeepsTracks(j, id, status, key);
    KeepsJointInv(j, L.Apply(j.exchange, op, key));
  }

  lemma StartedInv(cfg: Config, s0: State, entries: seq<Entry>)
    requires NothingBound(s0.db)
    ensures JointInv(Started(cfg, s0, entries))
  {
    RestartOutcome(cfg, s0, entries);
    L.EmptyInv();
    var s := Restart(cfg, s0, entries);
    ViewIsKeyed(s.db);
    L.OutsideKeepsInv(L.EMPTY, ExchangeView(s.db).binds, ExchangeView(s.db).prices);
  }

  lemma StepIsExchanges(cfg: Config, key: E.CompletionKey, j: Joint, step: Step)
    requires !step.Serve?
    ensures exists op: L.Op ::
              (op.Deliver? || op.Decide?) &&
              Apply(cfg, key, j, step) == j.(exchange := L.Apply(j.exchange, op, key))
  {
    var op := match step case Deliver(dv) => L.Deliver(dv) case Decide(id, status) => L.Decide(id, status);
    assert Apply(cfg, key, j, step) == j.(exchange := L.Apply(j.exchange, op, key));
  }

  lemma StepKeepsJointInv(cfg: Config, key: E.CompletionKey, j: Joint, step: Step)
    requires JointInv(j)
    ensures JointInv(Apply(cfg, key, j, step))
  {
    hide *;
    if step.Serve? {
      ServeKeepsInv(cfg, key, j, step.op);
      assert Serve(step.op) == step;
    } else {
      StepIsExchanges(cfg, key, j, step);
      var op: L.Op :| (op.Deliver? || op.Decide?) && Apply(cfg, key, j, step) ==
          j.(exchange := L.Apply(j.exchange, op, key));
      ExchangeKeepsInv(j, op, key);
    }
  }

  lemma {:induction false} RunKeepsJointInv(cfg: Config, key: E.CompletionKey, s0: State, entries: seq<Entry>,
                                            steps: seq<Step>)
    requires NothingBound(s0.db)
    ensures JointInv(Run(cfg, key, Started(cfg, s0, entries), steps))
  {
    if steps == [] {
      StartedInv(cfg, s0, entries);
    } else {
      RunKeepsJointInv(cfg, key, s0, entries, steps[..|steps| - 1]);
      StepKeepsJointInv(cfg, key, Run(cfg, key, Started(cfg, s0, entries), steps[..|steps| - 1]), steps[|steps| - 1]);
    }
  }

  /** Over every run of requests, restarts with other prices, deliveries and credits: what the track of an address
      requires is the price of the box that is reserved, for good, at that address, in the coin of a binding of the
      address. */
  lemma RequiredIsReservedPrice(cfg: Config, key: E.CompletionKey, s0: State, entries: seq<Entry>, steps: seq<Step>,
                                a: string)
    requires NothingBound(s0.db)
    requires a in Run(cfg, key, Started(cfg, s0, entries), steps).exchange.db.tracks
    ensures var j := Run(cfg, key, Started(cfg, s0, entries), steps);
            var db, dt := j.service.db, j.exchange.db.tracks[a];
            exists coin ::
              && (coin, a) in db.binds && db.binds[(coin, a)].kittyID == dt.kittyID && dt.kittyID in db.reservations
              && db.reservations[dt.kittyID].status == RESERVED && db.reservations[dt.kittyID].depositAddress == a
              && dt.required == PriceIn(db.reservations[dt.kittyID], coin)
  {
    var j := Run(cfg, key, Started(cfg, s0, entries), steps);
    RunKeepsJointInv(cfg, key, s0, entries, steps);
    var coin :| PricedBy(j.service.db, a, j.exchange.db.tracks[a], coin);
    assert (coin, a) in j.service.db.binds;
  }

  // Which start gave the price

  /** The requests and restarts among the steps. */
  function ServiceOps(steps: seq<Step>): seq<Op> {
    if steps == [] then []
    else
      var step := steps[|steps| - 1];
      ServiceOps(steps[..|steps| - 1]) + if step.Serve? then [step.op] else []
  }

  lemma ServiceStep(cfg: Config, key: E.CompletionKey, j: Joint, step: Step)
    ensures Apply(cfg, key, j, step).service ==
            if step.Serve? then ReservationSafety.Apply(cfg, j.service, step.op) else j.service
  {
  }

  lemma OneMoreServed(cfg: Config, s: State, ops: seq<Op>, op: Op)
    ensures ReservationSafety.Run(cfg, s, ops + [op]) ==
            ReservationSafety.Apply(cfg, ReservationSafety.Run(cfg, s, ops), op)
  {
    assert (ops + [op])[..|ops|] == ops;
  }

  /** Deliveries and credits do not touch the service. */
  lemma {:induction false} ServiceRuns(cfg: Config, key: E.CompletionKey, j: Joint, steps: seq<Step>)
    ensures Run(cfg, key, j, steps).service == ReservationSafety.Run(cfg, j.service, ServiceOps(steps))
  {
    if steps == [] {
      return;
    }
    hide Apply, ReservationSafety.Apply, ReservationSafety.Run;
    var init, step := steps[..|steps| - 1], steps[|steps| - 1];
    ServiceRuns(cfg, key, j, init);
    ServiceStep(cfg, key, Run(cfg, key, j, init), step);
    if step.Serve? {
      OneMoreServed(cfg, j.service, ServiceOps(init), step.op);
    } else {
      assert ServiceOps(steps) == ServiceOps(init);
    }
  }

  /** dt asks for the price, in the coin of the binding, that the last entry for its box has in this list. */
  ghost predicate PriceGiven(entries: seq<Entry>, dt: E.DepositTrack, coin: string) {
    exists e :: LastFor(entries, dt.kittyID, e) &&
                dt.required == if coin == COIN_SKY then entries[e].priceSKY else entries[e].priceBTC
  }

  lemma GivenIsRequired(db: Db, entries: seq<Entry>, ops: seq<Op>, n: int, a: string, dt: E.DepositTrack, coin: string)
    requires PricedBy(db, a, dt, coin) && PricedAt(db, entries, ops, n, (coin, a))
    ensures PriceGiven(LastStart(entries, ops[..n]), dt, coin)
  {
    var given, r := LastStart(entries, ops[..n]), db.reservations[dt.kittyID];
    var e :| LastFor(given, dt.kittyID, e) && PricesOf(r, given[e]);
    assert dt.required == if coin == COIN_SKY then given[e].priceSKY else given[e].priceBTC;
  }

  /** Over every run: what the track of an address requires is the price that the last start before the reservation at
      this address was given for the box, in the coin of the binding, whatever prices later starts are given. */
  lemma RequiredIsGivenPrice(cfg: Config, key: E.CompletionKey, s0: State, entries: seq<Entry>, steps: seq<Step>,
                             a: string)
    requires NothingBound(s0.db)
    requires a in Run(cfg, key, Started(cfg, s0, entries), steps).exchange.db.tracks
    ensures var j, ops := Run(cfg, key, Started(cfg, s0, entries), steps), ServiceOps(steps);
            exists coin, n ::
              && BoundAt(cfg, Restart(cfg, s0, entries), ops, n, (coin, a))
              && PriceGiven(LastStart(entries, ops[..n]), j.exchange.db.tracks[a], coin)
  {
    hide Run, Restart, Inv, DbInv, L.Inv, NothingBound, BoundAt, PricedAt, PriceGiven, LastStart, ReservationSafety.Run,
         PricedBy;
    var j, ops := Run(cfg, key, Started(cfg, s0, entries), steps), ServiceOps(steps);
    RunKeepsJointInv(cfg, key, s0, entries, steps);
    var coin :| PricedBy(j.service.db, a, j.exchange.db.tracks[a], coin);
    PricedIsBound(j.service.db, a, j.exchange.db.tracks[a], coin);
    ServiceRuns(cfg, key, Started(cfg, s0, entries), steps);
    PricesGivenBefore(cfg, s0, entries, ops, (coin, a));
    var n :| BoundAt(cfg, Restart(cfg, s0, entries), ops, n, (coin, a)) &&
             PricedAt(j.service.db, entries, ops, n, (coin, a));
    GivenIsRequired(j.service.db, entries, ops, n, a, j.exchange.db.tracks[a], coin);
  }

  lemma PricedIsBound(db: Db, a: string, dt: E.DepositTrack, coin: string)
    requires PricedBy(db, a, dt, coin)
    ensures (coin, a) in db.binds
  {
  }
}

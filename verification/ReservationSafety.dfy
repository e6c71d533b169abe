/**
 Safety of reservations over every run of requests, rollbacks, failed commits and restarts: used addresses, bindings
 and reservations move together, a committed reservation is permanent, and the user limit holds.
 */
module ReservationSafety {
  import opened Common
  import opened Reservations
  import D = Deposits
  import S = ScanStore
  import A = Addrs
  import E = Exchange
  import L = ExchangeLedger
  import R = LedgerRuns

  // The invariant

  /** An address is used exactly when it is bound. */
  ghost predicate LockStep(db: Db) {
    db.used == db.binds.Keys
  }

  /** A binding of address a to kitty K means that K is reserved at a, for an owner whose one reservation this is. */
  ghost predicate BindingReserved(db: Db, k: (string, string)) {
    k in db.binds &&
    var b := db.binds[k];
    && b.coinType == k.0 && b.address == k.1 && k.1 != "" && SupportedCoin(k.0)
    && b.kittyID in db.reservations
    && var r := db.reservations[b.kittyID];
       && r.status == RESERVED && r.depositAddress == k.1
       && r.ownerAddress in db.users && db.users[r.ownerAddress].reservations == [r]
  }

  ghost predicate BindingsReserved(db: Db) {
    forall k :: k in db.binds ==> BindingReserved(db, k)
  }

  ghost predicate OneBinding(db: Db) {
    forall j, k :: j in db.binds && k in db.binds && db.binds[j].kittyID == db.binds[k].kittyID ==> j == k
  }

  ghost predicate Keyed(db: Db) {
    && (forall k :: k in db.reservations ==> db.reservations[k].kittyID == k)
    && (forall u :: u in db.users ==> db.users[u].address == u && |db.users[u].reservations| <= MAX_RESERVATION)
  }

  ghost predicate DbInv(db: Db) {
    LockStep(db) && BindingsReserved(db) && OneBinding(db) && Keyed(db)
  }

  /** The in-memory copies never promise more than the buckets allow. */
  ghost predicate CacheInv(s: State) {
    && (forall k :: k in s.cache ==>
          s.cache[k].kittyID == k && k in s.db.reservations
              && (s.db.reservations[k].status == RESERVED ==> s.cache[k].status == RESERVED))
    && (forall u :: u in s.users ==> s.users[u].address == u)
    && (forall u :: u in s.db.users ==> u in s.users && |s.db.users[u].reservations| <= |s.users[u].reservations|)
  }

  ghost predicate Inv(s: State) {
    DbInv(s.db) && CacheInv(s)
  }

  // A committed request

  /** What the buckets hold after a request of user for kitty committed: one address more is used and bound, the kitty
      is reserved at it, the user has this one reservation. */
  ghost predicate Committed(db: Db, db': Db, coin: string, a: string, user: string, kitty: string) {
    && (coin, a) !in db.used && a != "" && SupportedCoin(coin)
    && kitty in db.reservations && db.reservations[kitty].status != RESERVED
    && (user in db.users ==> db.users[user].reservations == [])
    && db'.used == db.used + {(coin, a)}
    && db'.binds == db.binds[(coin, a) := E.BoundAddress(kitty, a, coin)]
    && kitty in db'.reservations
    && var r := db'.reservations[kitty];
       && r.status == RESERVED && r.depositAddress == a && r.ownerAddress == user && r.kittyID == kitty
       && db'.reservations == db.reservations[kitty := r]
       && db'.users == db.users[user := User(user, [r])]
  }

  lemma ChosenIsUnused(pool: seq<string>, db: Db, coin: string)
    requires A.Choose(pool, UsedFor(db, coin)).Ok?
    ensures var (a, rest) := A.Choose(pool, UsedFor(db, coin)).value;
            (coin, a) !in db.used && a != ""
  {
    var (a, rest) := A.Choose(pool, UsedFor(db, coin)).value;
    assert (coin, a) in db.used ==> (coin, a).1 in UsedFor(db, coin);
  }

  /** Taking an address leaves the buckets and the cached reservations and users alone. */
  lemma BindAddressOutcome(cfg: Config, s: State, kitty: string, coin: string)
    ensures var (s', r) := BindAddressTx(cfg, s, s.db, kitty, coin);
            && s'.db == s.db && s'.cache == s.cache && s'.users == s.users
            && (r.Ok? ==>
                  var (b, tx) := r.value;
                  && b == E.BoundAddress(kitty, b.address, coin) && (coin, b.address) !in s.db.used
                  && b.address != "" && SupportedCoin(coin)
                  && tx == s.db.(used := s.db.used + {(coin, b.address)}, binds := s.db.binds[(coin, b.address) := b]))
  {
    if cfg.bindEnabled && coin in s.pools && A.Choose(s.pools[coin], UsedFor(s.db, coin)).Ok? {
      ChosenIsUnused(s.pools[coin], s.db, coin);
    }
  }

  /** The reservation as the request leaves it in the cache. */
  ghost predicate Taken(r: Reservation, a: string, user: string, kitty: string) {
    r.status == RESERVED && r.depositAddress == a && r.ownerAddress == user && r.kittyID == kitty
  }

  lemma MakeReservationOutcome(s: State, tx: Db, a: string, user: string, kitty: string, coin: string, verifies: bool)
    requires CacheInv(s) && user != ""
    ensures var (s', r) := MakeReservation(s, tx, a, user, kitty, coin, verifies);
            && s'.db == s.db && CacheInv(s')
            && (r.Ok? ==>
                  && kitty in s.cache && s.cache[kitty].status == AVAILABLE && SupportedCoin(coin)
                  && user in s'.users && kitty in s'.cache && Taken(s'.cache[kitty], a, user, kitty)
                  && s'.users[user] == (if user in s.users then s.users[user] else User(user, []))
                  && r.value == tx.(reservations := tx.reservations[kitty := s'.cache[kitty]],
                                    users := tx.users[user := User(user,
                                        s'.users[user].reservations + [s'.cache[kitty]])]))
  {
    if verifies && CanTake(s, kitty, coin).Ok? {
      var res := CanTake(s, kitty, coin).value.(status := RESERVED, depositAddress := a, ownerAddress := user);
      var u := if user in s.users then s.users[user] else User(user, []);
      var tx' := if user in s.users then tx else tx.(users := tx.users[user := u]);
      TakeOutcome(s, tx', res, kitty, u);
      var made := u.(reservations := u.reservations + [res]);
      assert tx'.users[user := made] == tx.users[user := made];
    }
  }

  lemma TakeOutcome(s: State, tx: Db, r: Reservation, kitty: string, u: User)
    requires CacheInv(s) && kitty in s.cache && r.kittyID == kitty && r.status == RESERVED
    requires u.address != "" && (u.address in s.users ==> s.users[u.address] == u)
    ensures var (s', made) := Take(s.(users := s.users[u.address := u]), tx, r, kitty, u);
            && s'.db == s.db && CacheInv(s') && s'.cache == s.cache[kitty := r] && s'.users == s.users[u.address := u]
            && (made.Ok? ==>
                  made.value == tx.(reservations := tx.reservations[kitty := r],
                                    users := tx.users[u.address := u.(reservations := u.reservations + [r])]))
  {
  }

  lemma CommittedKeepsDbInv(db: Db, db': Db, coin: string, a: string, user: string, kitty: string)
    requires DbInv(db) && Committed(db, db', coin, a, user, kitty)
    ensures DbInv(db')
  {
    assert LockStep(db');
    forall k | k in db'.binds ensures BindingReserved(db', k) {
      if k != (coin, a) {
        assert BindingReserved(db, k);
        assert db.binds[k].kittyID != kitty;
        var owner := db.reservations[db.binds[k].kittyID].ownerAddress;
        assert owner != user;
      }
    }
    forall j, k | j in db'.binds && k in db'.binds && db'.binds[j].kittyID == db'.binds[k].kittyID ensures j == k {
      assert j != (coin, a) ==> BindingReserved(db, j);
      assert k != (coin, a) ==> BindingReserved(db, k);
    }
  }

  /** A request that returns leaves either the old buckets or a commit, and keeps the invariant. */
  lemma HandleOutcome(cfg: Config, s: State, req: Request, w: World)
    requires Inv(s)
    ensures var (s', r) := Handle(cfg, s, req, w);
            && Inv(s')
            && (s'.db == s.db ||
                (r.Ok? && Committed(s.db, s'.db, req.coinType, r.value.address, req.userAddress,
                    D.Decimal(req.kittyID))))
            && (s'.db != s.db <==> r.Ok? && w.commits)
            && (r.Ok? ==> r.value.kittyID == D.Decimal(req.kittyID) && r.value.coinType == req.coinType)
  {
    if req.userAddress != "" && req.coinType != "" && req.code != "" && w.decodes {
      var kitty := D.Decimal(req.kittyID);
      var (s1, bound) := BindAddressTx(cfg, s, s.db, kitty, req.coinType);
      BindAddressOutcome(cfg, s, kitty, req.coinType);
      if bound.Ok? {
        var (b, tx) := bound.value;
        var (s2, made) := MakeReservation(s1, tx, b.address, req.userAddress, kitty, req.coinType, w.verifies);
        MakeReservationOutcome(s1, tx, b.address, req.userAddress, kitty, req.coinType, w.verifies);
        if made.Ok? {
          FinishOutcome(s, s2, made.value, b, req.userAddress, kitty, w);
        }
      }
    }
  }

  lemma FinishOutcome(s: State, s2: State, tx: Db, b: E.BoundAddress, user: string, kitty: string, w: World)
    requires Inv(s) && CacheInv(s2) && s2.db == s.db && user in s2.users && kitty in s2.cache
    requires kitty in s.db.reservations && s.db.reservations[kitty].status != RESERVED
    requires b.address != "" && SupportedCoin(b.coinType) && (b.coinType, b.address) !in s.db.used && b.kittyID == kitty
    requires var res := s2.cache[kitty];
             && Taken(res, b.address, user, kitty)
             && tx == s.db.(used := s.db.used + {(b.coinType, b.address)},
                binds := s.db.binds[(b.coinType, b.address) := b],
                            reservations := s.db.reservations[kitty := res],
                            users := s.db.users[user := User(user, s2.users[user].reservations + [res])])
    ensures var (s', r) := Finish(s2, tx, b, user, kitty, w);
            && Inv(s')
            && (s'.db == s.db || (r == Ok(b) && Committed(s.db, s'.db, b.coinType, b.address, user, kitty)))
            && (s'.db != s.db <==> r.Ok? && w.commits) && (r.Ok? ==> r.value == b)
  {
    var (s', r) := Finish(s2, tx, b, user, kitty, w);
    if r.Ok? && w.commits {
      assert s2.users[user].reservations + [s2.cache[kitty]] == [s2.cache[kitty]];
      assert Committed(s.db, tx, b.coinType, b.address, user, kitty);
      CommittedKeepsDbInv(s.db, tx, b.coinType, b.address, user, kitty);
      CommittedKeepsCacheInv(s2, tx, b.coinType, b.address, user, kitty);
      assert (b.coinType, b.address) in tx.used;
    }
  }

  lemma CommittedKeepsCacheInv(s: State, tx: Db, coin: string, a: string, user: string, kitty: string)
    requires CacheInv(s) && Committed(s.db, tx, coin, a, user, kitty)
    requires user in s.users && kitty in s.cache && s.cache[kitty].status == RESERVED
             && |s.users[user].reservations| == 0
    ensures AddReservation(s, user, kitty).Ok? && CacheInv(AddReservation(s, user, kitty).value.(db := tx))
  {
  }

  // Runs

  datatype Op =
    | Requested(req: Request, w: World)
    | Restarted(entries: seq<Entry>)

  function Apply(cfg: Config, s: State, op: Op): State {
    match op
    case Requested(req, w) => Handle(cfg, s, req, w).0
    case Restarted(entries) => Restart(cfg, s, entries)
  }

  function Run(cfg: Config, s: State, ops: seq<Op>): State {
    if ops == [] then s else Apply(cfg, Run(cfg, s, ops[..|ops| - 1]), ops[|ops| - 1])
  }

  /** Nothing reserved, bound or used is ever changed. */
  ghost predicate Permanent(db: Db, db': Db) {
    && (forall k :: k in db.reservations ==>
          k in db'.reservations && (db.reservations[k].status == RESERVED ==>
              db'.reservations[k] == db.reservations[k]))
    && (forall k :: k in db.binds ==> k in db'.binds && db'.binds[k] == db.binds[k])
    && db.used <= db'.used
    && (forall u :: u in db.users ==>
         u in db'.users && (db.users[u].reservations != [] ==> db'.users[u] == db.users[u]))
  }

  lemma {:induction false} LoadEntriesOutcome(s: State, entries: seq<Entry>)
    requires Inv(s)
    ensures var s' := LoadEntries(s, entries);
            && Inv(s') && Permanent(s.db, s'.db) && s'.db.binds == s.db.binds && s'.db.used == s.db.used
               && s'.db.users == s.db.users
            && (forall k :: k in s.db.reservations ==> s'.db.reservations[k] == s.db.reservations[k])
  {
    if entries != [] {
      var before := LoadEntries(s, entries[..|entries| - 1]);
      LoadEntriesOutcome(s, entries[..|entries| - 1]);
      LoadEntryKeepsDbInv(before, entries[|entries| - 1]);
    }
  }

  lemma LoadEntryKeepsDbInv(s: State, e: Entry)
    requires Inv(s)
    ensures Inv(LoadEntry(s, e))
  {
    var k := D.Decimal(e.id);
    if k !in s.db.reservations {
      NewEntryKeepsDbInv(s.db, Reservation("", "", k, e.status, e.priceBTC, e.priceSKY, ""));
    }
  }

  lemma NewEntryKeepsDbInv(db: Db, r: Reservation)
    requires DbInv(db) && r.kittyID !in db.reservations
    ensures DbInv(db.(reservations := db.reservations[r.kittyID := r]))
  {
    var db' := db.(reservations := db.reservations[r.kittyID := r]);
    forall k | k in db'.binds ensures BindingReserved(db', k) {
      assert BindingReserved(db, k);
    }
  }

  /** A restart needs only sound buckets: it rebuilds the in-memory copies and changes no stored entry. */
  lemma RestartOutcome(cfg: Config, s: State, entries: seq<Entry>)
    requires DbInv(s.db)
    ensures Inv(Restart(cfg, s, entries)) && Permanent(s.db, Restart(cfg, s, entries).db)
  {
    var s0 := s.(pools := map coin | coin in cfg.lists :: A.Unused(cfg.lists[coin], UsedFor(s.db, coin)),
                 cache := map[], users := s.db.users);
    LoadEntriesOutcome(s0, entries);
  }

  lemma StepOutcome(cfg: Config, s: State, op: Op)
    requires Inv(s)
    ensures Inv(Apply(cfg, s, op)) && Permanent(s.db, Apply(cfg, s, op).db)
  {
    match op
    case Requested(req, w) => HandleOutcome(cfg, s, req, w);
    case Restarted(entries) => RestartOutcome(cfg, s, entries);
  }

  /** Through every run, whatever fails, the invariant holds and nothing reserved, bound or used changes. */
  lemma {:induction false} RunOutcome(cfg: Config, s: State, ops: seq<Op>)
    requires Inv(s)
    ensures Inv(Run(cfg, s, ops)) && Permanent(s.db, Run(cfg, s, ops).db)
  {
    if ops != [] {
      RunOutcome(cfg, s, ops[..|ops| - 1]);
      StepOutcome(cfg, Run(cfg, s, ops[..|ops| - 1]), ops[|ops| - 1]);
    }
  }

  /** Buckets in which nothing has been bound yet. */
  ghost predicate NothingBound(db: Db) {
    db.used == {} && db.binds == map[] && Keyed(db)
  }

  /** In every state reached from buckets without bindings: an address is used exactly when it is bound; a bound kitty
      is reserved at the address of its only binding; no two bound kitties have the same owner; no user exceeds the
      limit; the cache shows as reserved all that is stored as reserved. */
  lemma ReservationsAgree(cfg: Config, s0: State, entries: seq<Entry>, ops: seq<Op>)
    requires NothingBound(s0.db)
    ensures var s := Run(cfg, Restart(cfg, s0, entries), ops);
            && s.db.used == s.db.binds.Keys
            && (forall k :: k in s.db.binds ==> BindingReserved(s.db, k))
            && (forall j, k :: j in s.db.binds && k in s.db.binds && s.db.binds[j].kittyID == s.db.binds[k].kittyID ==>
                  j == k)
            && (forall j, k :: j in s.db.binds && k in s.db.binds && OwnerOf(s.db, j) == OwnerOf(s.db, k) ==> j == k)
            && (forall u :: u in s.db.users ==> |s.db.users[u].reservations| <= MAX_RESERVATION)
            && (forall k :: k in s.cache && k in s.db.reservations && s.db.reservations[k].status == RESERVED ==>
                  s.cache[k].status == RESERVED)
  {
    var s := Run(cfg, Restart(cfg, s0, entries), ops);
    RestartOutcome(cfg, s0, entries);
    RunOutcome(cfg, Restart(cfg, s0, entries), ops);
    forall j, k | j in s.db.binds && k in s.db.binds && OwnerOf(s.db, j) == OwnerOf(s.db, k) ensures j == k {
      assert BindingReserved(s.db, j) && BindingReserved(s.db, k);
      var rj := s.db.reservations[s.db.binds[j].kittyID];
      var rk := s.db.reservations[s.db.binds[k].kittyID];
      assert [rj][0] == [rk][0];
      assert rj.kittyID == s.db.binds[j].kittyID && rk.kittyID == s.db.binds[k].kittyID;
    }
  }

  /** The owner of the kitty that is bound at an address. */
  ghost function OwnerOf(db: Db, k: (string, string)): Option<string>
    requires k in db.binds
  {
    var kitty := db.binds[k].kittyID;
    if kitty in db.reservations then Some(db.reservations[kitty].ownerAddress) else None
  }

  /** The request gets an address: the handler's and the service's checks pass, the pool offers one, and the scan list
      does not have it. */
  predicate Draws(cfg: Config, s: State, req: Request, w: World) {
    var coin := req.coinType;
    && req.userAddress != "" && req.code != "" && w.decodes
    && cfg.bindEnabled && coin in cfg.scanners && SupportedCoin(coin)
    && coin in s.pools && A.Choose(s.pools[coin], UsedFor(s.db, coin)).Ok?
    && coin in s.scan.scanMeta && A.Choose(s.pools[coin], UsedFor(s.db, coin)).value.0 !in s.scan.scanMeta[coin]
  }

  /** The verification agrees and the cache shows the box as available. */
  predicate Takes(s: State, req: Request, w: World) {
    var kitty := D.Decimal(req.kittyID);
    w.verifies && kitty in s.cache && s.cache[kitty].status == AVAILABLE
  }

  /** Everything outside agrees and the cache shows the user without a reservation. */
  predicate Completes(s: State, req: Request, w: World) {
    && w.kittyIdParses && w.apiAccepts && w.satisfies
    && (req.userAddress in s.users ==> s.users[req.userAddress].reservations == [])
  }

  lemma DrawnIff(cfg: Config, s: State, req: Request, w: World)
    requires Inv(s) && req.userAddress != "" && req.coinType != "" && req.code != "" && w.decodes
    ensures BindAddressTx(cfg, s, s.db, D.Decimal(req.kittyID), req.coinType).1.Ok? <==> Draws(cfg, s, req, w)
  {
    if req.coinType in s.pools && A.Choose(s.pools[req.coinType], UsedFor(s.db, req.coinType)).Ok? {
      ChosenIsUnused(s.pools[req.coinType], s.db, req.coinType);
    }
  }

  /** Exactly the requests that succeed. */
  lemma SucceedsIff(cfg: Config, s: State, req: Request, w: World)
    requires Inv(s)
    ensures Handle(cfg, s, req, w).1.Ok? <==> Draws(cfg, s, req, w) && Takes(s, req, w) && Completes(s, req, w)
  {
    var coin := req.coinType;
    var kitty := D.Decimal(req.kittyID);
    BindAddressOutcome(cfg, s, kitty, coin);
    if coin in s.pools && A.Choose(s.pools[coin], UsedFor(s.db, coin)).Ok? {
      ChosenIsUnused(s.pools[coin], s.db, coin);
    }
  }

  /** Why a request fails: it is malformed, it draws no address, it does not take the box, or it does not complete, and
      in each case the first obstacle. */
  lemma FailsBecause(cfg: Config, s: State, req: Request, w: World)
    requires Inv(s) && Handle(cfg, s, req, w).1.Err?
    ensures var e := Handle(cfg, s, req, w).1.error;
            var kitty := D.Decimal(req.kittyID);
            if req.userAddress == "" || req.coinType == "" || req.code == "" || !w.decodes then e == BadRequest
            else if !Draws(cfg, s, req, w) then e == DrawFailure(cfg, s, req.coinType)
            else if !w.verifies then e == VerificationFailed
            else if kitty !in s.cache then e == ReservationNotFound
            else if s.cache[kitty].status == RESERVED then e == BoxAlreadyReserved
            else if s.cache[kitty].status != AVAILABLE then e == InvalidReservationType
            else if !w.kittyIdParses then e == KittyIdInvalid
            else if !w.apiAccepts then e == KittyApiFailed
            else if !w.satisfies then e == SatisfyFailed
            else e == MaxReservationsExceeded && req.userAddress in s.users
                 && s.users[req.userAddress].reservations != []
  {
    var coin := req.coinType;
    var kitty := D.Decimal(req.kittyID);
    BindAddressOutcome(cfg, s, kitty, coin);
    if coin in s.pools && A.Choose(s.pools[coin], UsedFor(s.db, coin)).Ok? {
      ChosenIsUnused(s.pools[coin], s.db, coin);
    }
  }

  /** The first obstacle to drawing an address. */
  function DrawFailure(cfg: Config, s: State, coin: string): Failure {
    if !cfg.bindEnabled then BindDisabled
    else if coin !in s.pools then CoinTypeNotRegistered
    else if A.Choose(s.pools[coin], UsedFor(s.db, coin)).Err? then DepositAddressEmpty
    else if coin !in cfg.scanners then UnknownCoinType
    else if !SupportedCoin(coin) then UnsupportedCoinType
    else ScanAddressRefused
  }

  // What the exchange relies on

  /** The exchange's view of the same buckets. */
  function ExchangeView(db: Db): E.Db {
    E.Db(map[], 0, map[], map[], db.binds,
         map k | k in db.reservations :: E.Price(db.reservations[k].priceBTC, db.reservations[k].priceSKY))
  }

  /** In every reachable state each binding is keyed by its coin and address and its kitty has a price: what the
      recording of deposits needs. */
  lemma BindingsHavePrices(cfg: Config, s0: State, entries: seq<Entry>, ops: seq<Op>)
    requires NothingBound(s0.db)
    ensures var view := ExchangeView(Run(cfg, Restart(cfg, s0, entries), ops).db);
            L.BindsKeyed(view) && R.PricesKnown(view)
  {
    var s := Run(cfg, Restart(cfg, s0, entries), ops);
    RestartOutcome(cfg, s0, entries);
    RunOutcome(cfg, Restart(cfg, s0, entries), ops);
    forall k | k in s.db.binds ensures BindingReserved(s.db, k) {}
  }

  // The coin type of a reservation

  /** The coin type that a reservation made for this coin is stored with. */
  function StoredType(coin: string): string {
    if coin == COIN_BTC then coin else ""
  }

  predicate TypedWhenReserved(rs: map<string, Reservation>) {
    forall k :: k in rs && rs[k].status != RESERVED ==> rs[k].coinType == ""
  }

  ghost predicate Typed(s: State) {
    && TypedWhenReserved(s.db.reservations) && TypedWhenReserved(s.cache)
    && forall k :: k in s.db.binds ==>
         s.db.binds[k].kittyID in s.db.reservations && s.db.reservations[s.db.binds[k].kittyID].coinType ==
             StoredType(k.0)
  }

  lemma MakeReservationTypes(s: State, tx: Db, a: string, user: string, kitty: string, coin: string, verifies: bool)
    requires CacheInv(s) && TypedWhenReserved(s.cache) && user != ""
    ensures var (s', r) := MakeReservation(s, tx, a, user, kitty, coin, verifies);
            TypedWhenReserved(s'.cache) && (r.Ok? ==> kitty in s'.cache && s'.cache[kitty].coinType == StoredType(coin))
  {
    MakeReservationOutcome(s, tx, a, user, kitty, coin, verifies);
  }

  lemma FinishTypes(s: State, tx: Db, bound: E.BoundAddress, user: string, kitty: string, w: World)
    requires TypedWhenReserved(s.cache)
    ensures var (s', r) := Finish(s, tx, bound, user, kitty, w);
            TypedWhenReserved(s'.cache) && s'.db == if r.Ok? && w.commits then tx else s.db
  {
  }

  /** A request that gets a reservation into the transaction hands it to Finish with these buckets and caches. */
  lemma Made(cfg: Config, s: State, req: Request, w: World) returns (s2: State, tx: Option<Db>, b: E.BoundAddress)
    requires Inv(s) && TypedWhenReserved(s.cache)
    ensures s2.db == s.db && TypedWhenReserved(s2.cache)
    ensures var kitty := D.Decimal(req.kittyID);
            Handle(cfg, s, req, w).0 == if tx.Some? then Finish(s2, tx.value, b, req.userAddress, kitty, w).0 else s2
    ensures tx.Some? ==>
              var kitty := D.Decimal(req.kittyID);
              && kitty in s.db.reservations && s.db.reservations[kitty].status != RESERVED
              && kitty in s2.cache && s2.cache[kitty].status == RESERVED
              && s2.cache[kitty].coinType == StoredType(b.coinType) && b.kittyID == kitty
              && tx.value.reservations == s.db.reservations[kitty := s2.cache[kitty]]
              && tx.value.binds == s.db.binds[(b.coinType, b.address) := b]
  {
    tx, b, s2 := None, E.BoundAddress("", "", ""), Handle(cfg, s, req, w).0;
    if req.userAddress != "" && req.coinType != "" && req.code != "" && w.decodes {
      var kitty := D.Decimal(req.kittyID);
      var (s1, bound) := BindAddressTx(cfg, s, s.db, kitty, req.coinType);
      BindAddressOutcome(cfg, s, kitty, req.coinType);
      if bound.Ok? {
        b := bound.value.0;
        MakeReservationOutcome(s1, bound.value.1, b.address, req.userAddress, kitty, req.coinType, w.verifies);
        MakeReservationTypes(s1, bound.value.1, b.address, req.userAddress, kitty, req.coinType, w.verifies);
        var (s', made) :=
          MakeReservation(s1, bound.value.1, b.address, req.userAddress, kitty, req.coinType, w.verifies);
        if made.Ok? {
          s2, tx := s', Some(made.value);
        }
      }
    }
  }

  lemma HandleTypes(cfg: Config, s: State, req: Request, w: World)
    requires Inv(s) && Typed(s)
    ensures Typed(Handle(cfg, s, req, w).0)
  {
    hide Handle, Finish;
    var s2, tx, b := Made(cfg, s, req, w);
    var kitty := D.Decimal(req.kittyID);
    if tx.Some? {
      FinishTypes(s2, tx.value, b, req.userAddress, kitty, w);
      CommitTypes(s, tx.value, b, kitty, s2.cache[kitty]);
    }
  }

  lemma CommitTypes(s: State, tx: Db, b: E.BoundAddress, kitty: string, r: Reservation)
    requires Inv(s) && Typed(s) && kitty in s.db.reservations && s.db.reservations[kitty].status != RESERVED
    requires r.status == RESERVED && r.coinType == StoredType(b.coinType) && b.kittyID == kitty
    requires tx.reservations == s.db.reservations[kitty := r] && tx.binds == s.db.binds[(b.coinType, b.address) := b]
    ensures TypedWhenReserved(tx.reservations)
    ensures forall k :: k in tx.binds ==>
              tx.binds[k].kittyID in tx.reservations && tx.reservations[tx.binds[k].kittyID].coinType == StoredType(k.0)
  {
    forall k | k in s.db.binds ensures s.db.binds[k].kittyID != kitty {
      assert BindingReserved(s.db, k);
    }
  }

  lemma {:induction false} LoadEntriesTypes(s: State, entries: seq<Entry>)
    requires Typed(s)
    ensures Typed(LoadEntries(s, entries))
  {
    if entries != [] {
      LoadEntriesTypes(s, entries[..|entries| - 1]);
    }
  }

  lemma {:induction false} RunTypes(cfg: Config, s: State, ops: seq<Op>)
    requires Inv(s) && Typed(s)
    ensures Typed(Run(cfg, s, ops))
  {
    if ops != [] {
      var before, op := Run(cfg, s, ops[..|ops| - 1]), ops[|ops| - 1];
      RunTypes(cfg, s, ops[..|ops| - 1]);
      RunOutcome(cfg, s, ops[..|ops| - 1]);
      match op
      case Requested(req, w) => HandleTypes(cfg, before, req, w);
      case Restarted(entries) => RestartTypes(cfg, before, entries);
    }
  }

  lemma RestartTypes(cfg: Config, s: State, entries: seq<Entry>)
    requires Typed(s)
    ensures Typed(Restart(cfg, s, entries))
  {
    LoadEntriesTypes(s.(pools := map c | c in cfg.lists :: A.Unused(cfg.lists[c], UsedFor(s.db, c)), cache := map[],
                        users := s.db.users), entries);
  }

  /** Only a Bitcoin reservation is stored with its coin type: from buckets in which no box has one yet, the stored
      type of a bound box is that of its binding exactly when the coin is Bitcoin, and empty otherwise. */
  lemma StoredTypeIsBindingsIff(cfg: Config, s0: State, entries: seq<Entry>, ops: seq<Op>, k: (string, string))
    requires NothingBound(s0.db) && TypedWhenReserved(s0.db.reservations)
    requires k in Run(cfg, Restart(cfg, s0, entries), ops).db.binds
    ensures var db := Run(cfg, Restart(cfg, s0, entries), ops).db;
            && db.binds[k].coinType == k.0 && db.binds[k].kittyID in db.reservations
            && var stored := db.reservations[db.binds[k].kittyID].coinType;
               (stored == k.0 <==> k.0 == COIN_BTC) && (k.0 != COIN_BTC ==> stored == "")
  {
    var s := Restart(cfg, s0, entries);
    RestartOutcome(cfg, s0, entries);
    RestartTypes(cfg, s0.(cache := map[]), entries);
    RunTypes(cfg, s, ops);
    RunOutcome(cfg, s, ops);
    assert BindingReserved(Run(cfg, s, ops).db, k);
  }
}

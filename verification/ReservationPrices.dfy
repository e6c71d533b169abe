/**
 What a start makes of the entries that it is given, and the prices that a reservation is stored with: those that the
 last start before it was given.
 */
module ReservationPrices {
  import opened Common
  import opened Reservations
  import opened ReservationSafety
  import D = Deposits
  import A = Addrs
  import E = Exchange

  // A start

  /** Entry n of the list is for box k. */
  predicate EntryFor(entries: seq<Entry>, k: string, n: int) {
    0 <= n < |entries| && D.Decimal(entries[n].id) == k
  }

  ghost predicate FirstFor(entries: seq<Entry>, k: string, n: int) {
    EntryFor(entries, k, n) && forall m :: 0 <= m < n ==> !EntryFor(entries, k, m)
  }

  ghost predicate LastFor(entries: seq<Entry>, k: string, n: int) {
    EntryFor(entries, k, n) && forall m :: n < m < |entries| ==> !EntryFor(entries, k, m)
  }

  ghost predicate Listed(entries: seq<Entry>, k: string) {
    exists n :: EntryFor(entries, k, n)
  }

  predicate PricesOf(r: Reservation, e: Entry) {
    r.priceBTC == e.priceBTC && r.priceSKY == e.priceSKY
  }

  /** Everything but the prices. */
  predicate SameBox(r: Reservation, r': Reservation) {
    && r.depositAddress == r'.depositAddress && r.ownerAddress == r'.ownerAddress && r.kittyID == r'.kittyID
    && r.status == r'.status && r.coinType == r'.coinType
  }

  predicate NobodyHas(r: Reservation, k: string) {
    r.kittyID == k && r.depositAddress == "" && r.ownerAddress == "" && r.coinType == ""
  }

  /** What the entries leave for box k: a stored box stays as it is; a new one is stored as its first entry says; the
      cached copy is the stored box with the prices of its last entry; boxes without an entry are not cached. */
  ghost predicate BoxLoaded(stored: map<string, Reservation>, entries: seq<Entry>, stored': map<string, Reservation>,
                            cache: map<string, Reservation>, k: string) {
    && (k in stored' <==> k in stored || Listed(entries, k))
    && (k in cache <==> Listed(entries, k))
    && (k in stored ==> stored'[k] == stored[k])
    && (forall n :: k !in stored && FirstFor(entries, k, n) ==>
          NobodyHas(stored'[k], k) && stored'[k].status == entries[n].status && PricesOf(stored'[k], entries[n]))
    && (forall n :: LastFor(entries, k, n) ==> SameBox(cache[k], stored'[k]) && PricesOf(cache[k], entries[n]))
  }

  lemma ListedStep(init: seq<Entry>, e: Entry, k: string)
    ensures Listed(init + [e], k) <==> Listed(init, k) || D.Decimal(e.id) == k
  {
    if n :| EntryFor(init, k, n) {
      assert EntryFor(init + [e], k, n);
    }
    if D.Decimal(e.id) == k {
      assert EntryFor(init + [e], k, |init|);
    }
    if n :| EntryFor(init + [e], k, n) {
      assert n == |init| || EntryFor(init, k, n);
    }
  }

  lemma FirstEntry(init: seq<Entry>, e: Entry, k: string, n: int)
    ensures FirstFor(init + [e], k, n) <==>
            FirstFor(init, k, n) || (n == |init| && D.Decimal(e.id) == k && !Listed(init, k))
    ensures FirstFor(init, k, n) ==> 0 <= n < |init| && Listed(init, k)
  {
    assert forall m :: 0 <= m < |init| ==> (EntryFor(init + [e], k, m) <==> EntryFor(init, k, m));
  }

  lemma LastEntry(init: seq<Entry>, e: Entry, k: string, n: int)
    ensures LastFor(init + [e], k, n) <==>
            if D.Decimal(e.id) == k then n == |init| else LastFor(init, k, n)
    ensures LastFor(init, k, n) ==> 0 <= n < |init| && Listed(init, k)
  {
    assert forall m :: 0 <= m < |init| ==> (EntryFor(init + [e], k, m) <==> EntryFor(init, k, m));
    assert EntryFor(init + [e], k, |init|) <==> D.Decimal(e.id) == k;
  }

  /** One entry: its own box is stored if it is new and cached with the entry's prices; any other box stays. */
  lemma EntryLoaded(s: State, e: Entry, k: string)
    ensures var s' := LoadEntry(s, e);
            && (k in s.db.reservations ==> k in s'.db.reservations && s'.db.reservations[k] == s.db.reservations[k])
            && (k != D.Decimal(e.id) ==>
                 && (k in s'.db.reservations <==> k in s.db.reservations) && (k in s'.cache <==> k in s.cache)
                 && (k in s.cache ==> s'.cache[k] == s.cache[k]))
            && (k == D.Decimal(e.id) ==>
                 && k in s'.db.reservations && k in s'.cache
                 && SameBox(s'.cache[k], s'.db.reservations[k]) && PricesOf(s'.cache[k], e)
                 && (k !in s.db.reservations ==>
                      NobodyHas(s'.db.reservations[k], k) && s'.db.reservations[k].status == e.status
                          && PricesOf(s'.db.reservations[k], e)))
  {
  }

  lemma OneMoreEntry(stored: map<string, Reservation>, init: seq<Entry>, e: Entry, s: State, k: string)
    requires BoxLoaded(stored, init, s.db.reservations, s.cache, k)
    ensures BoxLoaded(stored, init + [e], LoadEntry(s, e).db.reservations, LoadEntry(s, e).cache, k)
  {
    hide LoadEntry, FirstFor, LastFor, Listed, EntryFor, NobodyHas, PricesOf, SameBox, D.Decimal;
    EntryLoaded(s, e, k);
    ListedStep(init, e, k);
    var s' := LoadEntry(s, e);
    forall n | k !in stored && FirstFor(init + [e], k, n)
      ensures 0 <= n <= |init| && k in s'.db.reservations && NobodyHas(s'.db.reservations[k], k)
      ensures s'.db.reservations[k].status == (init + [e])[n].status
      ensures PricesOf(s'.db.reservations[k], (init + [e])[n])
    {
      FirstEntry(init, e, k, n);
    }
    forall n | LastFor(init + [e], k, n)
      ensures 0 <= n <= |init| && k in s'.db.reservations && k in s'.cache
      ensures SameBox(s'.cache[k], s'.db.reservations[k])
      ensures PricesOf(s'.cache[k], (init + [e])[n])
    {
      LastEntry(init, e, k, n);
    }
  }

  lemma {:induction false} EntriesLoaded(s: State, entries: seq<Entry>, k: string)
    requires s.cache == map[]
    ensures var s' := LoadEntries(s, entries);
            BoxLoaded(s.db.reservations, entries, s'.db.reservations, s'.cache, k) &&
            s' == s.(db := s.db.(reservations := s'.db.reservations), cache := s'.cache)
  {
    if entries != [] {
      var init, e := entries[..|entries| - 1], entries[|entries| - 1];
      EntriesLoaded(s, init, k);
      OneMoreEntry(s.db.reservations, init, e, LoadEntries(s, init), k);
      assert init + [e] == entries;
    }
  }

  /** What a start leaves, for every box, in terms of the buckets and the entries alone; nothing else in the buckets
      changes, the users are those stored, and the pools hold the listed addresses that are not used. */
  lemma RestartExact(cfg: Config, s: State, entries: seq<Entry>, k: string)
    ensures var s' := Restart(cfg, s, entries);
            && BoxLoaded(s.db.reservations, entries, s'.db.reservations, s'.cache, k)
            && s'.db == s.db.(reservations := s'.db.reservations) && s'.users == s.db.users && s'.scan == s.scan
            && s'.pools.Keys == cfg.lists.Keys
            && forall c :: c in cfg.lists ==> s'.pools[c] == A.Unused(cfg.lists[c], UsedFor(s.db, c))
  {
    EntriesLoaded(s.(pools := map c | c in cfg.lists :: A.Unused(cfg.lists[c], UsedFor(s.db, c)), cache := map[],
                     users := s.db.users), entries, k);
  }

  // A request

  predicate SamePrices(r: Reservation, r': Reservation) {
    r.priceBTC == r'.priceBTC && r.priceSKY == r'.priceSKY
  }

  /** The same boxes with the same prices. */
  ghost predicate PricesKept(cache: map<string, Reservation>, cache': map<string, Reservation>) {
    cache'.Keys == cache.Keys && forall k :: k in cache ==> SamePrices(cache'[k], cache[k])
  }

  lemma MakePrices(s: State, tx: Db, a: string, user: string, kitty: string, coin: string, verifies: bool)
    requires CacheInv(s) && user != ""
    ensures var (s', r) := MakeReservation(s, tx, a, user, kitty, coin, verifies);
            PricesKept(s.cache, s'.cache) &&
            (r.Ok? ==> kitty in s'.cache && r.value.reservations == tx.reservations[kitty := s'.cache[kitty]])
  {
    MakeReservationOutcome(s, tx, a, user, kitty, coin, verifies);
  }

  lemma FinishPrices(s: State, tx: Db, bound: E.BoundAddress, user: string, kitty: string, w: World)
    ensures var (s', r) := Finish(s, tx, bound, user, kitty, w);
            PricesKept(s.cache, s'.cache) && (s'.db == s.db || s'.db == tx)
  {
  }

  /** A request changes no cached price, and what it stores has the cached prices. */
  lemma RequestPrices(cfg: Config, s: State, req: Request, w: World)
    requires Inv(s)
    ensures var s', kitty := Handle(cfg, s, req, w).0, D.Decimal(req.kittyID);
            && PricesKept(s.cache, s'.cache)
            && (s'.db.reservations == s.db.reservations ||
                (kitty in s.cache && kitty in s'.db.reservations &&
                 s'.db.reservations == s.db.reservations[kitty := s'.db.reservations[kitty]] &&
                 SamePrices(s'.db.reservations[kitty], s.cache[kitty])))
  {
    hide MakeReservation, Finish, BindAddressTx, DbInv;
    if req.userAddress == "" || req.coinType == "" || req.code == "" || !w.decodes {
      return;
    }
    var kitty := D.Decimal(req.kittyID);
    var (s1, bound) := BindAddressTx(cfg, s, s.db, kitty, req.coinType);
    BindAddressOutcome(cfg, s, kitty, req.coinType);
    if bound.Ok? {
      var (b, tx) := bound.value;
      MakePrices(s1, tx, b.address, req.userAddress, kitty, req.coinType, w.verifies);
      var (s2, made) := MakeReservation(s1, tx, b.address, req.userAddress, kitty, req.coinType, w.verifies);
      MakeReservationOutcome(s1, tx, b.address, req.userAddress, kitty, req.coinType, w.verifies);
      if made.Ok? {
        FinishPrices(s2, made.value, b, req.userAddress, kitty, w);
      }
    }
  }

  // Runs

  /** The entries of the last start. */
  function LastStart(entries: seq<Entry>, ops: seq<Op>): seq<Entry> {
    if ops == [] then entries
    else if ops[|ops| - 1].Restarted? then ops[|ops| - 1].entries
    else LastStart(entries, ops[..|ops| - 1])
  }

  /** A box with these prices, as the list gives them. */
  ghost predicate GivenIn(entries: seq<Entry>, k: string, r: Reservation) {
    exists n :: LastFor(entries, k, n) && PricesOf(r, entries[n])
  }

  ghost predicate CacheGiven(s: State, entries: seq<Entry>) {
    forall k :: k in s.cache ==> GivenIn(entries, k, s.cache[k])
  }

  lemma {:induction false} LastExists(entries: seq<Entry>, k: string, n: int)
    requires EntryFor(entries, k, n)
    ensures exists m :: LastFor(entries, k, m)
    decreases |entries| - n
  {
    if m :| n < m < |entries| && EntryFor(entries, k, m) {
      LastExists(entries, k, m);
    } else {
      assert LastFor(entries, k, n);
    }
  }

  lemma RestartGiven(cfg: Config, s: State, entries: seq<Entry>)
    ensures CacheGiven(Restart(cfg, s, entries), entries)
  {
    forall k | k in Restart(cfg, s, entries).cache ensures GivenIn(entries, k, Restart(cfg, s, entries).cache[k]) {
      RestartExact(cfg, s, entries, k);
      var n :| EntryFor(entries, k, n);
      LastExists(entries, k, n);
    }
  }

  lemma KeptGiven(s: State, s': State, entries: seq<Entry>)
    requires CacheGiven(s, entries) && PricesKept(s.cache, s'.cache)
    ensures CacheGiven(s', entries)
  {
    forall k | k in s'.cache ensures GivenIn(entries, k, s'.cache[k]) {
      var n :| LastFor(entries, k, n) && PricesOf(s.cache[k], entries[n]);
      assert PricesOf(s'.cache[k], entries[n]);
    }
  }

  /** In every reachable state the cached prices are those that the last start was given. */
  lemma {:induction false} RunGiven(cfg: Config, s0: State, entries: seq<Entry>, ops: seq<Op>)
    requires DbInv(s0.db)
    ensures CacheGiven(Run(cfg, Restart(cfg, s0, entries), ops), LastStart(entries, ops))
  {
    if ops == [] {
      RestartGiven(cfg, s0, entries);
    } else {
      var init, op := ops[..|ops| - 1], ops[|ops| - 1];
      var before := Run(cfg, Restart(cfg, s0, entries), init);
      RunGiven(cfg, s0, entries, init);
      RestartOutcome(cfg, s0, entries);
      RunOutcome(cfg, Restart(cfg, s0, entries), init);
      match op
      case Requested(req, w) =>
        RequestPrices(cfg, before, req, w);
        KeptGiven(before, Handle(cfg, before, req, w).0, LastStart(entries, init));
      case Restarted(es) => RestartGiven(cfg, before, es);
    }
  }

  // The prices that a reservation is stored with

  /** Operation n of the run makes the binding. */
  ghost predicate BoundAt(cfg: Config, s: State, ops: seq<Op>, n: int, k: (string, string)) {
    0 <= n < |ops| && k !in Run(cfg, s, ops[..n]).db.binds && k in Run(cfg, s, ops[..n + 1]).db.binds
  }

  /** The box bound at k is stored with the prices that the last start before operation n was given. */
  ghost predicate PricedAt(db: Db, entries: seq<Entry>, ops: seq<Op>, n: int, k: (string, string)) {
    && 0 <= n <= |ops| && k in db.binds && db.binds[k].kittyID in db.reservations
    && GivenIn(LastStart(entries, ops[..n]), db.binds[k].kittyID, db.reservations[db.binds[k].kittyID])
  }

  lemma NewBindingPriced(cfg: Config, s: State, req: Request, w: World, given: seq<Entry>, k: (string, string))
    requires Inv(s) && CacheGiven(s, given)
    requires k !in s.db.binds && k in Handle(cfg, s, req, w).0.db.binds
    ensures var db := Handle(cfg, s, req, w).0.db;
            db.binds[k].kittyID in db.reservations &&
            GivenIn(given, db.binds[k].kittyID, db.reservations[db.binds[k].kittyID])
  {
    hide Handle, DbInv;
    HandleOutcome(cfg, s, req, w);
    RequestPrices(cfg, s, req, w);
    var kitty, db := D.Decimal(req.kittyID), Handle(cfg, s, req, w).0.db;
    assert db.binds[k].kittyID == kitty;
    assert db.reservations[kitty].status == RESERVED != s.db.reservations[kitty].status;
    var n :| LastFor(given, kitty, n) && PricesOf(s.cache[kitty], given[n]);
    assert PricesOf(db.reservations[kitty], given[n]);
  }

  lemma OldBindingPriced(s: State, db': Db, entries: seq<Entry>, init: seq<Op>, ops: seq<Op>, n: int,
                         k: (string, string))
    requires Inv(s) && Permanent(s.db, db') && PricedAt(s.db, entries, init, n, k)
    requires n < |init| < |ops| && ops[..n] == init[..n]
    ensures PricedAt(db', entries, ops, n, k)
  {
    assert BindingReserved(s.db, k);
  }

  lemma BoundAtLonger(cfg: Config, s: State, ops: seq<Op>, n: int, k: (string, string))
    requires ops != [] && BoundAt(cfg, s, ops[..|ops| - 1], n, k)
    ensures BoundAt(cfg, s, ops, n, k) && 0 <= n < |ops| - 1 && ops[..n] == ops[..|ops| - 1][..n]
  {
    var init := ops[..|ops| - 1];
    assert ops[..n] == init[..n] && ops[..n + 1] == init[..n + 1];
  }

  lemma KeptByLast(cfg: Config, s: State, ops: seq<Op>)
    requires Inv(s) && ops != []
    ensures Inv(Run(cfg, s, ops[..|ops| - 1])) && Permanent(Run(cfg, s, ops[..|ops| - 1]).db, Run(cfg, s, ops).db)
  {
    hide Inv, Permanent, ReservationSafety.Apply;
    RunOutcome(cfg, s, ops[..|ops| - 1]);
    StepOutcome(cfg, Run(cfg, s, ops[..|ops| - 1]), ops[|ops| - 1]);
  }

  lemma StartFacts(cfg: Config, s0: State, entries: seq<Entry>)
    requires NothingBound(s0.db)
    ensures DbInv(s0.db) && Inv(Restart(cfg, s0, entries)) && Restart(cfg, s0, entries).db.binds == map[]
  {
    RestartOutcome(cfg, s0, entries);
    RestartExact(cfg, s0, entries, "");
  }

  /** The box of every binding is stored with the prices that the last start before its reservation was given for it,
      whatever later starts are given. */
  lemma {:induction false} PricesGivenBefore(cfg: Config, s0: State, entries: seq<Entry>, ops: seq<Op>,
                                             k: (string, string))
    requires NothingBound(s0.db) && k in Run(cfg, Restart(cfg, s0, entries), ops).db.binds
    ensures exists n :: BoundAt(cfg, Restart(cfg, s0, entries), ops, n, k) &&
                        PricedAt(Run(cfg, Restart(cfg, s0, entries), ops).db, entries, ops, n, k)
  {
    var s := Restart(cfg, s0, entries);
    StartFacts(cfg, s0, entries);
    if ops == [] {
      return;
    }
    hide *;
    var init := ops[..|ops| - 1];
    var before, after := Run(cfg, s, init), Run(cfg, s, ops);
    KeptByLast(cfg, s, ops);
    if k in before.db.binds {
      PricesGivenBefore(cfg, s0, entries, init, k);
      var n :| BoundAt(cfg, s, init, n, k) && PricedAt(before.db, entries, init, n, k);
      BoundAtLonger(cfg, s, ops, n, k);
      OldBindingPriced(before, after.db, entries, init, ops, n, k);
    } else {
      LastOpBinds(cfg, s0, entries, ops, k);
    }
  }

  /** Only a request binds. */
  lemma LastIsRequest(cfg: Config, s: State, ops: seq<Op>, k: (string, string))
    requires ops != []
    requires k !in Run(cfg, s, ops[..|ops| - 1]).db.binds && k in Run(cfg, s, ops).db.binds
    ensures var op := ops[|ops| - 1];
            op.Requested? && Run(cfg, s, ops) == Handle(cfg, Run(cfg, s, ops[..|ops| - 1]), op.req, op.w).0
    ensures BoundAt(cfg, s, ops, |ops| - 1, k)
  {
    hide Handle, Restart;
    var op := ops[|ops| - 1];
    if op.Restarted? {
      RestartExact(cfg, Run(cfg, s, ops[..|ops| - 1]), op.entries, "");
    }
    assert ops[..|ops| - 1 + 1] == ops;
  }

  lemma LastOpBinds(cfg: Config, s0: State, entries: seq<Entry>, ops: seq<Op>, k: (string, string))
    requires NothingBound(s0.db) && ops != []
    requires var s := Restart(cfg, s0, entries);
             k !in Run(cfg, s, ops[..|ops| - 1]).db.binds && k in Run(cfg, s, ops).db.binds
    ensures var s := Restart(cfg, s0, entries);
            BoundAt(cfg, s, ops, |ops| - 1, k) && PricedAt(Run(cfg, s, ops).db, entries, ops, |ops| - 1, k)
  {
    hide Run, Handle, Restart, Inv, DbInv, CacheGiven, GivenIn, LastStart, NothingBound, BoundAt;
    var s := Restart(cfg, s0, entries);
    var init, op := ops[..|ops| - 1], ops[|ops| - 1];
    StartFacts(cfg, s0, entries);
    KeptByLast(cfg, s, ops);
    RunGiven(cfg, s0, entries, init);
    LastIsRequest(cfg, s, ops, k);
    NewBindingPriced(cfg, Run(cfg, s, init), op.req, op.w, LastStart(entries, init), k);
  }
}

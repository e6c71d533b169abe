/**
 What becomes of an address that a reservation took and did not commit. The scan list is written in its own
 transaction and never rolled back; an address on it that is not bound is refused for ever, restarts included.
 */
module AddressFate {
  import opened Common
  import opened Reservations
  import opened ReservationSafety
  import D = Deposits
  import S = ScanStore
  import A = Addrs
  import E = Exchange

  predicate OnScanList(s: State, coin: string, a: string) {
    coin in s.scan.scanMeta && a in s.scan.scanMeta[coin]
  }

  /** On the scan list, and bound to nothing. */
  predicate Stranded(s: State, coin: string, a: string) {
    OnScanList(s, coin, a) && (coin, a) !in s.db.binds
  }

  lemma RequestKeepsStranded(cfg: Config, s: State, req: Request, w: World, coin: string, a: string)
    requires Stranded(s, coin, a)
    ensures Stranded(Handle(cfg, s, req, w).0, coin, a)
  {
    if req.userAddress != "" && req.coinType != "" && req.code != "" && w.decodes {
      var kitty := D.Decimal(req.kittyID);
      var (s1, bound) := BindAddressTx(cfg, s, s.db, kitty, req.coinType);
      BindKeepsStranded(cfg, s, kitty, req.coinType, coin, a);
      if bound.Ok? {
        var (b, tx) := bound.value;
        MakeKeeps(s1, tx, b.address, req.userAddress, kitty, req.coinType, w.verifies);
        var (s2, made) := MakeReservation(s1, tx, b.address, req.userAddress, kitty, req.coinType, w.verifies);
        if made.Ok? {
          FinishKeeps(s2, made.value, b, req.userAddress, kitty, w);
        }
      }
    }
  }

  /** An address on the scan list is never bound. */
  lemma BindKeepsStranded(cfg: Config, s: State, kitty: string, c: string, coin: string, a: string)
    requires Stranded(s, coin, a)
    ensures var (s', r) := BindAddressTx(cfg, s, s.db, kitty, c);
            Stranded(s', coin, a) && (r.Ok? ==> (coin, a) !in r.value.1.binds)
  {
  }

  lemma MakeKeeps(s: State, tx: Db, address: string, user: string, kitty: string, coin: string, verifies: bool)
    ensures var (s', r) := MakeReservation(s, tx, address, user, kitty, coin, verifies);
            s'.db == s.db && s'.scan == s.scan && s'.pools == s.pools && (r.Ok? ==> r.value.binds == tx.binds)
  {
  }

  lemma FinishKeeps(s: State, tx: Db, bound: E.BoundAddress, user: string, kitty: string, w: World)
    ensures var (s', r) := Finish(s, tx, bound, user, kitty, w);
            s'.scan == s.scan && s'.db == if r.Ok? && w.commits then tx else s.db
  {
  }

  lemma {:induction false} EntriesKeep(s: State, entries: seq<Entry>)
    ensures LoadEntries(s, entries).scan == s.scan && LoadEntries(s, entries).db.binds == s.db.binds
    ensures LoadEntries(s, entries).pools == s.pools && LoadEntries(s, entries).users == s.users
  {
    if entries != [] {
      EntriesKeep(s, entries[..|entries| - 1]);
    }
  }

  /** Once stranded, always stranded: no request binds the address, and no restart helps. */
  lemma {:induction false} StrandedForever(cfg: Config, s: State, ops: seq<Op>, coin: string, a: string)
    requires Stranded(s, coin, a)
    ensures Stranded(Run(cfg, s, ops), coin, a)
  {
    if ops != [] {
      var before, op := Run(cfg, s, ops[..|ops| - 1]), ops[|ops| - 1];
      StrandedForever(cfg, s, ops[..|ops| - 1], coin, a);
      match op
      case Requested(req, w) => RequestKeepsStranded(cfg, before, req, w, coin, a);
      case Restarted(entries) =>
        EntriesKeep(before.(pools := map c | c in cfg.lists :: A.Unused(cfg.lists[c], UsedFor(before.db, c)),
                            cache := map[], users := before.db.users), entries);
    }
  }

  lemma DrawnIsListed(cfg: Config, s: State, req: Request, w: World)
    requires Inv(s) && req.userAddress != "" && req.coinType != "" && req.code != "" && w.decodes
    ensures var s' := BindAddressTx(cfg, s, s.db, D.Decimal(req.kittyID), req.coinType).0;
            if Draws(cfg, s, req, w)
            then OnScanList(s', req.coinType, A.Choose(s.pools[req.coinType], UsedFor(s.db, req.coinType)).value.0)
            else s'.scan == s.scan
  {
    if req.coinType in s.pools && A.Choose(s.pools[req.coinType], UsedFor(s.db, req.coinType)).Ok? {
      ChosenIsUnused(s.pools[req.coinType], s.db, req.coinType);
    }
  }

  lemma HandleScan(cfg: Config, s: State, req: Request, w: World)
    requires req.userAddress != "" && req.coinType != "" && req.code != "" && w.decodes
    ensures Handle(cfg, s, req, w).0.scan == BindAddressTx(cfg, s, s.db, D.Decimal(req.kittyID), req.coinType).0.scan
  {
    var kitty := D.Decimal(req.kittyID);
    var (s1, bound) := BindAddressTx(cfg, s, s.db, kitty, req.coinType);
    if bound.Ok? {
      var (b, tx) := bound.value;
      MakeKeeps(s1, tx, b.address, req.userAddress, kitty, req.coinType, w.verifies);
      var (s2, made) := MakeReservation(s1, tx, b.address, req.userAddress, kitty, req.coinType, w.verifies);
      if made.Ok? {
        FinishKeeps(s2, made.value, b, req.userAddress, kitty, w);
      }
    }
  }

  /** A request strands the address that the pool offers exactly when it gets as far as the scan list and then
      something stops it: the verification, the box, the user, an outside call, or the commit. */
  lemma RequestStrandsIff(cfg: Config, s: State, req: Request, w: World)
    requires Inv(s) && req.coinType in s.pools && A.Choose(s.pools[req.coinType], UsedFor(s.db, req.coinType)).Ok?
    ensures var a := A.Choose(s.pools[req.coinType], UsedFor(s.db, req.coinType)).value.0;
            !Stranded(s, req.coinType, a) && Stranded(Handle(cfg, s, req, w).0, req.coinType, a) <==>
            Draws(cfg, s, req, w) && !(Takes(s, req, w) && Completes(s, req, w) && w.commits)
  {
    var coin := req.coinType;
    var a := A.Choose(s.pools[coin], UsedFor(s.db, coin)).value.0;
    ChosenIsUnused(s.pools[coin], s.db, coin);
    SucceedsIff(cfg, s, req, w);
    HandleOutcome(cfg, s, req, w);
    if req.userAddress != "" && coin != "" && req.code != "" && w.decodes {
      DrawnIff(cfg, s, req, w);
      DrawnIsListed(cfg, s, req, w);
      HandleScan(cfg, s, req, w);
      if Handle(cfg, s, req, w).1.Ok? {
        DrawnIsAnswered(cfg, s, req, w);
        DrawnIsChosen(cfg, s, req);
      }
    }
  }

  lemma DrawnIsChosen(cfg: Config, s: State, req: Request)
    requires BindAddressTx(cfg, s, s.db, D.Decimal(req.kittyID), req.coinType).1.Ok?
    ensures req.coinType in s.pools && A.Choose(s.pools[req.coinType], UsedFor(s.db, req.coinType)).Ok?
    ensures BindAddressTx(cfg, s, s.db, D.Decimal(req.kittyID), req.coinType).1.value.0.address ==
            A.Choose(s.pools[req.coinType], UsedFor(s.db, req.coinType)).value.0
  {
  }

  // An address that is not on the scan list can still be bound

  lemma {:induction false} RunConcat(cfg: Config, s: State, a: seq<Op>, b: seq<Op>)
    ensures Run(cfg, s, a + b) == Run(cfg, Run(cfg, s, a), b)
  {
    if b == [] {
      assert a + b == a;
    } else {
      RunConcat(cfg, s, a, b[..|b| - 1]);
      assert (a + b)[..|a + b| - 1] == a + b[..|b| - 1];
    }
  }

  lemma RunOne(cfg: Config, s: State, op: Op)
    ensures Run(cfg, s, [op]) == Apply(cfg, s, op)
  {
    assert [op][..0] == [];
  }

  /** A number whose decimal form is in no given set. */
  lemma {:induction false} FreshNumber(used: set<string>) returns (n: nat)
    ensures forall k: nat :: k >= n ==> D.Decimal(k) !in used
  {
    if used == {} {
      n := 0;
    } else {
      var x :| x in used;
      var rest := FreshNumber(used - {x});
      n := rest + if D.AllDigits(x) then D.DigitsValue(x) + 1 else 0;
      forall k: nat | k >= n ensures D.Decimal(k) !in used {
        D.DecimalReadsBack(k);
      }
    }
  }

  /** A coin that the service is set up for. */
  predicate Enabled(cfg: Config, s: State, coin: string) {
    cfg.bindEnabled && coin in cfg.scanners && SupportedCoin(coin) && coin in s.scan.scanMeta
  }

  /** The address waits in the pool behind others that are as good, with a box and a user to bind it to. */
  ghost predicate Waits(cfg: Config, s: State, coin: string, a: string, n: nat, user: string) {
    && Inv(s) && Enabled(cfg, s, coin) && a !in s.scan.scanMeta[coin]
    && coin in s.pools && a in s.pools[coin]
    && (forall x :: x in s.pools[coin] ==> x != "" && (coin, x) !in s.db.used)
    && D.Decimal(n) in s.cache && s.cache[D.Decimal(n)].status == AVAILABLE
    && user != "" && user !in s.users
  }

  lemma FirstIsChosen(s: State, coin: string)
    requires coin in s.pools && s.pools[coin] != []
    requires forall x :: x in s.pools[coin] ==> x != "" && (coin, x) !in s.db.used
    ensures A.Choose(s.pools[coin], UsedFor(s.db, coin)) == Ok((s.pools[coin][0], s.pools[coin][1..]))
  {
    assert s.pools[coin][0] in s.pools[coin];
  }

  const ALL_WELL := World(true, true, true, true, true, true)
  const NOT_VERIFIED := ALL_WELL.(verifies := false)

  lemma UnverifiedOnlyDraws(cfg: Config, s: State, req: Request)
    requires req.userAddress != "" && req.coinType != "" && req.code != ""
    ensures Handle(cfg, s, req, NOT_VERIFIED).0 == BindAddressTx(cfg, s, s.db, D.Decimal(req.kittyID), req.coinType).0
  {
  }

  lemma DrawShortensPool(cfg: Config, s: State, coin: string, kitty: string)
    requires Enabled(cfg, s, coin) && coin in s.pools && s.pools[coin] != []
    requires forall x :: x in s.pools[coin] ==> x != "" && (coin, x) !in s.db.used
    ensures var s' := BindAddressTx(cfg, s, s.db, kitty, coin).0;
            && s'.db == s.db && s'.cache == s.cache && s'.users == s.users && coin in s'.pools
            && s'.pools[coin] == s.pools[coin][1..] && coin in s'.scan.scanMeta
            && forall x :: x in s'.scan.scanMeta[coin] ==> x in s.scan.scanMeta[coin] || x == s.pools[coin][0]
  {
    FirstIsChosen(s, coin);
  }

  /** A request that fails its verification uses up the first address of the pool and nothing else. */
  lemma FailedRequestDraws(cfg: Config, s: State, coin: string, a: string, n: nat, user: string)
    requires Waits(cfg, s, coin, a, n, user) && s.pools[coin][0] != a
    ensures var s' := Handle(cfg, s, Request(user, n, coin, "x"), NOT_VERIFIED).0;
            Waits(cfg, s', coin, a, n, user) && s'.pools[coin] == s.pools[coin][1..]
  {
    UnverifiedOnlyDraws(cfg, s, Request(user, n, coin, "x"));
    DrawShortensPool(cfg, s, coin, D.Decimal(n));
    var pool := s.pools[coin];
    assert pool == [pool[0]] + pool[1..];
    assert forall x :: x in pool[1..] ==> x in pool;
  }

  lemma GoodRequestBinds(cfg: Config, s: State, coin: string, a: string, n: nat, user: string)
    requires Waits(cfg, s, coin, a, n, user) && s.pools[coin][0] == a
    ensures (coin, a) in Handle(cfg, s, Request(user, n, coin, "x"), ALL_WELL).0.db.binds
  {
    var req := Request(user, n, coin, "x");
    FirstIsChosen(s, coin);
    SucceedsIff(cfg, s, req, ALL_WELL);
    HandleOutcome(cfg, s, req, ALL_WELL);
    DrawnIsAnswered(cfg, s, req, ALL_WELL);
  }

  lemma DrawnIsAnswered(cfg: Config, s: State, req: Request, w: World)
    requires Handle(cfg, s, req, w).1.Ok?
    ensures BindAddressTx(cfg, s, s.db, D.Decimal(req.kittyID), req.coinType).1.Ok?
    ensures Handle(cfg, s, req, w).1.value ==
            BindAddressTx(cfg, s, s.db, D.Decimal(req.kittyID), req.coinType).1.value.0
  {
  }

  lemma {:induction false} WaitingIsBound(cfg: Config, s: State, coin: string, a: string, n: nat, user: string)
    returns (ops: seq<Op>)
    requires Waits(cfg, s, coin, a, n, user)
    ensures (coin, a) in Run(cfg, s, ops).db.binds
    decreases |s.pools[coin]|
  {
    var req := Request(user, n, coin, "x");
    if s.pools[coin][0] == a {
      ops := [Requested(req, ALL_WELL)];
      RunOne(cfg, s, Requested(req, ALL_WELL));
      GoodRequestBinds(cfg, s, coin, a, n, user);
    } else {
      var op := Requested(req, NOT_VERIFIED);
      FailedRequestDraws(cfg, s, coin, a, n, user);
      var rest := WaitingIsBound(cfg, Apply(cfg, s, op), coin, a, n, user);
      ops := [op] + rest;
      RunOne(cfg, s, op);
      RunConcat(cfg, s, [op], rest);
    }
  }

  /** A restart with a new box puts a listed address that is not used into the pool. */
  lemma RestartOffers(cfg: Config, s: State, coin: string, a: string, n: nat, user: string)
    requires Inv(s) && Enabled(cfg, s, coin) && a !in s.scan.scanMeta[coin] && (coin, a) !in s.db.binds
    requires coin in cfg.lists && a in cfg.lists[coin] && "" !in cfg.lists[coin]
    requires D.Decimal(n) !in s.db.reservations && user != "" && user !in s.db.users
    ensures Waits(cfg, Restart(cfg, s, [Entry(n, AVAILABLE, 0, 0)]), coin, a, n, user)
  {
    var entries := [Entry(n, AVAILABLE, 0, 0)];
    RestartOutcome(cfg, s, entries);
    var s0 := s.(pools := map c | c in cfg.lists :: A.Unused(cfg.lists[c], UsedFor(s.db, c)), cache := map[],
        users := s.db.users);
    assert entries[..0] == [] && LoadEntries(s0, []) == s0;
    assert LoadEntries(s0, entries) == LoadEntry(s0, entries[0]);
    forall x ensures x in s0.pools[coin] <==> x in cfg.lists[coin] && (coin, x) !in s.db.used {
      A.UnusedMembers(cfg.lists[coin], UsedFor(s.db, coin), x);
    }
  }

  /** An unbound address of an enabled coin's list can be bound again by some run exactly when it is not on the scan
      list: a rollback loses it for good if the request got as far as the scan list, and only then. */
  lemma CanBeBoundIff(cfg: Config, s: State, coin: string, a: string)
    requires Inv(s) && Enabled(cfg, s, coin) && (coin, a) !in s.db.binds
    requires coin in cfg.lists && a in cfg.lists[coin] && "" !in cfg.lists[coin]
    ensures (exists ops :: (coin, a) in Run(cfg, s, ops).db.binds) <==> a !in s.scan.scanMeta[coin]
  {
    if a in s.scan.scanMeta[coin] {
      forall ops ensures (coin, a) !in Run(cfg, s, ops).db.binds {
        StrandedForever(cfg, s, ops, coin, a);
      }
    } else {
      var n := FreshNumber(s.db.reservations.Keys + s.db.users.Keys);
      var op := Restarted([Entry(n, AVAILABLE, 0, 0)]);
      RestartOffers(cfg, s, coin, a, n, D.Decimal(n));
      RunOne(cfg, s, op);
      var ops := WaitingIsBound(cfg, Run(cfg, s, [op]), coin, a, n, D.Decimal(n));
      RunConcat(cfg, s, [op], ops);
    }
  }
}

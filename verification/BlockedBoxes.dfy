/**
 The in-memory copies of boxes and users are changed before the commit and not rolled back. This says which requests
 leave a box that nobody has reserved looking reserved, or a user without a reservation at the limit, and that only a
 restart clears it.
 */
module BlockedBoxes {
  import opened Common
  import opened Reservations
  import opened ReservationSafety
  import D = Deposits
  import A = Addrs
  import E = Exchange

  /** Stored as not reserved, cached as reserved: every request for the box is refused. */
  predicate Blocked(s: State, kitty: string) {
    && kitty in s.cache && s.cache[kitty].status == RESERVED
    && kitty in s.db.reservations && s.db.reservations[kitty].status != RESERVED
  }

  /** Stored without a reservation, cached at the limit. */
  predicate UserBlocked(s: State, user: string) {
    && user in s.users && |s.users[user].reservations| >= MAX_RESERVATION
    && (user !in s.db.users || s.db.users[user].reservations == [])
  }

  /** The caches after a request, as far as they count here. */
  ghost predicate CacheAfter(cfg: Config, s: State, req: Request, w: World, s': State) {
    var kitty, user := D.Decimal(req.kittyID), req.userAddress;
    && s'.cache.Keys == s.cache.Keys
    && (forall k :: k in s.cache && k != kitty ==> s'.cache[k] == s.cache[k])
    && (kitty in s.cache ==>
          if Draws(cfg, s, req, w) && Takes(s, req, w) then s'.cache[kitty].status == RESERVED
          else s'.cache[kitty].status == s.cache[kitty].status)
    && (forall u :: u in s.users ==> u in s'.users && (u != user ==> s'.users[u] == s.users[u]))
    && (forall u :: u in s'.users ==> u in s.users || u == user)
    && (user in s'.users ==>
          var before := if user in s.users then |s.users[user].reservations| else 0;
          |s'.users[user].reservations| ==
          if Draws(cfg, s, req, w) && Takes(s, req, w) && Completes(s, req, w) then before + 1 else before)
    && (Draws(cfg, s, req, w) && Takes(s, req, w) ==> user in s'.users)
  }

  lemma TakeCaches(s: State, tx: Db, a: string, req: Request, w: World)
    requires CacheInv(s) && req.userAddress != "" && SupportedCoin(req.coinType)
    ensures var kitty, user := D.Decimal(req.kittyID), req.userAddress;
            var (s', r) := MakeReservation(s, tx, a, user, kitty, req.coinType, w.verifies);
            && (r.Ok? <==> Takes(s, req, w)) && (!r.Ok? ==> s' == s)
            && (r.Ok? ==>
                 kitty in s'.cache && s'.cache == s.cache[kitty := s'.cache[kitty]] &&
                 s'.cache[kitty].status == RESERVED)
            && (r.Ok? ==> s'.users == s.users[user := if user in s.users then s.users[user] else User(user, [])])
  {
  }

  lemma FinishCaches(s: State, tx: Db, b: E.BoundAddress, req: Request, w: World)
    requires var kitty, user := D.Decimal(req.kittyID), req.userAddress;
             kitty in s.cache && s.cache[kitty].status == RESERVED && user in s.users
    ensures var kitty, user := D.Decimal(req.kittyID), req.userAddress;
            var (s', r) := Finish(s, tx, b, user, kitty, w);
            && s'.cache == s.cache
            && (r.Ok? <==> Completes(s, req, w)) && (!r.Ok? ==> s'.users == s.users)
            && (r.Ok? ==> user in s'.users && s'.users == s.users[user := s'.users[user]])
            && (r.Ok? ==> |s'.users[user].reservations| == |s.users[user].reservations| + 1)
  {
    var kitty := D.Decimal(req.kittyID);
    assert s.cache[kitty := s.cache[kitty].(status := RESERVED)] == s.cache;
  }

  lemma NotTaken(cfg: Config, s: State, req: Request, w: World)
    requires Inv(s) && !(Draws(cfg, s, req, w) && Takes(s, req, w))
    ensures Handle(cfg, s, req, w).0.cache == s.cache && Handle(cfg, s, req, w).0.users == s.users
  {
    if req.userAddress != "" && req.coinType != "" && req.code != "" && w.decodes {
      var kitty := D.Decimal(req.kittyID);
      var (s1, bound) := BindAddressTx(cfg, s, s.db, kitty, req.coinType);
      BindAddressOutcome(cfg, s, kitty, req.coinType);
      DrawnIff(cfg, s, req, w);
      if bound.Ok? {
        TakeCaches(s1, bound.value.1, bound.value.0.address, req, w);
      }
    }
  }

  lemma Taken(cfg: Config, s: State, req: Request, w: World) returns (s2: State, tx: Db, b: E.BoundAddress)
    requires Inv(s) && Draws(cfg, s, req, w) && Takes(s, req, w)
    ensures var kitty, user := D.Decimal(req.kittyID), req.userAddress;
            && Handle(cfg, s, req, w) == Finish(s2, tx, b, user, kitty, w)
            && kitty in s2.cache && s2.cache == s.cache[kitty := s2.cache[kitty]] && s2.cache[kitty].status == RESERVED
            && s2.users == s.users[user := if user in s.users then s.users[user] else User(user, [])]
  {
    var kitty, user := D.Decimal(req.kittyID), req.userAddress;
    var (s1, bound) := BindAddressTx(cfg, s, s.db, kitty, req.coinType);
    BindAddressOutcome(cfg, s, kitty, req.coinType);
    DrawnIff(cfg, s, req, w);
    b := bound.value.0;
    TakeCaches(s1, bound.value.1, b.address, req, w);
    var (s', made) := MakeReservation(s1, bound.value.1, b.address, user, kitty, req.coinType, w.verifies);
    s2, tx := s', made.value;
  }

  lemma HandleCaches(cfg: Config, s: State, req: Request, w: World)
    requires Inv(s)
    ensures CacheAfter(cfg, s, req, w, Handle(cfg, s, req, w).0)
  {
    if Draws(cfg, s, req, w) && Takes(s, req, w) {
      var s2, tx, b := Taken(cfg, s, req, w);
      FinishCaches(s2, tx, b, req, w);
      assert Completes(s2, req, w) <==> Completes(s, req, w);
    } else {
      NotTaken(cfg, s, req, w);
    }
  }

  /** A request blocks a box exactly when it is for that box, takes it in the cache, and then an outside call, the
      user's limit or the commit stops it. */
  lemma RequestBlocksIff(cfg: Config, s: State, req: Request, w: World, kitty: string)
    requires Inv(s)
    ensures !Blocked(s, kitty) && Blocked(Handle(cfg, s, req, w).0, kitty) <==>
            && kitty == D.Decimal(req.kittyID)
            && Draws(cfg, s, req, w) && Takes(s, req, w) && !(Completes(s, req, w) && w.commits)
  {
    HandleCaches(cfg, s, req, w);
    HandleOutcome(cfg, s, req, w);
    SucceedsIff(cfg, s, req, w);
  }

  /** A request puts a user at the limit without a stored reservation exactly when it is that user's, succeeds, and is
      not committed. */
  lemma RequestBlocksUserIff(cfg: Config, s: State, req: Request, w: World, user: string)
    requires Inv(s)
    ensures !UserBlocked(s, user) && UserBlocked(Handle(cfg, s, req, w).0, user) <==>
            && user == req.userAddress
            && Draws(cfg, s, req, w) && Takes(s, req, w) && Completes(s, req, w) && !w.commits
  {
    HandleCaches(cfg, s, req, w);
    HandleOutcome(cfg, s, req, w);
    SucceedsIff(cfg, s, req, w);
  }

  lemma RequestKeepsBlocked(cfg: Config, s: State, req: Request, w: World, kitty: string, user: string)
    requires Inv(s)
    ensures Blocked(s, kitty) ==> Blocked(Handle(cfg, s, req, w).0, kitty)
    ensures UserBlocked(s, user) ==> UserBlocked(Handle(cfg, s, req, w).0, user)
  {
    HandleCaches(cfg, s, req, w);
    HandleOutcome(cfg, s, req, w);
    SucceedsIff(cfg, s, req, w);
  }

  /** Requests alone never clear it. */
  lemma {:induction false} BlockedUntilRestart(cfg: Config, s: State, ops: seq<Op>, kitty: string, user: string)
    requires Inv(s) && forall op :: op in ops ==> op.Requested?
    ensures Blocked(s, kitty) ==> Blocked(Run(cfg, s, ops), kitty)
    ensures UserBlocked(s, user) ==> UserBlocked(Run(cfg, s, ops), user)
  {
    if ops != [] {
      var init, op := ops[..|ops| - 1], ops[|ops| - 1];
      BlockedUntilRestart(cfg, s, init, kitty, user);
      RunOutcome(cfg, s, init);
      assert op in ops;
      RequestKeepsBlocked(cfg, Run(cfg, s, init), op.req, op.w, kitty, user);
    }
  }

  ghost predicate CacheIsStored(s: State) {
    forall k :: k in s.cache ==> k in s.db.reservations && s.cache[k].status == s.db.reservations[k].status
  }

  lemma {:induction false} LoadedIsStored(s: State, entries: seq<Entry>)
    requires CacheIsStored(s)
    ensures CacheIsStored(LoadEntries(s, entries)) && LoadEntries(s, entries).users == s.users
    ensures LoadEntries(s, entries).db.users == s.db.users
  {
    if entries != [] {
      LoadedIsStored(s, entries[..|entries| - 1]);
    }
  }

  /** A restart clears every box and every user. */
  lemma RestartClears(cfg: Config, s: State, entries: seq<Entry>, kitty: string, user: string)
    ensures !Blocked(Restart(cfg, s, entries), kitty) && !UserBlocked(Restart(cfg, s, entries), user)
  {
    LoadedIsStored(s.(pools := map c | c in cfg.lists :: A.Unused(cfg.lists[c], UsedFor(s.db, c)), cache := map[],
                      users := s.db.users), entries);
  }
}

/**
 Reserving a box: one writable transaction over the used addresses, the bindings, the reservations and the users,
 together with in-memory copies that are changed before the commit and are not rolled back.
 */
module Reservations {
  import opened Common
  import D = Deposits
  import S = ScanStore
  import A = Addrs
  import E = Exchange

  const AVAILABLE := "NONE"
  const RESERVED := "reserved"
  const MAX_RESERVATION := 1

  datatype Reservation = Reservation(depositAddress: string, ownerAddress: string, kittyID: string, status: string,
                                     priceBTC: int64, priceSKY: int64, coinType: string)

  datatype User = User(address: string, reservations: seq<Reservation>)

  /** The buckets of the transaction; used addresses and bindings go by coin and address. */
  datatype Db = Db(used: set<(string, string)>, binds: map<(string, string), E.BoundAddress>,
                   reservations: map<string, Reservation>, users: map<string, User>)

  datatype Config = Config(bindEnabled: bool, scanners: set<string>, lists: map<string, seq<string>>)

  /** The committed buckets, the in-memory copies, and the scan-address lists, which have their own transactions. */
  datatype State = State(db: Db, pools: map<string, seq<string>>, cache: map<string, Reservation>,
                         users: map<string, User>, scan: S.ScanDb)

  datatype Request = Request(userAddress: string, kittyID: nat, coinType: string, code: string)

  /** The answers of everything outside: address decoding, the verifier, the kitty API, and the disk at commit. */
  datatype World = World(decodes: bool, verifies: bool, kittyIdParses: bool, apiAccepts: bool, satisfies: bool,
      commits: bool)

  /** An entry of the kitty API, read at start-up. */
  datatype Entry = Entry(id: nat, status: string, priceBTC: int64, priceSKY: int64)

  datatype Failure =
    | BadRequest | BindDisabled | CoinTypeNotRegistered | DepositAddressEmpty | UnknownCoinType | UnsupportedCoinType
    | AddressAlreadyBound | ScanAddressRefused | VerificationFailed | ReservationNotFound | BoxAlreadyReserved
    | InvalidReservationType | InvalidCoinType | KeyRequired | KittyIdInvalid | KittyApiFailed | SatisfyFailed
    | MaxReservationsExceeded

  function UsedFor(db: Db, coin: string): set<string> {
    set k | k in db.used && k.0 == coin :: k.1
  }

  // BindAddressTx: an address from the pool, its binding, and the scan list

  function BindAddressTx(cfg: Config, s: State, tx: Db, kitty: string, coin: string): (State,
                         Result<(E.BoundAddress, Db), Failure>) {
    if !cfg.bindEnabled then (s, Err(BindDisabled))
    else if coin !in s.pools then (s, Err(CoinTypeNotRegistered))
    else match A.Choose(s.pools[coin], UsedFor(s.db, coin))
      case Err(_) => (s, Err(DepositAddressEmpty))
      case Ok((a, rest)) =>
        BindChosen(cfg, s.(pools := s.pools[coin := rest]), tx.(used := tx.used + {(coin, a)}), kitty, a, coin)
  }

  function BindChosen(cfg: Config, s: State, tx: Db, kitty: string, a: string, coin: string)
    : (State, Result<(E.BoundAddress, Db), Failure>)
  {
    if coin !in cfg.scanners then (s, Err(UnknownCoinType))
    else if !SupportedCoin(coin) then (s, Err(UnsupportedCoinType))
    else if (coin, a) in tx.binds then (s, Err(AddressAlreadyBound))
    else
      var bound := E.BoundAddress(kitty, a, coin);
      match S.AddAddress(s.scan, a, coin)
      case Err(_) => (s, Err(ScanAddressRefused))
      case Ok(scan) => (s.(scan := scan), Ok((bound, tx.(binds := tx.binds[(coin, a) := bound]))))
  }

  // MakeReservation: the cached reservation and user first, then the buckets

  function CanTake(s: State, kitty: string, coin: string): Result<Reservation, Failure> {
    if kitty !in s.cache then Err(ReservationNotFound)
    else
      var r := s.cache[kitty];
      if r.status == RESERVED then Err(BoxAlreadyReserved)
      else if r.status != AVAILABLE then Err(InvalidReservationType)
      else if coin == COIN_SKY then Ok(r)
      else if coin == COIN_BTC then Ok(r.(coinType := coin))
      else Err(InvalidCoinType)
  }

  function MakeReservation(s: State, tx: Db, address: string, user: string, kitty: string, coin: string,
                           verifies: bool): (State, Result<Db, Failure>)
  {
    if !verifies then (s, Err(VerificationFailed))
    else match CanTake(s, kitty, coin)
      case Err(e) => (s, Err(e))
      case Ok(r) =>
        if user !in s.users && user == "" then (s.(cache := s.cache[kitty := r]), Err(KeyRequired))
        else
          var u := if user in s.users then s.users[user] else User(user, []);
          var tx' := if user in s.users then tx else tx.(users := tx.users[user := u]);
          Take(s.(users := s.users[user := u]), tx',
              r.(status := RESERVED, depositAddress := address, ownerAddress := user), kitty, u)
  }

  function Take(s: State, tx: Db, r: Reservation, kitty: string, u: User): (State, Result<Db, Failure>) {
    var s' := s.(cache := s.cache[kitty := r]);
    if r.kittyID == "" || u.address == "" then (s', Err(KeyRequired))
    else (s', Ok(tx.(reservations := tx.reservations[r.kittyID := r],
                     users := tx.users[u.address := u.(reservations := u.reservations + [r])])))
  }

  function AddReservation(s: State, user: string, kitty: string): Result<State, Failure>
    requires user in s.users && kitty in s.cache
  {
    var u := s.users[user];
    if |u.reservations| >= MAX_RESERVATION then Err(MaxReservationsExceeded)
    else
      var r := s.cache[kitty].(status := RESERVED);
      Ok(s.(cache := s.cache[kitty := r], users := s.users[user := u.(reservations := u.reservations + [r])]))
  }

  // The handler

  function Handle(cfg: Config, s: State, req: Request, w: World): (State, Result<E.BoundAddress, Failure>) {
    if req.userAddress == "" || req.coinType == "" || req.code == "" || !w.decodes then (s, Err(BadRequest))
    else
      var kitty := D.Decimal(req.kittyID);
      var (s1, bound) := BindAddressTx(cfg, s, s.db, kitty, req.coinType);
      if bound.Err? then (s1, Err(bound.error))
      else
        var (b, tx) := bound.value;
        var (s2, made) := MakeReservation(s1, tx, b.address, req.userAddress, kitty, req.coinType, w.verifies);
        if made.Err? then (s2, Err(made.error))
        else Finish(s2, made.value, b, req.userAddress, kitty, w)
  }

  /** The outside calls, the reservation limit, and the commit. The answer does not depend on whether the commit
      worked. */
  function Finish(s: State, tx: Db, bound: E.BoundAddress, user: string, kitty: string, w: World)
    : (State, Result<E.BoundAddress, Failure>)
  {
    if user !in s.users || kitty !in s.cache then (s, Err(BadRequest))
    else if !w.kittyIdParses then (s, Err(KittyIdInvalid))
    else if !w.apiAccepts then (s, Err(KittyApiFailed))
    else if !w.satisfies then (s, Err(SatisfyFailed))
    else match AddReservation(s, user, kitty)
      case Err(e) => (s, Err(e))
      case Ok(s') => (if w.commits then s'.(db := tx) else s', Ok(bound))
  }

  // Start-up: the in-memory copies are rebuilt from the store and the kitty API

  function LoadEntry(s: State, e: Entry): State {
    var k := D.Decimal(e.id);
    if k in s.db.reservations then
      s.(cache := s.cache[k := s.db.reservations[k].(priceSKY := e.priceSKY, priceBTC := e.priceBTC)])
    else
      var r := Reservation("", "", k, e.status, e.priceBTC, e.priceSKY, "");
      s.(cache := s.cache[k := r], db := s.db.(reservations := s.db.reservations[k := r]))
  }

  function LoadEntries(s: State, entries: seq<Entry>): State {
    if entries == [] then s else LoadEntry(LoadEntries(s, entries[..|entries| - 1]), entries[|entries| - 1])
  }

  function Restart(cfg: Config, s: State, entries: seq<Entry>): State {
    LoadEntries(s.(pools := map coin | coin in cfg.lists :: A.Unused(cfg.lists[coin], UsedFor(s.db, coin)),
                   cache := map[], users := s.db.users), entries)
  }

  // The service object

  class Service {
    const cfg: Config
    var db: Db
    var pools: map<string, seq<string>>
    var cache: map<string, Reservation>
    var users: map<string, User>
    var scan: S.ScanDb

    ghost function Snapshot(): State
      reads this
    {
      State(db, pools, cache, users, scan)
    }

    /** A process that starts on existing buckets. */
    constructor (cfg: Config, db: Db, scan: S.ScanDb, entries: seq<Entry>)
      ensures this.cfg == cfg
      ensures Snapshot() == Restart(cfg, State(db, map[], map[], map[], scan), entries)
    {
      this.cfg, this.db, this.scan := cfg, db, scan;
      pools := map coin | coin in cfg.lists :: A.Unused(cfg.lists[coin], UsedFor(db, coin));
      cache, users := map[], db.users;
      new;
      ghost var s0 := Snapshot();
      for i := 0 to |entries|
        invariant this.cfg == cfg && Snapshot() == LoadEntries(s0, entries[..i])
      {
        assert entries[..i + 1][..i] == entries[..i];
        var e := entries[i];
        var k := D.Decimal(e.id);
        if k in this.db.reservations {
          var r := this.db.reservations[k];
          cache := cache[k := r.(priceSKY := e.priceSKY, priceBTC := e.priceBTC)];
        } else {
          var r := Reservation("", "", k, e.status, e.priceBTC, e.priceSKY, "");
          cache := cache[k := r];
          this.db := this.db.(reservations := this.db.reservations[k := r]);
        }
      }
      assert entries[..|entries|] == entries;
    }

    method ReserveAddress(tx: Db, kitty: string, coin: string) returns (r: Result<(E.BoundAddress, Db), Failure>)
      modifies this`pools, this`scan
      ensures (Snapshot(), r) == BindAddressTx(cfg, old(Snapshot()), tx, kitty, coin)
    {
      if !cfg.bindEnabled {
        return Err(BindDisabled);
      }
      if coin !in pools {
        return Err(CoinTypeNotRegistered);
      }
      var chosen := A.Choose(pools[coin], UsedFor(db, coin));
      if chosen.Err? {
        return Err(DepositAddressEmpty);
      }
      var (address, rest) := chosen.value;
      var tx' := tx.(used := tx.used + {(coin, address)});
      pools := pools[coin := rest];
      if coin !in cfg.scanners {
        return Err(UnknownCoinType);
      }
      if !SupportedCoin(coin) {
        return Err(UnsupportedCoinType);
      }
      if (coin, address) in tx'.binds {
        return Err(AddressAlreadyBound);
      }
      var bound := E.BoundAddress(kitty, address, coin);
      tx' := tx'.(binds := tx'.binds[(coin, address) := bound]);
      var added := S.AddAddress(scan, address, coin);
      if added.Err? {
        return Err(ScanAddressRefused);
      }
      scan := added.value;
      return Ok((bound, tx'));
    }

    method Reserve(tx: Db, address: string, user: string, kitty: string, coin: string, verifies: bool)
      returns (r: Result<Db, Failure>)
      modifies this`cache, this`users
      ensures (Snapshot(), r) == MakeReservation(old(Snapshot()), tx, address, user, kitty, coin, verifies)
    {
      if !verifies {
        return Err(VerificationFailed);
      }
      if kitty !in cache {
        return Err(ReservationNotFound);
      }
      var reservation := cache[kitty];
      if reservation.status == RESERVED {
        return Err(BoxAlreadyReserved);
      }
      if reservation.status != AVAILABLE {
        return Err(InvalidReservationType);
      }
      if coin == COIN_BTC {
        reservation := reservation.(coinType := coin);
      } else if coin != COIN_SKY {
        return Err(InvalidCoinType);
      }
      cache := cache[kitty := reservation];
      var tx' := tx;
      var u := User(user, []);
      if user in users {
        u := users[user];
      } else {
        if user == "" {
          return Err(KeyRequired);
        }
        tx' := tx'.(users := tx'.users[user := u]);
      }
      users := users[user := u];
      reservation := reservation.(status := RESERVED);
      reservation := reservation.(depositAddress := address);
      reservation := reservation.(ownerAddress := user);
      cache := cache[kitty := reservation];
      assert cache == old(cache)[kitty := reservation];
      if reservation.kittyID == "" || u.address == "" {
        return Err(KeyRequired);
      }
      tx' := tx'.(reservations := tx'.reservations[reservation.kittyID := reservation]);
      u := u.(reservations := u.reservations + [reservation]);
      tx' := tx'.(users := tx'.users[u.address := u]);
      return Ok(tx');
    }

    method MakeReservationHandler(req: Request, w: World) returns (r: Result<E.BoundAddress, Failure>)
      modifies this
      ensures (Snapshot(), r) == Handle(cfg, old(Snapshot()), req, w)
    {
      if req.userAddress == "" || req.coinType == "" || req.code == "" || !w.decodes {
        return Err(BadRequest);
      }
      var tx := db;
      var kitty := D.Decimal(req.kittyID);
      var bound := ReserveAddress(tx, kitty, req.coinType);
      if bound.Err? {
        return Err(bound.error);
      }
      var (b, tx1) := bound.value;
      var made := Reserve(tx1, b.address, req.userAddress, kitty, req.coinType, w.verifies);
      if made.Err? {
        return Err(made.error);
      }
      r := Complete(made.value, b, req.userAddress, kitty, w);
    }

    method Complete(tx: Db, bound: E.BoundAddress, user: string, kitty: string, w: World)
      returns (r: Result<E.BoundAddress, Failure>)
      modifies this
      ensures (Snapshot(), r) == Finish(old(Snapshot()), tx, bound, user, kitty, w)
    {
      if user !in users || kitty !in cache {
        return Err(BadRequest);
      }
      if !w.kittyIdParses {
        return Err(KittyIdInvalid);
      }
      if !w.apiAccepts {
        return Err(KittyApiFailed);
      }
      if !w.satisfies {
        return Err(SatisfyFailed);
      }
      var u := users[user];
      if |u.reservations| >= MAX_RESERVATION {
        return Err(MaxReservationsExceeded);
      }
      var reservation := cache[kitty].(status := RESERVED);
      cache := cache[kitty := reservation];
      users := users[user := u.(reservations := u.reservations + [reservation])];
      if w.commits {
        db := tx;
      }
      return Ok(bound);
    }
  }
}

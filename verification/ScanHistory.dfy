/**
 Whole histories of the scanner's store. Blocks are scanned any number of times, scans abort before they commit, the
 process restarts, deposits are marked as processed and addresses are added; the result is compared with one clean
 scan.
 */
module ScanHistory {
  import opened Common
  import opened Deposits
  import opened ScanStore

  datatype Op =
    | Committed(block: CommonBlock, coin: string)  // ScanBlock ran its transaction
    | Aborted(block: CommonBlock, coin: string)    // an error or a crash before the commit
    | Processed(id: string)
    | Watch(addr: string, coin: string)
    | Restarted

  datatype History = History(db: ScanDb, returned: seq<Deposit>)

  function Apply(h: History, op: Op): History {
    match op
    case Committed(block, coin) =>
      (match Scan(h.db, block, coin)
       case Ok((db, dvs)) => History(db, h.returned + dvs)
       case Err(_) => h)
    case Processed(id) =>
      (match Process(h.db, id) case Ok(db) => h.(db := db) case Err(_) => h)
    case Watch(addr, coin) =>
      (match AddAddress(h.db, addr, coin) case Ok(db) => h.(db := db) case Err(_) => h)
    case Aborted(_, _) => h
    case Restarted => h
  }

  function Run(h: History, ops: seq<Op>): History {
    if ops == [] then h else Apply(Run(h, ops[..|ops| - 1]), ops[|ops| - 1])
  }

  /** The matching outputs of one committed scan, under the address list it saw. */
  function FoundBy(db: ScanDb, op: Op): seq<Deposit> {
    match op
    case Committed(block, coin) =>
      (match ScanAddresses(db, coin)
       case Ok(addrs) => Matches(block, coin, AsSet(addrs))
       case Err(_) => [])
    case _ => []
  }

  /** The matching outputs of all committed scans, repeats included. */
  function Found(h: History, ops: seq<Op>): seq<Deposit> {
    if ops == [] then []
    else Found(h, ops[..|ops| - 1]) + FoundBy(Run(h, ops[..|ops| - 1]).db, ops[|ops| - 1])
  }

  /** The bucket as it would be if nothing had been processed yet. */
  function Strip(m: Bucket): Bucket {
    map id | id in m :: m[id].(status := NotProcessed)
  }

  // A history stores and returns what one scan of everything it found stores and returns

  lemma {:induction false} StripPushAll(m: Bucket, ds: seq<Deposit>)
    requires forall d :: d in ds ==> d.status.NotProcessed?
    ensures Strip(PushAll(m, ds)) == PushAll(Strip(m), ds)
    ensures Fresh(m, ds) == Fresh(Strip(m), ds)
  {
    if ds != [] {
      StripPushAll(m, ds[..|ds| - 1]);
    }
  }

  lemma FoundNotProcessed(db: ScanDb, op: Op)
    ensures forall d :: d in FoundBy(db, op) ==> d.status.NotProcessed?
  {
    forall d | d in FoundBy(db, op) ensures d.status.NotProcessed? {
      MatchesExact(op.block, op.coin, AsSet(ScanAddresses(db, op.coin).value), d);
    }
  }

  lemma OpIsOneScan(h: History, op: Op)
    ensures var found := FoundBy(h.db, op);
            && Strip(Apply(h, op).db.deposits) == PushAll(Strip(h.db.deposits), found)
            && Apply(h, op).returned == h.returned + Fresh(Strip(h.db.deposits), found)
  {
    FoundNotProcessed(h.db, op);
    StripPushAll(h.db.deposits, FoundBy(h.db, op));
  }

  /** Repeats, aborted scans and restarts change nothing: the store and the returned deposits are those of one clean
      scan of everything found. */
  lemma {:induction false} HistoryIsOneScan(db: ScanDb, ops: seq<Op>)
    ensures var h := Run(History(db, []), ops);
            var found := Found(History(db, []), ops);
            && Strip(h.db.deposits) == PushAll(Strip(db.deposits), found)
            && h.returned == Fresh(Strip(db.deposits), found)
  {
    if ops != [] {
      var h0 := History(db, []);
      var init := ops[..|ops| - 1];
      var op := ops[|ops| - 1];
      HistoryIsOneScan(db, init);
      OpIsOneScan(Run(h0, init), op);
      PushAllConcat(Strip(db.deposits), Found(h0, init), FoundBy(Run(h0, init).db, op));
      FreshConcat(Strip(db.deposits), Found(h0, init), FoundBy(Run(h0, init).db, op));
    }
  }

  /** From an empty store: an output is stored exactly when some committed scan found it, and each stored identifier
      was returned exactly once. */
  lemma StoredAndReturnedOnce(db: ScanDb, ops: seq<Op>)
    requires db.deposits == map[]
    ensures var h := Run(History(db, []), ops);
            var found := Found(History(db, []), ops);
            && (forall id :: id in h.db.deposits <==> exists k :: 0 <= k < |found| && found[k].ID() == id)
            && (forall id :: id in h.db.deposits ==> exists i :: 0 <= i < |h.returned| && h.returned[i].ID() == id)
            && (forall d :: d in h.returned ==> d.ID() in h.db.deposits && Strip(h.db.deposits)[d.ID()] == d)
            && (forall i, j :: 0 <= i < j < |h.returned| ==> h.returned[i].ID() != h.returned[j].ID())
  {
    var h := Run(History(db, []), ops);
    var found := Found(History(db, []), ops);
    HistoryIsOneScan(db, ops);
    assert Strip(db.deposits) == map[];
    assert h.db.deposits.Keys == Strip(h.db.deposits).Keys;
    FreshExact(map[], found);
    forall id
      ensures id in h.db.deposits <==> exists k :: 0 <= k < |found| && found[k].ID() == id
    {
      PushAllFirstWins(map[], found, id);
      if k :| 0 <= k < |found| && found[k].ID() == id {
        FirstExists(found, id, k);
      }
    }
    forall id | id in h.db.deposits
      ensures exists i :: 0 <= i < |h.returned| && h.returned[i].ID() == id
    {
      var d :| d in Fresh(map[], found) && d.ID() == id;
      var i :| 0 <= i < |h.returned| && h.returned[i] == d;
    }
  }

  /** A stored deposit keeps its data for ever, and once Accepted it stays Accepted, whatever is rescanned. */
  lemma {:induction false} AcceptedForever(h: History, ops: seq<Op>, id: string)
    requires id in h.db.deposits
    ensures id in Run(h, ops).db.deposits
    ensures var d := h.db.deposits[id];
            var d' := Run(h, ops).db.deposits[id];
            d' == d || d' == d.(status := Accepted)
  {
    if ops != [] {
      var before := Run(h, ops[..|ops| - 1]);
      AcceptedForever(h, ops[..|ops| - 1], id);
      FreshExact(before.db.deposits, FoundBy(before.db, ops[|ops| - 1]));
    }
  }

  // With a fixed set of addresses, scanning each block once is enough

  datatype Pass = Pass(block: CommonBlock, coin: string)

  function Passes(ops: seq<Op>): seq<Pass> {
    if ops == [] then []
    else
      var op := ops[|ops| - 1];
      Passes(ops[..|ops| - 1]) + if op.Committed? then [Pass(op.block, op.coin)] else []
  }

  function FirstOccurrences(ps: seq<Pass>): seq<Pass> {
    if ps == [] then []
    else
      var init := ps[..|ps| - 1];
      FirstOccurrences(init) + if ps[|ps| - 1] in init then [] else [ps[|ps| - 1]]
  }

  function CleanOps(ps: seq<Pass>): (ops: seq<Op>)
    ensures |ops| == |ps|
  {
    seq(|ps|, i requires 0 <= i < |ps| => Committed(ps[i].block, ps[i].coin))
  }

  predicate NoWatch(ops: seq<Op>) {
    forall i :: 0 <= i < |ops| ==> !ops[i].Watch?
  }

  function MatchesOf(db: ScanDb, p: Pass): seq<Deposit> {
    FoundBy(db, Committed(p.block, p.coin))
  }

  function AllMatches(db: ScanDb, ps: seq<Pass>): seq<Deposit> {
    if ps == [] then [] else AllMatches(db, ps[..|ps| - 1]) + MatchesOf(db, ps[|ps| - 1])
  }

  lemma {:induction false} FixedAddresses(h: History, ops: seq<Op>)
    requires NoWatch(ops)
    ensures Run(h, ops).db.scanMeta == h.db.scanMeta
    ensures Found(h, ops) == AllMatches(h.db, Passes(ops))
  {
    if ops != [] {
      var init := ops[..|ops| - 1];
      var op := ops[|ops| - 1];
      FixedAddresses(h, init);
      assert FoundBy(Run(h, init).db, op) == FoundBy(h.db, op);
      if op.Committed? {
        assert Passes(ops)[..|Passes(ops)| - 1] == Passes(init);
      } else {
        assert Passes(ops) == Passes(init);
      }
    }
  }

  lemma {:induction false} PassesOfCleanOps(ps: seq<Pass>)
    ensures Passes(CleanOps(ps)) == ps
  {
    if ps != [] {
      PassesOfCleanOps(ps[..|ps| - 1]);
      assert CleanOps(ps)[..|ps| - 1] == CleanOps(ps[..|ps| - 1]);
    }
  }

  lemma {:induction false} FoundAgainIsNoOp(m: Bucket, ds: seq<Deposit>)
    requires forall d :: d in ds ==> d.ID() in m
    ensures PushAll(m, ds) == m && Fresh(m, ds) == []
  {
    if ds != [] {
      FoundAgainIsNoOp(m, ds[..|ds| - 1]);
    }
  }

  lemma {:induction false} PassStored(m: Bucket, db: ScanDb, ps: seq<Pass>, p: Pass)
    requires p in ps
    ensures forall d :: d in MatchesOf(db, p) ==> d.ID() in PushAll(m, AllMatches(db, ps))
  {
    var init := ps[..|ps| - 1];
    var last := MatchesOf(db, ps[|ps| - 1]);
    PushAllConcat(m, AllMatches(db, init), last);
    FreshConcat(m, AllMatches(db, init), last);
    FreshExact(PushAll(m, AllMatches(db, init)), last);
    if p in init {
      PassStored(m, db, init, p);
    } else {
      forall d | d in last ensures d.ID() in PushAll(PushAll(m, AllMatches(db, init)), last) {
        var k :| 0 <= k < |last| && last[k] == d;
        FirstExists(last, d.ID(), k);
        PushAllFirstWins(PushAll(m, AllMatches(db, init)), last, d.ID());
      }
    }
  }

  lemma {:induction false} RepeatsAreNoOps(m: Bucket, db: ScanDb, ps: seq<Pass>)
    ensures PushAll(m, AllMatches(db, ps)) == PushAll(m, AllMatches(db, FirstOccurrences(ps)))
    ensures Fresh(m, AllMatches(db, ps)) == Fresh(m, AllMatches(db, FirstOccurrences(ps)))
  {
    if ps != [] {
      var init := ps[..|ps| - 1];
      var p := ps[|ps| - 1];
      RepeatsAreNoOps(m, db, init);
      PushAllConcat(m, AllMatches(db, init), MatchesOf(db, p));
      FreshConcat(m, AllMatches(db, init), MatchesOf(db, p));
      if p in init {
        PassStored(m, db, init, p);
        assert FirstOccurrences(ps) == FirstOccurrences(init);
        FoundAgainIsNoOp(PushAll(m, AllMatches(db, init)), MatchesOf(db, p));
      } else {
        PushAllConcat(m, AllMatches(db, FirstOccurrences(init)), MatchesOf(db, p));
        FreshConcat(m, AllMatches(db, FirstOccurrences(init)), MatchesOf(db, p));
        var firsts := FirstOccurrences(ps);
        assert firsts[..|firsts| - 1] == FirstOccurrences(init);
      }
    }
  }

  /** Crashy scanning refines one clean scan: with a fixed address set, any history ends with the deposits and the
      returned list of the run that scans each block once, in the order of first commits. */
  lemma RefinesCleanRun(db: ScanDb, ops: seq<Op>)
    requires NoWatch(ops)
    ensures var h := Run(History(db, []), ops);
            var clean := Run(History(db, []), CleanOps(FirstOccurrences(Passes(ops))));
            Strip(h.db.deposits) == Strip(clean.db.deposits) && h.returned == clean.returned
  {
    var h0 := History(db, []);
    var firsts := FirstOccurrences(Passes(ops));
    FixedAddresses(h0, ops);
    FixedAddresses(h0, CleanOps(firsts));
    PassesOfCleanOps(firsts);
    HistoryIsOneScan(db, ops);
    HistoryIsOneScan(db, CleanOps(firsts));
    RepeatsAreNoOps(Strip(db.deposits), db, Passes(ops));
  }
}

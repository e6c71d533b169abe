/**
 One scanner's two loops: loading what an earlier run left unfinished, and scanning block after block while the node's
 chain grows, its calls fail, others work on the shared store and a shutdown may come at any wait. A run is the list
 of answers that the node gave and of what happened beside the loop.
 */
module ScanLoop {
  import opened Common
  import opened Deposits
  import opened ScanStore
  import opened ScanHistory
  import opened ChainWalk
  import FakeChain

  /** What comes back to processDeposit: nothing before quit, an error, nil, or a closed channel. */
  datatype Reply = NoReply | Refused | Nil | Closed

  /** What others do to the shared store beside the loop: the service adds an address, the scanner's own pipe
      goroutine gets an answer, another coin's scanner commits a block. */
  datatype Beside =
    | Watching(addr: string, coin: string)
    | Piped(dv: Deposit, reply: Reply)
    | Scanning(block: CommonBlock, coin: string)

  /** One round of the scan loop, after what happened beside it. room is the number of sends to scannedDeposits before
      quit is chosen, if it is. */
  datatype Tick = Tick(beside: seq<Beside>, quit: bool, node: Poll, storeUp: bool, room: Option<nat>, polls: seq<Poll>)

  // The scan loop

  function OpOf(o: Beside): Op {
    match o
    case Watching(addr, coin) => Watch(addr, coin)
    case Piped(dv, reply) => if reply.Nil? then Processed(dv.ID()) else Restarted
    case Scanning(block, coin) => Committed(block, coin)
  }

  function OpsOf(os: seq<Beside>): seq<Op> {
    if os == [] then [] else OpsOf(os[..|os| - 1]) + [OpOf(os[|os| - 1])]
  }

  /** The blocks that a history commits for this coin. */
  function BlocksOf(coin: string, ops: seq<Op>): seq<CommonBlock> {
    if ops == [] then []
    else
      var op := ops[|ops| - 1];
      BlocksOf(coin, ops[..|ops| - 1]) + if op.Committed? && op.coin == coin then [op.block] else []
  }

  function FoundNow(coin: string, db: ScanDb, op: Op): seq<Deposit> {
    if op.Committed? && op.coin == coin && Scan(db, op.block, coin).Ok? then Scan(db, op.block, coin).value.1 else []
  }

  /** What the store returned to the scanner of this coin. */
  function FoundFor(coin: string, db0: ScanDb, ops: seq<Op>): seq<Deposit> {
    if ops == [] then []
    else
      var init := ops[..|ops| - 1];
      FoundFor(coin, db0, init) + FoundNow(coin, DbAfter(db0, init), ops[|ops| - 1])
  }

  function DbAfter(db0: ScanDb, ops: seq<Op>): ScanDb {
    Run(History(db0, []), ops).db
  }

  /** The effect of one operation on the buckets. */
  function DbNext(db: ScanDb, op: Op): ScanDb {
    ScanHistory.Apply(History(db, []), op).db
  }

  lemma OneMoreOp(coin: string, db0: ScanDb, ops: seq<Op>, op: Op)
    ensures DbAfter(db0, ops + [op]) == DbNext(DbAfter(db0, ops), op)
    ensures BlocksOf(coin, ops + [op]) == BlocksOf(coin, ops) + if op.Committed?
            && op.coin == coin then [op.block] else []
    ensures FoundFor(coin, db0, ops + [op]) == FoundFor(coin, db0, ops) + FoundNow(coin, DbAfter(db0, ops), op)
  {
    assert (ops + [op])[..|ops|] == ops;
  }

  /** A deposit of the coin that a history adds was found in one of the blocks committed for the coin. */
  lemma {:induction false} NewComesFromBlock(db0: ScanDb, coin: string, ops: seq<Op>, id: string)
    requires var m := DbAfter(db0, ops).deposits; id in m && m[id].coinType == coin && id !in db0.deposits
    ensures exists k :: 0 <= k < |BlocksOf(coin, ops)| &&
                        BlocksOf(coin, ops)[k].height == DbAfter(db0, ops).deposits[id].height
  {
    if ops != [] {
      var init, op := ops[..|ops| - 1], ops[|ops| - 1];
      assert ops == init + [op];
      OneMoreOp(coin, db0, init, op);
      var before := DbAfter(db0, init);
      if id in before.deposits {
        AcceptedForever(History(before, []), [op], id);
        assert [op][..0] == [] && Run(History(before, []), [op]).db == DbNext(before, op);
        NewComesFromBlock(db0, coin, init, id);
        var k :| 0 <= k < |BlocksOf(coin, init)| && BlocksOf(coin, init)[k].height == before.deposits[id].height;
        assert BlocksOf(coin, ops)[k] == BlocksOf(coin, init)[k];
      } else {
        AddedByScan(before, op, id);
        assert BlocksOf(coin, ops)[|BlocksOf(coin, init)|] == op.block;
      }
    }
  }

  lemma AddedByScan(db: ScanDb, op: Op, id: string)
    requires id in DbNext(db, op).deposits && id !in db.deposits
    ensures op.Committed? && var d := DbNext(db, op).deposits[id]; d.coinType == op.coin && d.height == op.block.height
  {
    var found := FoundBy(db, op);
    PushAllFirstWins(db.deposits, found, id);
    var k :| FirstAt(found, id, k);
    MatchesExact(op.block, op.coin, AsSet(ScanAddresses(db, op.coin).value), found[k]);
  }

  /** The rounds of a run: one growing chain, and a last chain that contains all that was seen. */
  ghost predicate Rounds(ticks: seq<Tick>, base: int, last: Chain) {
    && (forall i :: 0 <= i < |ticks| ==> View(ticks[i].node, base, last) && Views(ticks[i].polls, base, last))
    && (forall i, j :: 0 <= i < j < |ticks| ==> ticks[i].node.chain.best <= ticks[j].node.chain.best)
  }

  /** Consecutive blocks of the chain from the given height, each once. */
  ghost predicate Gapless(coin: string, last: Chain, blocks: seq<CommonBlock>, from: int) {
    forall k :: 0 <= k < |blocks| ==> blocks[k].height == from + k && IsBlock(coin, last, blocks[k])
  }

  ghost predicate Confirmed(coin: string, c: Chain, confirmations: int, height: int) {
    height + confirmations <= BlockCount(coin, c)
  }

  /** There is one scanner for each coin. */
  ghost predicate NoRival(coin: string, os: seq<Beside>) {
    forall o :: o in os && o.Scanning? ==> o.coin != coin
  }

  /** What has happened so far: the buckets are those of this history, in which exactly these consecutive blocks were
      committed for the coin, and these deposits returned to its scanner. */
  ghost predicate Progress(coin: string, last: Chain, from: int, db0: ScanDb, db: ScanDb, l: Loop) {
    && Gapless(coin, last, l.blocks, from)
    && DbAfter(db0, l.ops) == db && BlocksOf(coin, l.ops) == l.blocks && FoundFor(coin, db0, l.ops) == l.found
  }

  predicate Fits(room: Option<nat>, dvs: seq<Deposit>) {
    room.Some? ==> |dvs| <= room.value
  }

  /** A round in which nobody shuts the scanner down and, once it waits for it, the block after this height shows up. */
  ghost predicate Calm(coin: string, t: Tick, last: Chain, height: int) {
    && !t.quit && !t.node.quit && t.room.None?
    && (forall p :: p in t.polls ==> !p.quit)
    && !ShownAtMostOnce(coin, t.polls, last, height)
  }

  /** The rounds so far were calm, whatever height the loop had reached in them. */
  ghost predicate AllCalm(coin: string, ticks: seq<Tick>, last: Chain, from: int, used: nat)
    requires used <= |ticks|
  {
    forall k, h :: 0 <= k < used && from <= h <= from + k ==> Calm(coin, ticks[k], last, h)
  }

  /** A round whose calls succeed on a chain that is long enough. */
  ghost predicate Good(coin: string, t: Tick, confirmations: int, height: int) {
    t.node.up && t.storeUp && Confirmed(coin, t.node.chain, confirmations, height)
  }

  /** The number of good rounds so far. */
  ghost function GoodRounds(coin: string, ticks: seq<Tick>, confirmations: int, from: int, used: nat): nat
    requires used <= |ticks|
  {
    if used == 0 then 0
    else GoodRounds(coin, ticks, confirmations, from, used - 1) +
         if Good(coin, ticks[used - 1], confirmations, from + used - 1) then 1 else 0
  }

  datatype RoundEnd = Next(block: CommonBlock) | Retry | Stopped

  /** What a round did: dvs is what the store returned, sent the part of it that reached the channel. */
  datatype Round = Round(end: RoundEnd, committed: bool, sent: seq<Deposit>, dvs: seq<Deposit>)

  ghost predicate Outcome(coin: string, last: Chain, confirmations: int, block: CommonBlock, t: Tick,
                          db: ScanDb, r: Round, db': ScanDb)
  {
    && (r.committed <==> !t.quit && t.node.up && t.storeUp && Confirmed(coin, t.node.chain, confirmations, block.height)
                         && Scan(db, block, coin).Ok?)
    && (if r.committed then Scan(db, block, coin) == Ok((db', r.dvs)) else r.dvs == [] && db' == db)
    && r.sent == (if Fits(t.room, r.dvs) then r.dvs else r.dvs[..t.room.value])
    && (r.end.Next? ==>
         r.committed && r.sent == r.dvs && IsBlock(coin, last, r.end.block) && r.end.block.height == block.height + 1)
    && (r.end.Retry? <==> !r.committed && !t.quit && !t.node.quit)
    && (Calm(coin, t, last, block.height) ==> !r.end.Stopped?)
  }

  /** The variables of the loop, with logs of all that was done to the store, the blocks committed, the deposits found
      and the deposits sent. */
  datatype Loop = Loop(block: CommonBlock, ops: seq<Op>, blocks: seq<CommonBlock>, found: seq<Deposit>,
                       sent: seq<Deposit>, running: bool)

  function After(coin: string, l: Loop, r: Round): Loop {
    var block := if r.end.Next? then r.end.block else l.block;
    if r.committed then
      Loop(block, l.ops + [Committed(l.block, coin)], l.blocks + [l.block], l.found + r.dvs, l.sent + r.sent,
          !r.end.Stopped?)
    else l.(running := !r.end.Stopped?)
  }

  ghost predicate Reached(coin: string, last: Chain, from: int, db0: ScanDb, db: ScanDb, l: Loop) {
    && Progress(coin, last, from, db0, db, l)
    && l.sent <= l.found
    && (l.running ==> l.sent == l.found && IsBlock(coin, last, l.block) && l.block.height == from + |l.blocks|)
    && (ScanAddresses(db0, coin).Ok? ==> ScanAddresses(db, coin).Ok?)
  }

  lemma ScanKeepsLists(db: ScanDb, block: CommonBlock, coin: string)
    requires Scan(db, block, coin).Ok?
    ensures Scan(db, block, coin).value.0.scanMeta == db.scanMeta && ScanAddresses(db, coin).Ok?
    ensures Scan(db, block, coin) ==
            Ok((DbNext(db, Committed(block, coin)), FoundNow(coin, db, Committed(block, coin))))
  {
  }

  lemma RoundReached(coin: string, last: Chain, from: int, confirmations: int, t: Tick, db0: ScanDb, db: ScanDb,
                     l: Loop,
                     r: Round, db': ScanDb)
    requires Reached(coin, last, from, db0, db, l) && l.running
    requires Outcome(coin, last, confirmations, l.block, t, db, r, db')
    ensures Reached(coin, last, from, db0, db', After(coin, l, r))
  {
    hide IsBlock, Calm, DbAfter, BlocksOf, Scan, FoundFor, FoundNow, DbNext;
    if r.committed {
      ScanKeepsLists(db, l.block, coin);
      OneMoreOp(coin, db0, l.ops, Committed(l.block, coin));
      assert r.sent <= r.dvs;
    }
  }

  lemma OneBesideReached(coin: string, last: Chain, from: int, db0: ScanDb, db: ScanDb, l: Loop, o: Beside)
    requires Reached(coin, last, from, db0, db, l) && (o.Scanning? ==> o.coin != coin)
    ensures Reached(coin, last, from, db0, DbNext(db, OpOf(o)), l.(ops := l.ops + [OpOf(o)]))
  {
    OneMoreOp(coin, db0, l.ops, OpOf(o));
  }

  lemma {:induction false} BesideReached(coin: string, last: Chain, from: int, db0: ScanDb, db: ScanDb, l: Loop,
                                         os: seq<Beside>)
    requires Reached(coin, last, from, db0, db, l) && NoRival(coin, os)
    ensures Reached(coin, last, from, db0, DbAfter(db, OpsOf(os)), l.(ops := l.ops + OpsOf(os)))
  {
    if os == [] {
      assert l.ops + [] == l.ops;
    } else {
      var init, o := os[..|os| - 1], os[|os| - 1];
      var l' := l.(ops := l.ops + OpsOf(init));
      BesideReached(coin, last, from, db0, db, l, init);
      OneBesideReached(coin, last, from, db0, DbAfter(db, OpsOf(init)), l', o);
      OneMoreOp(coin, db, OpsOf(init), OpOf(o));
      assert l.ops + OpsOf(os) == l'.ops + [OpOf(o)];
    }
  }

  /** All blocks have their confirmations by the block count of the last round taken. */
  ghost predicate Timely(coin: string, ticks: seq<Tick>, used: nat, from: int, confirmations: int,
                         blocks: seq<CommonBlock>) {
    blocks != [] ==>
      0 < used <= |ticks| && Confirmed(coin, ticks[used - 1].node.chain, confirmations, from + |blocks| - 1)
  }

  lemma RoundTimely(coin: string, last: Chain, base: int, from: int, confirmations: int, ticks: seq<Tick>, used: nat,
                    db: ScanDb, l: Loop, r: Round, db': ScanDb)
    requires Rounds(ticks, base, last) && used < |ticks| && Timely(coin, ticks, used, from, confirmations, l.blocks)
    requires Outcome(coin, last, confirmations, l.block, ticks[used], db, r, db') && l.block.height == from + |l.blocks|
    ensures Timely(coin, ticks, used + 1, from, confirmations, After(coin, l, r).blocks)
  {
    if used > 0 {
      assert ticks[used - 1].node.chain.best <= ticks[used].node.chain.best;
    }
  }

  /** A round commits at most one block. As long as the rounds are calm and the coin is registered, the loop keeps
      running whatever fails, and each good round commits a block. */
  ghost predicate KeepsGoing(coin: string, ticks: seq<Tick>, last: Chain, from: int, confirmations: int, db0: ScanDb,
                             used: nat, l: Loop)
    requires used <= |ticks|
  {
    && |l.blocks| <= used
    && (AllCalm(coin, ticks, last, from, used) && ScanAddresses(db0, coin).Ok? ==>
          l.running && GoodRounds(coin, ticks, confirmations, from, used) <= |l.blocks|)
  }

  lemma CalmAt(coin: string, ticks: seq<Tick>, last: Chain, from: int, k: nat, height: int)
    requires k < |ticks| && AllCalm(coin, ticks, last, from, k + 1) && from <= height <= from + k
    ensures AllCalm(coin, ticks, last, from, k) && Calm(coin, ticks[k], last, height)
  {
  }

  lemma GoodCommits(coin: string, last: Chain, confirmations: int, block: CommonBlock, t: Tick, db: ScanDb, r: Round,
                    db': ScanDb, height: int)
    requires Outcome(coin, last, confirmations, block, t, db, r, db') && block.height <= height
    requires Calm(coin, t, last, block.height) && ScanAddresses(db, coin).Ok?
    ensures !r.end.Stopped? && (Good(coin, t, confirmations, height) ==> r.committed)
  {
  }

  lemma RoundKeepsGoing(coin: string, last: Chain, from: int, confirmations: int, ticks: seq<Tick>, used: nat,
                        db0: ScanDb, db: ScanDb, l: Loop, r: Round, db': ScanDb)
    requires used < |ticks| && KeepsGoing(coin, ticks, last, from, confirmations, db0, used, l)
    requires Outcome(coin, last, confirmations, l.block, ticks[used], db, r, db')
    requires ScanAddresses(db0, coin).Ok? ==> ScanAddresses(db, coin).Ok?
    requires l.block.height == from + |l.blocks|
    ensures KeepsGoing(coin, ticks, last, from, confirmations, db0, used + 1, After(coin, l, r))
  {
    if AllCalm(coin, ticks, last, from, used + 1) && ScanAddresses(db0, coin).Ok? {
      hide Outcome, Calm, AllCalm, Good;
      CalmAt(coin, ticks, last, from, used, l.block.height);
      GoodCommits(coin, last, confirmations, l.block, ticks[used], db, r, db', from + used);
    }
  }

  /** What holds before every round of the loop, and after the last. */
  ghost predicate LoopInv(coin: string, last: Chain, from: int, confirmations: int, ticks: seq<Tick>, used: nat,
                          db0: ScanDb, db: ScanDb, l: Loop)
  {
    && used <= |ticks|
    && Reached(coin, last, from, db0, db, l)
    && Timely(coin, ticks, used, from, confirmations, l.blocks)
    && KeepsGoing(coin, ticks, last, from, confirmations, db0, used, l)
  }

  lemma LoopStarts(coin: string, last: Chain, confirmations: int, ticks: seq<Tick>, db0: ScanDb, initial: CommonBlock)
    requires IsBlock(coin, last, initial)
    ensures LoopInv(coin, last, initial.height, confirmations, ticks, 0, db0, db0, Loop(initial, [], [], [], [], true))
  {
  }

  lemma BeforeRound(coin: string, last: Chain, base: int, from: int, confirmations: int, ticks: seq<Tick>, used: nat,
                    db0: ScanDb, db: ScanDb, l: Loop)
    requires LoopInv(coin, last, from, confirmations, ticks, used, db0, db, l) && l.running
    requires Rounds(ticks, base, last) && used < |ticks|
    ensures IsBlock(coin, last, l.block) && Views(ticks[used].polls, base, last)
  {
  }

  lemma BesideKeepsInv(coin: string, last: Chain, from: int, confirmations: int, ticks: seq<Tick>, used: nat,
                       db0: ScanDb, db: ScanDb, l: Loop, os: seq<Beside>)
    requires LoopInv(coin, last, from, confirmations, ticks, used, db0, db, l) && NoRival(coin, os)
    ensures LoopInv(coin, last, from, confirmations, ticks, used, db0, DbAfter(db, OpsOf(os)),
            l.(ops := l.ops + OpsOf(os)))
  {
    BesideReached(coin, last, from, db0, db, l, os);
  }

  ghost predicate NoRivals(coin: string, ticks: seq<Tick>) {
    forall i :: 0 <= i < |ticks| ==> NoRival(coin, ticks[i].beside)
  }

  lemma NoRivalAt(coin: string, ticks: seq<Tick>, i: nat)
    requires NoRivals(coin, ticks) && i < |ticks|
    ensures NoRival(coin, ticks[i].beside)
  {
  }

  lemma RoundKeepsInv(coin: string, last: Chain, base: int, from: int, confirmations: int, ticks: seq<Tick>, used: nat,
                      db0: ScanDb, db: ScanDb, l: Loop, r: Round, db': ScanDb)
    requires LoopInv(coin, last, from, confirmations, ticks, used, db0, db, l) && l.running
    requires Rounds(ticks, base, last) && used < |ticks|
    requires Outcome(coin, last, confirmations, l.block, ticks[used], db, r, db')
    ensures LoopInv(coin, last, from, confirmations, ticks, used + 1, db0, db', After(coin, l, r))
  {
    RoundReached(coin, last, from, confirmations, ticks[used], db0, db, l, r, db');
    RoundTimely(coin, last, base, from, confirmations, ticks, used, db, l, r, db');
    RoundKeepsGoing(coin, last, from, confirmations, ticks, used, db0, db, l, r, db');
  }

  datatype Stop = QuitSeen | DbFailed(error: ScanError) | ExchangeFailed | StoreFailed | NoBlock

  class BaseScanner {
    const store: Store
    const coin: string
    const initialScanHeight: int
    const confirmations: int
    const bufferSize: nat
    var scannedDeposits: seq<Deposit>  // the channel

    constructor (store: Store, coin: string, initialScanHeight: int, confirmations: int, bufferSize: nat)
      ensures this.store == store && this.coin == coin && this.initialScanHeight == initialScanHeight
      ensures this.confirmations == confirmations && this.bufferSize == bufferSize && scannedDeposits == []
    {
      this.store, this.coin, this.initialScanHeight := store, coin, initialScanHeight;
      this.confirmations, this.bufferSize, scannedDeposits := confirmations, bufferSize, [];
    }

    /** The loader runs before anything reads the channel: it gets through exactly when everything fits. quitAfter is
        the number of sends after which a shutdown is chosen. */
    method LoadUnprocessedDeposits(quitAfter: nat) returns (r: Result<(), Stop>)
      requires scannedDeposits == []
      modifies this`scannedDeposits
      ensures var todo := Unprocessed(store.deposits);
              && (r.Ok? <==> |todo| <= bufferSize && |todo| <= quitAfter)
              && (r.Err? ==> r.error == QuitSeen)
              && |scannedDeposits| <= bufferSize && scannedDeposits <= todo
              && (r.Ok? ==> scannedDeposits == todo)
    {
      var dvs := store.GetUnprocessedDeposits();
      for i := 0 to |dvs|
        invariant i <= bufferSize && i <= quitAfter
        invariant scannedDeposits == dvs[..i]
      {
        if i == quitAfter || |scannedDeposits| == bufferSize {
          return Err(QuitSeen);
        }
        scannedDeposits := scannedDeposits + [dvs[i]];
      }
      return Ok(());
    }

    /** Only a deposit that the exchange answered with nil leaves the list that the next start loads; any other
        answer, or none, leaves the whole list as it was. */
    method ProcessDeposit(dv: Deposit, reply: Reply) returns (r: Result<(), Stop>)
      modifies store`deposits
      ensures store.Db() == DbNext(old(store.Db()), OpOf(Piped(dv, reply)))
      ensures Keyed(old(store.deposits)) ==>
                forall d :: d in Unprocessed(store.deposits) <==>
                            d in Unprocessed(old(store.deposits)) && !(reply.Nil? && d.ID() == dv.ID())
      ensures r.Ok? <==> reply.Closed? || (reply.Nil? && Process(old(store.Db()), dv.ID()).Ok?)
      ensures r == Err(QuitSeen) <==> reply.NoReply?
    {
      ghost var m := store.deposits;
      match reply
      case NoReply => return Err(QuitSeen);
      case Refused => return Err(ExchangeFailed);
      case Closed => return Ok(());
      case Nil =>
        var done := store.SetDepositProcessed(dv.ID());
        if Keyed(m) {
          forall d { MarkedLeavesList(m, dv.ID(), store.deposits, d); }
        }
        return if done.Err? then Err(DbFailed(done.error)) else Ok(());
    }

    method RunOneBeside(o: Beside)
      modifies store
      ensures store.Db() == DbNext(old(store.Db()), OpOf(o))
    {
      match o
      case Watching(addr, c) => var added := store.AddScanAddress(addr, c);
      case Piped(dv, reply) => var done := ProcessDeposit(dv, reply);
      case Scanning(block, c) => var found := store.ScanBlock(block, c);
    }

    /** What happens to the store beside the loop between two rounds. */
    method RunBeside(os: seq<Beside>)
      modifies store
      ensures store.Db() == DbAfter(old(store.Db()), OpsOf(os))
    {
      ghost var db := store.Db();
      for i := 0 to |os|
        invariant store.Db() == DbAfter(db, OpsOf(os[..i]))
      {
        assert os[..i + 1][..i] == os[..i];
        OneMoreOp(coin, db, OpsOf(os[..i]), OpOf(os[i]));
        RunOneBeside(os[i]);
      }
      assert os[..|os|] == os;
    }

    /** scanBlock: one transaction of the store, then the new deposits go to the channel one by one. */
    method ScanBlock(block: CommonBlock, storeUp: bool, room: Option<nat>)
      returns (r: Result<int, Stop>, dvs: seq<Deposit>, sent: seq<Deposit>)
      modifies store`deposits
      ensures storeUp && Scan(old(store.Db()), block, coin).Ok? ==>
              Scan(old(store.Db()), block, coin) == Ok((store.Db(), dvs))
      ensures storeUp && Scan(old(store.Db()), block, coin).Ok? ==>
              r == if Fits(room, dvs) then Ok(|dvs|) else Err(QuitSeen)
      ensures sent == if Fits(room, dvs) then dvs else dvs[..room.value]
      ensures !storeUp || Scan(old(store.Db()), block, coin).Err? ==>
              r == Err(StoreFailed) && dvs == [] && store.Db() == old(store.Db())
    {
      dvs, sent := [], [];
      if !storeUp {
        return Err(StoreFailed), dvs, sent;
      }
      var stored := store.ScanBlock(block, coin);
      if stored.Err? {
        return Err(StoreFailed), dvs, sent;
      }
      dvs := stored.value;
      var n := 0;
      while n < |dvs|
        invariant n <= |dvs| && (room.Some? ==> n <= room.value)
        invariant sent == dvs[..n]
      {
        if room == Some(n) {
          return Err(QuitSeen), dvs, sent;
        }
        sent := sent + [dvs[n]];
        n := n + 1;
      }
      return Ok(n), dvs, sent;
    }

    /** One round of the scan loop: the block is committed at most once, only with its confirmations, and the scanner
        moves on only after a commit. */
    method ScanRound(block: CommonBlock, t: Tick, ghost base: int, ghost last: Chain) returns (r: Round)
      requires FakeChain.Linked(last, base) && IsBlock(coin, last, block) && Views(t.polls, base, last)
      modifies store`deposits
      ensures Outcome(coin, last, confirmations, block, t, old(store.Db()), r, store.Db())
    {
      if t.quit {
        return Round(Stopped, false, [], []);
      }
      if !t.node.up || block.height + confirmations > BlockCount(coin, t.node.chain) {
        return Round(if t.node.quit then Stopped else Retry, false, [], []);
      }
      var result, dvs, sent := ScanBlock(block, t.storeUp, t.room);
      if result == Err(StoreFailed) {
        return Round(if t.node.quit then Stopped else Retry, false, [], []);
      }
      if result.Err? {
        return Round(Stopped, true, sent, dvs);
      }
      var next := WaitForNextBlock(coin, block, t.polls, base, last);
      return Round(if next.Found? then Next(next.block) else Stopped, true, sent, dvs);
    }

    /** The loop scans the chain's blocks from the given one on, each height once and in order whatever fails in
        between, and never a block without its confirmations; while nobody shuts it down it goes on, and commits a block
        in each good round. */
    method ScanChain(initial: CommonBlock, ticks: seq<Tick>, ghost base: int, ghost last: Chain)
      returns (l: Loop, used: nat)
      requires FakeChain.Linked(last, base) && Rounds(ticks, base, last) && IsBlock(coin, last, initial)
      requires NoRivals(coin, ticks)
      modifies store
      ensures l.running ==> used == |ticks|
      ensures LoopInv(coin, last, initial.height, confirmations, ticks, used, old(store.Db()), store.Db(), l)
    {
      hide *;
      l, used := Loop(initial, [], [], [], [], true), 0;
      ghost var db0 := store.Db();
      LoopStarts(coin, last, confirmations, ticks, db0, initial);
      while l.running && used < |ticks|
        invariant used <= |ticks|
        invariant LoopInv(coin, last, initial.height, confirmations, ticks, used, db0, store.Db(), l)
        decreases |ticks| - used
      {
        var t := ticks[used];
        NoRivalAt(coin, ticks, used);
        BesideKeepsInv(coin, last, initial.height, confirmations, ticks, used, db0, store.Db(), l, t.beside);
        RunBeside(t.beside);
        l := l.(ops := l.ops + OpsOf(t.beside));
        ghost var db := store.Db();
        BeforeRound(coin, last, base, initial.height, confirmations, ticks, used, db0, db, l);
        var r := ScanRound(l.block, t, base, last);
        RoundKeepsInv(coin, last, base, initial.height, confirmations, ticks, used, db0, db, l, r, store.Db());
        l := After(coin, l, r);
        used := used + 1;
      }
    }

    /** Run: load, fetch the initial block, scan, with the pipe goroutine beside the loop. */
    method Run(quitAfter: nat, first: Poll, ticks: seq<Tick>, ghost base: int, ghost last: Chain)
      returns (r: Result<Loop, Stop>, used: nat)
      requires scannedDeposits == []
      requires FakeChain.Linked(last, base) && View(first, base, last) && Rounds(ticks, base, last)
      requires NoRivals(coin, ticks)
      modifies this`scannedDeposits, store
      ensures r.Err? ==> store.Db() == old(store.Db())
      ensures var todo, height := |old(Unprocessed(store.deposits))|, initialScanHeight;
              r.Ok? <==> todo <= bufferSize && todo <= quitAfter && first.up && height in first.chain.hashes &&
                         first.chain.hashes[height] in first.chain.blocks &&
                         (coin == COIN_BTC ==> first.chain.blocks[first.chain.hashes[height]].txs != [])
      ensures |old(Unprocessed(store.deposits))| > bufferSize ==> r == Err(QuitSeen)
      ensures r.Ok? ==> scannedDeposits == old(Unprocessed(store.deposits))
      ensures r.Ok? && r.value.running ==> used == |ticks|
      ensures r.Ok? ==> LoopInv(coin, last, initialScanHeight, confirmations, ticks, used, old(store.Db()),
              store.Db(), r.value)
    {
      used := 0;
      var loaded := LoadUnprocessedDeposits(quitAfter);
      if loaded.Err? {
        return Err(loaded.error), used;
      }
      var answer := BlockBySeq(first, initialScanHeight);
      if answer.None? {
        return Err(NoBlock), used;
      }
      var initial := ToCommonBlock(coin, answer.value);
      if initial.None? {
        return Err(NoBlock), used;
      }
      InitialIsBlock(coin, first, base, last, initialScanHeight);
      var l;
      l, used := ScanChain(initial.value, ticks, base, last);
      return Ok(l), used;
    }
  }

  lemma InitialIsBlock(coin: string, first: Poll, base: int, last: Chain, height: int)
    requires FakeChain.Linked(last, base) && View(first, base, last) && BlockBySeq(first, height).Some?
    requires ToCommonBlock(coin, BlockBySeq(first, height).value).Some?
    ensures var block := ToCommonBlock(coin, BlockBySeq(first, height).value).value;
            IsBlock(coin, last, block) && block.height == height
  {
    AnswerIsBlock(coin, first, base, last, first.chain.hashes[height]);
    assert FakeChain.LinkedAt(last, height);
  }
}

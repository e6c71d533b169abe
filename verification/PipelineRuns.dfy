/**
 Whole runs of the deposit pipeline, with crashes and restarts at any point.
 */
module PipelineRuns {
  import opened Common
  import opened Deposits
  import opened ScanStore
  import opened Exchange
  import opened ExchangeLedger
  import L = LedgerRuns
  import opened Pipeline
  import opened PipelineFanIn
  import opened PipelineSafety

  // The records on their way to the buy step

  predicate Mentions(dis: seq<DepositInfo>, id: string) {
    exists k :: 0 <= k < |dis| && dis[k].depositID == id
  }

  predicate AtStage(r: Receiver, id: string) {
    r.Running? &&
    match r.stage
    case Saved(_, result) => result.Some? && result.value.depositID == id
    case Forwarding(di) => di.depositID == id
    case _ => false
  }

  /** A record that is WaitDecide is on its way to the buy step, was given up there in this run, or will be reloaded
      when the receiver starts. */
  predicate OnItsWay(s: System, id: string) {
    || s.receiver.Stopped? || id in s.failed
    || Mentions(s.receiver.reload, id) || AtStage(s.receiver, id) || Mentions(s.infoChan, id)
    || (s.buying.Some? && s.buying.value.depositID == id)
  }

  ghost predicate AllKnown(infos: map<string, DepositInfo>, dis: seq<DepositInfo>) {
    forall di :: di in dis ==> Known(infos, di)
  }

  ghost predicate QueuesKnown(s: System) {
    var infos := s.ledger.db.infos;
    && AllKnown(infos, s.infoChan)
    && (s.buying.Some? ==> Known(infos, s.buying.value))
    && (s.receiver.Running? ==> AllKnown(infos, s.receiver.reload))
  }

  ghost predicate Forwarded(s: System) {
    forall id :: id in s.ledger.db.infos && s.ledger.db.infos[id].status.WaitDecide? ==> OnItsWay(s, id)
  }

  ghost predicate Tracked(s: System) {
    FanIn(s) && Safe(s) && QueuesKnown(s) && Forwarded(s)
  }

  lemma HeadMentions(dis: seq<DepositInfo>, id: string)
    requires dis != []
    ensures Mentions(dis, id) <==> dis[0].depositID == id || Mentions(dis[1..], id)
  {
    if k :| 0 <= k < |dis| && dis[k].depositID == id {
      assert k == 0 || dis[1..][k - 1].depositID == id;
    }
  }

  lemma AppendMentions(dis: seq<DepositInfo>, di: DepositInfo, id: string)
    ensures Mentions(dis + [di], id) <==> Mentions(dis, id) || di.depositID == id
  {
    assert (dis + [di])[|dis|] == di;
    if k :| 0 <= k < |dis| && dis[k].depositID == id {
      assert (dis + [di])[k] == dis[k];
    }
    if k :| 0 <= k < |dis + [di]| && (dis + [di])[k].depositID == id {
      assert k == |dis| || dis[k].depositID == id;
    }
  }

  /** Steps that leave the records, the receiver and the buy side alone. */
  lemma ForwardedFrame(s: System, s': System)
    requires QueuesKnown(s) && Forwarded(s)
    requires s'.ledger.db.infos == s.ledger.db.infos && s'.receiver == s.receiver && s'.infoChan == s.infoChan
    requires s'.buying == s.buying && s'.failed == s.failed
    ensures QueuesKnown(s') && Forwarded(s')
  {
  }

  lemma SaveForwarded(s: System)
    requires BindsKeyed(s.ledger.db) && InfosKeyed(s.ledger.db) && QueuesKnown(s) && Forwarded(s)
    ensures QueuesKnown(SaveStep(s)) && Forwarded(SaveStep(s))
  {
    if s.receiver.Running? && s.receiver.stage.Received? {
      DeliverOutcome(s.ledger.db, s.receiver.stage.note.dv);
      SaveOnItsWay(s);
    }
  }

  lemma SaveOnItsWay(s: System)
    requires s.receiver.Running? && s.receiver.stage.Received? && QueuesKnown(s) && Forwarded(s)
    requires var infos := s.ledger.db.infos;
             var id := s.receiver.stage.note.dv.ID();
             var s' := SaveStep(s);
             && (s'.ledger.db.infos == infos ||
                 (id in s'.ledger.db.infos && id !in infos && s'.ledger.db.infos ==
                     infos[id := s'.ledger.db.infos[id]] &&
                  AtStage(s'.receiver, id)))
    ensures QueuesKnown(SaveStep(s)) && Forwarded(SaveStep(s))
  {
    var s' := SaveStep(s);
    forall id | id in s'.ledger.db.infos && s'.ledger.db.infos[id].status.WaitDecide? ensures OnItsWay(s', id) {
      if id in s.ledger.db.infos {
        assert OnItsWay(s, id);
      }
    }
  }

  /** Steps that change only the receiver's stage, and keep what it mentions. */
  lemma StageFrame(s: System, s': System)
    requires QueuesKnown(s) && Forwarded(s) && s.receiver.Running? && s'.receiver.Running?
    requires s'.ledger == s.ledger && s'.receiver.reload == s.receiver.reload && s'.infoChan == s.infoChan
    requires s'.buying == s.buying && s'.failed == s.failed
    requires forall id :: AtStage(s.receiver, id) ==> AtStage(s'.receiver, id)
    ensures QueuesKnown(s') && Forwarded(s')
  {
    forall id | id in s'.ledger.db.infos && s'.ledger.db.infos[id].status.WaitDecide? ensures OnItsWay(s', id) {
      assert OnItsWay(s, id);
    }
  }

  lemma StageForwarded(s: System)
    requires QueuesKnown(s) && Forwarded(s)
    ensures QueuesKnown(ReceiveStep(s)) && Forwarded(ReceiveStep(s))
    ensures QueuesKnown(AnswerStep(s)) && Forwarded(AnswerStep(s))
  {
    if ReceiveStep(s) != s {
      StageFrame(s, ReceiveStep(s));
    }
    if s.receiver.Running? && s.receiver.stage.Saved? {
      StageFrame(s, AnswerStep(s));
    }
  }

  lemma EmitForwarded(s: System)
    requires Tracked(s)
    ensures QueuesKnown(EmitStep(s)) && Forwarded(EmitStep(s))
  {
    if EmitStep(s) != s {
      forall id | id in s.ledger.db.infos && s.ledger.db.infos[id].status.WaitDecide?
        ensures OnItsWay(EmitStep(s), id) {
        assert OnItsWay(s, id);
        AppendMentions(s.infoChan, s.receiver.stage.di, id);
      }
    }
  }

  lemma ReloadForwarded(s: System)
    requires Tracked(s)
    ensures QueuesKnown(ReloadStep(s)) && Forwarded(ReloadStep(s))
  {
    if ReloadStep(s) != s {
      var di := s.receiver.reload[0];
      assert di in s.receiver.reload;
      forall id | id in s.ledger.db.infos && s.ledger.db.infos[id].status.WaitDecide?
        ensures OnItsWay(ReloadStep(s), id) {
        assert OnItsWay(s, id);
        HeadMentions(s.receiver.reload, id);
        AppendMentions(s.infoChan, di, id);
      }
    }
  }

  lemma StartReceiverForwarded(s: System)
    requires Tracked(s) && InfosKeyed(s.ledger.db)
    ensures QueuesKnown(StartReceiverStep(s)) && Forwarded(StartReceiverStep(s))
  {
    if s.receiver.Stopped? {
      var infos := s.ledger.db.infos;
      var todo := WaitDecideInfos(infos);
      forall di | di in todo ensures Known(infos, di) {
        WaitDecideExact(infos, di);
      }
      forall id | id in infos && infos[id].status.WaitDecide? ensures Mentions(todo, id) {
        WaitDecideExact(infos, infos[id]);
        assert infos[id].depositID == id;
        var k :| 0 <= k < |todo| && todo[k] == infos[id];
      }
    }
  }

  lemma BuyTakeForwarded(s: System)
    requires Tracked(s)
    ensures QueuesKnown(BuyTakeStep(s)) && Forwarded(BuyTakeStep(s))
  {
    if BuyTakeStep(s) != s {
      assert s.infoChan[0] in s.infoChan;
      forall id | id in s.ledger.db.infos && s.ledger.db.infos[id].status.WaitDecide?
        ensures OnItsWay(BuyTakeStep(s), id) {
        assert OnItsWay(s, id);
        HeadMentions(s.infoChan, id);
      }
    }
  }

  /** A committed credit takes its record out of WaitDecide and leaves all others alone. */
  lemma CreditDecides(l: Ledger, di: DepositInfo, key: CompletionKey)
    requires Inv(l) && Known(l.db.infos, di)
    ensures var infos' := DecideOn(l, di, key).db.infos;
            && infos'.Keys == l.db.infos.Keys
            && (forall id :: id in infos' && id != di.depositID ==> infos'[id] == l.db.infos[id])
            && (UpdateStatus(l.db, di, key).Ok? ==> !infos'[di.depositID].status.WaitDecide?)
  {
    CreditDecidesInfos(l.db, di, key);
  }

  lemma CreditDecidesInfos(db: Db, di: DepositInfo, key: CompletionKey)
    requires Structured(db) && Known(db.infos, di)
    ensures match UpdateStatus(db, di, key)
            case Ok((db', _)) =>
              di.depositID in db'.infos && !db'.infos[di.depositID].status.WaitDecide? &&
              db'.infos == db.infos[di.depositID := db'.infos[di.depositID]]
            case Err(_) => true
  {
    DecideOutcome(db, di, key);
    var r := UpdateStatus(db, di, key);
    if r.Ok? {
      CreditedInfos(db, di, key, r.value.0);
    }
  }

  lemma BuyCreditForwarded(c: Config, s: System)
    requires QueuesKnown(s) && Forwarded(s) && Inv(s.ledger)
    ensures QueuesKnown(BuyCreditStep(c, s)) && Forwarded(BuyCreditStep(c, s))
  {
    if s.buying.Some? {
      var s' := BuyCreditStep(c, s);
      CreditGrows(s.ledger, s.buying.value, c.key);
      CreditDecides(s.ledger, s.buying.value, c.key);
      forall id | id in s'.ledger.db.infos && s'.ledger.db.infos[id].status.WaitDecide? ensures OnItsWay(s', id) {
        assert OnItsWay(s, id);
      }
    }
  }

  // One step

  lemma FanInFacts(s: System)
    requires FanIn(s)
    ensures MuxInPipe(s.scanners) && AnswerMatches(s)
  {
    forall i, d | 0 <= i < |s.scanners| && s.scanners[i].Up? && d in s.scanners[i].mux
      ensures InPipe(s.scanners[i].pipe, d) {
      assert InOrder(s, i);
      var all := AtReceiver(s.receiver, i) + Project(s.outChan, i) + s.scanners[i].mux;
      assert d in all;
    }
    if s.receiver.Running? && s.receiver.stage.Saved? {
      AnswerNeverBlocks(s);
    }
  }

  predicate ScannerStep(step: Step) {
    step.Start? || step.Load? || step.ScanBlock? || step.Push? || step.Take? || step.Hand? || step.Forward?
        || step.Mark?
  }

  lemma ScannerStepSafe(c: Config, s: System, step: Step)
    requires Safe(s) && MuxInPipe(s.scanners) && ScannerStep(step)
    ensures Safe(Next(c, s, step))
  {
    match step
    case Start(i) => StartSafe(s, i);
    case Load(i) => LoadSafe(c, s, i);
    case ScanBlock(i, block) => ScanSafe(c, s, i, block);
    case Push(i) => PushSafe(c, s, i);
    case Take(i) => TakeSafe(s, i);
    case Hand(i) => HandSafe(s, i);
    case Forward(i) => ForwardSafe(s, i);
    case Mark(i) => MarkSafe(s, i);
  }

  lemma ScannerStepFrame(c: Config, s: System, step: Step)
    requires ScannerStep(step)
    ensures var s' := Next(c, s, step);
            && s'.ledger == s.ledger && s'.receiver == s.receiver && s'.infoChan == s.infoChan
            && s'.buying == s.buying && s'.failed == s.failed
  {
  }

  lemma ScannerStepTracked(c: Config, s: System, step: Step)
    requires Tracked(s) && ScannerStep(step)
    ensures Tracked(Next(c, s, step))
  {
    FanInFacts(s);
    ScannerStepSafe(c, s, step);
    StepFanIn(c, s, step);
    ScannerStepFrame(c, s, step);
    ForwardedFrame(s, Next(c, s, step));
  }

  lemma ReceiveTracked(c: Config, s: System)
    requires Tracked(s)
    ensures Tracked(Next(c, s, Receive))
  {
    StepFanIn(c, s, Receive);
    ReceiveSafe(s);
    StageForwarded(s);
  }

  lemma SaveTracked(c: Config, s: System)
    requires Tracked(s) && Inv(s.ledger)
    ensures Tracked(Next(c, s, Save))
  {
    StepFanIn(c, s, Save);
    SaveSafe(s);
    SaveForwarded(s);
  }

  lemma AnswerTracked(c: Config, s: System)
    requires Tracked(s)
    ensures Tracked(Next(c, s, Answer))
  {
    StepFanIn(c, s, Answer);
    FanInFacts(s);
    AnswerSafe(s);
    StageForwarded(s);
  }

  lemma EmitSafe(s: System)
    requires Safe(s)
    ensures Safe(EmitStep(s)) && Safe(ReloadStep(s)) && Safe(StartReceiverStep(s)) && Safe(BuyTakeStep(s))
  {
  }

  lemma EmitTracked(c: Config, s: System)
    requires Tracked(s)
    ensures Tracked(Next(c, s, Emit))
  {
    StepFanIn(c, s, Emit);
    EmitSafe(s);
    EmitForwarded(s);
  }

  lemma StartReceiverTracked(c: Config, s: System)
    requires Tracked(s) && InfosKeyed(s.ledger.db)
    ensures Tracked(Next(c, s, StartReceiver))
  {
    StepFanIn(c, s, StartReceiver);
    EmitSafe(s);
    StartReceiverForwarded(s);
  }

  lemma ReloadTracked(c: Config, s: System)
    requires Tracked(s)
    ensures Tracked(Next(c, s, Reload))
  {
    StepFanIn(c, s, Reload);
    EmitSafe(s);
    ReloadForwarded(s);
  }

  lemma BuyTakeTracked(c: Config, s: System)
    requires Tracked(s)
    ensures Tracked(Next(c, s, BuyTake))
  {
    StepFanIn(c, s, BuyTake);
    EmitSafe(s);
    BuyTakeForwarded(s);
  }

  lemma BuyCreditTracked(c: Config, s: System)
    requires Tracked(s) && Inv(s.ledger)
    ensures Tracked(Next(c, s, BuyCredit))
  {
    StepFanIn(c, s, BuyCredit);
    BuyCreditForwarded(c, s);
    BuyCreditSafe(c, s);
  }

  lemma BuyCreditSafe(c: Config, s: System)
    requires Safe(s) && Inv(s.ledger) && QueuesKnown(s)
    ensures Safe(BuyCreditStep(c, s))
  {
    if s.buying.Some? {
      CreditGrows(s.ledger, s.buying.value, c.key);
      GrowingRecordsSafe(s, BuyCreditStep(c, s));
    }
  }

  lemma CrashTracked(c: Config, s: System)
    requires Tracked(s)
    ensures Tracked(Next(c, s, Crash))
  {
    StepFanIn(c, s, Crash);
    CrashSafe(s);
  }

  lemma WatchTracked(c: Config, s: System, address: string, coin: string)
    requires Tracked(s)
    ensures Tracked(Next(c, s, WatchAddress(address, coin)))
  {
    StepFanIn(c, s, WatchAddress(address, coin));
    ForwardedFrame(s, WatchStep(s, address, coin));
  }

  lemma LedgerStepParts(s: System, l: Ledger)
    requires Safe(s) && QueuesKnown(s) && Forwarded(s) && l.db.infos == s.ledger.db.infos
    ensures Safe(s.(ledger := l)) && QueuesKnown(s.(ledger := l)) && Forwarded(s.(ledger := l))
  {
    ForwardedFrame(s, s.(ledger := l));
    GrowingRecordsSafe(s, s.(ledger := l));
  }

  lemma BindTracked(c: Config, s: System, kittyID: string, address: string, coin: string)
    requires Tracked(s)
    ensures Tracked(Next(c, s, BindKitty(kittyID, address, coin)))
  {
    StepFanIn(c, s, BindKitty(kittyID, address, coin));
    LedgerStepParts(s, BindTo(s.ledger, kittyID, address, coin));
  }

  lemma PriceTracked(c: Config, s: System, kittyID: string, price: Price)
    requires Tracked(s)
    ensures Tracked(Next(c, s, ChangePrice(kittyID, price)))
  {
    StepFanIn(c, s, ChangePrice(kittyID, price));
    LedgerStepParts(s, SetPriceOf(s.ledger, kittyID, price));
  }

  lemma StepTracked(c: Config, s: System, step: Step)
    requires Tracked(s) && Inv(s.ledger)
    ensures Tracked(Next(c, s, step))
  {
    match step
    case Receive => ReceiveTracked(c, s);
    case Save => SaveTracked(c, s);
    case Answer => AnswerTracked(c, s);
    case Emit => EmitTracked(c, s);
    case StartReceiver => StartReceiverTracked(c, s);
    case Reload => ReloadTracked(c, s);
    case BuyTake => BuyTakeTracked(c, s);
    case BuyCredit => BuyCreditTracked(c, s);
    case Crash => CrashTracked(c, s);
    case WatchAddress(address, coin) => WatchTracked(c, s, address, coin);
    case BindKitty(kittyID, address, coin) => BindTracked(c, s, kittyID, address, coin);
    case ChangePrice(kittyID, price) => PriceTracked(c, s, kittyID, price);
    case _ => ScannerStepTracked(c, s, step);
  }

  /** The transaction of the exchange that a step of the pipeline performs, if it performs one. */
  function OpOf(s: System, step: Step): Option<Op> {
    match step
    case Save =>
      if s.receiver.Running? && s.receiver.stage.Received? then Some(Deliver(s.receiver.stage.note.dv)) else None
    case BuyCredit =>
      if s.buying.Some? then Some(Decide(s.buying.value.depositID, s.buying.value.status)) else None
    case BindKitty(kittyID, address, coin) => Some(Bind(kittyID, address, coin))
    case ChangePrice(kittyID, price) => Some(SetPrice(kittyID, price))
    case _ => None
  }

  lemma StepPerformsOp(c: Config, s: System, step: Step)
    requires QueuesKnown(s)
    ensures var op := OpOf(s, step);
            Next(c, s, step).ledger == if op.Some? then Apply(s.ledger, op.value, c.key) else s.ledger
  {
    if step.BuyCredit? && s.buying.Some? {
      var di := s.buying.value;
      assert s.ledger.db.infos[di.depositID].(status := di.status) == di;
    }
  }

  lemma StepKeepsLedgerInv(c: Config, s: System, step: Step)
    requires QueuesKnown(s) && Inv(s.ledger)
    ensures Inv(Next(c, s, step).ledger)
  {
    StepPerformsOp(c, s, step);
    if OpOf(s, step).Some? {
      StepKeepsInv(s.ledger, OpOf(s, step).value, c.key);
    }
  }

  lemma InitialTracked(c: Config, meta: map<string, seq<string>>)
    ensures Tracked(Initial(c, meta))
  {
    InitialFanIn(c, meta);
  }

  lemma {:induction false} RunTracked(c: Config, meta: map<string, seq<string>>, steps: seq<Step>)
    ensures var s := RunSteps(c, Initial(c, meta), steps);
            Tracked(s) && Inv(s.ledger) && |s.scanners| == |c.coins|
  {
    if steps == [] {
      InitialTracked(c, meta);
      EmptyInv();
    } else {
      var s := RunSteps(c, Initial(c, meta), steps[..|steps| - 1]);
      RunTracked(c, meta, steps[..|steps| - 1]);
      StepTracked(c, s, steps[|steps| - 1]);
      StepKeepsLedgerInv(c, s, steps[|steps| - 1]);
      StepFanIn(c, s, steps[|steps| - 1]);
    }
  }

  // Theorems

  /** Nothing is lost across crashes: an accepted deposit has its record; as soon as any scanner is up, one not
      processed yet is in flight at a scanner that is up, or was refused in this run; every record comes from a
      scanned deposit; a record not credited yet is on its way to the buy step, failed there in this run, or will be
      reloaded. */
  lemma NoDepositLost(c: Config, meta: map<string, seq<string>>, steps: seq<Step>, id: string)
    ensures var s := RunSteps(c, Initial(c, meta), steps);
            var m := s.scan.deposits;
            var infos := s.ledger.db.infos;
            && (id in m ==> m[id].ID() == id && m[id].status in {NotProcessed, Accepted})
            && (id in m && m[id].status.Accepted? ==> id in infos)
            && (id in m && m[id].status.NotProcessed? && SomeUp(s.scanners) ==>
                  id in s.refused || exists i :: Holds(s.scanners, i, m[id]))
            && (id in infos ==>
                 id in m && infos[id].depositID == id && infos[id].deposit == m[id].(status := NotProcessed))
            && (id in infos && infos[id].status.WaitDecide? ==> OnItsWay(s, id))
  {
    RunTracked(c, meta, steps);
  }

  /** A scan in the pipeline is the store's scan for this scanner's coin: when the scanner has nothing left to send, the
      matches of the block are stored, the first deposit of an identifier winning, and the new ones are to be sent. */
  lemma ScanOutcome(c: Config, s: System, i: nat, block: CommonBlock)
    requires IsUp(s, i) && i < |c.coins| && s.scanners[i].loading == [] && s.scanners[i].pending == []
    requires SupportedCoin(c.coins[i]) && c.coins[i] in s.scan.scanMeta
    ensures var s', m := Next(c, s, ScanBlock(i, block)), s.scan.deposits;
            var found := Matches(block, c.coins[i], AsSet(s.scan.scanMeta[c.coins[i]]));
            && s' == s.(scan := s.scan.(deposits := s'.scan.deposits),
                        scanners := s.scanners[i := s.scanners[i].(pending := s'.scanners[i].pending)])
            && (forall d :: d in s'.scanners[i].pending <==>
                  d in found && d.ID() !in m && d.ID() in s'.scan.deposits && s'.scan.deposits[d.ID()] == d)
            && (forall d :: d in found ==> d.ID() in s'.scan.deposits)
            && (forall id :: id in m ==> id in s'.scan.deposits && s'.scan.deposits[id] == m[id])
            && (forall id :: id in s'.scan.deposits && id !in m ==> s'.scan.deposits[id] in found)
  {
    var m, found := s.scan.deposits, Matches(block, c.coins[i], AsSet(s.scan.scanMeta[c.coins[i]]));
    FreshExact(m, found);
    FoundIsNew(m, found, block, c.coins[i], AsSet(s.scan.scanMeta[c.coins[i]]));
    forall d | d in found ensures d.ID() in PushAll(m, found) {
      var k :| 0 <= k < |found| && found[k] == d;
      FirstExists(found, d.ID(), k);
      PushAllFirstWins(m, found, d.ID());
    }
    forall d | d in found && d.ID() !in m && PushAll(m, found)[d.ID()] == d ensures d in Fresh(m, found) {
      assert PushAll(m, found)[d.ID()] in Fresh(m, found);
    }
  }

  /** Watching an address of a registered coin appends it to the coin's list, unless it is there already; nothing else
      changes. */
  lemma WatchOutcome(c: Config, s: System, address: string, coin: string)
    ensures var s', meta := Next(c, s, WatchAddress(address, coin)), s.scan.scanMeta;
            if SupportedCoin(coin) && coin in meta && address !in meta[coin]
            then s' == s.(scan := s.scan.(scanMeta := s'.scan.scanMeta))
                 && s'.scan.scanMeta.Keys == meta.Keys && s'.scan.scanMeta[coin] == meta[coin] + [address]
                 && forall k :: k in meta && k != coin ==> s'.scan.scanMeta[k] == meta[k]
            else s' == s
  {
  }

  ghost function LedgerOps(c: Config, s: System, steps: seq<Step>): seq<Op> {
    if steps == [] then []
    else
      var init := steps[..|steps| - 1];
      var op := OpOf(RunSteps(c, s, init), steps[|steps| - 1]);
      LedgerOps(c, s, init) + if op.Some? then [op.value] else []
  }

  /** Every run of the pipeline performs a run of the exchange's ledger, so what is proved of ledger runs holds of the
      pipeline. */
  lemma {:induction false} PipelineRefinesLedger(c: Config, meta: map<string, seq<string>>, steps: seq<Step>)
    ensures RunSteps(c, Initial(c, meta), steps).ledger == Run(EMPTY, LedgerOps(c, Initial(c, meta), steps), c.key)
  {
    if steps != [] {
      var s0 := Initial(c, meta);
      var init := steps[..|steps| - 1];
      var s := RunSteps(c, s0, init);
      PipelineRefinesLedger(c, meta, init);
      RunTracked(c, meta, init);
      StepPerformsOp(c, s, steps[|steps| - 1]);
      var ops := LedgerOps(c, s0, init);
      var op := OpOf(s, steps[|steps| - 1]);
      if op.Some? {
        assert (ops + [op.value])[..|ops|] == ops;
      } else {
        assert LedgerOps(c, s0, steps) == ops;
      }
    }
  }
}

/**
 The deposit pipeline as a step machine: scanners push what they find through bounded channels, the multiplexer merges
 them, the receiver records each deposit and answers the scanner, the buy step credits the record. Any step may be
 followed by a crash, which drops everything that is not in a bucket. A step that is not enabled leaves the state as
 it is, so every list of steps is a run.
 */
module Pipeline {
  import opened Common
  import opened Deposits
  import opened ScanStore
  import opened Exchange
  import opened ExchangeLedger

  const OUT_CAPACITY := 1000   // the multiplexer's outChan
  const INFO_CAPACITY := 100   // the receiver's deposits channel

  datatype Config = Config(coins: seq<string>, bufferSize: nat, key: CompletionKey)

  /** What the pipe goroutine of a scanner is doing with the deposit it took from its channel. */
  datatype Pipe =
    | Idle
    | Offered(dv: Deposit)             // waiting to send on depositC
    | Handed(dv: Deposit)              // sent, waiting on ErrC
    | Answered(dv: Deposit, ok: bool)  // ErrC answered, not yet marked

  /** A scanner and its forwarding goroutine. loaded and handed are logs of this run. */
  datatype Scanner =
    | Down
    | Up(loading: seq<Deposit>,  // read at start-up, not yet queued
         pending: seq<Deposit>,  // returned by ScanBlock, not yet queued
         queue: seq<Deposit>,    // the scannedDeposits channel
         pipe: Pipe,
         mux: seq<Deposit>,      // received by the forwarding goroutine, not yet in outChan
         loaded: seq<Deposit>, handed: seq<Deposit>)

  datatype Note = Note(src: nat, dv: Deposit)

  datatype Stage =
    | Waiting
    | Received(note: Note)
    | Saved(note: Note, result: Option<DepositInfo>)
    | Forwarding(di: DepositInfo)

  datatype Receiver = Stopped | Running(reload: seq<DepositInfo>, stage: Stage)

  /** scan and ledger.db are the buckets; refused and failed name what was given up in this run; received is a log. */
  datatype System = System(scan: ScanDb, ledger: Ledger, scanners: seq<Scanner>, outChan: seq<Note>,
                           received: seq<Note>, receiver: Receiver, infoChan: seq<DepositInfo>,
                           buying: Option<DepositInfo>, refused: set<string>, failed: set<string>)

  datatype Step =
    | Start(i: nat)                        // GetUnprocessedDeposits
    | Load(i: nat)                         // loadUnprocessedDeposits queues one deposit
    | ScanBlock(i: nat, block: CommonBlock)
    | Push(i: nat)                         // scanBlock queues one deposit
    | Take(i: nat)
    | Hand(i: nat)
    | Forward(i: nat)
    | Receive
    | Save
    | Answer
    | Emit
    | Mark(i: nat)                         // SetDepositProcessed, or log the refusal
    | StartReceiver
    | Reload
    | BuyTake
    | BuyCredit
    | Crash
    | WatchAddress(address: string, coin: string)
    | BindKitty(kittyID: string, address: string, coin: string)
    | ChangePrice(kittyID: string, price: Price)

  ghost function WaitingOf(infos: map<string, DepositInfo>, ks: seq<string>): (dis: seq<DepositInfo>)
    requires forall k :: k in ks ==> k in infos
  {
    if ks == [] then []
    else
      var k := ks[|ks| - 1];
      WaitingOf(infos, ks[..|ks| - 1]) + if infos[k].status.WaitDecide? then [infos[k]] else []
  }

  /** GetDepositInfoArray for the records still in WaitDecide. */
  ghost function WaitDecideInfos(infos: map<string, DepositInfo>): (dis: seq<DepositInfo>) {
    WaitingOf(infos, KeysInOrder(infos.Keys))
  }

  lemma {:induction false} WaitingOfExact(infos: map<string, DepositInfo>, ks: seq<string>, di: DepositInfo)
    requires forall k :: k in ks ==> k in infos
    ensures di in WaitingOf(infos, ks) <==> exists k :: k in ks && infos[k] == di && di.status.WaitDecide?
  {
    if ks != [] {
      var n := |ks| - 1;
      WaitingOfExact(infos, ks[..n], di);
      assert forall k :: k in ks <==> k in ks[..n] || k == ks[n];
    }
  }

  /** The receiver's start-up list holds exactly the records still in WaitDecide. */
  lemma WaitDecideExact(infos: map<string, DepositInfo>, di: DepositInfo)
    ensures di in WaitDecideInfos(infos) <==> exists id :: id in infos && infos[id] == di && di.status.WaitDecide?
  {
    WaitingOfExact(infos, KeysInOrder(infos.Keys), di);
  }

  lemma {:induction false} WaitingOfInOrder(infos: map<string, DepositInfo>, ks: seq<string>)
    requires Ascending(ks) && forall k :: k in ks ==> k in infos && infos[k].depositID == k
    ensures forall i, j :: 0 <= i < j < |WaitingOf(infos, ks)| ==>
              Less(WaitingOf(infos, ks)[i].depositID, WaitingOf(infos, ks)[j].depositID)
    ensures forall di :: di in WaitingOf(infos, ks) ==> di.depositID in ks
  {
    if ks != [] {
      var init, k := ks[..|ks| - 1], ks[|ks| - 1];
      WaitingOfInOrder(infos, init);
      var before := WaitingOf(infos, init);
      forall i | 0 <= i < |before| ensures Less(before[i].depositID, k) {
        assert before[i] in before;
      }
    }
  }

  /** The list is in the order of the identifiers. */
  lemma WaitDecideInOrder(infos: map<string, DepositInfo>)
    requires forall id :: id in infos ==> infos[id].depositID == id
    ensures var dis := WaitDecideInfos(infos);
            forall i, j :: 0 <= i < j < |dis| ==> Less(dis[i].depositID, dis[j].depositID)
  {
    WaitingOfInOrder(infos, KeysInOrder(infos.Keys));
  }

  // The steps

  predicate IsUp(s: System, i: nat) {
    i < |s.scanners| && s.scanners[i].Up?
  }

  function SetScanner(s: System, i: nat, sc: Scanner): System
    requires i < |s.scanners|
  {
    s.(scanners := s.scanners[i := sc])
  }

  ghost function StartStep(s: System, i: nat): System {
    if i < |s.scanners| && s.scanners[i].Down? then
      var todo := Unprocessed(s.scan.deposits);
      SetScanner(s, i, Up(todo, [], [], Idle, [], todo, []))
    else s
  }

  function LoadStep(c: Config, s: System, i: nat): System {
    if IsUp(s, i) && s.scanners[i].loading != [] && |s.scanners[i].queue| < c.bufferSize then
      var sc := s.scanners[i];
      SetScanner(s, i, sc.(loading := sc.loading[1..], queue := sc.queue + [sc.loading[0]]))
    else s
  }

  function ScanStep(c: Config, s: System, i: nat, block: CommonBlock): System {
    if IsUp(s, i) && i < |c.coins| && s.scanners[i].loading == [] && s.scanners[i].pending == [] then
      (match Scan(s.scan, block, c.coins[i])
       case Ok((db, dvs)) => SetScanner(s.(scan := db), i, s.scanners[i].(pending := dvs))
       case Err(_) => s)
    else s
  }

  function PushStep(c: Config, s: System, i: nat): System {
    if IsUp(s, i) && s.scanners[i].pending != [] && |s.scanners[i].queue| < c.bufferSize then
      var sc := s.scanners[i];
      SetScanner(s, i, sc.(pending := sc.pending[1..], queue := sc.queue + [sc.pending[0]]))
    else s
  }

  function TakeStep(s: System, i: nat): System {
    if IsUp(s, i) && s.scanners[i].loading == [] && s.scanners[i].pipe.Idle? && s.scanners[i].queue != [] then
      var sc := s.scanners[i];
      SetScanner(s, i, sc.(queue := sc.queue[1..], pipe := Offered(sc.queue[0])))
    else s
  }

  function HandStep(s: System, i: nat): System {
    if IsUp(s, i) && s.scanners[i].pipe.Offered? && s.scanners[i].mux == [] then
      var sc := s.scanners[i];
      SetScanner(s, i, sc.(pipe := Handed(sc.pipe.dv), mux := [sc.pipe.dv], handed := sc.handed + [sc.pipe.dv]))
    else s
  }

  function ForwardStep(s: System, i: nat): System {
    if IsUp(s, i) && s.scanners[i].mux != [] && |s.outChan| < OUT_CAPACITY then
      var sc := s.scanners[i];
      SetScanner(s.(outChan := s.outChan + [Note(i, sc.mux[0])]), i, sc.(mux := sc.mux[1..]))
    else s
  }

  function ReceiveStep(s: System): System {
    if s.receiver.Running? && s.receiver.reload == [] && s.receiver.stage.Waiting? && s.outChan != [] then
      s.(outChan := s.outChan[1..], received := s.received + [s.outChan[0]],
         receiver := s.receiver.(stage := Received(s.outChan[0])))
    else s
  }

  function SaveStep(s: System): System {
    if s.receiver.Running? && s.receiver.stage.Received? then
      var note := s.receiver.stage.note;
      var result := match GetOrCreate(s.ledger.db, note.dv) case Ok((_, di)) => Some(di) case Err(_) => None;
      s.(ledger := DeliverTo(s.ledger, note.dv), receiver := s.receiver.(stage := Saved(note, result)))
    else s
  }

  function AnswerStep(s: System): System {
    if s.receiver.Running? && s.receiver.stage.Saved? then
      var note := s.receiver.stage.note;
      var result := s.receiver.stage.result;
      var next := s.(receiver := s.receiver.(stage := if result.Some? then Forwarding(result.value) else Waiting));
      if IsUp(s, note.src) && s.scanners[note.src].pipe.Handed? then
        SetScanner(next, note.src, s.scanners[note.src].(pipe := Answered(s.scanners[note.src].pipe.dv, result.Some?)))
      else next
    else s
  }

  function EmitStep(s: System): System {
    if s.receiver.Running? && s.receiver.stage.Forwarding? && |s.infoChan| < INFO_CAPACITY then
      s.(infoChan := s.infoChan + [s.receiver.stage.di], receiver := s.receiver.(stage := Waiting))
    else s
  }

  function MarkStep(s: System, i: nat): System {
    if IsUp(s, i) && s.scanners[i].pipe.Answered? then
      var sc := s.scanners[i];
      var id := sc.pipe.dv.ID();
      var idle := SetScanner(s, i, sc.(pipe := Idle));
      if sc.pipe.ok && Process(s.scan, id).Ok? then idle.(scan := Process(s.scan, id).value)
      else idle.(refused := s.refused + {id})
    else s
  }

  ghost function StartReceiverStep(s: System): System {
    if s.receiver.Stopped? then s.(receiver := Running(WaitDecideInfos(s.ledger.db.infos), Waiting)) else s
  }

  function ReloadStep(s: System): System {
    if s.receiver.Running? && s.receiver.reload != [] && |s.infoChan| < INFO_CAPACITY then
      s.(infoChan := s.infoChan + [s.receiver.reload[0]],
         receiver := s.receiver.(reload := s.receiver.reload[1..]))
    else s
  }

  function BuyTakeStep(s: System): System {
    if s.buying.None? && s.infoChan != [] then s.(buying := Some(s.infoChan[0]), infoChan := s.infoChan[1..]) else s
  }

  function BuyCreditStep(c: Config, s: System): System {
    if s.buying.Some? then
      var di := s.buying.value;
      s.(buying := None, ledger := DecideOn(s.ledger, di, c.key),
         failed := if UpdateStatus(s.ledger.db, di, c.key).Ok? then s.failed else s.failed + {di.depositID})
    else s
  }

  function CrashStep(s: System): System {
    System(s.scan, s.ledger, seq(|s.scanners|, i => Down), [], [], Stopped, [], None, {}, {})
  }

  function WatchStep(s: System, address: string, coin: string): System {
    match AddAddress(s.scan, address, coin) case Ok(db) => s.(scan := db) case Err(_) => s
  }

  ghost function Next(c: Config, s: System, step: Step): System {
    match step
    case Start(i) => StartStep(s, i)
    case Load(i) => LoadStep(c, s, i)
    case ScanBlock(i, block) => ScanStep(c, s, i, block)
    case Push(i) => PushStep(c, s, i)
    case Take(i) => TakeStep(s, i)
    case Hand(i) => HandStep(s, i)
    case Forward(i) => ForwardStep(s, i)
    case Receive => ReceiveStep(s)
    case Save => SaveStep(s)
    case Answer => AnswerStep(s)
    case Emit => EmitStep(s)
    case Mark(i) => MarkStep(s, i)
    case StartReceiver => StartReceiverStep(s)
    case Reload => ReloadStep(s)
    case BuyTake => BuyTakeStep(s)
    case BuyCredit => BuyCreditStep(c, s)
    case Crash => CrashStep(s)
    case WatchAddress(address, coin) => WatchStep(s, address, coin)
    case BindKitty(kittyID, address, coin) => s.(ledger := BindTo(s.ledger, kittyID, address, coin))
    case ChangePrice(kittyID, price) => s.(ledger := SetPriceOf(s.ledger, kittyID, price))
  }

  ghost function RunSteps(c: Config, s: System, steps: seq<Step>): System {
    if steps == [] then s else Next(c, RunSteps(c, s, steps[..|steps| - 1]), steps[|steps| - 1])
  }

  /** A new installation: empty buckets, nothing running. */
  function Initial(c: Config, scanMeta: map<string, seq<string>>): System {
    System(ScanDb(scanMeta, map[]), EMPTY, seq(|c.coins|, i => Down), [], [], Stopped, [], None, {}, {})
  }
}

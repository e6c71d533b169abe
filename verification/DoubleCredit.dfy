/**
 A run of the pipeline in which one coin pays twice. Both scanners work on one bucket and load what is not processed
 without looking at the coin, so after a crash each of them hands on the same deposit; it is saved twice, recorded
 once, and credited twice.
 */
module DoubleCredit {
  import opened Common
  import opened Deposits
  import opened ScanStore
  import opened Exchange
  import opened ExchangeLedger
  import L = LedgerRuns
  import opened Pipeline

  const COIN := Deposit(COIN_SKY, "a", 1, 1, "t", 0, NotProcessed)
  const BLOCK := CommonBlock(1, "h", "", [CommonTx("t", [CommonVout(1, 0, ["a"])])])
  const NO_ADDRESSES: map<string, seq<string>> := map[COIN_BTC := [], COIN_SKY := []]
  const WATCHED := ScanDb(map[COIN_BTC := [], COIN_SKY := ["a"]], map[COIN.ID() := COIN])

  function TwoScanners(key: CompletionKey): Config {
    Config([COIN_BTC, COIN_SKY], 1, key)
  }

  // The exchange's states

  function Bound(p: int64): Ledger {
    Ledger(Db(map[], 0, map[], map[], map[(COIN_SKY, "a") := BoundAddress("k", "a", COIN_SKY)],
        map["k" := Price(p, p)]), [])
  }

  const RECORD := NewInfo(COIN, "k").(seq_ := 1)
  const CREDIT := Entry("a", COIN.ID(), 1)

  /** After the recording and the given number of credits. */
  function Paid(p: int64, n: int64, status: Status, credits: seq<Entry>): Ledger {
    Ledger(Bound(p).db.(infos := map[COIN.ID() := RECORD.(status := status)], lastSeq := 1,
        txs := map["a" := [COIN.ID()]],
                        tracks := map["a" := DepositTrack(n, "k", p)]), credits)
  }

  lemma Recording(p: int64)
    ensures DeliverTo(Bound(p), COIN) == Paid(p, 0, WaitDecide, [])
    ensures GetOrCreate(Bound(p).db, COIN) == Ok((Paid(p, 0, WaitDecide, []).db, RECORD))
  {
    assert RECORD.(status := WaitDecide) == RECORD;
    var db := GetOrCreate(Bound(p).db, COIN).value.0;
    assert db.infos == Paid(p, 0, WaitDecide, []).db.infos;
    assert [] + [COIN.ID()] == [COIN.ID()];
    assert db.txs == map["a" := [COIN.ID()]];
    assert db.tracks == map["a" := DepositTrack(0, "k", p)];
  }

  lemma RecordingAgain(p: int64)
    ensures GetOrCreate(Paid(p, 0, WaitDecide, []).db, COIN) == Ok((Paid(p, 0, WaitDecide, []).db, RECORD))
  {
  }

  /** The status a credit leaves when it makes the amount n. */
  function StatusAt(p: int64, n: int64): Status {
    if n < p then WaitPartial else WaitSend
  }

  lemma Crediting(p: int64, n: int64, status: Status, credits: seq<Entry>, key: CompletionKey)
    requires 0 <= n < 2 && (n + 1 < p || key.Intended?)
    ensures UpdateStatus(Paid(p, n, status, credits).db, RECORD, key).Ok?
    ensures DecideOn(Paid(p, n, status, credits), RECORD, key) == Paid(p, n + 1, StatusAt(p, n + 1), credits + [CREDIT])
  {
    hide UpdateStatus, Credit;
    var db := Paid(p, n, status, credits).db;
    DecideCases(db, RECORD, key);
    var db' := UpdateStatus(db, RECORD, key).value.0;
    assert db.infos[COIN.ID()].(status := WaitPartial) == RECORD.(status := WaitPartial);
    assert db'.infos == map[COIN.ID() := RECORD.(status := StatusAt(p, n + 1))];
    assert db'.tracks == map["a" := DepositTrack(n + 1, "k", p)];
  }

  // The pipeline's states

  function At(l: Ledger, first: Scanner, second: Scanner, outChan: seq<Note>, received: seq<Note>, receiver: Receiver,
              infoChan: seq<DepositInfo>, buying: Option<DepositInfo>): System
  {
    System(WATCHED, l, [first, second], outChan, received, receiver, infoChan, buying, {}, {})
  }

  const LOADING := Up([COIN], [], [], Idle, [], [COIN], [])
  const QUEUED := Up([], [], [COIN], Idle, [], [COIN], [])
  const OFFERED := Up([], [], [], Offered(COIN), [], [COIN], [])
  const HANDED := Up([], [], [], Handed(COIN), [COIN], [COIN], [COIN])
  const FORWARDED := Up([], [], [], Handed(COIN), [], [COIN], [COIN])
  const ANSWERED := Up([], [], [], Answered(COIN, true), [], [COIN], [COIN])

  const FIRST := Note(0, COIN)
  const SECOND := Note(1, COIN)

  lemma {:induction false} RunConcat(c: Config, s: System, a: seq<Step>, b: seq<Step>)
    ensures RunSteps(c, s, a + b) == RunSteps(c, RunSteps(c, s, a), b)
  {
    if b == [] {
      assert a + b == a;
    } else {
      RunConcat(c, s, a, b[..|b| - 1]);
      assert (a + b)[..|a + b| - 1] == a + b[..|b| - 1];
    }
  }

  lemma RunOne(c: Config, s: System, x: Step)
    ensures RunSteps(c, s, [x]) == Next(c, s, x)
  {
    assert [x][..0] == [];
  }

  lemma RunPair(c: Config, s: System, x: Step, y: Step)
    ensures RunSteps(c, s, [x, y]) == Next(c, Next(c, s, x), y)
  {
    RunOne(c, s, x);
    assert [x, y][..1] == [x];
  }

  lemma OneUnprocessed()
    ensures Unprocessed(WATCHED.deposits) == [COIN] && Unprocessed(map[]) == []
  {
    var id := COIN.ID();
    assert WATCHED.deposits.Keys == {id} && IsLeast(id, {id});
    KeysInOrderStep({id}, id);
    assert {id} - {id} == {};
    assert KeysInOrder({id}) == [id] + [] == [id];
    assert [id][..0] == [];
    assert UnprocessedOf(WATCHED.deposits, []) == [];
    assert UnprocessedOf(WATCHED.deposits, [id]) == [] + [COIN];
  }

  lemma CoinIsFound(tx: CommonTx, v: CommonVout)
    requires BLOCK.rawTx == [tx] && tx.vout == [v] && v.addresses == ["a"]
    ensures Matches(BLOCK, COIN_SKY, {"a"}) == [COIN]
  {
    assert ["a"][..0] == [] && [v][..0] == [] && [tx][..0] == [];
    assert MatchAddresses(BLOCK, COIN_SKY, {"a"}, tx, v, ["a"]) == [] + [COIN];
    assert MatchOuts(BLOCK, COIN_SKY, {"a"}, tx, [v]) == [] + [COIN];
  }

  lemma PushOne(d: Deposit)
    ensures PushAll(map[], [d]) == map[d.ID() := d] && Fresh(map[], [d]) == [d]
  {
    assert [d][..0] == [];
  }

  lemma BlockIsScanned(db: ScanDb)
    requires db == ScanDb(WATCHED.scanMeta, map[])
    ensures Scan(db, BLOCK, COIN_SKY) == Ok((WATCHED, [COIN]))
  {
    assert AsSet(["a"]) == {"a"};
    CoinIsFound(BLOCK.rawTx[0], BLOCK.rawTx[0].vout[0]);
    PushOne(COIN);
  }

  const STAGES := 12

  /** The state before each pair of steps, and after the last. */
  function Stage(p: int64, k: nat): System
    requires k <= STAGES
  {
    match k
    case 0 => At(Bound(p), Down, Down, [], [], Stopped, [], None)
    case 1 => At(Bound(p), LOADING, LOADING, [], [], Stopped, [], None)
    case 2 => At(Bound(p), QUEUED, QUEUED, [], [], Stopped, [], None)
    case 3 => At(Bound(p), OFFERED, OFFERED, [], [], Stopped, [], None)
    case 4 => At(Bound(p), HANDED, HANDED, [], [], Stopped, [], None)
    case 5 => At(Bound(p), FORWARDED, FORWARDED, [FIRST, SECOND], [], Stopped, [], None)
    case 6 => At(Bound(p), FORWARDED, FORWARDED, [SECOND], [FIRST], Running([], Received(FIRST)), [], None)
    case 7 => At(Paid(p, 0, WaitDecide, []), ANSWERED, FORWARDED, [SECOND], [FIRST], Running([], Forwarding(RECORD)),
         [], None)
    case 8 => At(Paid(p, 0, WaitDecide, []), ANSWERED, FORWARDED, [], [FIRST, SECOND], Running([], Received(SECOND)),
         [RECORD], None)
    case 9 => At(Paid(p, 0, WaitDecide, []), ANSWERED, ANSWERED, [], [FIRST, SECOND],
         Running([], Forwarding(RECORD)), [RECORD], None)
    case 10 => At(Paid(p, 0, WaitDecide, []), ANSWERED, ANSWERED, [], [FIRST, SECOND], Running([], Waiting),
         [RECORD], Some(RECORD))
    case 11 => At(Paid(p, 1, WaitPartial, [CREDIT]), ANSWERED, ANSWERED, [], [FIRST, SECOND], Running([], Waiting),
         [], Some(RECORD))
    case _ => At(Paid(p, 2, StatusAt(p, 2), [CREDIT, CREDIT]), ANSWERED, ANSWERED, [], [FIRST, SECOND],
         Running([], Waiting), [], None)
  }

  function Steps(k: nat): seq<Step>
    requires k < STAGES
  {
    match k
    case 0 => [Start(0), Start(1)]
    case 1 => [Load(0), Load(1)]
    case 2 => [Take(0), Take(1)]
    case 3 => [Hand(0), Hand(1)]
    case 4 => [Forward(0), Forward(1)]
    case 5 => [StartReceiver, Receive]
    case 6 => [Save, Answer]
    case 7 => [Emit, Receive]
    case 8 => [Save, Answer]
    case 9 => [Emit, BuyTake]
    case 10 => [BuyCredit, BuyTake]
    case _ => [BuyCredit, BuyTake]
  }

  lemma BothStart(c: Config, p: int64)
    ensures RunSteps(c, Stage(p, 0), Steps(0)) == Stage(p, 1)
  {
    hide RunSteps;
    RunPair(c, Stage(p, 0), Start(0), Start(1));
    SetBoth(Stage(p, 0), LOADING, LOADING);
    OneUnprocessed();
  }

  lemma BothLoad(c: Config, p: int64)
    requires c.bufferSize == 1
    ensures RunSteps(c, Stage(p, 1), Steps(1)) == Stage(p, 2)
  {
    hide RunSteps;
    RunPair(c, Stage(p, 1), Load(0), Load(1));
    SetBoth(Stage(p, 1), QUEUED, QUEUED);
    assert [] + [COIN] == [COIN] && [COIN][1..] == [];
  }

  lemma BothTake(c: Config, p: int64)
    ensures RunSteps(c, Stage(p, 2), Steps(2)) == Stage(p, 3)
  {
    hide RunSteps;
    RunPair(c, Stage(p, 2), Take(0), Take(1));
    SetBoth(Stage(p, 2), OFFERED, OFFERED);
    assert [COIN][1..] == [];
  }

  lemma BothHand(c: Config, p: int64)
    ensures RunSteps(c, Stage(p, 3), Steps(3)) == Stage(p, 4)
  {
    hide RunSteps;
    RunPair(c, Stage(p, 3), Hand(0), Hand(1));
    SetBoth(Stage(p, 3), HANDED, HANDED);
    assert [] + [COIN] == [COIN];
  }

  lemma ForwardBoth(c: Config, s: System)
    requires s.scanners == [HANDED, HANDED] && s.outChan == []
    ensures RunSteps(c, s, [Forward(0), Forward(1)]) ==
            s.(outChan := [FIRST, SECOND], scanners := [FORWARDED, FORWARDED])
  {
    hide RunSteps;
    RunPair(c, s, Forward(0), Forward(1));
    assert [COIN][1..] == [] && [] + [FIRST] == [FIRST] && [FIRST] + [SECOND] == [FIRST, SECOND];
    SetBoth(s.(outChan := [FIRST, SECOND]), FORWARDED, FORWARDED);
  }

  lemma BothForward(c: Config, p: int64)
    ensures RunSteps(c, Stage(p, 4), Steps(4)) == Stage(p, 5)
  {
    hide RunSteps;
    ForwardBoth(c, Stage(p, 4));
  }

  lemma FirstReceived(c: Config, p: int64)
    ensures RunSteps(c, Stage(p, 5), Steps(5)) == Stage(p, 6)
  {
    hide RunSteps;
    RunPair(c, Stage(p, 5), StartReceiver, Receive);
  }

  lemma SetBoth(s: System, x: Scanner, y: Scanner)
    requires |s.scanners| == 2
    ensures SetScanner(SetScanner(s, 0, x), 1, y) == s.(scanners := [x, y])
  {
    assert s.scanners[0 := x][1 := y] == [x, y];
  }

  // Pairs of steps of receiver and buyer, in any state

  lemma SaveAndAnswer(c: Config, s: System, note: Note, db: Db, di: DepositInfo)
    requires s.receiver == Running([], Received(note)) && GetOrCreate(s.ledger.db, note.dv) == Ok((db, di))
    requires IsUp(s, note.src) && s.scanners[note.src].pipe == Handed(note.dv)
    ensures RunSteps(c, s, [Save, Answer]) ==
            SetScanner(s.(ledger := s.ledger.(db := db), receiver := Running([], Forwarding(di))), note.src,
                       s.scanners[note.src].(pipe := Answered(note.dv, true)))
  {
    hide RunSteps;
    RunPair(c, s, Save, Answer);
  }

  lemma EmitAndReceive(c: Config, s: System, di: DepositInfo, note: Note)
    requires s.receiver == Running([], Forwarding(di)) && s.infoChan == [] && s.outChan == [note]
    ensures RunSteps(c, s, [Emit, Receive]) ==
            s.(infoChan := [di], outChan := [], received := s.received + [note],
                receiver := Running([], Received(note)))
  {
    hide RunSteps;
    RunPair(c, s, Emit, Receive);
    assert [] + [di] == [di] && [note][1..] == [];
  }

  lemma EmitAndTake(c: Config, s: System, di: DepositInfo, first: DepositInfo)
    requires s.receiver == Running([], Forwarding(di)) && s.infoChan == [first] && s.buying.None?
    ensures RunSteps(c, s, [Emit, BuyTake]) ==
            s.(infoChan := [di], receiver := Running([], Waiting), buying := Some(first))
  {
    hide RunSteps;
    RunPair(c, s, Emit, BuyTake);
    assert ([first] + [di])[1..] == [di];
  }

  lemma CreditAndTake(c: Config, s: System, di: DepositInfo)
    requires s.buying == Some(di) && UpdateStatus(s.ledger.db, di, c.key).Ok?
    ensures RunSteps(c, s, [BuyCredit, BuyTake]) ==
            s.(ledger := DecideOn(s.ledger, di, c.key), buying := if s.infoChan == [] then None
                else Some(s.infoChan[0]),
               infoChan := if s.infoChan == [] then [] else s.infoChan[1..])
  {
    hide RunSteps;
    RunPair(c, s, BuyCredit, BuyTake);
  }

  lemma FirstSaved(c: Config, p: int64)
    ensures RunSteps(c, Stage(p, 6), Steps(6)) == Stage(p, 7)
  {
    Recording(p);
    SaveAndAnswer(c, Stage(p, 6), FIRST, Paid(p, 0, WaitDecide, []).db, RECORD);
  }

  lemma SecondReceived(c: Config, p: int64)
    ensures RunSteps(c, Stage(p, 7), Steps(7)) == Stage(p, 8)
  {
    EmitAndReceive(c, Stage(p, 7), RECORD, SECOND);
  }

  lemma SecondSaved(c: Config, p: int64)
    ensures RunSteps(c, Stage(p, 8), Steps(8)) == Stage(p, 9)
  {
    RecordingAgain(p);
    SaveAndAnswer(c, Stage(p, 8), SECOND, Paid(p, 0, WaitDecide, []).db, RECORD);
  }

  lemma SecondForwarded(c: Config, p: int64)
    ensures RunSteps(c, Stage(p, 9), Steps(9)) == Stage(p, 10)
  {
    EmitAndTake(c, Stage(p, 9), RECORD, RECORD);
  }

  lemma FirstCredited(c: Config, p: int64)
    requires p > 1
    ensures RunSteps(c, Stage(p, 10), Steps(10)) == Stage(p, 11)
  {
    assert [] + [CREDIT] == [CREDIT];
    Crediting(p, 0, WaitDecide, [], c.key);
    CreditAndTake(c, Stage(p, 10), RECORD);
  }

  lemma SecondCredited(c: Config, p: int64)
    requires p > 2 || (p == 2 && c.key.Intended?)
    ensures RunSteps(c, Stage(p, 11), Steps(11)) == Stage(p, 12)
  {
    assert [CREDIT] + [CREDIT] == [CREDIT, CREDIT];
    Crediting(p, 1, WaitPartial, [CREDIT], c.key);
    CreditAndTake(c, Stage(p, 11), RECORD);
  }

  lemma ScannersAdvance(c: Config, p: int64, k: nat)
    requires c.bufferSize == 1 && k < 6
    ensures RunSteps(c, Stage(p, k), Steps(k)) == Stage(p, k + 1)
  {
    match k
    case 0 => BothStart(c, p);
    case 1 => BothLoad(c, p);
    case 2 => BothTake(c, p);
    case 3 => BothHand(c, p);
    case 4 => BothForward(c, p);
    case _ => FirstReceived(c, p);
  }

  lemma ReceiverAdvances(c: Config, p: int64, k: nat)
    requires 6 <= k < STAGES && (p > 2 || (p == 2 && c.key.Intended?))
    ensures RunSteps(c, Stage(p, k), Steps(k)) == Stage(p, k + 1)
  {
    match k
    case 6 => FirstSaved(c, p);
    case 7 => SecondReceived(c, p);
    case 8 => SecondSaved(c, p);
    case 9 => SecondForwarded(c, p);
    case 10 => FirstCredited(c, p);
    case _ => SecondCredited(c, p);
  }

  /** The first k pairs of steps. */
  function Path(k: nat): seq<Step>
    requires k <= STAGES
  {
    if k == 0 then [] else Path(k - 1) + Steps(k - 1)
  }

  lemma {:induction false} Reaches(c: Config, p: int64, k: nat)
    requires c.bufferSize == 1 && k <= STAGES && (p > 2 || (p == 2 && c.key.Intended?))
    ensures RunSteps(c, Stage(p, 0), Path(k)) == Stage(p, k)
  {
    if k > 0 {
      Reaches(c, p, k - 1);
      RunConcat(c, Stage(p, 0), Path(k - 1), Steps(k - 1));
      if k - 1 < 6 { ScannersAdvance(c, p, k - 1); } else { ReceiverAdvances(c, p, k - 1); }
    }
  }

  // From a new installation

  /** An address is watched and bound, its box gets a price, a block with the coin is scanned, and the process
      crashes. */
  function Setup(p: int64): seq<Step> {
    [WatchAddress("a", COIN_SKY), BindKitty("k", "a", COIN_SKY)] +
    [ChangePrice("k", Price(p, p)), Start(1)] + [ScanBlock(1, BLOCK), Crash]
  }

  const UNSCANNED := ScanDb(WATCHED.scanMeta, map[])
  const WAITING := Up([], [], [], Idle, [], [], [])

  lemma AddressBound(c: Config, s: System)
    requires s.scan == ScanDb(NO_ADDRESSES, map[]) && s.ledger == EMPTY
    ensures RunSteps(c, s, [WatchAddress("a", COIN_SKY), BindKitty("k", "a", COIN_SKY)]) ==
            s.(scan := UNSCANNED, ledger := s.ledger.(db := Bound(0).db.(prices := map[])))
  {
    hide RunSteps;
    RunPair(c, s, WatchAddress("a", COIN_SKY), BindKitty("k", "a", COIN_SKY));
    assert [] + ["a"] == ["a"];
    assert NO_ADDRESSES[COIN_SKY := ["a"]] == WATCHED.scanMeta;
    assert EMPTY.db.binds[(COIN_SKY, "a") := BoundAddress("k", "a", COIN_SKY)] == Bound(0).db.binds;
  }

  lemma PriceSet(c: Config, s: System, p: int64)
    requires s.scan == UNSCANNED && s.ledger.db == Bound(0).db.(prices := map[]) && s.scanners == [Down, Down]
             && s.ledger.credits == []
    ensures RunSteps(c, s, [ChangePrice("k", Price(p, p)), Start(1)]) ==
            s.(ledger := Bound(p), scanners := [Down, WAITING])
  {
    hide RunSteps;
    RunPair(c, s, ChangePrice("k", Price(p, p)), Start(1));
    OneUnprocessed();
    assert s.scanners[1 := WAITING] == [Down, WAITING];
  }

  lemma ScannedAndCrashed(c: Config, s: System)
    requires s.scan == UNSCANNED && s.scanners == [Down, WAITING] && c.coins == [COIN_BTC, COIN_SKY]
    ensures RunSteps(c, s, [ScanBlock(1, BLOCK), Crash]) ==
            System(WATCHED, s.ledger, [Down, Down], [], [], Stopped, [], None, {}, {})
  {
    hide RunSteps;
    RunPair(c, s, ScanBlock(1, BLOCK), Crash);
    BlockScanned(c, s);
    Crashed(ScanStep(c, s, 1, BLOCK));
  }

  lemma BlockScanned(c: Config, s: System)
    requires s.scan == UNSCANNED && s.scanners == [Down, WAITING] && c.coins == [COIN_BTC, COIN_SKY]
    ensures ScanStep(c, s, 1, BLOCK).scan == WATCHED && ScanStep(c, s, 1, BLOCK).ledger == s.ledger
    ensures |ScanStep(c, s, 1, BLOCK).scanners| == 2
  {
    BlockIsScanned(s.scan);
  }

  lemma Crashed(s: System)
    requires |s.scanners| == 2
    ensures CrashStep(s) == System(s.scan, s.ledger, [Down, Down], [], [], Stopped, [], None, {}, {})
  {
    assert seq(2, i => Down) == [Down, Down];
  }

  lemma SetUp(c: Config, p: int64)
    requires c.coins == [COIN_BTC, COIN_SKY]
    ensures RunSteps(c, Initial(c, NO_ADDRESSES), Setup(p)) == Stage(p, 0)
  {
    var s := Initial(c, NO_ADDRESSES);
    var a, b, d := Setup(p)[..2], Setup(p)[2..4], Setup(p)[4..];
    assert Setup(p) == a + b + d;
    assert s.scanners == [Down, Down];
    AddressBound(c, s);
    RunConcat(c, s, a, b);
    PriceSet(c, RunSteps(c, s, a), p);
    RunConcat(c, s, a + b, d);
    ScannedAndCrashed(c, RunSteps(c, s, a + b));
  }

  lemma PaidTwice(p: int64, l: Ledger)
    requires p >= 2 && l == Paid(p, 2, StatusAt(p, 2), [CREDIT, CREDIT])
    ensures && l.db.infos.Keys == {COIN.ID()} && l.db.txs == map["a" := [COIN.ID()]]
            && l.credits == [CREDIT, CREDIT] && l.db.tracks == map["a" := DepositTrack(2, "k", p)]
            && L.LeftValue(l.db.infos, l.db.txs["a"]) == 1
            && (l.db.infos[COIN.ID()].status.WaitSend? <==> p == 2)
  {
    assert [COIN.ID()][..0] == [];
  }

  /** A deposit of 1 is recorded once and credited twice, whichever key completes a payment. At a price of 2 its
      record is released although the records of the address add up to 1. */
  lemma OneCoinPaysTwice(key: CompletionKey, p: int64)
    requires p > 2 || (p == 2 && key.Intended?)
    ensures var c := TwoScanners(key);
            var l := RunSteps(c, Initial(c, NO_ADDRESSES), Setup(p) + Path(STAGES)).ledger;
            && l.db.infos.Keys == {COIN.ID()} && l.db.txs == map["a" := [COIN.ID()]]
            && l.credits == [CREDIT, CREDIT] && l.db.tracks == map["a" := DepositTrack(2, "k", p)]
            && L.LeftValue(l.db.infos, l.db.txs["a"]) == 1
            && (l.db.infos[COIN.ID()].status.WaitSend? <==> p == 2)
  {
    var c := TwoScanners(key);
    SetUp(c, p);
    RunConcat(c, Initial(c, NO_ADDRESSES), Setup(p), Path(STAGES));
    Reaches(c, p, STAGES);
    PaidTwice(p, RunSteps(c, Initial(c, NO_ADDRESSES), Setup(p) + Path(STAGES)).ledger);
  }
}

/**
 How often a record is credited over whole runs of the pipeline: at most as often as its deposit was saved. With two
 scanners on one bucket a deposit can be saved, and credited, twice.
 */
module PipelineCredits {
  import opened Common
  import opened Deposits
  import opened ScanStore
  import opened Exchange
  import opened ExchangeLedger
  import L = LedgerRuns
  import opened Pipeline
  import opened PipelineSafety
  import opened PipelineRuns

  // Credits that are still to come

  function CountIn(dis: seq<DepositInfo>, id: string): nat {
    if dis == [] then 0
    else CountIn(dis[..|dis| - 1], id) + if dis[|dis| - 1].depositID == id then 1 else 0
  }

  function InReceiver(r: Receiver, id: string): nat {
    if r.Running? then CountIn(r.reload, id) + if AtStage(r, id) then 1 else 0 else 0
  }

  /** How often the record is on its way to the buy step. */
  function Pending(s: System, id: string): nat {
    InReceiver(s.receiver, id) + CountIn(s.infoChan, id) +
    if s.buying.Some? && s.buying.value.depositID == id then 1 else 0
  }

  predicate SavesNow(s: System, step: Step, id: string) {
    step.Save? && s.receiver.Running? && s.receiver.stage.Received? && s.receiver.stage.note.dv.ID() == id
  }

  /** How often a run saves the deposit, repeats included. */
  ghost function Saves(c: Config, s: System, steps: seq<Step>, id: string): nat {
    if steps == [] then 0
    else
      var init := steps[..|steps| - 1];
      Saves(c, s, init, id) + if SavesNow(RunSteps(c, s, init), steps[|steps| - 1], id) then 1 else 0
  }

  /** With n saves so far; a stopped receiver has left nothing behind. */
  predicate Budget(s: System, id: string, n: nat) {
    && Pending(s, id) + TimesCredited(s.ledger.credits, id) <= n
    && (id in s.ledger.db.infos ==> n >= 1)
    && (s.receiver.Stopped? ==> s.infoChan == [] && s.buying.None?)
  }

  lemma {:induction false} CountConcat(a: seq<DepositInfo>, b: seq<DepositInfo>, id: string)
    ensures CountIn(a + b, id) == CountIn(a, id) + CountIn(b, id)
  {
    if b == [] {
      assert a + b == a;
    } else {
      CountConcat(a, b[..|b| - 1], id);
      assert (a + b)[..|a + b| - 1] == a + b[..|b| - 1];
    }
  }

  lemma CountOne(di: DepositInfo, id: string)
    ensures CountIn([di], id) == if di.depositID == id then 1 else 0
  {
    assert [di][..0] == [];
  }

  lemma CountHead(dis: seq<DepositInfo>, id: string)
    requires dis != []
    ensures CountIn(dis, id) == CountIn(dis[1..], id) + if dis[0].depositID == id then 1 else 0
  {
    CountConcat([dis[0]], dis[1..], id);
    CountOne(dis[0], id);
    assert dis == [dis[0]] + dis[1..];
  }

  lemma CountAppend(dis: seq<DepositInfo>, di: DepositInfo, id: string)
    ensures CountIn(dis + [di], id) == CountIn(dis, id) + if di.depositID == id then 1 else 0
  {
    CountConcat(dis, [di], id);
    CountOne(di, id);
  }

  /** The reload list names a record once, and only while it is WaitDecide. */
  lemma {:induction false} CountWaiting(infos: map<string, DepositInfo>, ks: seq<string>, id: string)
    requires L.Distinct(ks) && forall k :: k in ks ==> k in infos && infos[k].depositID == k
    ensures CountIn(WaitingOf(infos, ks), id) == if id in ks && infos[id].status.WaitDecide? then 1 else 0
  {
    if ks != [] {
      var n := |ks| - 1;
      CountWaiting(infos, ks[..n], id);
      assert id in ks <==> id in ks[..n] || id == ks[n];
      if infos[ks[n]].status.WaitDecide? {
        CountAppend(WaitingOf(infos, ks[..n]), infos[ks[n]], id);
      } else {
        assert WaitingOf(infos, ks) == WaitingOf(infos, ks[..n]);
      }
    }
  }

  // The steps

  lemma SaveBudget(s: System, id: string, n: nat)
    requires Budget(s, id, n) && BindsKeyed(s.ledger.db) && InfosKeyed(s.ledger.db)
    ensures Budget(SaveStep(s), id, n + if SavesNow(s, Save, id) then 1 else 0)
  {
    if s.receiver.Running? && s.receiver.stage.Received? {
      DeliverOutcome(s.ledger.db, s.receiver.stage.note.dv);
    }
  }

  lemma AnswerBudget(s: System, id: string, n: nat)
    requires Budget(s, id, n)
    ensures Budget(AnswerStep(s), id, n)
  {
  }

  lemma EmitBudget(s: System, id: string, n: nat)
    requires Budget(s, id, n)
    ensures Budget(EmitStep(s), id, n)
  {
    if EmitStep(s) != s {
      CountAppend(s.infoChan, s.receiver.stage.di, id);
    }
  }

  lemma ReloadBudget(s: System, id: string, n: nat)
    requires Budget(s, id, n)
    ensures Budget(ReloadStep(s), id, n)
  {
    if ReloadStep(s) != s {
      CountHead(s.receiver.reload, id);
      CountAppend(s.infoChan, s.receiver.reload[0], id);
    }
  }

  lemma StartReceiverBudget(s: System, id: string, n: nat)
    requires Budget(s, id, n) && InfosKeyed(s.ledger.db) && CreditsRecorded(s.ledger)
    ensures Budget(StartReceiverStep(s), id, n)
  {
    if s.receiver.Stopped? {
      var infos := s.ledger.db.infos;
      L.KeysDistinct(KeysInOrder(infos.Keys));
      CountWaiting(infos, KeysInOrder(infos.Keys), id);
    }
  }

  lemma BuyTakeBudget(s: System, id: string, n: nat)
    requires Budget(s, id, n)
    ensures Budget(BuyTakeStep(s), id, n)
  {
    if BuyTakeStep(s) != s {
      CountHead(s.infoChan, id);
    }
  }

  lemma CreditOnce(l: Ledger, di: DepositInfo, key: CompletionKey, id: string)
    ensures TimesCredited(DecideOn(l, di, key).credits, id) <=
            TimesCredited(l.credits, id) + if di.depositID == id then 1 else 0
  {
    var e := Entry(di.depositAddress, di.depositID, di.depositValue);
    assert (l.credits + [e])[..|l.credits|] == l.credits;
  }

  lemma BuyCreditBudget(c: Config, s: System, id: string, n: nat)
    requires Budget(s, id, n) && QueuesKnown(s) && Inv(s.ledger)
    ensures Budget(BuyCreditStep(c, s), id, n)
  {
    if s.buying.Some? {
      CreditOnce(s.ledger, s.buying.value, c.key, id);
      CreditGrows(s.ledger, s.buying.value, c.key);
    }
  }

  lemma ReceiveBudget(s: System, id: string, n: nat)
    requires Budget(s, id, n)
    ensures Budget(ReceiveStep(s), id, n) && Budget(CrashStep(s), id, n)
  {
  }

  /** Steps that touch neither the way to the buy step nor records and credits. */
  lemma BudgetFrame(s: System, s': System, id: string, n: nat)
    requires Budget(s, id, n)
    requires s'.receiver == s.receiver && s'.infoChan == s.infoChan && s'.buying == s.buying
    requires s'.ledger.credits == s.ledger.credits && s'.ledger.db.infos == s.ledger.db.infos
    ensures Budget(s', id, n)
  {
  }

  lemma ScannerBudget(c: Config, s: System, step: Step, id: string, n: nat)
    requires Budget(s, id, n) && ScannerStep(step)
    ensures Budget(Next(c, s, step), id, n)
  {
    ScannerStepFrame(c, s, step);
    BudgetFrame(s, Next(c, s, step), id, n);
  }

  lemma OutsideBudget(c: Config, s: System, step: Step, id: string, n: nat)
    requires Budget(s, id, n) && (step.WatchAddress? || step.BindKitty? || step.ChangePrice?)
    ensures Budget(Next(c, s, step), id, n)
  {
    BudgetFrame(s, Next(c, s, step), id, n);
  }

  lemma StepBudget(c: Config, s: System, step: Step, id: string, n: nat)
    requires Budget(s, id, n) && QueuesKnown(s) && Inv(s.ledger)
    ensures Budget(Next(c, s, step), id, n + if SavesNow(s, step, id) then 1 else 0)
  {
    if ScannerStep(step) {
      ScannerBudget(c, s, step, id, n);
    } else {
      match step
      case Save => SaveBudget(s, id, n);
      case BuyCredit => BuyCreditBudget(c, s, id, n);
      case WatchAddress(_, _) => OutsideBudget(c, s, step, id, n);
      case BindKitty(_, _, _) => OutsideBudget(c, s, step, id, n);
      case ChangePrice(_, _) => OutsideBudget(c, s, step, id, n);
      case Receive => ReceiveBudget(s, id, n);
      case Crash => ReceiveBudget(s, id, n);
      case Answer => AnswerBudget(s, id, n);
      case Emit => EmitBudget(s, id, n);
      case Reload => ReloadBudget(s, id, n);
      case StartReceiver => StartReceiverBudget(s, id, n);
      case BuyTake => BuyTakeBudget(s, id, n);
    }
  }

  /** Over every run, with crashes anywhere, a record is credited and still to be credited at most as often as its
      deposit was saved. */
  lemma {:induction false} CreditedAtMostSaved(c: Config, meta: map<string, seq<string>>, steps: seq<Step>, id: string)
    ensures var s := RunSteps(c, Initial(c, meta), steps);
            Budget(s, id, Saves(c, Initial(c, meta), steps, id))
  {
    if steps != [] {
      var init := steps[..|steps| - 1];
      CreditedAtMostSaved(c, meta, init, id);
      RunTracked(c, meta, init);
      StepBudget(c, RunSteps(c, Initial(c, meta), init), steps[|steps| - 1], id, Saves(c, Initial(c, meta), init, id));
    }
  }

  ghost predicate SavedOnceEach(c: Config, meta: map<string, seq<string>>, steps: seq<Step>, ids: seq<string>) {
    forall id :: id in ids ==> Saves(c, Initial(c, meta), steps, id) <= 1
  }

  /** When no deposit of an address was saved twice in the whole history, its track holds exactly the value of its
      records that left WaitDecide. */
  lemma ExactWhenSavedOnce(c: Config, meta: map<string, seq<string>>, steps: seq<Step>, a: string)
    requires var db := RunSteps(c, Initial(c, meta), steps).ledger.db;
             a in db.txs && SavedOnceEach(c, meta, steps, db.txs[a])
    ensures var l := RunSteps(c, Initial(c, meta), steps).ledger;
            && (forall id :: id in l.db.txs[a] ==> id in l.db.infos && TimesCredited(l.credits, id) <= 1)
            && CreditedAt(l.credits, a) == L.LeftValue(l.db.infos, l.db.txs[a])
            && (a in l.db.tracks ==> l.db.tracks[a].deposited == Wrap64(L.LeftValue(l.db.infos, l.db.txs[a])))
  {
    var l := RunSteps(c, Initial(c, meta), steps).ledger;
    RunTracked(c, meta, steps);
    L.ConservationByRecord(l, a);
    forall id | id in l.db.txs[a] ensures TimesCredited(l.credits, id) <= 1 {
      CreditedAtMostSaved(c, meta, steps, id);
    }
  }

  /** When no deposit of an address was saved twice, a record of it is released only once distinct records, of values
      that are not negative and whose sum does not overflow, add up to what the track requires. */
  lemma ReleasedIsPaidOnce(c: Config, meta: map<string, seq<string>>, steps: seq<Step>, id: string)
    requires var db := RunSteps(c, Initial(c, meta), steps).ledger.db;
             && id in db.infos && db.infos[id].status.WaitSend?
             && var a := db.infos[id].depositAddress;
                && a in db.txs && SavedOnceEach(c, meta, steps, db.txs[a])
                && (forall i :: i in db.txs[a] ==> i in db.infos && db.infos[i].depositValue >= 0)
                && L.LeftValue(db.infos, db.txs[a]) < TWO_TO_63
    ensures var db := RunSteps(c, Initial(c, meta), steps).ledger.db;
            var a := db.infos[id].depositAddress;
            a in db.tracks && db.tracks[a].required <= L.LeftValue(db.infos, db.txs[a])
  {
    var l := RunSteps(c, Initial(c, meta), steps).ledger;
    RunTracked(c, meta, steps);
    ExactWhenSavedOnce(c, meta, steps, l.db.infos[id].depositAddress);
    L.ReleasedIsPaidByRecords(l, id);
  }
}

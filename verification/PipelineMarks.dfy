/**
 What a scanner is told about a deposit and what it marks: which deposits are Accepted, which are refused, and which the
 next start loads again, over every run with crashes at any point.
 */
module PipelineMarks {
  import opened Common
  import opened Deposits
  import opened ScanStore
  import opened Exchange
  import opened ExchangeLedger
  import opened Pipeline
  import opened PipelineFanIn
  import opened PipelineSafety
  import opened PipelineRuns

  // The answer

  /** A deposit that waits for its answer was saved without an error exactly when its record exists. */
  ghost predicate ResultTrue(r: Receiver, infos: map<string, DepositInfo>) {
    r.Running? && r.stage.Saved? ==> (r.stage.result.Some? <==> r.stage.note.dv.ID() in infos)
  }

  lemma SaveResultTrue(s: System)
    requires BindsKeyed(s.ledger.db) && ResultTrue(s.receiver, s.ledger.db.infos)
    ensures ResultTrue(SaveStep(s).receiver, SaveStep(s).ledger.db.infos)
  {
    if s.receiver.Running? && s.receiver.stage.Received? {
      DeliverOutcome(s.ledger.db, s.receiver.stage.note.dv);
    }
  }

  /** Apart from Save, a step leaves the set of recorded identifiers alone and saves nothing new. */
  lemma OtherResultTrue(c: Config, s: System, step: Step)
    requires !step.Save? && !step.BuyCredit? && ResultTrue(s.receiver, s.ledger.db.infos)
    ensures ResultTrue(Next(c, s, step).receiver, Next(c, s, step).ledger.db.infos)
  {
    hide DeliverTo, DecideOn, GetOrCreate, WaitDecideInfos;
    if ScannerStep(step) {
      ScannerStepFrame(c, s, step);
    }
  }

  lemma StepResultTrue(c: Config, s: System, step: Step)
    requires Inv(s.ledger) && QueuesKnown(s) && ResultTrue(s.receiver, s.ledger.db.infos)
    ensures ResultTrue(Next(c, s, step).receiver, Next(c, s, step).ledger.db.infos)
  {
    match step
    case Save =>
      InvIsStructured(s.ledger);
      SaveResultTrue(s);
    case BuyCredit =>
      if s.buying.Some? {
        CreditGrows(s.ledger, s.buying.value, c.key);
      }
    case _ => OtherResultTrue(c, s, step);
  }

  lemma {:induction false} RunResultTrue(c: Config, meta: map<string, seq<string>>, steps: seq<Step>)
    ensures var s := RunSteps(c, Initial(c, meta), steps);
            Tracked(s) && ResultTrue(s.receiver, s.ledger.db.infos)
  {
    RunTracked(c, meta, steps);
    if steps != [] {
      hide Tracked, Next, Inv;
      RunResultTrue(c, meta, steps[..|steps| - 1]);
      RunTracked(c, meta, steps[..|steps| - 1]);
      StepIsTrue(c, RunSteps(c, Initial(c, meta), steps[..|steps| - 1]), steps[|steps| - 1]);
    }
  }

  lemma StepIsTrue(c: Config, s: System, step: Step)
    requires Tracked(s) && Inv(s.ledger) && ResultTrue(s.receiver, s.ledger.db.infos)
    ensures ResultTrue(Next(c, s, step).receiver, Next(c, s, step).ledger.db.infos)
  {
    hide Inv, Safe, FanIn, Next;
    StepResultTrue(c, s, step);
  }

  /** The scanner of the saved deposit is told nil if the deposit's record exists and an error otherwise; only then is
      the record forwarded. Nothing else changes. */
  ghost predicate Answers(s: System, s': System)
    requires s.receiver.Running? && s.receiver.stage.Saved?
  {
    var note := s.receiver.stage.note;
    var recorded := note.dv.ID() in s.ledger.db.infos;
    && note.src < |s.scanners| && s.scanners[note.src].Up? && s.scanners[note.src].pipe == Handed(note.dv)
    && s'.receiver.Running?
    && s' == s.(scanners := s.scanners[note.src := s.scanners[note.src].(pipe := Answered(note.dv, recorded))],
                receiver := s.receiver.(stage := s'.receiver.stage))
    && if recorded then s'.receiver.stage.Forwarding? && s'.receiver.stage.di.depositID == note.dv.ID()
       else s'.receiver.stage.Waiting?
  }

  lemma AnswerOf(s: System)
    requires s.receiver.Running? && s.receiver.stage.Saved? && ResultTrue(s.receiver, s.ledger.db.infos)
    requires StageSound(s.scan.deposits, s.ledger.db.infos, s.receiver.stage)
    requires IsUp(s, s.receiver.stage.note.src)
             && s.scanners[s.receiver.stage.note.src].pipe == Handed(s.receiver.stage.note.dv)
    ensures Answers(s, AnswerStep(s))
  {
  }

  /** In every reachable state in which a saved deposit waits for its answer. */
  lemma AnswerOutcome(c: Config, meta: map<string, seq<string>>, steps: seq<Step>)
    ensures var s := RunSteps(c, Initial(c, meta), steps);
            s.receiver.Running? && s.receiver.stage.Saved? ==> Answers(s, Next(c, s, Answer))
  {
    hide Answers, InOrder, QueuesKnown, Forwarded, RunSteps, StageSound, AnswerStep;
    var s := RunSteps(c, Initial(c, meta), steps);
    RunResultTrue(c, meta, steps);
    if s.receiver.Running? && s.receiver.stage.Saved? {
      AnswerNeverBlocks(s);
      AnswerOf(s);
    }
  }

  // The mark

  /** The answered deposit is in the bucket; exactly it becomes Accepted when the answer was nil, and exactly it is
      added to the refused ones when it was an error. Nothing else changes but the pipe, which is free again. */
  ghost predicate Marks(s: System, s': System, i: nat)
    requires IsUp(s, i) && s.scanners[i].pipe.Answered?
  {
    var id, m := s.scanners[i].pipe.dv.ID(), s.scan.deposits;
    && id in m
    && s' == s.(scan := s.scan.(deposits := s'.scan.deposits), refused := s'.refused,
                scanners := s.scanners[i := s.scanners[i].(pipe := Idle)])
    && if s.scanners[i].pipe.ok then s'.scan.deposits == m[id := m[id].(status := Accepted)] && s'.refused == s.refused
       else s'.scan.deposits == m && s'.refused == s.refused + {id}
  }

  lemma MarkOf(s: System, i: nat)
    requires BucketKeyed(s.scan.deposits) && FlightStored(s.scan.deposits, s.scanners)
    requires IsUp(s, i) && s.scanners[i].pipe.Answered?
    ensures Marks(s, MarkStep(s, i), i)
  {
    assert InFlight(s.scanners[i], s.scanners[i].pipe.dv);
    assert Stored(s.scan.deposits, s.scanners[i].pipe.dv);
  }

  /** In every reachable state in which a scanner has its answer. */
  lemma MarkOutcome(c: Config, meta: map<string, seq<string>>, steps: seq<Step>, i: nat)
    ensures var s := RunSteps(c, Initial(c, meta), steps);
            IsUp(s, i) && s.scanners[i].pipe.Answered? ==> Marks(s, Next(c, s, Mark(i)), i)
  {
    hide Marks, FanIn, QueuesKnown, Forwarded, RunSteps, BucketKeyed, FlightStored, MarkStep;
    RunTracked(c, meta, steps);
    var s := RunSteps(c, Initial(c, meta), steps);
    if IsUp(s, i) && s.scanners[i].pipe.Answered? {
      MarkOf(s, i);
    }
  }

  /** Step k takes an answer with this outcome for this identifier. */
  ghost predicate AnswerTaken(c: Config, s0: System, steps: seq<Step>, k: int, id: string, ok: bool) {
    && 0 <= k < |steps| && steps[k].Mark?
    && var s, i := RunSteps(c, s0, steps[..k]), steps[k].i;
       && IsUp(s, i) && s.scanners[i].pipe.Answered?
       && s.scanners[i].pipe.dv.ID() == id && s.scanners[i].pipe.ok == ok
  }

  predicate NoCrashFrom(steps: seq<Step>, k: int) {
    forall j :: 0 <= k <= j < |steps| ==> !steps[j].Crash?
  }

  lemma TakenLonger(c: Config, s0: System, steps: seq<Step>, k: int, id: string, ok: bool)
    requires steps != []
    ensures AnswerTaken(c, s0, steps, k, id, ok) <==>
            AnswerTaken(c, s0, steps[..|steps| - 1], k, id, ok) ||
            (k == |steps| - 1 && AnswerTaken(c, s0, steps, |steps| - 1, id, ok))
  {
    var init := steps[..|steps| - 1];
    if 0 <= k < |init| {
      assert steps[..k] == init[..k];
    }
  }

  /** The effect of one step on the statuses in the bucket. */
  lemma StatusStep(c: Config, s: System, step: Step, id: string)
    requires Safe(s)
    ensures var m, m' := s.scan.deposits, Next(c, s, step).scan.deposits;
            var marks := step.Mark? && IsUp(s, step.i) && s.scanners[step.i].pipe.Answered? &&
                         s.scanners[step.i].pipe.ok && s.scanners[step.i].pipe.dv.ID() == id;
            (id in m' && m'[id].status.Accepted?) <==> (id in m && m[id].status.Accepted?) || marks
  {
    match step
    case ScanBlock(i, block) => ScanStatus(c, s, i, block, id);
    case Mark(i) =>
      if IsUp(s, i) && s.scanners[i].pipe.Answered? {
        MarkOf(s, i);
      }
    case _ => BucketFrame(c, s, step);
  }

  lemma BucketFrame(c: Config, s: System, step: Step)
    requires !step.ScanBlock? && !step.Mark?
    ensures Next(c, s, step).scan.deposits == s.scan.deposits
  {
  }

  lemma ScanStatus(c: Config, s: System, i: nat, block: CommonBlock, id: string)
    ensures var m, m' := s.scan.deposits, ScanStep(c, s, i, block).scan.deposits;
            (id in m' && m'[id].status.Accepted?) <==> (id in m && m[id].status.Accepted?)
  {
    var s' := ScanStep(c, s, i, block);
    if s' != s && Scan(s.scan, block, c.coins[i]).Ok? {
      var watched := AsSet(ScanAddresses(s.scan, c.coins[i]).value);
      var found := Matches(block, c.coins[i], watched);
      FreshExact(s.scan.deposits, found);
      FoundIsNew(s.scan.deposits, found, block, c.coins[i], watched);
    }
  }

  /** In every reachable state a deposit is Accepted exactly when some scanner was told nil about it and marked it, in
      this run or before a crash. */
  lemma {:induction false} AcceptedIff(c: Config, meta: map<string, seq<string>>, steps: seq<Step>, id: string)
    ensures var m := RunSteps(c, Initial(c, meta), steps).scan.deposits;
            (id in m && m[id].status.Accepted?) <==>
            exists k :: AnswerTaken(c, Initial(c, meta), steps, k, id, true)
  {
    var s0 := Initial(c, meta);
    if steps == [] {
      return;
    }
    hide *;
    var init, step := steps[..|steps| - 1], steps[|steps| - 1];
    var s := RunSteps(c, s0, init);
    AcceptedIff(c, meta, init, id);
    RunIsSafe(c, meta, init);
    StatusStep(c, s, step, id);
    LastTaken(c, s0, steps, id, true);
    forall k ensures AnswerTaken(c, s0, steps, k, id, true) <==>
                     AnswerTaken(c, s0, init, k, id, true) ||
                     (k == |steps| - 1 && AnswerTaken(c, s0, steps, |steps| - 1, id, true))
    {
      TakenLonger(c, s0, steps, k, id, true);
    }
  }

  lemma RunIsSafe(c: Config, meta: map<string, seq<string>>, steps: seq<Step>)
    ensures Safe(RunSteps(c, Initial(c, meta), steps))
  {
    RunTracked(c, meta, steps);
  }

  lemma LastTaken(c: Config, s0: System, steps: seq<Step>, id: string, ok: bool)
    requires steps != []
    ensures var s, step := RunSteps(c, s0, steps[..|steps| - 1]), steps[|steps| - 1];
            AnswerTaken(c, s0, steps, |steps| - 1, id, ok) <==>
            step.Mark? && IsUp(s, step.i) && s.scanners[step.i].pipe.Answered? &&
            s.scanners[step.i].pipe.ok == ok && s.scanners[step.i].pipe.dv.ID() == id
    ensures RunSteps(c, s0, steps) == Next(c, RunSteps(c, s0, steps[..|steps| - 1]), steps[|steps| - 1])
  {
    hide Next;
  }

  /** So a deposit that was answered nil and marked is in no later start's list, and every other stored deposit is. */
  lemma ReloadedIff(c: Config, meta: map<string, seq<string>>, steps: seq<Step>, i: nat, d: Deposit)
    ensures var s := RunSteps(c, Initial(c, meta), steps);
            i < |s.scanners| && s.scanners[i].Down? ==>
              Next(c, s, Start(i)).scanners[i].Up? &&
              (d in Next(c, s, Start(i)).scanners[i].loading <==>
                 && d.ID() in s.scan.deposits && s.scan.deposits[d.ID()] == d
                 && !exists k :: AnswerTaken(c, Initial(c, meta), steps, k, d.ID(), true))
  {
    var s := RunSteps(c, Initial(c, meta), steps);
    hide AnswerTaken;
    RunTracked(c, meta, steps);
    AcceptedIff(c, meta, steps, d.ID());
    ListedIff(s.scan.deposits, d);
  }

  // Refusals

  /** The refusal of an identifier at step k, in the run that is still going on. */
  ghost predicate RefusedAt(c: Config, s0: System, steps: seq<Step>, k: int, id: string) {
    AnswerTaken(c, s0, steps, k, id, false) && NoCrashFrom(steps, k)
  }

  lemma RefusedStep(c: Config, s: System, step: Step, id: string)
    requires Safe(s)
    ensures var refuses := step.Mark? && IsUp(s, step.i) && s.scanners[step.i].pipe.Answered? &&
                           !s.scanners[step.i].pipe.ok && s.scanners[step.i].pipe.dv.ID() == id;
            id in Next(c, s, step).refused <==> !step.Crash? && (id in s.refused || refuses)
  {
    match step
    case Mark(i) =>
      if IsUp(s, i) && s.scanners[i].pipe.Answered? {
        MarkOf(s, i);
      }
    case _ => RefusedFrame(c, s, step);
  }

  lemma RefusedFrame(c: Config, s: System, step: Step)
    requires !step.Mark?
    ensures Next(c, s, step).refused == if step.Crash? then {} else s.refused
  {
  }

  lemma RefusedLonger(c: Config, s0: System, steps: seq<Step>, k: int, id: string)
    requires steps != []
    ensures RefusedAt(c, s0, steps, k, id) <==>
            !steps[|steps| - 1].Crash? &&
            (RefusedAt(c, s0, steps[..|steps| - 1], k, id) ||
             (k == |steps| - 1 && AnswerTaken(c, s0, steps, |steps| - 1, id, false)))
  {
    var init := steps[..|steps| - 1];
    TakenLonger(c, s0, steps, k, id, false);
    assert forall j :: 0 <= j < |init| ==> steps[j] == init[j];
    if 0 <= k < |steps| {
      assert NoCrashFrom(steps, k) <==> NoCrashFrom(init, k) && !steps[|steps| - 1].Crash?;
    }
  }

  /** In every reachable state an identifier is refused exactly when some scanner took an error for it since the last
      crash. */
  lemma {:induction false} RefusedIff(c: Config, meta: map<string, seq<string>>, steps: seq<Step>, id: string)
    ensures id in RunSteps(c, Initial(c, meta), steps).refused <==>
            exists k :: RefusedAt(c, Initial(c, meta), steps, k, id)
  {
    var s0 := Initial(c, meta);
    if steps == [] {
      return;
    }
    hide *;
    var init, step := steps[..|steps| - 1], steps[|steps| - 1];
    RefusedIff(c, meta, init, id);
    RunIsSafe(c, meta, init);
    RefusedStep(c, RunSteps(c, s0, init), step, id);
    LastTaken(c, s0, steps, id, false);
    RefusedLonger(c, s0, steps, |steps| - 1, id);
    forall k ensures RefusedAt(c, s0, steps, k, id) <==>
                     !step.Crash? &&
                     (RefusedAt(c, s0, init, k, id) ||
                      (k == |steps| - 1 && AnswerTaken(c, s0, steps, |steps| - 1, id, false)))
    {
      RefusedLonger(c, s0, steps, k, id);
    }
  }

  /** At step k the receiver answers for this identifier, which has no record, and no crash follows. */
  ghost predicate ErrorAt(c: Config, s0: System, steps: seq<Step>, k: int, id: string) {
    && 0 <= k < |steps| && steps[k].Answer? && NoCrashFrom(steps, k)
    && var s := RunSteps(c, s0, steps[..k]);
       && s.receiver.Running? && s.receiver.stage.Saved?
       && s.receiver.stage.note.dv.ID() == id && id !in s.ledger.db.infos
  }

  /** A pipe holds an answer that it did not hold before only after the receiver's step, and for the deposit that the
      receiver answers. */
  lemma AnsweredBefore(c: Config, s: System, step: Step, i: nat)
    requires !step.Answer? && IsUp(Next(c, s, step), i) && Next(c, s, step).scanners[i].pipe.Answered?
    ensures !step.Crash? && IsUp(s, i) && s.scanners[i].pipe == Next(c, s, step).scanners[i].pipe
  {
  }

  lemma ErrorLonger(c: Config, s0: System, steps: seq<Step>, k: int, id: string)
    requires steps != [] && !steps[|steps| - 1].Crash? && ErrorAt(c, s0, steps[..|steps| - 1], k, id)
    ensures ErrorAt(c, s0, steps, k, id)
  {
    var init := steps[..|steps| - 1];
    assert steps[..k] == init[..k];
    assert forall j :: 0 <= j < |init| ==> steps[j] == init[j];
  }

  lemma ErrorNow(c: Config, meta: map<string, seq<string>>, steps: seq<Step>, i: nat)
    requires steps != [] && steps[|steps| - 1].Answer?
    requires var s, s' := RunSteps(c, Initial(c, meta), steps[..|steps| - 1]), RunSteps(c, Initial(c, meta), steps);
             IsUp(s', i) && s'.scanners[i].pipe.Answered? && !s'.scanners[i].pipe.ok &&
             !(IsUp(s, i) && s.scanners[i].pipe == s'.scanners[i].pipe)
    ensures ErrorAt(c, Initial(c, meta), steps, |steps| - 1,
                    RunSteps(c, Initial(c, meta), steps).scanners[i].pipe.dv.ID())
  {
    hide Next, RunSteps, Initial;
    var s0 := Initial(c, meta);
    RunStep(c, s0, steps);
    AnswerOutcome(c, meta, steps[..|steps| - 1]);
    AnswerEnabled(c, RunSteps(c, s0, steps[..|steps| - 1]), i);
  }

  lemma AnswerEnabled(c: Config, s: System, i: nat)
    requires IsUp(Next(c, s, Answer), i) && !(IsUp(s, i) && s.scanners[i].pipe == Next(c, s, Answer).scanners[i].pipe)
    ensures s.receiver.Running? && s.receiver.stage.Saved? && i == s.receiver.stage.note.src
  {
  }

  /** An error in a pipe comes from an answer for a deposit without a record, since the last crash. */
  lemma {:induction false} ErrorIsAnswered(c: Config, meta: map<string, seq<string>>, steps: seq<Step>, i: nat)
    requires var s := RunSteps(c, Initial(c, meta), steps);
             IsUp(s, i) && s.scanners[i].pipe.Answered? && !s.scanners[i].pipe.ok
    ensures var s := RunSteps(c, Initial(c, meta), steps);
            exists k :: ErrorAt(c, Initial(c, meta), steps, k, s.scanners[i].pipe.dv.ID())
  {
    if steps == [] {
      return;
    }
    hide Next, ErrorAt;
    var s0 := Initial(c, meta);
    var init, step := steps[..|steps| - 1], steps[|steps| - 1];
    var s, s' := RunSteps(c, s0, init), RunSteps(c, s0, steps);
    if !step.Answer? {
      AnsweredBefore(c, s, step, i);
    }
    if IsUp(s, i) && s.scanners[i].pipe == s'.scanners[i].pipe {
      ErrorIsAnswered(c, meta, init, i);
      var k :| ErrorAt(c, s0, init, k, s.scanners[i].pipe.dv.ID());
      ErrorLonger(c, s0, steps, k, s.scanners[i].pipe.dv.ID());
    } else {
      ErrorNow(c, meta, steps, i);
    }
  }

  lemma ErrorSince(c: Config, s0: System, steps: seq<Step>, n: int, j: int, id: string)
    requires 0 <= n <= |steps| && ErrorAt(c, s0, steps[..n], j, id) && NoCrashFrom(steps, n)
    ensures j < n && ErrorAt(c, s0, steps, j, id)
  {
    assert steps[..n][..j] == steps[..j];
    forall m | j <= m < |steps| ensures !steps[m].Crash? {
      assert m < n ==> steps[..n][m] == steps[m];
    }
  }

  /** A refused deposit had no record when the receiver answered for it, after the last crash and before its scanner
      gave it up. */
  lemma RefusedHadNoRecord(c: Config, meta: map<string, seq<string>>, steps: seq<Step>, id: string)
    requires id in RunSteps(c, Initial(c, meta), steps).refused
    ensures exists j, k :: j < k && ErrorAt(c, Initial(c, meta), steps, j, id) &&
                           RefusedAt(c, Initial(c, meta), steps, k, id)
  {
    hide ErrorAt;
    var s0 := Initial(c, meta);
    RefusedIff(c, meta, steps, id);
    var k :| RefusedAt(c, s0, steps, k, id);
    ErrorIsAnswered(c, meta, steps[..k], steps[k].i);
    var j :| ErrorAt(c, s0, steps[..k], j, id);
    ErrorSince(c, s0, steps, k, j, id);
  }

  // Credits that fail

  /** The credit of this record fails: its write is the completing one, and that has no key. */
  ghost predicate CreditFails(key: CompletionKey, s: System, id: string) {
    && s.buying.Some? && s.buying.value.depositID == id && key.AsWritten?
    && var di := s.buying.value;
       && di.depositAddress in s.ledger.db.tracks
       && var dt := s.ledger.db.tracks[di.depositAddress];
          Wrap64(dt.deposited + di.depositValue) >= dt.required
  }

  ghost predicate FailedAt(c: Config, s0: System, steps: seq<Step>, k: int, id: string) {
    && 0 <= k < |steps| && steps[k].BuyCredit? && CreditFails(c.key, RunSteps(c, s0, steps[..k]), id)
    && NoCrashFrom(steps, k)
  }

  lemma FailedStep(c: Config, s: System, step: Step, id: string)
    requires Inv(s.ledger) && QueuesKnown(s)
    ensures id in Next(c, s, step).failed <==>
            !step.Crash? && (id in s.failed || (step.BuyCredit? && CreditFails(c.key, s, id)))
  {
    if step.BuyCredit? {
      InvIsStructured(s.ledger);
      BuyFailed(c, s, id);
    } else {
      FailedFrame(c, s, step);
    }
  }

  lemma BuyFailed(c: Config, s: System, id: string)
    requires Structured(s.ledger.db) && (s.buying.Some? ==> Known(s.ledger.db.infos, s.buying.value))
    ensures id in BuyCreditStep(c, s).failed <==> id in s.failed || CreditFails(c.key, s, id)
  {
    if s.buying.Some? {
      hide Structured, UpdateStatus, DecideOn;
      DecideOutcome(s.ledger.db, s.buying.value, c.key);
    }
  }

  lemma FailedFrame(c: Config, s: System, step: Step)
    requires !step.BuyCredit?
    ensures Next(c, s, step).failed == if step.Crash? then {} else s.failed
  {
  }

  lemma FailedLonger(c: Config, s0: System, steps: seq<Step>, k: int, id: string)
    requires steps != []
    ensures var init, last := steps[..|steps| - 1], steps[|steps| - 1];
            FailedAt(c, s0, steps, k, id) <==>
            !last.Crash? &&
            (FailedAt(c, s0, init, k, id) ||
             (k == |init| && last.BuyCredit? && CreditFails(c.key, RunSteps(c, s0, init), id)))
  {
    var init := steps[..|steps| - 1];
    if 0 <= k < |init| {
      assert steps[..k] == init[..k];
    }
    assert forall j :: 0 <= j < |init| ==> steps[j] == init[j];
    if 0 <= k < |steps| {
      assert NoCrashFrom(steps, k) <==> NoCrashFrom(init, k) && !steps[|steps| - 1].Crash?;
    }
  }

  lemma RunIsKnown(c: Config, meta: map<string, seq<string>>, steps: seq<Step>)
    ensures QueuesKnown(RunSteps(c, Initial(c, meta), steps)) && Inv(RunSteps(c, Initial(c, meta), steps).ledger)
  {
    RunTracked(c, meta, steps);
  }

  lemma RunStep(c: Config, s0: System, steps: seq<Step>)
    requires steps != []
    ensures RunSteps(c, s0, steps) == Next(c, RunSteps(c, s0, steps[..|steps| - 1]), steps[|steps| - 1])
  {
  }

  /** In every reachable state the failed records are those whose credit failed since the last crash: with the record's
      own key there are none. */
  lemma {:induction false} FailedIff(c: Config, meta: map<string, seq<string>>, steps: seq<Step>, id: string)
    ensures id in RunSteps(c, Initial(c, meta), steps).failed <==>
            exists k :: FailedAt(c, Initial(c, meta), steps, k, id)
  {
    var s0 := Initial(c, meta);
    if steps == [] {
      return;
    }
    hide *;
    var init, last := steps[..|steps| - 1], steps[|steps| - 1];
    var s := RunSteps(c, s0, init);
    FailedIff(c, meta, init, id);
    RunIsKnown(c, meta, init);
    FailedStep(c, s, last, id);
    RunStep(c, s0, steps);
    FailedLonger(c, s0, steps, |init|, id);
    forall k ensures FailedAt(c, s0, steps, k, id) <==>
                     !last.Crash? &&
                     (FailedAt(c, s0, init, k, id) ||
                      (k == |init| && last.BuyCredit? && CreditFails(c.key, s, id)))
    {
      FailedLonger(c, s0, steps, k, id);
    }
  }

  /** A crash leaves a new installation but for the buckets. */
  lemma CrashKeepsBuckets(c: Config, meta: map<string, seq<string>>, steps: seq<Step>)
    ensures var s := RunSteps(c, Initial(c, meta), steps);
            Next(c, s, Crash) == Initial(c, meta).(scan := s.scan, ledger := s.ledger)
  {
    RunTracked(c, meta, steps);
  }
}

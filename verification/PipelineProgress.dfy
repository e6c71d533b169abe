/**
 The pipeline comes to rest: the steps that move a deposit along always end, and as long as the receiver runs and the
 start-up lists fit, one of them is possible until nothing is left on its way.
 */
module PipelineProgress {
  import opened Common
  import opened Deposits
  import opened ScanStore
  import opened Exchange
  import opened ExchangeLedger
  import opened Pipeline
  import opened PipelineFanIn
  import opened PipelineSafety
  import opened PipelineBounds
  import opened PipelineRuns
  import PipelineMarks

  /** The steps that move along what is already on its way. */
  predicate Internal(step: Step) {
    || step.Load? || step.Push? || step.Take? || step.Hand? || step.Forward? || step.Receive? || step.Save?
    || step.Answer? || step.Emit? || step.Mark? || step.Reload? || step.BuyTake? || step.BuyCredit?
  }

  // How many steps are left: from the start-up list a deposit has eleven before it

  function PipeWork(p: Pipe): nat {
    match p
    case Idle => 0
    case Offered(_) => 9
    case Handed(_) => 1
    case Answered(_, _) => 1
  }

  function ScannerWork(sc: Scanner): nat {
    match sc
    case Down => 0
    case Up(loading, pending, queue, pipe, mux, _, _) =>
      11 * |loading| + 11 * |pending| + 10 * |queue| + PipeWork(pipe) + 7 * |mux|
  }

  function ScannersWork(scanners: seq<Scanner>): nat {
    if scanners == [] then 0
    else ScannersWork(scanners[..|scanners| - 1]) + ScannerWork(scanners[|scanners| - 1])
  }

  function StageWork(stage: Stage): nat {
    match stage
    case Waiting => 0
    case Received(_) => 5
    case Saved(_, _) => 4
    case Forwarding(_) => 3
  }

  function ReceiverWork(r: Receiver): nat {
    match r
    case Stopped => 0
    case Running(reload, stage) => 3 * |reload| + StageWork(stage)
  }

  function Work(s: System): nat {
    ScannersWork(s.scanners) + 6 * |s.outChan| + ReceiverWork(s.receiver) + 2 * |s.infoChan|
    + if s.buying.Some? then 1 else 0
  }

  lemma {:induction false} WorkOfUpdate(scanners: seq<Scanner>, i: nat, sc: Scanner)
    requires i < |scanners|
    ensures ScannersWork(scanners[i := sc]) == ScannersWork(scanners) - ScannerWork(scanners[i]) + ScannerWork(sc)
  {
    var n := |scanners| - 1;
    if i < n {
      assert scanners[i := sc][..n] == scanners[..n][i := sc];
      WorkOfUpdate(scanners[..n], i, sc);
    } else {
      assert scanners[i := sc][..n] == scanners[..n];
    }
  }

  /** Steps of one scanner that do not reach the receiver. */
  lemma ScannerStepWorks(c: Config, s: System, step: Step)
    requires step.Load? || step.Push? || step.Take? || step.Hand? || step.Forward? || step.Mark?
    ensures Next(c, s, step) == s || Work(Next(c, s, step)) < Work(s)
  {
    hide ScannersWork;
    var s' := Next(c, s, step);
    if s' != s {
      WorkOfUpdate(s.scanners, step.i, s'.scanners[step.i]);
    }
  }

  lemma AnswerWorks(c: Config, s: System)
    ensures Next(c, s, Answer) == s || Work(Next(c, s, Answer)) < Work(s)
  {
    hide ScannersWork;
    if s.receiver.Running? && s.receiver.stage.Saved? {
      var i, s' := s.receiver.stage.note.src, AnswerStep(s);
      if IsUp(s, i) && s.scanners[i].pipe.Handed? {
        WorkOfUpdate(s.scanners, i, s'.scanners[i]);
      }
    }
  }

  lemma ReceiverStepWorks(c: Config, s: System, step: Step)
    requires step.Receive? || step.Save? || step.Emit? || step.Reload? || step.BuyTake? || step.BuyCredit?
    ensures Next(c, s, step) == s || Work(Next(c, s, step)) < Work(s)
  {
    hide ScannersWork, DeliverTo, DecideOn, GetOrCreate;
  }

  /** A step that changes the state leaves fewer steps. */
  lemma StepWorks(c: Config, s: System, step: Step)
    requires Internal(step)
    ensures Next(c, s, step) == s || Work(Next(c, s, step)) < Work(s)
  {
    hide Work, Next;
    if step.Answer? {
      AnswerWorks(c, s);
    } else if step.Receive? || step.Save? || step.Emit? || step.Reload? || step.BuyTake? || step.BuyCredit? {
      ReceiverStepWorks(c, s, step);
    } else {
      ScannerStepWorks(c, s, step);
    }
  }

  /** Every step moves something along. */
  ghost predicate Busy(c: Config, s: System, steps: seq<Step>) {
    forall k :: 0 <= k < |steps| ==>
      Internal(steps[k]) && RunSteps(c, s, steps[..k + 1]) != RunSteps(c, s, steps[..k])
  }

  /** However the steps are scheduled, they come to an end: between two scans, starts or crashes there are never more
      than Work(s) of them that change anything. */
  lemma {:induction false} BusyEnds(c: Config, s: System, steps: seq<Step>)
    requires Busy(c, s, steps)
    ensures |steps| + Work(RunSteps(c, s, steps)) <= Work(s)
  {
    if steps == [] {
      return;
    }
    hide *;
    var n := |steps| - 1;
    BusyInit(c, s, steps);
    BusyEnds(c, s, steps[..n]);
    StepWorks(c, RunSteps(c, s, steps[..n]), steps[n]);
  }

  lemma BusyInit(c: Config, s: System, steps: seq<Step>)
    requires Busy(c, s, steps) && steps != []
    ensures var init, last := steps[..|steps| - 1], steps[|steps| - 1];
            && Busy(c, s, init) && Internal(last) && RunSteps(c, s, steps) == Next(c, RunSteps(c, s, init), last)
            && RunSteps(c, s, steps) != RunSteps(c, s, init)
  {
    hide Next, Internal;
    var n := |steps| - 1;
    PipelineMarks.RunStep(c, s, steps);
    assert steps[..n + 1] == steps;
    hide RunSteps;
    forall k | 0 <= k < n
      ensures Internal(steps[..n][k]) && RunSteps(c, s, steps[..n][..k + 1]) != RunSteps(c, s, steps[..n][..k])
    {
      assert steps[..n][..k + 1] == steps[..k + 1] && steps[..n][..k] == steps[..k];
    }
  }

  // Something can always move

  /** Nothing is on its way. */
  ghost predicate Quiet(s: System) {
    && s.outChan == [] && s.infoChan == [] && s.buying.None?
    && (s.receiver.Running? ==> s.receiver.reload == [] && s.receiver.stage.Waiting?)
    && forall i :: 0 <= i < |s.scanners| && s.scanners[i].Up? ==>
         var sc := s.scanners[i];
         sc.loading == [] && sc.pending == [] && sc.queue == [] && sc.pipe.Idle? && sc.mux == []
  }

  /** The receiver runs, and no loader waits for room that it will not get. */
  ghost predicate CanFinish(c: Config, s: System) {
    && s.receiver.Running? && |c.coins| <= OUT_CAPACITY && c.bufferSize > 0
    && forall i :: 0 <= i < |s.scanners| && s.scanners[i].Up? && s.scanners[i].loading != [] ==>
         |s.scanners[i].loaded| <= c.bufferSize
  }

  lemma ReceiverMoves(c: Config, s: System) returns (step: Step)
    requires s.receiver.Running?
    requires !(s.outChan == [] && s.infoChan == [] && s.buying.None? && s.receiver.reload == []
               && s.receiver.stage.Waiting?)
    ensures Internal(step) && Next(c, s, step) != s
  {
    hide DeliverTo, DecideOn, GetOrCreate, UpdateStatus;
    if s.buying.Some? {
      step := BuyCredit;
    } else if s.infoChan != [] {
      step := BuyTake;
    } else if s.receiver.stage.Forwarding? {
      step := Emit;
      assert |Next(c, s, step).infoChan| == 1;
    } else if s.receiver.stage.Saved? {
      step := Answer;
    } else if s.receiver.stage.Received? {
      step := Save;
    } else if s.receiver.reload != [] {
      step := Reload;
      assert |Next(c, s, step).infoChan| == 1;
    } else {
      step := Receive;
      assert |Next(c, s, step).outChan| < |s.outChan|;
    }
  }

  lemma ScannerMoves(c: Config, s: System, i: nat) returns (step: Step)
    requires IsUp(s, i) && InOrder(s, i) && Loading(s.scanners[i])
    requires s.outChan == [] && AtReceiver(s.receiver, i) == [] && c.bufferSize > 0
    requires s.scanners[i].loading != [] ==> |s.scanners[i].loaded| <= c.bufferSize
    requires var sc := s.scanners[i];
             !(sc.loading == [] && sc.pending == [] && sc.queue == [] && sc.pipe.Idle? && sc.mux == [])
    ensures Internal(step) && Next(c, s, step) != s
  {
    hide Process;
    var sc := s.scanners[i];
    if sc.mux != [] {
      step := Forward(i);
      assert |Next(c, s, step).outChan| == 1;
    } else if sc.loading != [] {
      step := Load(i);
      assert |Next(c, s, step).scanners[i].queue| == |sc.queue| + 1;
    } else if sc.pipe.Offered? {
      step := Hand(i);
      assert Next(c, s, step).scanners[i].pipe.Handed?;
    } else if sc.pipe.Answered? {
      step := Mark(i);
      assert Next(c, s, step).scanners[i].pipe.Idle?;
    } else if sc.pipe.Handed? {
      assert false;
    } else if sc.queue != [] {
      step := Take(i);
      assert Next(c, s, step).scanners[i].pipe.Offered?;
    } else {
      step := Push(i);
      assert |Next(c, s, step).scanners[i].queue| == 1;
    }
  }

  /** In every reachable state in which the pipeline can finish and something is on its way, some step moves it. */
  lemma NoDeadlock(c: Config, meta: map<string, seq<string>>, steps: seq<Step>) returns (step: Step)
    requires CanFinish(c, RunSteps(c, Initial(c, meta), steps)) && !Quiet(RunSteps(c, Initial(c, meta), steps))
    ensures var s := RunSteps(c, Initial(c, meta), steps); Internal(step) && Next(c, s, step) != s
  {
    hide Next, InOrder, Internal, Safe, QueuesKnown, Forwarded, Loaded, RunSteps, Loading, Inv;
    var s := RunSteps(c, Initial(c, meta), steps);
    RunTracked(c, meta, steps);
    RunBounded(c, meta, steps);
    if s.outChan == [] && s.infoChan == [] && s.buying.None? && s.receiver.reload == []
       && s.receiver.stage.Waiting?
    {
      var i :| 0 <= i < |s.scanners| && s.scanners[i].Up? && !(
          s.scanners[i].loading == [] && s.scanners[i].pending == [] && s.scanners[i].queue == []
          && s.scanners[i].pipe.Idle? && s.scanners[i].mux == []);
      step := ScannerMoves(c, s, i);
    } else {
      step := ReceiverMoves(c, s);
    }
  }

  lemma StillCanFinish(c: Config, s: System, step: Step)
    requires CanFinish(c, s) && Internal(step)
    ensures CanFinish(c, Next(c, s, step))
  {
    hide DeliverTo, DecideOn, GetOrCreate, UpdateStatus, Process;
  }

  lemma AppendStep(c: Config, s: System, steps: seq<Step>, step: Step)
    ensures RunSteps(c, s, steps + [step]) == Next(c, RunSteps(c, s, steps), step)
  {
    assert (steps + [step])[..|steps|] == steps;
  }

  predicate AllInternal(steps: seq<Step>) {
    forall k :: 0 <= k < |steps| ==> Internal(steps[k])
  }

  lemma InternalFirst(step: Step, rest: seq<Step>)
    requires Internal(step) && AllInternal(rest)
    ensures AllInternal([step] + rest)
  {
    hide Internal;
  }

  lemma OneMoves(c: Config, meta: map<string, seq<string>>, steps: seq<Step>) returns (step: Step)
    requires CanFinish(c, RunSteps(c, Initial(c, meta), steps)) && !Quiet(RunSteps(c, Initial(c, meta), steps))
    ensures var s, s' := RunSteps(c, Initial(c, meta), steps), RunSteps(c, Initial(c, meta), steps + [step]);
            Internal(step) && Work(s') < Work(s) && CanFinish(c, s')
  {
    hide *;
    var s := RunSteps(c, Initial(c, meta), steps);
    step := NoDeadlock(c, meta, steps);
    StepWorks(c, s, step);
    StillCanFinish(c, s, step);
    AppendStep(c, Initial(c, meta), steps, step);
  }

  /** From every reachable state in which the pipeline can finish, some steps bring it to rest, as many as are left at
      most. */
  lemma {:induction false} ComesToRest(c: Config, meta: map<string, seq<string>>, steps: seq<Step>)
    returns (work: seq<Step>)
    requires CanFinish(c, RunSteps(c, Initial(c, meta), steps))
    ensures AllInternal(work) && |work| <= Work(RunSteps(c, Initial(c, meta), steps))
    ensures Quiet(RunSteps(c, Initial(c, meta), steps + work))
    ensures CanFinish(c, RunSteps(c, Initial(c, meta), steps + work))
    decreases Work(RunSteps(c, Initial(c, meta), steps))
  {
    if Quiet(RunSteps(c, Initial(c, meta), steps)) {
      work := [];
      assert steps + work == steps;
      return;
    }
    hide *;
    var step := OneMoves(c, meta, steps);
    var rest := ComesToRest(c, meta, steps + [step]);
    work := [step] + rest;
    Associative(steps, [step], rest);
    InternalFirst(step, rest);
  }

  // What it comes to

  /** What is left of a stored deposit and of its record: an Accepted deposit with a record, or a refused one; a record
      that has left WaitDecide, or one whose credit failed. */
  ghost predicate Settled(s: System, id: string) {
    && (id in s.scan.deposits ==>
          (s.scan.deposits[id].status.Accepted? && id in s.ledger.db.infos) || id in s.refused)
    && (id in s.ledger.db.infos ==>
          id in s.scan.deposits && (!s.ledger.db.infos[id].status.WaitDecide? || id in s.failed))
  }

  lemma QuietHoldsNothing(s: System, i: int, d: Deposit)
    requires Quiet(s)
    ensures !Holds(s.scanners, i, d)
  {
  }

  lemma QuietHasNoneOnTheWay(s: System, id: string)
    requires Quiet(s) && s.receiver.Running? && OnItsWay(s, id)
    ensures id in s.failed
  {
  }

  lemma QuietIsSettled(c: Config, meta: map<string, seq<string>>, steps: seq<Step>, id: string)
    requires var s := RunSteps(c, Initial(c, meta), steps);
             Quiet(s) && s.receiver.Running? && SomeUp(s.scanners)
    ensures Settled(RunSteps(c, Initial(c, meta), steps), id)
  {
    hide RunSteps, Quiet, OnItsWay, Holds, SomeUp;
    var s := RunSteps(c, Initial(c, meta), steps);
    NoDepositLost(c, meta, steps, id);
    if id in s.scan.deposits {
      forall i ensures !Holds(s.scanners, i, s.scan.deposits[id]) {
        QuietHoldsNothing(s, i, s.scan.deposits[id]);
      }
    }
    if OnItsWay(s, id) {
      QuietHasNoneOnTheWay(s, id);
    }
  }

  lemma InternalKeepsUp(c: Config, s: System, step: Step)
    requires Internal(step) && SomeUp(s.scanners)
    ensures SomeUp(Next(c, s, step).scanners)
  {
    hide DeliverTo, DecideOn, GetOrCreate, UpdateStatus, Process;
    var i :| 0 <= i < |s.scanners| && s.scanners[i].Up?;
    assert Next(c, s, step).scanners[i].Up?;
  }

  lemma {:induction false} WorkKeepsUp(c: Config, s0: System, steps: seq<Step>, work: seq<Step>)
    requires AllInternal(work) && SomeUp(RunSteps(c, s0, steps).scanners)
    ensures SomeUp(RunSteps(c, s0, steps + work).scanners)
  {
    if work == [] {
      assert steps + work == steps;
      return;
    }
    hide *;
    var init, step := work[..|work| - 1], work[|work| - 1];
    InternalInit(work);
    WorkKeepsUp(c, s0, steps, init);
    AppendStep(c, s0, steps + init, step);
    InternalKeepsUp(c, RunSteps(c, s0, steps + init), step);
    Associative(steps, init, [step]);
  }

  lemma InternalInit(work: seq<Step>)
    requires AllInternal(work) && work != []
    ensures AllInternal(work[..|work| - 1]) && Internal(work[|work| - 1])
    ensures work == work[..|work| - 1] + [work[|work| - 1]]
  {
    hide Internal;
  }

  /** From every reachable state in which a scanner is up, the receiver runs and the start-up lists fit, the pipeline
      can be brought, without a new scan, start or crash, to a state in which every stored deposit is Accepted and
      recorded or was refused, and every record is credited or failed. */
  lemma EverythingSettles(c: Config, meta: map<string, seq<string>>, steps: seq<Step>) returns (work: seq<Step>)
    requires var s := RunSteps(c, Initial(c, meta), steps); CanFinish(c, s) && SomeUp(s.scanners)
    ensures AllInternal(work) && |work| <= Work(RunSteps(c, Initial(c, meta), steps))
    ensures Quiet(RunSteps(c, Initial(c, meta), steps + work))
    ensures forall id :: Settled(RunSteps(c, Initial(c, meta), steps + work), id)
  {
    hide Quiet, SomeUp, RunSteps, Settled, Work, AllInternal;
    work := ComesToRest(c, meta, steps);
    WorkKeepsUp(c, Initial(c, meta), steps, work);
    forall id ensures Settled(RunSteps(c, Initial(c, meta), steps + work), id) {
      QuietIsSettled(c, meta, steps + work, id);
    }
  }

  /** And it gets there however the steps are scheduled: `BusyEnds` says that they come to an end, and a state in which
      none of them changes anything is settled. */
  lemma NothingMovesIsSettled(c: Config, meta: map<string, seq<string>>, steps: seq<Step>)
    requires var s := RunSteps(c, Initial(c, meta), steps);
             CanFinish(c, s) && SomeUp(s.scanners) && forall step :: Internal(step) ==> Next(c, s, step) == s
    ensures Quiet(RunSteps(c, Initial(c, meta), steps))
    ensures forall id :: Settled(RunSteps(c, Initial(c, meta), steps), id)
  {
    hide Quiet, SomeUp, RunSteps, Settled, Internal, Next;
    var s := RunSteps(c, Initial(c, meta), steps);
    if !Quiet(s) {
      var step := NoDeadlock(c, meta, steps);
    }
    forall id ensures Settled(s, id) {
      QuietIsSettled(c, meta, steps, id);
    }
  }
}

/**
 A scanner's deposits keep their order on the way: first the start-up list, then what the scans returned, reach the
 exchange in exactly that order, nothing skipped and nothing repeated.
 */
module PipelineOrder {
  import opened Common
  import opened Deposits
  import opened ScanStore
  import opened Pipeline
  import opened PipelineFanIn
  import opened PipelineBounds

  /** What a step gives to a scanner: the start-up list, or what a scan returned. */
  ghost function GivenNow(s: System, s': System, step: Step, i: nat): seq<Deposit> {
    if !IsUp(s', i) then []
    else if step == Start(i) && !IsUp(s, i) then Unprocessed(s.scan.deposits)
    else if step.ScanBlock? && step.i == i && IsUp(s, i) && s.scanners[i].pending == [] then s'.scanners[i].pending
    else []
  }

  /** All that a scanner has been given since it started. */
  ghost function Given(c: Config, s0: System, steps: seq<Step>, i: nat): seq<Deposit> {
    if steps == [] then []
    else
      var init, last := steps[..|steps| - 1], steps[|steps| - 1];
      (if last.Crash? then [] else Given(c, s0, init, i)) +
      GivenNow(RunSteps(c, s0, init), RunSteps(c, s0, steps), last, i)
  }

  function OfferedOf(p: Pipe): seq<Deposit> {
    if p.Offered? then [p.dv] else []
  }

  /** What the scanner has handed over and what it still holds, oldest first. */
  function Passed(sc: Scanner): seq<Deposit> {
    match sc
    case Down => []
    case Up(loading, pending, queue, pipe, _, _, handed) => handed + OfferedOf(pipe) + queue + loading + pending
  }

  function PassedBy(s: System, i: nat): seq<Deposit> {
    if IsUp(s, i) then Passed(s.scanners[i]) else []
  }

  lemma Moved(a: seq<Deposit>, x: Deposit, b: seq<Deposit>)
    requires b != [] && x == b[0]
    ensures a + b == a + [x] + b[1..]
  {
  }

  lemma LoadPasses(c: Config, s: System, i: nat)
    requires i < |s.scanners| && Loading(s.scanners[i])
    ensures PassedBy(LoadStep(c, s, i), i) == PassedBy(s, i)
    ensures PassedBy(PushStep(c, s, i), i) == PassedBy(s, i)
  {
    if IsUp(s, i) {
      var sc := s.scanners[i];
      var front := sc.handed + OfferedOf(sc.pipe) + sc.queue;
      if sc.loading != [] {
        Moved(front, sc.loading[0], sc.loading);
        assert sc.handed + OfferedOf(sc.pipe) + (sc.queue + [sc.loading[0]]) == front + [sc.loading[0]];
      } else if sc.pending != [] {
        Moved(front, sc.pending[0], sc.pending);
        assert sc.handed + OfferedOf(sc.pipe) + (sc.queue + [sc.pending[0]]) == front + [sc.pending[0]];
        assert front + [] == front && front + [sc.pending[0]] + [] == front + [sc.pending[0]];
      }
    }
  }

  lemma TakePasses(s: System, i: nat)
    requires i < |s.scanners|
    ensures PassedBy(TakeStep(s, i), i) == PassedBy(s, i)
    ensures PassedBy(HandStep(s, i), i) == PassedBy(s, i)
  {
    if IsUp(s, i) {
      var sc := s.scanners[i];
      if sc.queue != [] {
        Moved(sc.handed, sc.queue[0], sc.queue);
        assert sc.handed + [] == sc.handed;
      }
      if sc.pipe.Offered? {
        assert sc.handed + [sc.pipe.dv] + [] == sc.handed + [sc.pipe.dv];
      }
    }
  }

  lemma StartPasses(s: System, i: nat)
    requires i < |s.scanners| && s.scanners[i].Down?
    ensures PassedBy(StartStep(s, i), i) == Unprocessed(s.scan.deposits)
  {
    var todo := Unprocessed(s.scan.deposits);
    assert [] + [] + [] + todo + [] == todo;
  }

  lemma ScanPasses(c: Config, s: System, i: nat, block: CommonBlock)
    requires IsUp(s, i)
    ensures var s' := ScanStep(c, s, i, block);
            IsUp(s', i) && PassedBy(s', i) == PassedBy(s, i) + GivenNow(s, s', ScanBlock(i, block), i)
  {
    var sc, s' := s.scanners[i], ScanStep(c, s, i, block);
    var front := sc.handed + OfferedOf(sc.pipe) + sc.queue + sc.loading;
    assert front + [] == front;
    assert front + sc.pending + [] == front + sc.pending;
  }

  /** Steps of another scanner. */
  lemma OtherPasses(c: Config, s: System, step: Step, i: nat)
    requires (step.Load? || step.Push? || step.Take? || step.Hand?) && step.i != i
    ensures PassedBy(Next(c, s, step), i) == PassedBy(s, i)
  {
  }

  // Steps on what a scanner has handed over

  lemma ForwardPasses(s: System, j: nat, i: nat)
    ensures PassedBy(ForwardStep(s, j), i) == PassedBy(s, i)
  {
  }

  lemma AnswerPasses(s: System, i: nat)
    ensures PassedBy(AnswerStep(s), i) == PassedBy(s, i)
  {
  }

  lemma MarkPasses(s: System, j: nat, i: nat)
    ensures PassedBy(MarkStep(s, j), i) == PassedBy(s, i)
  {
    hide Process;
  }

  /** Steps of the receiver, of the buy step and from outside. */
  lemma OutsidePasses(c: Config, s: System, step: Step, i: nat)
    requires step.Receive? || step.Save? || step.Emit? || step.StartReceiver? || step.Reload? || step.BuyTake?
             || step.BuyCredit? || step.WatchAddress? || step.BindKitty? || step.ChangePrice?
    ensures PassedBy(Next(c, s, step), i) == PassedBy(s, i)
  {
    assert Next(c, s, step).scanners == s.scanners;
    hide Next;
  }

  lemma StepPasses(c: Config, s: System, step: Step, i: nat)
    requires Bounded(c, s)
    ensures var s' := Next(c, s, step);
            PassedBy(s', i) == (if step.Crash? then [] else PassedBy(s, i)) + GivenNow(s, s', step, i)
  {
    hide Bounded, Loading, PassedBy;
    if i < |s.scanners| {
      LoadingAt(c, s, i);
      StepOfScanner(c, s, step, i);
    } else {
      NoScanner(c, s, step, i);
    }
  }

  lemma LoadingAt(c: Config, s: System, i: nat)
    requires Bounded(c, s) && i < |s.scanners|
    ensures Loading(s.scanners[i])
  {
  }

  lemma NoScanner(c: Config, s: System, step: Step, i: nat)
    requires i >= |s.scanners|
    ensures PassedBy(s, i) == [] && !IsUp(Next(c, s, step), i) && PassedBy(Next(c, s, step), i) == []
  {
  }

  lemma StepOfScanner(c: Config, s: System, step: Step, i: nat)
    requires i < |s.scanners| && Loading(s.scanners[i])
    ensures var s' := Next(c, s, step);
            PassedBy(s', i) == (if step.Crash? then [] else PassedBy(s, i)) + GivenNow(s, s', step, i)
  {
    hide Loading, PassedBy, Unprocessed;
    match step
    case Start(j) =>
      if j == i && s.scanners[i].Down? {
        StartPasses(s, i);
        DownPassedNothing(s, i);
        assert [] + Unprocessed(s.scan.deposits) == Unprocessed(s.scan.deposits);
      } else {
        StartOther(s, j, i);
      }
    case Load(j) => if j == i { LoadPasses(c, s, i); } else { OtherPasses(c, s, step, i); }
    case Push(j) => if j == i { LoadPasses(c, s, i); } else { OtherPasses(c, s, step, i); }
    case Take(j) => if j == i { TakePasses(s, i); } else { OtherPasses(c, s, step, i); }
    case Hand(j) => if j == i { TakePasses(s, i); } else { OtherPasses(c, s, step, i); }
    case ScanBlock(j, block) =>
      if j == i && IsUp(s, i) { ScanPasses(c, s, i, block); } else { ScanOther(c, s, j, block, i); }
    case Crash => CrashPasses(c, s, i);
    case Forward(j) => ForwardPasses(s, j, i);
    case Mark(j) => MarkPasses(s, j, i);
    case Answer => AnswerPasses(s, i);
    case _ => OutsidePasses(c, s, step, i);
  }

  lemma DownPassedNothing(s: System, i: nat)
    requires i < |s.scanners| && s.scanners[i].Down?
    ensures PassedBy(s, i) == []
  {
  }

  lemma StartOther(s: System, j: nat, i: nat)
    requires j != i || IsUp(s, i)
    ensures PassedBy(StartStep(s, j), i) == PassedBy(s, i) && (IsUp(StartStep(s, j), i) <==> IsUp(s, i))
  {
  }

  lemma ScanOther(c: Config, s: System, j: nat, block: CommonBlock, i: nat)
    requires j != i || !IsUp(s, i)
    ensures PassedBy(ScanStep(c, s, j, block), i) == PassedBy(s, i)
  {
  }

  lemma CrashPasses(c: Config, s: System, i: nat)
    ensures PassedBy(CrashStep(s), i) == [] && !IsUp(CrashStep(s), i)
  {
  }

  lemma {:induction false} RunPasses(c: Config, meta: map<string, seq<string>>, steps: seq<Step>, i: nat)
    ensures PassedBy(RunSteps(c, Initial(c, meta), steps), i) == Given(c, Initial(c, meta), steps, i)
  {
    if steps != [] {
      hide Next, PassedBy, Bounded, GivenNow;
      RunPasses(c, meta, steps[..|steps| - 1], i);
      RunBounded(c, meta, steps[..|steps| - 1]);
      StepPasses(c, RunSteps(c, Initial(c, meta), steps[..|steps| - 1]), steps[|steps| - 1], i);
    }
  }

  /** In every reachable state: what a scanner has handed over, offers, has queued, and has still to load and to send
      is, in this order, all that it was given since it started. */
  lemma FirstInFirstOut(c: Config, meta: map<string, seq<string>>, steps: seq<Step>, i: nat)
    ensures var s := RunSteps(c, Initial(c, meta), steps);
            IsUp(s, i) ==>
              var sc := s.scanners[i];
              sc.handed + OfferedOf(sc.pipe) + sc.queue + sc.loading + sc.pending ==
              Given(c, Initial(c, meta), steps, i)
  {
    hide RunSteps, Given;
    RunPasses(c, meta, steps, i);
  }

  lemma HandedIsGiven(c: Config, meta: map<string, seq<string>>, steps: seq<Step>, i: nat)
    ensures var s := RunSteps(c, Initial(c, meta), steps);
            IsUp(s, i) ==> s.scanners[i].handed <= Given(c, Initial(c, meta), steps, i)
  {
    hide RunSteps, Given;
    var s := RunSteps(c, Initial(c, meta), steps);
    FirstInFirstOut(c, meta, steps, i);
    if IsUp(s, i) {
      var sc := s.scanners[i];
      var rest := OfferedOf(sc.pipe) + sc.queue + sc.loading + sc.pending;
      assert Given(c, Initial(c, meta), steps, i) == sc.handed + rest;
    }
  }

  /** So what the exchange has received from a scanner is, in order, a first part of what the scanner was given. */
  lemma ReceivedInOrder(c: Config, meta: map<string, seq<string>>, steps: seq<Step>, i: nat)
    ensures var s := RunSteps(c, Initial(c, meta), steps);
            IsUp(s, i) ==> Project(s.received, i) <= Given(c, Initial(c, meta), steps, i)
  {
    hide RunSteps, Given, Project;
    var s := RunSteps(c, Initial(c, meta), steps);
    ReceivedIsMerge(c, meta, steps, i);
    HandedIsGiven(c, meta, steps, i);
    ProjectConcat(s.received, s.outChan, i);
    if IsUp(s, i) {
      assert Project(s.received, i) <= s.scanners[i].handed;
    }
  }
}

/**
 The channels of the pipeline are bounded, and the start-up loader gets through exactly when the deposits that were
 not processed fit into the scanner's channel: nothing reads that channel before the loader is done.
 */
module PipelineBounds {
  import opened Common
  import opened Deposits
  import opened ScanStore
  import opened Pipeline
  import opened PipelineFanIn

  /** While the loader is at work the channel and what is left make up the whole list, and the scanner does nothing
      else. */
  predicate Loading(sc: Scanner) {
    sc.Up? && sc.loading != [] ==>
      sc.queue + sc.loading == sc.loaded && sc.pending == [] && sc.pipe.Idle? && sc.handed == []
  }

  predicate Loaded(c: Config, sc: Scanner) {
    sc.Up? ==> |sc.queue| <= c.bufferSize && (sc.loading == [] ==> |sc.loaded| <= c.bufferSize)
  }

  ghost predicate Bounded(c: Config, s: System) {
    && (forall i :: 0 <= i < |s.scanners| ==> Loading(s.scanners[i]) && Loaded(c, s.scanners[i]))
    && |s.infoChan| <= INFO_CAPACITY
  }

  lemma LoadBounded(c: Config, s: System, i: nat)
    requires Bounded(c, s)
    ensures Bounded(c, LoadStep(c, s, i))
  {
    var s' := LoadStep(c, s, i);
    if s' != s {
      var sc, sc' := s.scanners[i], s'.scanners[i];
      assert sc'.queue + sc'.loading == sc.queue + ([sc.loading[0]] + sc.loading[1..]) == sc.queue + sc.loading;
      assert sc'.loading == [] ==> sc'.queue + sc'.loading == sc'.queue;
      assert Loading(sc') && Loaded(c, sc');
    }
  }

  lemma StartBounded(c: Config, s: System, i: nat)
    requires Bounded(c, s)
    ensures Bounded(c, StartStep(s, i))
  {
  }

  lemma ScannerBounded(c: Config, s: System, step: Step)
    requires Bounded(c, s) && (step.ScanBlock? || step.Push? || step.Take? || step.Hand? || step.Forward? || step.Mark?)
    ensures Bounded(c, Next(c, s, step))
  {
  }

  lemma StepBounded(c: Config, s: System, step: Step)
    requires Bounded(c, s)
    ensures Bounded(c, Next(c, s, step))
  {
    match step
    case Load(i) => LoadBounded(c, s, i);
    case Start(i) => StartBounded(c, s, i);
    case ScanBlock(_, _) => ScannerBounded(c, s, step);
    case Push(_) => ScannerBounded(c, s, step);
    case Take(_) => ScannerBounded(c, s, step);
    case Hand(_) => ScannerBounded(c, s, step);
    case Forward(_) => ScannerBounded(c, s, step);
    case Mark(_) => ScannerBounded(c, s, step);
    case _ =>
  }

  lemma {:induction false} RunBounded(c: Config, meta: map<string, seq<string>>, steps: seq<Step>)
    ensures Bounded(c, RunSteps(c, Initial(c, meta), steps))
  {
    if steps != [] {
      RunBounded(c, meta, steps[..|steps| - 1]);
      StepBounded(c, RunSteps(c, Initial(c, meta), steps[..|steps| - 1]), steps[|steps| - 1]);
    }
  }

  /** In every reachable state no channel holds more than its capacity, and outChan no more than one note a scanner. */
  lemma ChannelsBounded(c: Config, meta: map<string, seq<string>>, steps: seq<Step>)
    ensures var s := RunSteps(c, Initial(c, meta), steps);
            && (forall i: nat :: IsUp(s, i) ==> |s.scanners[i].queue| <= c.bufferSize)
            && |s.outChan| <= |c.coins| && |s.infoChan| <= INFO_CAPACITY
  {
    RunBounded(c, meta, steps);
    InitialFanIn(c, meta);
    RunFanIn(c, Initial(c, meta), steps);
    ForwardNeverBlocks(RunSteps(c, Initial(c, meta), steps), 0);
  }

  function Loads(i: nat, n: nat): seq<Step> {
    if n == 0 then [] else Loads(i, n - 1) + [Load(i)]
  }

  /** The scanner after n more sends of its loader, as far as the channel has room. */
  function LoadedBy(c: Config, sc: Scanner, n: nat): Scanner
    requires sc.Up? && |sc.queue| <= c.bufferSize && n <= |sc.loading|
  {
    var k := if n <= c.bufferSize - |sc.queue| then n else c.bufferSize - |sc.queue|;
    sc.(loading := sc.loading[k..], queue := sc.queue + sc.loading[..k])
  }

  function LoadOne(c: Config, sc: Scanner): Scanner
    requires sc.Up? && sc.loading != []
  {
    if |sc.queue| < c.bufferSize then sc.(loading := sc.loading[1..], queue := sc.queue + [sc.loading[0]]) else sc
  }

  lemma LoadIsOne(c: Config, s: System, i: nat, sc: Scanner)
    requires i < |s.scanners| && sc.Up? && sc.loading != []
    ensures LoadStep(c, SetScanner(s, i, sc), i) == SetScanner(s, i, LoadOne(c, sc))
  {
    assert s.scanners[i := sc][i := LoadOne(c, sc)] == s.scanners[i := LoadOne(c, sc)];
  }

  lemma OneMoreLoad(c: Config, sc: Scanner, n: nat)
    requires sc.Up? && |sc.queue| <= c.bufferSize && 0 < n <= |sc.loading|
    ensures LoadedBy(c, sc, n - 1).loading != [] && LoadedBy(c, sc, n) == LoadOne(c, LoadedBy(c, sc, n - 1))
  {
    if n <= c.bufferSize - |sc.queue| {
      assert sc.loading[n - 1..][1..] == sc.loading[n..];
      assert sc.loading[..n - 1] + [sc.loading[n - 1]] == sc.loading[..n];
      assert sc.queue + sc.loading[..n - 1] + [sc.loading[n - 1]] ==
             sc.queue + (sc.loading[..n - 1] + [sc.loading[n - 1]]);
    }
  }

  lemma OneLoadMore(c: Config, s: System, i: nat, n: nat)
    requires n > 0
    ensures RunSteps(c, s, Loads(i, n)) == LoadStep(c, RunSteps(c, s, Loads(i, n - 1)), i)
  {
    assert Loads(i, n)[..|Loads(i, n)| - 1] == Loads(i, n - 1);
  }

  lemma {:induction false} AfterLoads(c: Config, s: System, i: nat, n: nat)
    requires IsUp(s, i) && |s.scanners[i].queue| <= c.bufferSize && n <= |s.scanners[i].loading|
    ensures RunSteps(c, s, Loads(i, n)) == SetScanner(s, i, LoadedBy(c, s.scanners[i], n))
  {
    var sc := s.scanners[i];
    if n == 0 {
      assert LoadedBy(c, sc, 0) == sc;
      assert s.scanners[i := sc] == s.scanners;
    } else {
      AfterLoads(c, s, i, n - 1);
      OneMoreLoad(c, sc, n);
      LoadIsOne(c, s, i, LoadedBy(c, sc, n - 1));
      OneLoadMore(c, s, i, n);
    }
  }

  /** From any reachable state in which a scanner is loading: the loader ends, with the whole start-up list in the
      channel in store order, exactly when the list fits; otherwise the channel fills up and the scanner never hands
      anything on. */
  lemma LoaderEndsIffFits(c: Config, meta: map<string, seq<string>>, steps: seq<Step>, i: nat)
    ensures var s := RunSteps(c, Initial(c, meta), steps);
            IsUp(s, i) && s.scanners[i].loading != [] ==>
              var end := RunSteps(c, s, Loads(i, |s.scanners[i].loading|));
              && IsUp(end, i)
              && (end.scanners[i].loading == [] <==> |s.scanners[i].loaded| <= c.bufferSize)
              && (end.scanners[i].loading == [] ==> end.scanners[i].queue == s.scanners[i].loaded)
              && (end.scanners[i].loading != [] ==>
                   |end.scanners[i].queue| == c.bufferSize && end.scanners[i].handed == [])
  {
    RunBounded(c, meta, steps);
    var s := RunSteps(c, Initial(c, meta), steps);
    if IsUp(s, i) && s.scanners[i].loading != [] {
      assert Loading(s.scanners[i]) && Loaded(c, s.scanners[i]);
      AfterLoads(c, s, i, |s.scanners[i].loading|);
    }
  }

  /** The receiver starts with the records still in WaitDecide, and with nothing else changed. */
  lemma ReceiverLoads(c: Config, s: System)
    requires s.receiver.Stopped?
    ensures var s', infos := Next(c, s, StartReceiver), s.ledger.db.infos;
            && s' == s.(receiver := s'.receiver) && s'.receiver.Running? && s'.receiver.stage.Waiting?
            && forall di :: di in s'.receiver.reload <==>
                            (exists id :: id in infos && infos[id] == di && di.status.WaitDecide?)
  {
    var infos := s.ledger.db.infos;
    forall di
      ensures di in WaitDecideInfos(infos) <==> (exists id :: id in infos && infos[id] == di && di.status.WaitDecide?)
    {
      WaitDecideExact(infos, di);
    }
  }

  /** The list is what was not processed when the scanner started. */
  lemma StartLoads(c: Config, s: System, i: nat)
    requires i < |s.scanners| && s.scanners[i].Down?
    ensures var sc := Next(c, s, Start(i)).scanners[i];
            var m := s.scan.deposits;
            && sc == Up(sc.loaded, [], [], Idle, [], sc.loaded, []) && sc.loaded == Unprocessed(m)
            && forall d :: d in sc.loaded <==> (exists id :: id in m && m[id] == d && d.status.NotProcessed?)
  {
    var m := s.scan.deposits;
    forall d ensures d in Unprocessed(m) <==> (exists id :: id in m && m[id] == d && d.status.NotProcessed?) {
      UnprocessedExact(m, d);
    }
  }
}

/**
 The fan-in of the pipeline: a scanner has at most one unanswered note, so outChan is bounded by the number of
 scanners, no send into it or into an answer channel blocks, and what the receiver reads is a merge of the per-scanner
 sequences.
 */
module PipelineFanIn {
  import opened Common
  import opened Deposits
  import opened ScanStore
  import opened Exchange
  import opened Pipeline

  /** The deposits of the notes that come from scanner i, in order. */
  function Project(notes: seq<Note>, i: nat): seq<Deposit> {
    if notes == [] then []
    else
      var n := notes[|notes| - 1];
      Project(notes[..|notes| - 1], i) + if n.src == i then [n.dv] else []
  }

  lemma {:induction false} ProjectConcat(a: seq<Note>, b: seq<Note>, i: nat)
    ensures Project(a + b, i) == Project(a, i) + Project(b, i)
  {
    if b == [] {
      assert a + b == a;
    } else {
      ProjectConcat(a, b[..|b| - 1], i);
      assert (a + b)[..|a + b| - 1] == a + b[..|b| - 1];
    }
  }

  lemma ProjectOne(n: Note, i: nat)
    ensures Project([n], i) == if n.src == i then [n.dv] else []
  {
    assert [n][..0] == [];
  }

  /** The note the receiver has taken but not answered. */
  function AtReceiver(r: Receiver, i: nat): seq<Deposit> {
    if r.Running? && (r.stage.Received? || r.stage.Saved?) && r.stage.note.src == i then [r.stage.note.dv] else []
  }

  function Unanswered(p: Pipe): seq<Deposit> {
    if p.Handed? then [p.dv] else []
  }

  /** For one scanner: the notes on their way are exactly the one its pipe waits for, and everything it handed over is
      received, in outChan, or with the forwarding goroutine, in that order. */
  predicate InOrder(s: System, i: nat)
    requires i < |s.scanners|
  {
    match s.scanners[i]
    case Down => AtReceiver(s.receiver, i) == [] && Project(s.outChan, i) == [] && Project(s.received, i) == []
    case Up(_, _, _, pipe, mux, _, handed) =>
      && AtReceiver(s.receiver, i) + Project(s.outChan, i) + mux == Unanswered(pipe)
      && Project(s.received, i) + Project(s.outChan, i) + mux == handed
  }

  predicate SourceKnown(r: Receiver, n: nat) {
    r.Running? && (r.stage.Received? || r.stage.Saved?) ==> r.stage.note.src < n
  }

  ghost predicate FanIn(s: System) {
    && (forall i :: 0 <= i < |s.scanners| ==> InOrder(s, i))
    && (forall n :: n in s.outChan ==> n.src < |s.scanners|)
    && SourceKnown(s.receiver, |s.scanners|)
  }

  // Every step keeps it

  /** Steps that touch neither the notes nor what a pipe waits for. */
  lemma FanInFrame(s: System, s': System)
    requires FanIn(s) && |s'.scanners| == |s.scanners|
    requires s'.outChan == s.outChan && s'.received == s.received && SourceKnown(s'.receiver, |s.scanners|)
    requires forall i :: 0 <= i < |s.scanners| ==>
               && s'.scanners[i].Up? == s.scanners[i].Up?
               && AtReceiver(s'.receiver, i) == AtReceiver(s.receiver, i)
               && (s.scanners[i].Up? ==>
                     && s'.scanners[i].mux == s.scanners[i].mux && s'.scanners[i].handed == s.scanners[i].handed
                     && Unanswered(s'.scanners[i].pipe) == Unanswered(s.scanners[i].pipe))
    ensures FanIn(s')
  {
    forall i | 0 <= i < |s'.scanners| ensures InOrder(s', i) {
      assert InOrder(s, i);
    }
  }

  lemma StartFanIn(s: System, i: nat)
    requires FanIn(s)
    ensures FanIn(StartStep(s, i))
  {
    var s' := StartStep(s, i);
    forall j | 0 <= j < |s'.scanners| ensures InOrder(s', j) {
      assert InOrder(s, j);
    }
  }

  lemma HandFanIn(s: System, i: nat)
    requires FanIn(s)
    ensures FanIn(HandStep(s, i))
  {
    var s' := HandStep(s, i);
    forall j | 0 <= j < |s'.scanners| ensures InOrder(s', j) {
      assert InOrder(s, j);
    }
  }

  lemma ForwardKeepsOrder(s: System, i: nat, dv: Deposit, j: nat)
    requires IsUp(s, i) && s.scanners[i].mux == [dv] && j < |s.scanners| && InOrder(s, j)
    ensures InOrder(SetScanner(s.(outChan := s.outChan + [Note(i, dv)]), i, s.scanners[i].(mux := [])), j)
  {
    ForwardInOrder(s.outChan, Note(i, dv), j);
    if s.scanners[j].Up? {
      var here, sent, got := AtReceiver(s.receiver, j), Project(s.outChan, j), Project(s.received, j);
      if j == i {
        assert here + (sent + [dv]) + [] == here + sent + [dv];
        assert got + (sent + [dv]) + [] == got + sent + [dv];
      } else {
        assert sent + [] == sent;
      }
    }
  }

  lemma ForwardFanIn(s: System, i: nat)
    requires FanIn(s)
    ensures FanIn(ForwardStep(s, i))
  {
    var s' := ForwardStep(s, i);
    if s' != s {
      assert InOrder(s, i);
      var dv := s.scanners[i].mux[0];
      assert s.scanners[i].mux == [dv];
      forall j | 0 <= j < |s'.scanners| ensures InOrder(s', j) {
        ForwardKeepsOrder(s, i, dv, j);
      }
    }
  }

  lemma ForwardInOrder(outChan: seq<Note>, note: Note, j: nat)
    ensures Project(outChan + [note], j) == Project(outChan, j) + if j == note.src then [note.dv] else []
  {
    ProjectConcat(outChan, [note], j);
    ProjectOne(note, j);
  }

  lemma ReceiveInOrder(outChan: seq<Note>, received: seq<Note>, j: nat)
    requires outChan != []
    ensures var here := if outChan[0].src == j then [outChan[0].dv] else [];
            Project(outChan, j) == here + Project(outChan[1..], j)
                && Project(received + [outChan[0]], j) == Project(received, j) + here
  {
    ProjectConcat([outChan[0]], outChan[1..], j);
    assert outChan == [outChan[0]] + outChan[1..];
    ProjectConcat(received, [outChan[0]], j);
    ProjectOne(outChan[0], j);
  }

  lemma ReceiveKeepsOrder(s: System, j: nat)
    requires j < |s.scanners| && InOrder(s, j)
    requires s.receiver.Running? && s.receiver.stage.Waiting? && s.outChan != []
    ensures InOrder(s.(outChan := s.outChan[1..], received := s.received + [s.outChan[0]],
                       receiver := s.receiver.(stage := Received(s.outChan[0]))), j)
  {
    ReceiveInOrder(s.outChan, s.received, j);
    var here := if s.outChan[0].src == j then [s.outChan[0].dv] else [];
    if s.scanners[j].Up? {
      var mux := s.scanners[j].mux;
      assert [] + (here + Project(s.outChan[1..], j)) + mux == here + Project(s.outChan[1..], j) + mux;
      assert Project(s.received, j) + (here + Project(s.outChan[1..], j)) + mux
          == (Project(s.received, j) + here) + Project(s.outChan[1..], j) + mux;
    }
  }

  lemma ReceiveFanIn(s: System)
    requires FanIn(s)
    ensures FanIn(ReceiveStep(s))
  {
    var s' := ReceiveStep(s);
    if s' != s {
      assert s.outChan[0] in s.outChan;
      forall j | 0 <= j < |s'.scanners| ensures InOrder(s', j) {
        ReceiveKeepsOrder(s, j);
      }
    }
  }

  lemma AnswerFanIn(s: System)
    requires FanIn(s)
    ensures FanIn(AnswerStep(s))
  {
    var s' := AnswerStep(s);
    if s' != s {
      forall j | 0 <= j < |s'.scanners| ensures InOrder(s', j) {
        assert InOrder(s, j);
      }
    }
  }

  lemma CrashFanIn(s: System)
    ensures FanIn(CrashStep(s))
  {
  }

  lemma QueueStepsFanIn(c: Config, s: System, i: nat)
    requires FanIn(s)
    ensures FanIn(LoadStep(c, s, i)) && FanIn(PushStep(c, s, i)) && FanIn(TakeStep(s, i))
  {
    FanInFrame(s, LoadStep(c, s, i));
    FanInFrame(s, PushStep(c, s, i));
    FanInFrame(s, TakeStep(s, i));
  }

  lemma ScanFanIn(c: Config, s: System, i: nat, block: CommonBlock)
    requires FanIn(s)
    ensures FanIn(ScanStep(c, s, i, block))
  {
    FanInFrame(s, ScanStep(c, s, i, block));
  }

  lemma MarkFanIn(s: System, i: nat)
    requires FanIn(s)
    ensures FanIn(MarkStep(s, i))
  {
    FanInFrame(s, MarkStep(s, i));
  }

  lemma SaveFanIn(s: System)
    requires FanIn(s)
    ensures FanIn(SaveStep(s)) && FanIn(EmitStep(s))
  {
    FanInFrame(s, SaveStep(s));
    FanInFrame(s, EmitStep(s));
  }

  lemma ReloadFanIn(s: System)
    requires FanIn(s)
    ensures FanIn(StartReceiverStep(s)) && FanIn(ReloadStep(s))
  {
    FanInFrame(s, StartReceiverStep(s));
    FanInFrame(s, ReloadStep(s));
  }

  lemma FanInKeepsCount(c: Config, s: System, step: Step)
    ensures |Next(c, s, step).scanners| == |s.scanners|
  {
  }

  lemma OtherStepFanIn(c: Config, s: System, step: Step)
    requires FanIn(s)
    requires step.BuyTake? || step.BuyCredit? || step.WatchAddress? || step.BindKitty? || step.ChangePrice?
    ensures FanIn(Next(c, s, step))
  {
    FanInFrame(s, Next(c, s, step));
  }

  lemma StepFanIn(c: Config, s: System, step: Step)
    requires FanIn(s)
    ensures FanIn(Next(c, s, step)) && |Next(c, s, step).scanners| == |s.scanners|
  {
    FanInKeepsCount(c, s, step);
    match step
    case Start(i) => StartFanIn(s, i);
    case Load(i) => QueueStepsFanIn(c, s, i);
    case Push(i) => QueueStepsFanIn(c, s, i);
    case Take(i) => QueueStepsFanIn(c, s, i);
    case ScanBlock(i, block) => ScanFanIn(c, s, i, block);
    case Mark(i) => MarkFanIn(s, i);
    case Hand(i) => HandFanIn(s, i);
    case Forward(i) => ForwardFanIn(s, i);
    case Crash => CrashFanIn(s);
    case BuyTake => OtherStepFanIn(c, s, step);
    case BuyCredit => OtherStepFanIn(c, s, step);
    case WatchAddress(_, _) => OtherStepFanIn(c, s, step);
    case BindKitty(_, _, _) => OtherStepFanIn(c, s, step);
    case ChangePrice(_, _) => OtherStepFanIn(c, s, step);
    case Receive => ReceiveFanIn(s);
    case Answer => AnswerFanIn(s);
    case Save => SaveFanIn(s);
    case Emit => SaveFanIn(s);
    case StartReceiver => ReloadFanIn(s);
    case Reload => ReloadFanIn(s);
  }

  lemma InitialFanIn(c: Config, meta: map<string, seq<string>>)
    ensures FanIn(Initial(c, meta))
  {
  }

  lemma {:induction false} RunFanIn(c: Config, s: System, steps: seq<Step>)
    requires FanIn(s)
    ensures FanIn(RunSteps(c, s, steps)) && |RunSteps(c, s, steps).scanners| == |s.scanners|
  {
    if steps != [] {
      RunFanIn(c, s, steps[..|steps| - 1]);
      StepFanIn(c, RunSteps(c, s, steps[..|steps| - 1]), steps[|steps| - 1]);
    }
  }

  // Consequences

  function Counts(notes: seq<Note>, n: nat): nat {
    if n == 0 then 0 else Counts(notes, n - 1) + |Project(notes, n - 1)|
  }

  lemma {:induction false} CountsStep(notes: seq<Note>, note: Note, n: nat)
    ensures Counts(notes + [note], n) == Counts(notes, n) + if note.src < n then 1 else 0
  {
    if n > 0 {
      CountsStep(notes, note, n - 1);
      ProjectConcat(notes, [note], n - 1);
      ProjectOne(note, n - 1);
    }
  }

  lemma {:induction false} CountsAll(notes: seq<Note>, n: nat)
    requires forall x :: x in notes ==> x.src < n
    ensures Counts(notes, n) == |notes|
  {
    if notes == [] {
      CountsNothing(n);
    } else {
      var init := notes[..|notes| - 1];
      CountsAll(init, n);
      assert notes == init + [notes[|notes| - 1]];
      CountsStep(init, notes[|notes| - 1], n);
    }
  }

  lemma {:induction false} CountsNothing(n: nat)
    ensures Counts([], n) == 0
  {
    if n > 0 { CountsNothing(n - 1); }
  }

  lemma {:induction false} AtMostOneEach(notes: seq<Note>, n: nat)
    requires forall i :: 0 <= i < n ==> |Project(notes, i)| <= 1
    ensures Counts(notes, n) <= n
  {
    if n > 0 { AtMostOneEach(notes, n - 1); }
  }

  /** With at most 1000 scanners, a forwarding goroutine that holds a note can always send it at once; outChan never
      holds two notes of one scanner. */
  lemma ForwardNeverBlocks(s: System, i: nat)
    requires FanIn(s)
    ensures forall j :: 0 <= j < |s.scanners| ==> |Project(s.outChan, j)| <= 1
    ensures |s.outChan| <= |s.scanners|
    ensures IsUp(s, i) && s.scanners[i].mux != [] && |s.scanners| <= OUT_CAPACITY ==> |s.outChan| < OUT_CAPACITY
  {
    forall j | 0 <= j < |s.scanners| ensures |Project(s.outChan, j)| <= 1 {
      assert InOrder(s, j);
    }
    AtMostOneEach(s.outChan, |s.scanners|);
    CountsAll(s.outChan, |s.scanners|);
    if IsUp(s, i) && s.scanners[i].mux != [] {
      var note := Note(i, s.scanners[i].mux[0]);
      var more := s.outChan + [note];
      forall j | 0 <= j < |s.scanners| ensures |Project(more, j)| <= 1 {
        assert InOrder(s, j);
        ProjectConcat(s.outChan, [note], j);
        ProjectOne(note, j);
      }
      AtMostOneEach(more, |s.scanners|);
      CountsAll(more, |s.scanners|);
    }
  }

  /** When the receiver answers, the scanner that sent the note is waiting for exactly this deposit with an empty
      ErrC, so the send does not block. */
  lemma AnswerNeverBlocks(s: System)
    requires FanIn(s) && s.receiver.Running? && (s.receiver.stage.Received? || s.receiver.stage.Saved?)
    ensures var note := s.receiver.stage.note;
            IsUp(s, note.src) && s.scanners[note.src].pipe == Handed(note.dv)
  {
    var note := s.receiver.stage.note;
    assert InOrder(s, note.src);
    if IsUp(s, note.src) {
      var sc := s.scanners[note.src];
      var all := AtReceiver(s.receiver, note.src) + Project(s.outChan, note.src) + sc.mux;
      assert all[0] == note.dv;
    }
  }

  /** What the receiver has read, followed by outChan, is a merge of what the scanners handed over: for each scanner
      its own sequence, but for one note its forwarding goroutine may still hold. */
  lemma ReceivedIsMerge(c: Config, meta: map<string, seq<string>>, steps: seq<Step>, i: nat)
    ensures var s := RunSteps(c, Initial(c, meta), steps);
            IsUp(s, i) ==>
              Project(s.received + s.outChan, i) + s.scanners[i].mux == s.scanners[i].handed &&
              |AtReceiver(s.receiver, i)| + |Project(s.outChan, i)| + |s.scanners[i].mux| <= 1
  {
    InitialFanIn(c, meta);
    RunFanIn(c, Initial(c, meta), steps);
    var s := RunSteps(c, Initial(c, meta), steps);
    if IsUp(s, i) {
      assert InOrder(s, i);
      ProjectConcat(s.received, s.outChan, i);
    }
  }
}

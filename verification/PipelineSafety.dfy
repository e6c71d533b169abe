/**
 Crash safety of the deposit pipeline: in every reachable state no scanned deposit is lost between the scanner's
 bucket and the exchange's bucket, and no recorded deposit is lost between the receiver and the buy step.
 */
module PipelineSafety {
  import opened Common
  import opened Deposits
  import opened ScanStore
  import opened Exchange
  import opened ExchangeLedger
  import LedgerRuns
  import opened Pipeline

  // The invariant, part by part

  predicate InPipe(p: Pipe, d: Deposit) {
    !p.Idle? && p.dv == d
  }

  /** d is somewhere between the start-up list or the scan and the mark. */
  predicate InFlight(sc: Scanner, d: Deposit) {
    sc.Up? && (d in sc.loading || d in sc.pending || d in sc.queue || InPipe(sc.pipe, d))
  }

  /** Scanner i has d in flight. */
  predicate Holds(scanners: seq<Scanner>, i: int, d: Deposit) {
    0 <= i < |scanners| && InFlight(scanners[i], d)
  }

  ghost predicate SomeUp(scanners: seq<Scanner>) {
    exists i :: 0 <= i < |scanners| && scanners[i].Up?
  }

  predicate Stored(m: Bucket, d: Deposit) {
    d.ID() in m && m[d.ID()].(status := NotProcessed) == d
  }

  ghost predicate BucketKeyed(m: Bucket) {
    forall id :: id in m ==> m[id].ID() == id && (m[id].status.NotProcessed? || m[id].status.Accepted?)
  }

  ghost predicate AcceptedRecorded(m: Bucket, infos: map<string, DepositInfo>) {
    forall id :: id in m && m[id].status.Accepted? ==> id in infos
  }

  ghost predicate RecordsScanned(m: Bucket, infos: map<string, DepositInfo>) {
    forall id :: id in infos ==> id in m && infos[id].deposit == m[id].(status := NotProcessed)
  }

  ghost predicate FlightStored(m: Bucket, scanners: seq<Scanner>) {
    forall i, d :: 0 <= i < |scanners| && InFlight(scanners[i], d) ==> Stored(m, d)
  }

  ghost predicate AnswersRecorded(infos: map<string, DepositInfo>, scanners: seq<Scanner>) {
    forall i :: 0 <= i < |scanners| && scanners[i].Up? && scanners[i].pipe.Answered? && scanners[i].pipe.ok ==>
      scanners[i].pipe.dv.ID() in infos
  }

  ghost predicate NotesStored(m: Bucket, notes: seq<Note>) {
    forall n :: n in notes ==> Stored(m, n.dv)
  }

  /** di was read from the record under its id; only its status may be out of date. */
  ghost predicate Known(infos: map<string, DepositInfo>, di: DepositInfo) {
    di.depositID in infos && SameInfo(infos[di.depositID], di)
  }

  ghost predicate StageSound(m: Bucket, infos: map<string, DepositInfo>, stage: Stage) {
    match stage
    case Waiting => true
    case Received(note) => Stored(m, note.dv)
    case Saved(note, result) =>
      Stored(m, note.dv) && (result.Some? ==> Known(infos, result.value) && result.value.depositID == note.dv.ID())
    case Forwarding(di) => Known(infos, di)
  }

  /** Once any scanner has started, every deposit still NotProcessed was refused in this run or is in flight. */
  ghost predicate Covered(m: Bucket, scanners: seq<Scanner>, refused: set<string>) {
    SomeUp(scanners) ==>
      forall id :: id in m && m[id].status.NotProcessed? && id !in refused ==> exists i :: Holds(scanners, i, m[id])
  }

  /** The pipe of a scanner answers for the deposit the receiver is working on. */
  ghost predicate AnswerMatches(s: System) {
    s.receiver.Running? && s.receiver.stage.Saved? ==>
      var note := s.receiver.stage.note;
      IsUp(s, note.src) && s.scanners[note.src].pipe.Handed? ==> s.scanners[note.src].pipe.dv == note.dv
  }

  ghost predicate Safe(s: System) {
    var m := s.scan.deposits;
    var infos := s.ledger.db.infos;
    && BucketKeyed(m) && AcceptedRecorded(m, infos) && RecordsScanned(m, infos)
    && FlightStored(m, s.scanners) && AnswersRecorded(infos, s.scanners) && NotesStored(m, s.outChan)
    && (s.receiver.Running? ==> StageSound(m, infos, s.receiver.stage))
    && Covered(m, s.scanners, s.refused)
  }

  // Moving a deposit inside one scanner

  lemma Rearranged(s: System, i: nat, sc: Scanner)
    requires Safe(s) && IsUp(s, i) && sc.Up?
    requires forall d :: InFlight(sc, d) <==> InFlight(s.scanners[i], d)
    requires sc.pipe.Answered? && sc.pipe.ok ==> sc.pipe.dv.ID() in s.ledger.db.infos
    ensures Safe(SetScanner(s, i, sc))
  {
    var m := s.scan.deposits;
    var scanners := s.scanners[i := sc];
    forall id | id in m && m[id].status.NotProcessed? && id !in s.refused
      ensures exists j :: Holds(scanners, j, m[id])
    {
      var j :| Holds(s.scanners, j, m[id]);
      assert Holds(scanners, j, m[id]);
    }
  }

  lemma HeadIn<T>(s: seq<T>)
    requires s != []
    ensures forall x :: x in s <==> x == s[0] || x in s[1..]
  {
    assert s == [s[0]] + s[1..];
  }

  lemma LoadSafe(c: Config, s: System, i: nat)
    requires Safe(s)
    ensures Safe(LoadStep(c, s, i))
  {
    if LoadStep(c, s, i) != s {
      HeadIn(s.scanners[i].loading);
      Rearranged(s, i, LoadStep(c, s, i).scanners[i]);
    }
  }

  lemma PushSafe(c: Config, s: System, i: nat)
    requires Safe(s)
    ensures Safe(PushStep(c, s, i))
  {
    if PushStep(c, s, i) != s {
      HeadIn(s.scanners[i].pending);
      Rearranged(s, i, PushStep(c, s, i).scanners[i]);
    }
  }

  lemma TakeSafe(s: System, i: nat)
    requires Safe(s)
    ensures Safe(TakeStep(s, i))
  {
    if TakeStep(s, i) != s {
      HeadIn(s.scanners[i].queue);
      Rearranged(s, i, TakeStep(s, i).scanners[i]);
    }
  }

  lemma HandSafe(s: System, i: nat)
    requires Safe(s)
    ensures Safe(HandStep(s, i))
  {
    if HandStep(s, i) != s {
      Rearranged(s, i, HandStep(s, i).scanners[i]);
    }
  }

  /** The forwarding goroutine holds only what its scanner has handed over. */
  ghost predicate MuxInPipe(scanners: seq<Scanner>) {
    forall i, d :: 0 <= i < |scanners| && scanners[i].Up? && d in scanners[i].mux ==> InPipe(scanners[i].pipe, d)
  }

  lemma ForwardSafe(s: System, i: nat)
    requires Safe(s) && MuxInPipe(s.scanners)
    ensures Safe(ForwardStep(s, i))
  {
    var s' := ForwardStep(s, i);
    if s' != s {
      var sc := s.scanners[i];
      assert sc.mux[0] in sc.mux;
      assert InFlight(sc, sc.mux[0]);
      Rearranged(s, i, sc.(mux := sc.mux[1..]));
    }
  }

  // Steps on the scanner's bucket

  lemma StartSafe(s: System, i: nat)
    requires Safe(s)
    ensures Safe(StartStep(s, i))
  {
    var s' := StartStep(s, i);
    var m := s.scan.deposits;
    if s' != s {
      forall d | InFlight(s'.scanners[i], d) ensures Stored(m, d) {
        UnprocessedExact(m, d);
      }
      forall id | id in m && m[id].status.NotProcessed? && id !in s'.refused
        ensures exists j :: Holds(s'.scanners, j, m[id])
      {
        UnprocessedExact(m, m[id]);
        assert Holds(s'.scanners, i, m[id]);
      }
    }
  }

  ghost predicate DataKept(m: Bucket, m': Bucket) {
    forall id :: id in m ==> id in m' && m'[id].(status := NotProcessed) == m[id].(status := NotProcessed)
  }

  lemma BucketChange(s: System, m': Bucket)
    requires Safe(s) && DataKept(s.scan.deposits, m')
    ensures RecordsScanned(m', s.ledger.db.infos) && FlightStored(m', s.scanners) && NotesStored(m', s.outChan)
    ensures s.receiver.Running? ==> StageSound(m', s.ledger.db.infos, s.receiver.stage)
  {
    forall i, d | 0 <= i < |s.scanners| && InFlight(s.scanners[i], d) ensures Stored(m', d) {
      assert Stored(s.scan.deposits, d);
    }
  }

  lemma ScanSafe(c: Config, s: System, i: nat, block: CommonBlock)
    requires Safe(s)
    ensures Safe(ScanStep(c, s, i, block))
  {
    var s' := ScanStep(c, s, i, block);
    if s' != s && Scan(s.scan, block, c.coins[i]).Ok? {
      var watched := AsSet(ScanAddresses(s.scan, c.coins[i]).value);
      var found := Matches(block, c.coins[i], watched);
      FreshExact(s.scan.deposits, found);
      FoundIsNew(s.scan.deposits, found, block, c.coins[i], watched);
      FoundSafe(s, i, found, s');
    }
  }

  lemma FoundSafe(s: System, i: nat, found: seq<Deposit>, s': System)
    requires Safe(s) && IsUp(s, i) && s.scanners[i].pending == []
    requires var m := s.scan.deposits;
             var m' := PushAll(m, found);
             var dvs := Fresh(m, found);
             && s' == SetScanner(s.(scan := s.scan.(deposits := m')), i, s.scanners[i].(pending := dvs))
             && (forall id :: id in m ==> id in m' && m'[id] == m[id])
             && (forall d :: d in dvs ==> d.ID() in m' && m'[d.ID()] == d && d.ID() !in m)
             && (forall id :: id in m' && id !in m ==>
                  m'[id] in dvs && m'[id].ID() == id && m'[id].status.NotProcessed?)
    ensures Safe(s')
  {
    var m, m' := s.scan.deposits, s'.scan.deposits;
    BucketChange(s, m');
    forall j, d | 0 <= j < |s'.scanners| && InFlight(s'.scanners[j], d) ensures Stored(m', d) {
      assert InFlight(s.scanners[j], d) || (j == i && d in s'.scanners[i].pending);
    }
    FoundCovered(s, i, Fresh(m, found), s');
  }

  lemma FoundCovered(s: System, i: nat, dvs: seq<Deposit>, s': System)
    requires Covered(s.scan.deposits, s.scanners, s.refused) && s'.refused == s.refused
    requires IsUp(s, i) && s.scanners[i].pending == [] && s'.scanners == s.scanners[i := s.scanners[i].(pending := dvs)]
    requires forall id :: id in s.scan.deposits ==>
              id in s'.scan.deposits && s'.scan.deposits[id] == s.scan.deposits[id]
    requires forall id :: id in s'.scan.deposits && id !in s.scan.deposits ==> s'.scan.deposits[id] in dvs
    ensures Covered(s'.scan.deposits, s'.scanners, s'.refused)
  {
    var m, m' := s.scan.deposits, s'.scan.deposits;
    forall id | id in m' && m'[id].status.NotProcessed? && id !in s'.refused
      ensures exists j :: Holds(s'.scanners, j, m'[id])
    {
      if id in m {
        var j :| Holds(s.scanners, j, m[id]);
        assert Holds(s'.scanners, j, m'[id]);
      } else {
        assert Holds(s'.scanners, i, m'[id]);
      }
    }
  }

  lemma FoundIsNew(m: Bucket, found: seq<Deposit>, block: CommonBlock, coin: string, watched: set<string>)
    requires found == Matches(block, coin, watched)
    ensures forall id :: id in PushAll(m, found) && id !in m ==>
              PushAll(m, found)[id] in Fresh(m, found) && PushAll(m, found)[id].ID() == id
                  && PushAll(m, found)[id].status.NotProcessed?
  {
    FreshExact(m, found);
    forall id | id in PushAll(m, found) && id !in m
      ensures PushAll(m, found)[id] in Fresh(m, found) && PushAll(m, found)[id].ID() == id
              && PushAll(m, found)[id].status.NotProcessed?
    {
      var d :| d in Fresh(m, found) && d.ID() == id;
      MatchesExact(block, coin, watched, d);
    }
  }

  lemma MarkSafe(s: System, i: nat)
    requires Safe(s)
    ensures Safe(MarkStep(s, i))
  {
    if IsUp(s, i) && s.scanners[i].pipe.Answered? {
      var m, sc := s.scan.deposits, s.scanners[i];
      var id := sc.pipe.dv.ID();
      assert InFlight(sc, sc.pipe.dv);
      if sc.pipe.ok && Process(s.scan, id).Ok? {
        MarkedSafe(s, i, m[id := m[id].(status := Accepted)], s.refused);
      } else {
        MarkedSafe(s, i, m, s.refused + {id});
      }
    }
  }

  lemma MarkedSafe(s: System, i: nat, m': Bucket, refused': set<string>)
    requires Safe(s) && IsUp(s, i) && s.scanners[i].pipe.Answered? && s.refused <= refused'
    requires var m, id := s.scan.deposits, s.scanners[i].pipe.dv.ID();
             || (m' == m && id in refused')
             || (id in s.ledger.db.infos && id in m && m' == m[id := m[id].(status := Accepted)])
    ensures Safe(SetScanner(s.(scan := s.scan.(deposits := m'), refused := refused'), i, s.scanners[i].(pipe := Idle)))
  {
    var s' := SetScanner(s.(scan := s.scan.(deposits := m'), refused := refused'), i, s.scanners[i].(pipe := Idle));
    var dv := s.scanners[i].pipe.dv;
    assert InFlight(s.scanners[i], dv);
    MarkBucket(s.scan.deposits, m', dv, s.ledger.db.infos);
    BucketChange(s, m');
    MarkFlight(s, i, m');
    MarkAnswers(s, i);
    MarkCovered(s, i, s');
  }

  lemma MarkAnswers(s: System, i: nat)
    requires IsUp(s, i) && AnswersRecorded(s.ledger.db.infos, s.scanners)
    ensures AnswersRecorded(s.ledger.db.infos, s.scanners[i := s.scanners[i].(pipe := Idle)])
  {
  }

  lemma MarkBucket(m: Bucket, m': Bucket, dv: Deposit, infos: map<string, DepositInfo>)
    requires BucketKeyed(m) && AcceptedRecorded(m, infos) && Stored(m, dv)
    requires m' == m || (dv.ID() in infos && m' == m[dv.ID() := m[dv.ID()].(status := Accepted)])
    ensures BucketKeyed(m') && AcceptedRecorded(m', infos) && DataKept(m, m')
  {
  }

  lemma MarkFlight(s: System, i: nat, m: Bucket)
    requires IsUp(s, i) && s.scanners[i].pipe.Answered? && FlightStored(m, s.scanners)
    ensures FlightStored(m, s.scanners[i := s.scanners[i].(pipe := Idle)])
  {
    var scanners := s.scanners[i := s.scanners[i].(pipe := Idle)];
    forall j, d | 0 <= j < |scanners| && InFlight(scanners[j], d) ensures Stored(m, d) {
      assert InFlight(s.scanners[j], d);
    }
  }

  lemma MarkCovered(s: System, i: nat, s': System)
    requires Covered(s.scan.deposits, s.scanners, s.refused)
    requires IsUp(s, i) && s.scanners[i].pipe.Answered? && s'.scanners == s.scanners[i := s.scanners[i].(pipe := Idle)]
    requires BucketKeyed(s.scan.deposits) && s'.scan.deposits.Keys == s.scan.deposits.Keys
    requires var id := s.scanners[i].pipe.dv.ID();
             && (forall k :: k in s.scan.deposits && k != id ==> s'.scan.deposits[k] == s.scan.deposits[k])
             && (id in s'.refused || (id in s'.scan.deposits && s'.scan.deposits[id].status.Accepted?))
    requires s.refused <= s'.refused
    ensures Covered(s'.scan.deposits, s'.scanners, s'.refused)
  {
    var m, m' := s.scan.deposits, s'.scan.deposits;
    forall id | id in m' && m'[id].status.NotProcessed? && id !in s'.refused
      ensures exists j :: Holds(s'.scanners, j, m'[id])
    {
      assert m[id] == m'[id] && m[id].ID() == id != s.scanners[i].pipe.dv.ID();
      var j :| Holds(s.scanners, j, m[id]);
      assert Holds(s'.scanners, j, m'[id]);
    }
  }

  lemma CrashSafe(s: System)
    requires Safe(s)
    ensures Safe(CrashStep(s))
  {
  }

  // Steps of the receiver

  lemma ReceiveSafe(s: System)
    requires Safe(s)
    ensures Safe(ReceiveStep(s))
  {
    if ReceiveStep(s) != s {
      HeadIn(s.outChan);
    }
  }

  /** Records only gain in number and keep all but their status. */
  ghost predicate RecordsGrow(infos: map<string, DepositInfo>, infos': map<string, DepositInfo>) {
    forall id :: id in infos ==> id in infos' && SameInfo(infos[id], infos'[id])
  }

  lemma SaveSafe(s: System)
    requires Safe(s) && Inv(s.ledger)
    ensures Safe(SaveStep(s))
    ensures RecordsGrow(s.ledger.db.infos, SaveStep(s).ledger.db.infos)
  {
    if s.receiver.Running? && s.receiver.stage.Received? {
      DeliverOutcome(s.ledger.db, s.receiver.stage.note.dv);
    }
  }

  lemma AnswerSafe(s: System)
    requires Safe(s) && AnswerMatches(s)
    ensures Safe(AnswerStep(s))
  {
    if s.receiver.Running? && s.receiver.stage.Saved? {
      var note := s.receiver.stage.note;
      if IsUp(s, note.src) && s.scanners[note.src].pipe.Handed? {
        Rearranged(s, note.src, AnswerStep(s).scanners[note.src]);
      }
    }
  }

  lemma CreditGrows(l: Ledger, di: DepositInfo, key: CompletionKey)
    requires Inv(l) && Known(l.db.infos, di)
    ensures RecordsGrow(l.db.infos, DecideOn(l, di, key).db.infos)
    ensures DecideOn(l, di, key).db.infos.Keys == l.db.infos.Keys
  {
    LedgerRuns.DecideExtends(l, di, key);
  }

  lemma GrowingRecordsSafe(s: System, s': System)
    requires Safe(s)
    requires s'.scan.deposits == s.scan.deposits && s'.scanners == s.scanners && s'.outChan == s.outChan
    requires s'.receiver == s.receiver && s'.refused == s.refused
    requires RecordsGrow(s.ledger.db.infos, s'.ledger.db.infos) && s'.ledger.db.infos.Keys == s.ledger.db.infos.Keys
    ensures Safe(s')
  {
  }
}

/**
 Runs of the exchange's transactions in which a released record is not paid for: the amount of its track overflows, or
 a record was credited twice. Both use the record's own key for the completing write; with the key as it is written
 nothing is ever released.
 */
module LedgerCases {
  import opened Common
  import opened Deposits
  import opened Exchange
  import opened ExchangeLedger
  import opened LedgerRuns

  const OWN_KEY := Intended

  function Coins(value: int64, n: uint32): Deposit {
    Deposit(COIN_SKY, "a", value, 1, "t", n, NotProcessed)
  }

  function RecordOf(dv: Deposit, n: nat, status: Status): DepositInfo {
    NewInfo(dv, "k").(seq_ := n, status := status)
  }

  /** A price, an address bound to the box, and then deposits coming in and being credited. */
  function Setup(p: int64): seq<Op> {
    [SetPrice("k", Price(p, p)), Bind("k", "a", COIN_SKY)]
  }

  /** A deposit comes in and is credited at once, as a record that is still WaitDecide. */
  function PayIn(dv: Deposit): seq<Op> {
    [Deliver(dv), Decide(dv.ID(), WaitDecide)]
  }

  lemma RunOne(l: Ledger, ops: seq<Op>, a: Op, longer: seq<Op>, key: CompletionKey)
    requires longer == ops + [a]
    ensures Run(l, longer, key) == Apply(Run(l, ops, key), a, key)
  {
    assert longer[..|longer| - 1] == ops;
  }

  lemma RunTwo(l: Ledger, ops: seq<Op>, a: Op, b: Op, key: CompletionKey)
    ensures Run(l, ops + [a, b], key) == Apply(Apply(Run(l, ops, key), a, key), b, key)
  {
    RunOne(l, ops, a, ops + [a], key);
    RunOne(l, ops + [a], b, ops + [a, b], key);
  }

  function Amount(l: Ledger): int64
    requires "a" in l.db.tracks
  {
    l.db.tracks["a"].deposited
  }

  /** One address, bound to a box at price p. */
  ghost predicate OneAddress(l: Ledger, p: int64) {
    && l.db.binds == map[(COIN_SKY, "a") := BoundAddress("k", "a", COIN_SKY)] && l.db.prices == map["k" := Price(p, p)]
    && (l.db.infos == map[] <==> "a" !in l.db.tracks)
    && ("a" in l.db.tracks ==> l.db.tracks["a"].required == p)
  }

  lemma SetUp(p: int64) returns (l: Ledger)
    ensures l == Run(EMPTY, Setup(p), OWN_KEY) && OneAddress(l, p)
    ensures l.db.infos == map[] && l.db.tracks == map[] && l.db.lastSeq == 0 && l.db.txs == map[] && l.credits == []
  {
    l := Run(EMPTY, Setup(p), OWN_KEY);
    RunTwo(EMPTY, [], Setup(p)[0], Setup(p)[1], OWN_KEY);
    assert [] + Setup(p) == Setup(p);
  }

  /** A new deposit of the address is recorded under the next number. */
  lemma Recorded(l: Ledger, p: int64, dv: Deposit)
    requires OneAddress(l, p) && dv.coinType == COIN_SKY && dv.address == "a" && dv.value != 0 && dv.ID() !in l.db.infos
    requires dv.ID() != ""
    ensures var l' := DeliverTo(l, dv);
            && l'.credits == l.credits && l'.db.binds == l.db.binds && l'.db.prices == l.db.prices
            && l'.db.infos == l.db.infos[dv.ID() := RecordOf(dv, l.db.lastSeq + 1, WaitDecide)]
            && l'.db.lastSeq == l.db.lastSeq + 1
            && "a" in l'.db.tracks && l'.db.tracks["a"].required == p
            && Amount(l') == (if "a" in l.db.tracks then Amount(l) else 0)
            && "a" in l'.db.txs && l'.db.txs["a"] == (if "a" in l.db.txs then l.db.txs["a"] else []) + [dv.ID()]
  {
  }

  /** A credit adds its value and releases the record when that fills the track. */
  lemma CreditedOnce(l: Ledger, p: int64, id: string)
    requires OneAddress(l, p) && "a" in l.db.tracks && id != "" && id in l.db.infos
    requires l.db.infos[id].depositID == id && l.db.infos[id].depositAddress == "a" && l.db.infos[id].txid == ""
    ensures var di := l.db.infos[id].(status := WaitDecide);
            var l' := Apply(l, Decide(id, WaitDecide), OWN_KEY);
            && OneAddress(l', p) && "a" in l'.db.tracks && Amount(l') == Wrap64(Amount(l) + di.depositValue)
            && l'.db.infos == l.db.infos[id := di.(status := if Amount(l') < p then WaitPartial else WaitSend)]
            && l'.db.txs == l.db.txs && l'.db.lastSeq == l.db.lastSeq
            && l'.credits == l.credits + [Entry("a", id, di.depositValue)]
  {
    DecideCases(l.db, l.db.infos[id].(status := WaitDecide), OWN_KEY);
  }

  lemma PaidIn(l: Ledger, ops: seq<Op>, p: int64, dv: Deposit) returns (l': Ledger)
    requires Run(EMPTY, ops, OWN_KEY) == l && OneAddress(l, p)
    requires dv.coinType == COIN_SKY && dv.address == "a" && dv.value != 0 && dv.ID() !in l.db.infos
    ensures l' == Run(EMPTY, ops + PayIn(dv), OWN_KEY) && OneAddress(l', p) && "a" in l'.db.tracks && "a" in l'.db.txs
    ensures Amount(l') == Wrap64((if "a" in l.db.tracks then Amount(l) else 0) + dv.value)
    ensures l'.db.infos ==
            l.db.infos[dv.ID() := RecordOf(dv, l.db.lastSeq + 1, if Amount(l') < p then WaitPartial else WaitSend)]
    ensures l'.db.lastSeq == l.db.lastSeq + 1 && l'.credits == l.credits + [Entry("a", dv.ID(), dv.value)]
    ensures l'.db.txs["a"] == (if "a" in l.db.txs then l.db.txs["a"] else []) + [dv.ID()]
  {
    hide Run, Wrap64, GetOrCreate, UpdateStatus, DeliverTo, DecideOn;
    l' := Run(EMPTY, ops + PayIn(dv), OWN_KEY);
    RunTwo(EMPTY, ops, PayIn(dv)[0], PayIn(dv)[1], OWN_KEY);
    Recorded(l, p, dv);
    CreditedOnce(DeliverTo(l, dv), p, dv.ID());
  }

  /** A recorded deposit comes in again and its record is credited again. */
  lemma PaidAgain(l: Ledger, ops: seq<Op>, p: int64, dv: Deposit) returns (l': Ledger)
    requires Run(EMPTY, ops, OWN_KEY) == l && OneAddress(l, p) && "a" in l.db.tracks && dv.ID() in l.db.infos
    requires var di := l.db.infos[dv.ID()]; di.depositID == dv.ID() && di.depositAddress == "a" && di.txid == ""
    ensures l' == Run(EMPTY, ops + PayIn(dv), OWN_KEY) && OneAddress(l', p) && "a" in l'.db.tracks
    ensures var di := l.db.infos[dv.ID()];
            && Amount(l') == Wrap64(Amount(l) + di.depositValue)
            && l'.db.infos == l.db.infos[dv.ID() := di.(status := if Amount(l') < p then WaitPartial else WaitSend)]
            && l'.db.txs == l.db.txs && l'.db.lastSeq == l.db.lastSeq
            && l'.credits == l.credits + [Entry("a", dv.ID(), di.depositValue)]
  {
    hide Run;
    l' := Run(EMPTY, ops + PayIn(dv), OWN_KEY);
    RunTwo(EMPTY, ops, PayIn(dv)[0], PayIn(dv)[1], OWN_KEY);
    assert DeliverTo(l, dv) == l;
    CreditedOnce(l, p, dv.ID());
  }

  /** The amount overflows: after the second deposit the first record is released and the track is short. */
  lemma OverflowUnpays()
    ensures var l := Run(EMPTY, Setup(1) + PayIn(Coins(TWO_TO_63 - 1, 0)) + PayIn(Coins(1, 1)), OWN_KEY);
            var id := Coins(TWO_TO_63 - 1, 0).ID();
            && id in l.db.infos && l.db.infos[id].status.WaitSend? && NoNegativeAt(l.credits, "a")
            && "a" in l.db.tracks && l.db.tracks["a"].deposited < l.db.tracks["a"].required
  {
    hide Run;
    var first, second := Coins(TWO_TO_63 - 1, 0), Coins(1, 1);
    IdentifierInjective(first, second);
    var l0 := SetUp(1);
    var l1 := PaidIn(l0, Setup(1), 1, first);
    var l2 := PaidIn(l1, Setup(1) + PayIn(first), 1, second);
    assert Wrap64(TWO_TO_63) == -TWO_TO_63;
  }

  /** A record of 1 is credited twice, then another of 1 for the first time: at a price of 3 that one is released,
      though the records of the address add up to 2. */
  lemma FirstCreditReleasesUnpaid()
    ensures var one, two := Coins(1, 0), Coins(1, 1);
            var l := Run(EMPTY, Setup(3) + PayIn(one) + PayIn(one) + PayIn(two), OWN_KEY);
            && two.ID() in l.db.infos && l.db.infos[two.ID()].status.WaitSend?
               && TimesCredited(l.credits, two.ID()) == 1
            && "a" in l.db.tracks && l.db.tracks["a"].deposited == l.db.tracks["a"].required == 3
            && "a" in l.db.txs && l.db.txs["a"] == [one.ID(), two.ID()] && one.ID() in l.db.infos
            && LeftValue(l.db.infos, l.db.txs["a"]) == 2
  {
    hide Run;
    var one, two := Coins(1, 0), Coins(1, 1);
    IdentifierInjective(one, two);
    var l0 := SetUp(3);
    var l1 := PaidIn(l0, Setup(3), 3, one);
    var l2 := PaidAgain(l1, Setup(3) + PayIn(one), 3, one);
    var l3 := PaidIn(l2, Setup(3) + PayIn(one) + PayIn(one), 3, two);
    CountsOfThree(l3, one.ID(), two.ID());
  }

  lemma CountsOfThree(l: Ledger, one: string, two: string)
    requires one != two && l.credits == [Entry("a", one, 1), Entry("a", one, 1), Entry("a", two, 1)]
    requires one in l.db.infos && l.db.infos[one].depositValue == 1 && !l.db.infos[one].status.WaitDecide?
    requires two in l.db.infos && l.db.infos[two].depositValue == 1 && !l.db.infos[two].status.WaitDecide?
    ensures TimesCredited(l.credits, two) == 1 && LeftValue(l.db.infos, [one, two]) == 2
  {
    var e, f := Entry("a", one, 1), Entry("a", two, 1);
    assert [e, e, f][..2] == [e, e] && [e, e][..1] == [e] && [e][..0] == [];
    assert TimesCredited([e], two) == 0;
    assert TimesCredited([e, e], two) == 0;
    assert [one, two][..1] == [one] && [one][..0] == [];
    assert LeftValue(l.db.infos, [one]) == 1;
  }
}

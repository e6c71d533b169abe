/**
 The wallet scanner of cmd/scan: for each address it keeps which blocks have been scanned, as [1..min] and [mid..max],
 and the transactions found there.
 */
module Tracker {
  import opened Common

  datatype Tx = Tx(txHash: string, address: string, blockHash: string, parentHash: string,
                   blockHeight: int, satoshiAmount: int64, bitcoinAmount: string)

  datatype Deposit = Deposit(addr: string, tx: Tx)

  datatype Address = Address(addr: string, min: int, mid: int, max: int, txs: seq<Tx>)

  /** The deposits of each block, as scanBlock lists them; scanBlock stamps them with the block's number. */
  type Chain = int -> seq<Deposit>

  ghost predicate Stamped(chain: Chain) {
    forall b: int, d :: d in chain(b) ==> d.tx.blockHeight == b
  }

  // One block for one address

  /** The transactions of a block's deposits to an address, repeats included. */
  function Matching(deps: seq<Deposit>, addr: string): seq<Tx> {
    if deps == [] then []
    else
      var d := deps[|deps| - 1];
      Matching(deps[..|deps| - 1], addr) + if addr == d.addr then [d.tx] else []
  }

  function NewTxs(a: Address, deps: seq<Deposit>): seq<Tx> {
    if deps == [] then []
    else
      var d := deps[|deps| - 1];
      NewTxs(a, deps[..|deps| - 1]) + if a.addr == d.addr && d.tx !in a.txs then [d.tx] else []
  }

  function Update(a: Address, deps: seq<Deposit>, b: int): Address {
    var txs := a.txs + NewTxs(a, deps);
    if a.max == 0 && b > 1 then a.(txs := txs, mid := b, max := b)
    else if a.min < a.max && a.min == b - 1 then a.(txs := txs, min := b, mid := if b > a.mid then b else a.mid)
    else if a.max > a.min && a.max == b - 1 then a.(txs := txs, max := b)
    else if a.min == a.mid == a.max == b - 1 then a.(txs := txs, min := b, mid := b, max := b)
    else a
  }

  function UpdateAll(s: seq<Address>, deps: seq<Deposit>, b: int): (r: seq<Address>)
    ensures |r| == |s|
  {
    seq(|s|, i requires 0 <= i < |s| => Update(s[i], deps, b))
  }

  method ExistTx(a: Address, tx: Tx) returns (found: bool)
    ensures found <==> tx in a.txs
  {
    for i := 0 to |a.txs|
      invariant tx !in a.txs[..i]
    {
      if a.txs[i] == tx {
        return true;
      }
    }
    return false;
  }

  method FindTxs(a: Address, deps: seq<Deposit>) returns (txs: seq<Tx>)
    ensures txs == NewTxs(a, deps)
  {
    txs := [];
    for i := 0 to |deps|
      invariant txs == NewTxs(a, deps[..i])
    {
      assert deps[..i + 1][..i] == deps[..i];
      var found := ExistTx(a, deps[i].tx);
      if a.addr == deps[i].addr && !found {
        txs := txs + [deps[i].tx];
      }
    }
    assert deps[..|deps|] == deps;
  }

  method UpdateAddressInfo(addrs: array<Address>, deps: seq<Deposit>, blockID: int)
    modifies addrs
    ensures addrs[..] == UpdateAll(old(addrs[..]), deps, blockID)
  {
    for i := 0 to addrs.Length
      invariant forall k :: 0 <= k < i ==> addrs[k] == Update(old(addrs[k]), deps, blockID)
      invariant forall k :: i <= k < addrs.Length ==> addrs[k] == old(addrs[k])
    {
      var addr := addrs[i];
      var txs := FindTxs(addr, deps);
      if addr.max == 0 && blockID > 1 {
        addrs[i] := addrs[i].(txs := addr.txs + txs);
        addrs[i] := addrs[i].(max := blockID);
        addrs[i] := addrs[i].(mid := blockID);
      } else if addr.min < addr.max && addr.min == blockID - 1 {
        addrs[i] := addrs[i].(txs := addr.txs + txs);
        addrs[i] := addrs[i].(min := blockID);
        if addrs[i].min > addrs[i].mid {
          addrs[i] := addrs[i].(mid := addrs[i].min);
        }
      } else if addr.max > addr.min && addr.max == blockID - 1 {
        addrs[i] := addrs[i].(txs := addr.txs + txs);
        addrs[i] := addrs[i].(max := blockID);
      } else if addr.min == addr.mid && addr.min == addr.max && addr.max == blockID - 1 {
        addrs[i] := addrs[i].(txs := addr.txs + txs);
        addrs[i] := addrs[i].(max := blockID);
        addrs[i] := addrs[i].(mid := blockID);
        addrs[i] := addrs[i].(min := blockID);
      }
    }
  }

  // Exactness

  predicate Ordered(a: Address) {
    0 <= a.min <= a.mid <= a.max
  }

  predicate Covered(a: Address, b: int) {
    1 <= b && (b <= a.min || a.mid <= b <= a.max)
  }

  /** How often the chain says that t belongs in the address's list. */
  function Expected(chain: Chain, a: Address, t: Tx): nat {
    if Covered(a, t.blockHeight) then multiset(Matching(chain(t.blockHeight), a.addr))[t] else 0
  }

  /** The list holds exactly the matching transactions of the covered blocks, each as often as the chain has it. */
  ghost predicate Exact(chain: Chain, a: Address) {
    Ordered(a) && forall t :: multiset(a.txs)[t] == Expected(chain, a, t)
  }

  lemma {:induction false} MatchingMembers(deps: seq<Deposit>, addr: string, t: Tx)
    ensures t in Matching(deps, addr) <==> exists d :: d in deps && d.addr == addr && d.tx == t
  {
    if deps != [] {
      var n := |deps| - 1;
      MatchingMembers(deps[..n], addr, t);
      assert forall d :: d in deps <==> d in deps[..n] || d == deps[n];
    }
  }

  lemma {:induction false} NothingNew(a: Address, deps: seq<Deposit>)
    requires forall d :: d in deps && d.addr == a.addr ==> d.tx in a.txs
    ensures NewTxs(a, deps) == []
  {
    if deps != [] { NothingNew(a, deps[..|deps| - 1]); }
  }

  lemma {:induction false} AllNew(a: Address, deps: seq<Deposit>)
    requires forall d :: d in deps && d.addr == a.addr ==> d.tx !in a.txs
    ensures NewTxs(a, deps) == Matching(deps, a.addr)
  {
    if deps != [] { AllNew(a, deps[..|deps| - 1]); }
  }

  /** Scanning a block again adds nothing; scanning it for the first time adds all its matches. */
  lemma NewTxsOfBlock(chain: Chain, a: Address, b: int)
    requires Stamped(chain) && Exact(chain, a)
    ensures NewTxs(a, chain(b)) == if Covered(a, b) then [] else Matching(chain(b), a.addr)
  {
    forall d | d in chain(b) && d.addr == a.addr ensures d.tx in a.txs <==> Covered(a, b) {
      MatchingMembers(chain(b), a.addr, d.tx);
      assert multiset(a.txs)[d.tx] == Expected(chain, a, d.tx);
    }
    if Covered(a, b) {
      NothingNew(a, chain(b));
    } else {
      AllNew(a, chain(b));
    }
  }

  /** Block b can be joined to the scanned ranges: it is in them or right behind one of them, or nothing has been
      scanned yet. */
  predicate Joins(a: Address, b: int) {
    Covered(a, b) || a.max == 0 || b == a.min + 1 || b == a.max + 1
  }

  /** The step that scans block b covers b afterwards exactly when b can be joined to the scanned ranges. It changes
      the coverage of no other block, and a block that was not covered and cannot be joined changes nothing. */
  lemma UpdateCovers(a: Address, deps: seq<Deposit>, b: int)
    requires Ordered(a)
    ensures var a' := Update(a, deps, b);
            && Ordered(a') && a'.addr == a.addr
            && (a'.txs == a.txs + NewTxs(a, deps) || a' == a)
            && (a' != a ==> forall h :: Covered(a', h) <==> Covered(a, h) || h == b)
            && (b >= 1 ==> (Covered(a', b) <==> Joins(a, b)))
            && (b >= 1 && !Covered(a, b) ==> (a' != a <==> Joins(a, b)))
  {
  }

  /** One block keeps an address exact, whichever branch is taken. */
  lemma UpdateExact(chain: Chain, a: Address, b: int)
    requires Stamped(chain) && Exact(chain, a)
    ensures Exact(chain, Update(a, chain(b), b))
  {
    var a' := Update(a, chain(b), b);
    UpdateCovers(a, chain(b), b);
    if a' != a {
      NewTxsOfBlock(chain, a, b);
      forall t ensures multiset(a'.txs)[t] == Expected(chain, a', t) {
        assert multiset(a'.txs)[t] == multiset(a.txs)[t] + multiset(NewTxs(a, chain(b)))[t];
        assert multiset(a.txs)[t] == Expected(chain, a, t);
        MatchingMembers(chain(b), a.addr, t);
      }
    }
  }

  function Scans(s: seq<Address>, chain: Chain, blocks: seq<int>): (r: seq<Address>)
    ensures |r| == |s|
  {
    if blocks == [] then s
    else
      var b := blocks[|blocks| - 1];
      UpdateAll(Scans(s, chain, blocks[..|blocks| - 1]), chain(b), b)
  }

  ghost predicate AllExact(chain: Chain, s: seq<Address>) {
    forall i :: 0 <= i < |s| ==> Exact(chain, s[i])
  }

  /** Any sequence of blocks, in any order and with repeats, keeps min <= mid <= max and the lists exact. */
  lemma {:induction false} ScansExact(chain: Chain, s: seq<Address>, blocks: seq<int>)
    requires Stamped(chain) && AllExact(chain, s)
    ensures AllExact(chain, Scans(s, chain, blocks))
  {
    if blocks != [] {
      var n := |blocks| - 1;
      ScansExact(chain, s, blocks[..n]);
      var before := Scans(s, chain, blocks[..n]);
      forall i | 0 <= i < |s| ensures Exact(chain, Scans(s, chain, blocks)[i]) {
        UpdateExact(chain, before[i], blocks[n]);
      }
    }
  }

  /** The wallet that addBTCAddress builds from a list of addresses. */
  function NewWallet(addrs: seq<string>): (s: seq<Address>)
    ensures |s| == |addrs|
  {
    seq(|addrs|, k requires 0 <= k < |addrs| => Address(addrs[k], 0, 0, 0, []))
  }

  /** From a new wallet, after any scans: a transaction is listed exactly when it is in a covered block, and it is not
      listed twice unless its block lists it twice. */
  lemma NoneMissingNoneTwice(chain: Chain, addrs: seq<string>, blocks: seq<int>, i: nat, t: Tx)
    requires Stamped(chain) && i < |addrs|
    ensures var a := Scans(NewWallet(addrs), chain, blocks)[i];
            && (Covered(a, t.blockHeight) && t in Matching(chain(t.blockHeight), a.addr) <==> t in a.txs)
            && (multiset(Matching(chain(t.blockHeight), a.addr))[t] <= 1 ==> multiset(a.txs)[t] <= 1)
  {
    ScansExact(chain, NewWallet(addrs), blocks);
    var a := Scans(NewWallet(addrs), chain, blocks)[i];
    assert multiset(a.txs)[t] == Expected(chain, a, t);
  }

  // Which block to scan next

  predicate IsNextMin(s: seq<Address>, b: int) {
    (exists i :: 0 <= i < |s| && s[i].min == b - 1) && forall i :: 0 <= i < |s| ==> b - 1 <= s[i].min
  }

  predicate IsNextMax(s: seq<Address>, b: int) {
    (exists i :: 0 <= i < |s| && s[i].max == b - 1) && forall i :: 0 <= i < |s| ==> s[i].max <= b - 1
  }

  function Gap(a: Address): int {
    a.mid - a.min
  }

  /** k is the first address with the smallest gap that is not zero: a missing middle, or in a wallet that was not
      built by scans, a negative one. */
  predicate SmallestGap(s: seq<Address>, k: int) {
    && 0 <= k < |s| && Gap(s[k]) != 0
    && (forall i :: 0 <= i < |s| && Gap(s[i]) != 0 ==> Gap(s[k]) <= Gap(s[i]))
    && (forall i :: 0 <= i < k && Gap(s[i]) != 0 ==> Gap(s[k]) < Gap(s[i]))
  }

  predicate NoGap(s: seq<Address>) {
    forall i :: 0 <= i < |s| ==> Gap(s[i]) == 0
  }

  ghost predicate IsShort(s: seq<Address>, b: int) {
    if NoGap(s) then s != [] && b == s[0].min + 1
    else exists k :: SmallestGap(s, k) && b == s[k].min + 1
  }

  method FindMin(addrs: array<Address>) returns (b: int)
    requires addrs.Length > 0
    ensures IsNextMin(addrs[..], b)
  {
    var min := addrs[0].min;
    for i := 0 to addrs.Length
      invariant exists k :: 0 <= k < addrs.Length && addrs[k].min == min
      invariant forall k :: 0 <= k < i ==> min <= addrs[k].min
    {
      if addrs[i].min < min {
        min := addrs[i].min;
      }
    }
    b := min + 1;
    var k :| 0 <= k < addrs.Length && addrs[k].min == min;
    assert addrs[..][k].min == b - 1;
  }

  method FindMax(addrs: array<Address>) returns (b: int)
    requires addrs.Length > 0
    ensures IsNextMax(addrs[..], b)
  {
    var max := addrs[0].max;
    for i := 0 to addrs.Length
      invariant exists k :: 0 <= k < addrs.Length && addrs[k].max == max
      invariant forall k :: 0 <= k < i ==> addrs[k].max <= max
    {
      if addrs[i].max > max {
        max := addrs[i].max;
      }
    }
    b := max + 1;
    var k :| 0 <= k < addrs.Length && addrs[k].max == max;
    assert addrs[..][k].max == b - 1;
  }

  method FindShort(addrs: array<Address>) returns (b: int)
    requires addrs.Length > 0
    ensures IsShort(addrs[..], b)
  {
    var s := addrs[..];
    var dif := 0;
    var short := addrs[0].min;
    ghost var at := 0;
    for i := 0 to addrs.Length
      invariant dif == 0 && short == addrs[0].min
      invariant forall k :: 0 <= k < i ==> Gap(s[k]) <= 0
    {
      if Gap(addrs[i]) > 0 {
        dif := Gap(addrs[i]);
        short := addrs[i].min;
        at := i;
        break;
      }
    }
    for i := 0 to addrs.Length
      invariant dif == 0 ==> short == s[0].min && forall k :: 0 <= k < |s| ==> Gap(s[k]) <= 0
      invariant dif == 0 ==> forall k :: 0 <= k < i ==> Gap(s[k]) == 0
      invariant dif != 0 ==> 0 <= at < |s| && dif == Gap(s[at]) && short == s[at].min
      invariant dif != 0 ==> forall k :: 0 <= k < i && Gap(s[k]) != 0 ==> dif <= Gap(s[k])
      invariant dif != 0 ==> forall k :: 0 <= k < i && k < at && Gap(s[k]) != 0 ==> dif < Gap(s[k])
      invariant dif != 0 && at >= i ==> dif > 0 && forall k :: 0 <= k < at ==> Gap(s[k]) <= 0
    {
      if Gap(addrs[i]) < dif && Gap(addrs[i]) != 0 {
        dif := Gap(addrs[i]);
        short := addrs[i].min;
        at := i;
      }
    }
    if dif != 0 {
      assert SmallestGap(s, at);
    }
    return short + 1;
  }

  // Progress

  predicate AllOrdered(s: seq<Address>) {
    forall i :: 0 <= i < |s| ==> Ordered(s[i])
  }

  /** A scan at findMin moves findMin to the next block. */
  lemma MinAdvances(s: seq<Address>, deps: seq<Deposit>, b: int)
    requires AllOrdered(s) && IsNextMin(s, b)
    ensures IsNextMin(UpdateAll(s, deps, b), b + 1)
  {
    var i :| 0 <= i < |s| && s[i].min == b - 1;
    assert UpdateAll(s, deps, b)[i].min == b;
  }

  /** A scan at findMax moves findMax to the next block, and covers that block for every address that is new or has
      the largest max; of the others it covers the block for none. */
  lemma MaxAdvances(s: seq<Address>, deps: seq<Deposit>, b: int)
    requires AllOrdered(s) && IsNextMax(s, b)
    ensures IsNextMax(UpdateAll(s, deps, b), b + 1)
    ensures forall i :: 0 <= i < |s| && (s[i].max == 0 || s[i].max == b - 1) ==>
              UpdateAll(s, deps, b)[i].max == b && Covered(UpdateAll(s, deps, b)[i], b)
    ensures forall i :: 0 <= i < |s| && s[i].max != 0 && s[i].max != b - 1 ==> UpdateAll(s, deps, b)[i] == s[i]
  {
    var i :| 0 <= i < |s| && s[i].max == b - 1;
    assert UpdateAll(s, deps, b)[i].max == b;
  }

  /** The blocks still missing between the two ranges, over all addresses. */
  function TotalGap(s: seq<Address>): int {
    if s == [] then 0 else TotalGap(s[..|s| - 1]) + Gap(s[|s| - 1])
  }

  /** Every address has been scanned at least once. */
  predicate Started(s: seq<Address>) {
    forall i :: 0 <= i < |s| ==> Ordered(s[i]) && s[i].max > 0
  }

  lemma GapOfUpdate(a: Address, deps: seq<Deposit>, b: int)
    requires Ordered(a) && a.max > 0
    ensures var a' := Update(a, deps, b);
            && Ordered(a') && a'.max > 0 && 0 <= Gap(a') <= Gap(a)
            && (Gap(a) > 0 && a.min == b - 1 ==> Gap(a') < Gap(a))
  {
  }

  lemma {:induction false} GapNeverRises(s: seq<Address>, deps: seq<Deposit>, b: int)
    requires Started(s)
    ensures Started(UpdateAll(s, deps, b))
    ensures 0 <= TotalGap(UpdateAll(s, deps, b)) <= TotalGap(s)
    ensures (exists k :: 0 <= k < |s| && Gap(s[k]) > 0 && s[k].min == b - 1) ==>
            TotalGap(UpdateAll(s, deps, b)) < TotalGap(s)
  {
    if s != [] {
      hide Update, Gap;
      var n := |s| - 1;
      GapNeverRises(s[..n], deps, b);
      forall i | 0 <= i < |s|
        ensures Ordered(Update(s[i], deps, b)) && Update(s[i], deps, b).max > 0
        ensures 0 <= Gap(Update(s[i], deps, b)) <= Gap(s[i])
        ensures Gap(s[i]) > 0 && s[i].min == b - 1 ==> Gap(Update(s[i], deps, b)) < Gap(s[i])
      {
        GapOfUpdate(s[i], deps, b);
      }
      assert UpdateAll(s, deps, b)[..n] == UpdateAll(s[..n], deps, b);
      if k :| 0 <= k < |s| && Gap(s[k]) > 0 && s[k].min == b - 1 {
        assert k < n ==> Gap(s[..n][k]) > 0 && s[..n][k].min == b - 1;
      }
    }
  }

  lemma {:induction false} NoGapIffTotal(s: seq<Address>)
    requires AllOrdered(s)
    ensures TotalGap(s) >= 0 && (TotalGap(s) == 0 <==> NoGap(s))
  {
    if s != [] {
      NoGapIffTotal(s[..|s| - 1]);
      assert NoGap(s) <==> NoGap(s[..|s| - 1]) && Gap(s[|s| - 1]) <= 0;
    }
  }

  /** One update at findShort. */
  ghost predicate ShortStep(chain: Chain, s: seq<Address>, s': seq<Address>) {
    exists b :: IsShort(s, b) && s' == UpdateAll(s, chain(b), b)
  }

  /** An update at findShort fills one missing block, if there is one. */
  lemma ShortStepFills(chain: Chain, s: seq<Address>, s': seq<Address>)
    requires Started(s) && ShortStep(chain, s, s')
    ensures Started(s') && 0 <= TotalGap(s') <= TotalGap(s)
    ensures TotalGap(s) > 0 ==> TotalGap(s') < TotalGap(s)
  {
    var b :| IsShort(s, b) && s' == UpdateAll(s, chain(b), b);
    GapNeverRises(s, chain(b), b);
    NoGapIffTotal(s);
  }

  /** Wallets that follow each other by updates at findShort. */
  ghost predicate ShortRun(chain: Chain, run: seq<seq<Address>>) {
    run != [] && forall j, k :: 0 <= j < |run| && 0 <= k < |run| && k == j + 1 ==> ShortStep(chain, run[j], run[k])
  }

  lemma ShortRunInit(chain: Chain, run: seq<seq<Address>>)
    requires ShortRun(chain, run) && |run| > 1
    ensures ShortRun(chain, run[..|run| - 1]) && ShortStep(chain, run[|run| - 2], run[|run| - 1])
  {
  }

  lemma {:induction false} ShortRunFills(chain: Chain, run: seq<seq<Address>>)
    requires ShortRun(chain, run) && Started(run[0])
    ensures var last := run[|run| - 1];
            Started(last) && (TotalGap(last) == 0 || 0 <= TotalGap(last) <= TotalGap(run[0]) - (|run| - 1))
    decreases |run|
  {
    if |run| == 1 {
      NoGapIffTotal(run[0]);
    } else {
      ShortRunInit(chain, run);
      ShortRunFills(chain, run[..|run| - 1]);
      ShortStepFills(chain, run[|run| - 2], run[|run| - 1]);
    }
  }

  /** As many updates at findShort as there are missing blocks close every gap: each address then covers [1..max]. */
  lemma ShortRunCloses(chain: Chain, run: seq<seq<Address>>)
    requires ShortRun(chain, run) && Started(run[0]) && TotalGap(run[0]) <= |run| - 1
    ensures var last := run[|run| - 1];
            forall i, b :: 0 <= i < |last| && 1 <= b <= last[i].max ==> Covered(last[i], b)
  {
    ShortRunFills(chain, run);
    NoGapIffTotal(run[|run| - 1]);
  }
}

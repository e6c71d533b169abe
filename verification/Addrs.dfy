/**
 The deposit-address allocator: each manager holds a pool, and all managers of a coin share one bucket of used
 addresses. An address is taken from the pool at once but becomes used only when its transaction commits.
 */
module Addrs {
  import opened Common

  datatype AddrError = DepositAddressEmpty | CoinTypeNotRegistered

  /** The index of the first pool address that is not used, or the pool's length. */
  function FirstUnused(pool: seq<string>, used: set<string>): (k: nat)
    ensures k <= |pool| && (k < |pool| ==> pool[k] !in used)
    ensures forall j :: 0 <= j < k ==> pool[j] in used
  {
    if pool == [] || pool[0] !in used then 0 else 1 + FirstUnused(pool[1..], used)
  }

  /** The chosen address and the pool that is left. An empty string counts as no address. */
  function Choose(pool: seq<string>, used: set<string>): Result<(string, seq<string>), AddrError> {
    var k := FirstUnused(pool, used);
    if k == |pool| || pool[k] == "" then Err(DepositAddressEmpty) else Ok((pool[k], pool[k + 1..]))
  }

  /** The addresses of a list that are not used yet, in order. */
  function Unused(listed: seq<string>, used: set<string>): seq<string> {
    if listed == [] then []
    else Unused(listed[..|listed| - 1], used) + if listed[|listed| - 1] in used then [] else [listed[|listed| - 1]]
  }

  lemma {:induction false} UnusedMembers(listed: seq<string>, used: set<string>, a: string)
    ensures a in Unused(listed, used) <==> a in listed && a !in used
  {
    if listed != [] {
      var n := |listed| - 1;
      UnusedMembers(listed[..n], used, a);
      assert a in listed <==> a in listed[..n] || a == listed[n];
    }
  }

  /** The unused addresses of the list, as positions. */
  ghost predicate UnusedAt(listed: seq<string>, used: set<string>, unused: seq<string>, at: seq<int>) {
    && |at| == |unused|
    && (forall i :: 0 <= i < |at| ==> 0 <= at[i] < |listed| && unused[i] == listed[at[i]] && unused[i] !in used)
    && (forall i, j :: 0 <= i < j < |at| ==> at[i] < at[j])
    && (forall k :: 0 <= k < |listed| && listed[k] !in used ==> k in at)
  }

  lemma UnusedStep(init: seq<string>, a: string, used: set<string>, unused: seq<string>, at: seq<int>)
    requires UnusedAt(init, used, unused, at)
    ensures a in used ==> UnusedAt(init + [a], used, unused, at)
    ensures a !in used ==> UnusedAt(init + [a], used, unused + [a], at + [|init|])
  {
    if a !in used {
      assert forall k :: k in at ==> k in at + [|init|];
      assert (at + [|init|])[|at|] in at + [|init|];
    }
  }

  /** They are those at ascending positions of the list, all of them and no other. */
  lemma {:induction false} UnusedInOrder(listed: seq<string>, used: set<string>) returns (at: seq<int>)
    ensures UnusedAt(listed, used, Unused(listed, used), at)
  {
    if listed == [] {
      return [];
    }
    hide UnusedAt;
    var n := |listed| - 1;
    at := UnusedInOrder(listed[..n], used);
    UnusedStep(listed[..n], listed[n], used, Unused(listed[..n], used), at);
    assert listed[..n] + [listed[n]] == listed;
    assert Unused(listed[..n], used) + [] == Unused(listed[..n], used);
    at := if listed[n] in used then at else at + [n];
  }

  /** The allocator reports an empty pool exactly when every pool address is used, or the first unused one is the
      empty string. */
  lemma EmptyMeansUsed(pool: seq<string>, used: set<string>)
    ensures Choose(pool, used).Err? <==>
            (forall a :: a in pool ==> a in used) ||
            exists k :: 0 <= k < |pool| && pool[k] == "" && "" !in used && forall j :: 0 <= j < k ==> pool[j] in used
  {
    var k := FirstUnused(pool, used);
    if k < |pool| {
      assert pool[k] in pool;
    } else {
      assert forall a :: a in pool ==> a in used;
    }
  }

  // The objects

  class UsedStore {
    var used: set<string>

    constructor ()
      ensures used == {}
    {
      used := {};
    }

    /** A bucket refuses the empty key. */
    method Put(addr: string) returns (ok: bool)
      modifies this
      ensures ok == (addr != "")
      ensures used == if ok then old(used) + {addr} else old(used)
    {
      ok := addr != "";
      if ok {
        used := used + {addr};
      }
    }

    method IsUsed(addr: string) returns (r: bool)
      ensures r <==> addr in used
    {
      r := addr in used;
    }
  }

  class Addrs {
    const store: UsedStore
    var addresses: seq<string>

    constructor (store: UsedStore, listed: seq<string>)
      ensures this.store == store && addresses == Unused(listed, store.used)
    {
      this.store := store;
      addresses := [];
      new;
      for i := 0 to |listed|
        invariant this.store == store && addresses == Unused(listed[..i], store.used)
      {
        assert listed[..i + 1][..i] == listed[..i];
        var used := store.IsUsed(listed[i]);
        if !used {
          addresses := addresses + [listed[i]];
        }
      }
      assert listed[..|listed|] == listed;
    }

    method Pick() returns (chosen: string, pt: nat)
      ensures var k := FirstUnused(addresses, store.used);
              if k == |addresses| then chosen == "" else chosen == addresses[k] && pt == k
    {
      chosen, pt := "", 0;
      for i := 0 to |addresses|
        invariant chosen == "" && forall j :: 0 <= j < i ==> addresses[j] in store.used
      {
        var used := store.IsUsed(addresses[i]);
        if !used {
          return addresses[i], i;
        }
      }
    }

    method NewAddress() returns (r: Result<string, AddrError>)
      modifies this`addresses, store
      ensures match Choose(old(addresses), old(store.used))
              case Ok((a, rest)) => r == Ok(a) && addresses == rest && store.used == old(store.used) + {a}
              case Err(e) => r == Err(e) && addresses == old(addresses) && store.used == old(store.used)
    {
      if |addresses| == 0 {
        return Err(DepositAddressEmpty);
      }
      var chosen, pt := Pick();
      if chosen == "" {
        return Err(DepositAddressEmpty);
      }
      var ok := store.Put(chosen);
      assert ok;
      addresses := addresses[pt + 1..];
      return Ok(chosen);
    }

    /** tx is the used bucket as the caller's open transaction will commit it; the check reads the committed bucket. */
    method NewAddressWithTx(tx: set<string>) returns (r: Result<string, AddrError>, tx': set<string>)
      modifies this`addresses
      ensures match Choose(old(addresses), store.used)
              case Ok((a, rest)) => r == Ok(a) && addresses == rest && tx' == tx + {a}
              case Err(e) => r == Err(e) && addresses == old(addresses) && tx' == tx
    {
      tx' := tx;
      if |addresses| == 0 {
        return Err(DepositAddressEmpty), tx';
      }
      var chosen, pt := Pick();
      if chosen == "" {
        return Err(DepositAddressEmpty), tx';
      }
      tx' := tx' + {chosen};
      addresses := addresses[pt + 1..];
      return Ok(chosen), tx';
    }

    method Remaining() returns (n: nat)
      ensures n == |addresses|
    {
      n := |addresses|;
    }
  }

  // Runs of several managers on one bucket, one call at a time

  /** listed and pools go by manager; leaked holds what a manager took in transactions rolled back since it started;
      issued is the log of committed issues. */
  datatype Allocator = Allocator(used: set<string>, listed: seq<seq<string>>, pools: seq<seq<string>>,
                                 leaked: seq<set<string>>, issued: seq<string>)

  datatype Op =
    | Issue(m: nat)
    | IssueInTx(m: nat, commit: bool)
    | Restart(m: nat)

  predicate Shaped(s: Allocator) {
    |s.listed| == |s.pools| == |s.leaked|
  }

  function IssueFrom(s: Allocator, m: nat, commit: bool): (s': Allocator)
    requires Shaped(s) && m < |s.pools|
    ensures Shaped(s') && s'.listed == s.listed
  {
    match Choose(s.pools[m], s.used)
    case Err(_) => s
    case Ok((a, rest)) =>
      if commit then s.(pools := s.pools[m := rest], used := s.used + {a}, issued := s.issued + [a])
      else s.(pools := s.pools[m := rest], leaked := s.leaked[m := s.leaked[m] + {a}])
  }

  function Apply(s: Allocator, op: Op): (s': Allocator)
    requires Shaped(s)
    ensures Shaped(s') && s'.listed == s.listed
  {
    if op.m >= |s.pools| then s
    else match op
      case Restart(m) => s.(pools := s.pools[m := Unused(s.listed[m], s.used)], leaked := s.leaked[m := {}])
      case Issue(m) => IssueFrom(s, m, true)
      case IssueInTx(m, commit) => IssueFrom(s, m, commit)
  }

  function Run(s: Allocator, ops: seq<Op>): (s': Allocator)
    requires Shaped(s)
    ensures Shaped(s') && s'.listed == s.listed
  {
    if ops == [] then s else Apply(Run(s, ops[..|ops| - 1]), ops[|ops| - 1])
  }

  /** A bucket and the managers that have just been started on it. */
  function Started(used: set<string>, listed: seq<seq<string>>): (s: Allocator)
    ensures Shaped(s)
  {
    Allocator(used, listed,
              seq(|listed|, m requires 0 <= m < |listed| => Unused(listed[m], used)),
              seq(|listed|, m => {}), [])
  }

  ghost predicate Sound(used0: set<string>, s: Allocator) {
    && Shaped(s)
    && (forall a :: a in s.used <==> a in used0 || a in s.issued)
    && (forall a :: a in s.issued ==> a !in used0 && a != "")
    && (forall i, j :: 0 <= i < j < |s.issued| ==> s.issued[i] != s.issued[j])
    && (forall m, a :: 0 <= m < |s.pools| && a in s.pools[m] ==> a in s.listed[m])
    && (forall m, a :: 0 <= m < |s.pools| && a in s.listed[m] ==> a in s.pools[m] || a in s.used || a in s.leaked[m])
  }

  lemma StepSound(used0: set<string>, s: Allocator, op: Op)
    requires Sound(used0, s)
    ensures Sound(used0, Apply(s, op))
  {
    if op.m < |s.pools| {
      match op
      case Restart(m) =>
        forall a ensures a in Unused(s.listed[m], s.used) <==> a in s.listed[m] && a !in s.used {
          UnusedMembers(s.listed[m], s.used, a);
        }
      case Issue(m) => IssueSound(used0, s, m, true);
      case IssueInTx(m, commit) => IssueSound(used0, s, m, commit);
    }
  }

  lemma IssueSound(used0: set<string>, s: Allocator, m: nat, commit: bool)
    requires Sound(used0, s) && m < |s.pools|
    ensures Sound(used0, IssueFrom(s, m, commit))
  {
    if Choose(s.pools[m], s.used).Ok? {
      var s' := IssueFrom(s, m, commit);
      var k := FirstUnused(s.pools[m], s.used);
      assert s.pools[m][k] in s.pools[m];
      forall x | x in s.listed[m] ensures x in s'.pools[m] || x in s'.used || x in s'.leaked[m] {
        if x in s.pools[m] {
          var j :| 0 <= j < |s.pools[m]| && s.pools[m][j] == x;
          assert j > k ==> s'.pools[m][j - k - 1] == x;
        }
      }
    }
  }

  lemma StartedSound(used: set<string>, listed: seq<seq<string>>)
    ensures Sound(used, Started(used, listed))
  {
    var s := Started(used, listed);
    forall m, a | 0 <= m < |s.pools| && a in s.pools[m] ensures a in s.listed[m] {
      assert s.pools[m] == Unused(listed[m], used);
      UnusedMembers(listed[m], used, a);
    }
    forall m, a | 0 <= m < |s.pools| && a in s.listed[m] ensures a in s.pools[m] || a in s.used {
      assert s.pools[m] == Unused(listed[m], used);
      UnusedMembers(listed[m], used, a);
    }
  }

  /** A manager that restarts has back what rolled-back transactions took from it: its pool holds exactly its listed
      addresses that are not used. The other managers and the bucket are not touched. */
  lemma RestartRecovers(used: set<string>, listed: seq<seq<string>>, ops: seq<Op>, m: nat, a: string)
    requires m < |listed|
    ensures var s := Run(Started(used, listed), ops);
            var s' := Apply(s, Restart(m));
            && (a in s'.pools[m] <==> a in listed[m] && a !in s.used)
            && (a in s.leaked[m] && a in listed[m] && a !in s.used ==> a in s'.pools[m])
            && s'.leaked[m] == {} && s'.used == s.used && s'.issued == s.issued
            && forall n :: 0 <= n < |s.pools| && n != m ==> s'.pools[n] == s.pools[n] && s'.leaked[n] == s.leaked[n]
  {
    UnusedMembers(listed[m], Run(Started(used, listed), ops).used, a);
  }

  /** Over any run of several managers on one bucket, with rollbacks and restarts: nothing used before is issued,
      nothing is issued twice, and each listed address is in its manager's pool, used, or taken by a rolled-back
      transaction since that manager started. */
  lemma {:induction false} NoAddressIssuedTwice(used: set<string>, listed: seq<seq<string>>, ops: seq<Op>)
    ensures Sound(used, Run(Started(used, listed), ops))
  {
    if ops == [] {
      StartedSound(used, listed);
    } else {
      NoAddressIssuedTwice(used, listed, ops[..|ops| - 1]);
      StepSound(used, Run(Started(used, listed), ops[..|ops| - 1]), ops[|ops| - 1]);
    }
  }

  /** The address that a manager takes stays in its pool or among the used ones exactly when the transaction commits:
      a rolled-back one loses it until the manager restarts. */
  lemma TakenIsKeptIffCommitted(s: Allocator, m: nat, commit: bool)
    requires Shaped(s) && m < |s.pools| && Choose(s.pools[m], s.used).Ok?
    requires forall i, j :: 0 <= i < j < |s.pools[m]| ==> s.pools[m][i] != s.pools[m][j]
    ensures var a := Choose(s.pools[m], s.used).value.0;
            var s' := IssueFrom(s, m, commit);
            (a in s'.pools[m] || a in s'.used) <==> commit
  {
    var k := FirstUnused(s.pools[m], s.used);
    var rest := s.pools[m][k + 1..];
    assert forall j :: 0 <= j < |rest| ==> rest[j] == s.pools[m][k + 1 + j] != s.pools[m][k];
  }

  predicate NoRollback(ops: seq<Op>) {
    forall i :: 0 <= i < |ops| ==> !(ops[i].IssueInTx? && !ops[i].commit)
  }

  ghost predicate NoLeak(s: Allocator) {
    forall m :: 0 <= m < |s.leaked| ==> s.leaked[m] == {}
  }

  lemma {:induction false} NothingLeaks(used: set<string>, listed: seq<seq<string>>, ops: seq<Op>)
    requires NoRollback(ops)
    ensures NoLeak(Run(Started(used, listed), ops))
  {
    var s0 := Started(used, listed);
    if ops == [] {
      assert Run(s0, ops) == s0;
    } else {
      var init, op := ops[..|ops| - 1], ops[|ops| - 1];
      NothingLeaks(used, listed, init);
      OneStepNoLeak(Run(s0, init), op);
    }
  }

  lemma OneStepNoLeak(s: Allocator, op: Op)
    requires Shaped(s) && NoLeak(s) && !(op.IssueInTx? && !op.commit)
    ensures NoLeak(Apply(s, op))
  {
  }

  /** Without rollbacks, every listed address is in its manager's pool or used after every run. */
  lemma PoolOrUsed(used: set<string>, listed: seq<seq<string>>, ops: seq<Op>, m: nat, a: string)
    requires NoRollback(ops) && m < |listed| && a in listed[m]
    ensures var s := Run(Started(used, listed), ops);
            a in s.pools[m] || a in s.used
  {
    NoAddressIssuedTwice(used, listed, ops);
    NothingLeaks(used, listed, ops);
  }

  /** When a manager whose list has no empty line reports an empty pool, every address of its list is used or was
      taken by a rolled-back transaction since it started. */
  lemma EmptyMeansExhausted(used: set<string>, listed: seq<seq<string>>, ops: seq<Op>, m: nat)
    requires m < |listed| && "" !in listed[m]
    ensures var s := Run(Started(used, listed), ops);
            Choose(s.pools[m], s.used).Err? ==> forall a :: a in listed[m] ==> a in s.used || a in s.leaked[m]
  {
    var s := Run(Started(used, listed), ops);
    NoAddressIssuedTwice(used, listed, ops);
    EmptyMeansUsed(s.pools[m], s.used);
    assert forall k :: 0 <= k < |s.pools[m]| ==> s.pools[m][k] in s.pools[m];
  }
}

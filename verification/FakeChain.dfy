/**
 The stand-in for a bitcoin node: a store of blocks linked by hash, extended one block at a time. It is the chain that
 the scanner's walk by NextHash is proved against.
 */
module FakeChain {
  import opened Common

  datatype Deposit = Deposit(address: string, value: int64, n: uint32)

  datatype TxOut = TxOut(value: int64, address: string)
  datatype BlockTx = BlockTx(txid: string, outs: seq<TxOut>)
  datatype Block = Block(hash: string, height: int, nextHash: string, txs: seq<BlockTx>)

  const PADDING := TxOut(0, "")
  const TWO_TO_32 := 0x1_0000_0000

  // The outputs of a block's transaction

  datatype Outputs = Outputs(outs: seq<TxOut>, n: uint32)

  /** One more deposit: padding up to its index, then its output; n is the next index as a uint32. */
  function Place(o: Outputs, d: Deposit): Outputs {
    var pad := seq(if d.n > o.n then d.n - o.n else 0, i => PADDING);
    Outputs(o.outs + pad + [TxOut(d.value, d.address)], (d.n + 1) % TWO_TO_32)
  }

  function PlaceAll(ds: seq<Deposit>): Outputs {
    if ds == [] then Outputs([], 0) else Place(PlaceAll(ds[..|ds| - 1]), ds[|ds| - 1])
  }

  method CreatePadding(n: uint32, end: uint32) returns (pad: seq<TxOut>)
    ensures pad == seq(if end > n then end - n else 0, j => PADDING)
  {
    pad := [];
    var i := n;
    while i < end
      invariant n <= i && (i <= end || i == n)
      invariant pad == seq(i - n, j => PADDING)
    {
      pad := pad + [PADDING];
      i := i + 1;
    }
  }

  method CreateOutputs(ds: seq<Deposit>) returns (outs: seq<TxOut>)
    ensures outs == PlaceAll(ds).outs
  {
    outs := [];
    var n: uint32 := 0;
    for k := 0 to |ds|
      invariant Outputs(outs, n) == PlaceAll(ds[..k])
    {
      var pad := CreatePadding(n, ds[k].n);
      outs := outs + pad + [TxOut(ds[k].value, ds[k].address)];
      n := (ds[k].n + 1) % TWO_TO_32;
      assert ds[..k + 1][..k] == ds[..k];
    }
    assert ds[..|ds|] == ds;
  }

  predicate Increasing(ds: seq<Deposit>) {
    forall i, j :: 0 <= i < j < |ds| ==> ds[i].n < ds[j].n
  }

  /** The output index at which deposit k ends up. */
  function PlaceOf(ds: seq<Deposit>, k: nat): int
    requires k < |ds|
  {
    |PlaceAll(ds[..k + 1]).outs| - 1
  }

  lemma {:induction false} PlacedLength(ds: seq<Deposit>)
    requires Increasing(ds) && ds != []
    ensures |PlaceAll(ds).outs| == ds[|ds| - 1].n + 1
  {
    var n := |ds| - 1;
    if n > 0 {
      PlacedLength(ds[..n]);
      assert ds[n - 1].n < ds[n].n;
    }
  }

  /** Every deposit sits at its own index exactly when the indices strictly increase. */
  lemma PlacedAtOwnIndex(ds: seq<Deposit>)
    ensures (forall k :: 0 <= k < |ds| ==> PlaceOf(ds, k) == ds[k].n) <==> Increasing(ds)
  {
    if Increasing(ds) {
      forall k | 0 <= k < |ds| ensures PlaceOf(ds, k) == ds[k].n {
        PlacedLength(ds[..k + 1]);
      }
    }
    if forall k :: 0 <= k < |ds| ==> PlaceOf(ds, k) == ds[k].n {
      forall i, j | 0 <= i < j < |ds| ensures ds[i].n < ds[j].n {
        LengthsGrow(ds, i, j);
      }
    }
  }

  lemma {:induction false} LengthsGrow(ds: seq<Deposit>, i: nat, j: nat)
    requires i < j < |ds|
    ensures PlaceOf(ds, i) < PlaceOf(ds, j)
    decreases j
  {
    assert ds[..j + 1][..j] == ds[..j];
    if i < j - 1 {
      LengthsGrow(ds, i, j - 1);
    }
  }

  /** With increasing indices the outputs are the deposits at their indices and padding everywhere else. */
  lemma {:induction false} OutputsExact(ds: seq<Deposit>, i: int)
    requires Increasing(ds) && 0 <= i < |PlaceAll(ds).outs|
    ensures forall k :: 0 <= k < |ds| && ds[k].n == i ==> PlaceAll(ds).outs[i] == TxOut(ds[k].value, ds[k].address)
    ensures (forall k :: 0 <= k < |ds| ==> ds[k].n != i) ==> PlaceAll(ds).outs[i] == PADDING
  {
    if ds != [] {
      var n := |ds| - 1;
      var init := PlaceAll(ds[..n]);
      PlacedLength(ds);
      if n > 0 { PlacedLength(ds[..n]); }
      if i < |init.outs| {
        OutputsExact(ds[..n], i);
        assert PlaceAll(ds).outs[i] == init.outs[i];
        assert forall k :: 0 <= k < n ==> ds[..n][k] == ds[k];
      } else {
        assert forall k :: 0 <= k < n ==> ds[k].n < |init.outs|;
      }
    }
  }

  // The store of blocks

  datatype Chain = Chain(best: int, hashes: map<int, string>, blocks: map<string, Block>)

  /** handleGetBlock: the block of a hash, with its NextHash computed afresh. */
  function GetBlock(c: Chain, hash: string): Option<Block> {
    if hash !in c.blocks then None
    else
      var b := c.blocks[hash];
      Some(b.(nextHash := if b.height < c.best && b.height + 1 in c.hashes then c.hashes[b.height + 1] else ""))
  }

  /** The new block's hash and transaction id come from hashing and are given here. */
  function Extend(c: Chain, ds: seq<Deposit>, hash: string, txid: string): Option<Chain> {
    if c.best !in c.hashes then None
    else
      var prevHash := c.hashes[c.best];
      var prev := if prevHash in c.blocks then c.blocks[prevHash] else Block("", 0, "", []);
      var b := Block(hash, c.best + 1, "", if ds == [] then [] else [BlockTx(txid, PlaceAll(ds).outs)]);
      Some(Chain(c.best + 1, c.hashes[c.best + 1 := hash],
                 c.blocks[prevHash := prev.(nextHash := hash)][hash := b]))
  }

  class BlockStore {
    var best: int
    var hashes: map<int, string>
    var blocks: map<string, Block>

    ghost function View(): Chain
      reads this
    {
      Chain(best, hashes, blocks)
    }

    /** The store starts with one block. */
    constructor (height: int, hash: string, tx: BlockTx)
      ensures View() == Chain(height, map[height := hash], map[hash := Block(hash, height, "", [tx])])
    {
      best := height;
      hashes := map[height := hash];
      blocks := map[hash := Block(hash, height, "", [tx])];
    }

    method HandleGetBlock(hash: string) returns (r: Option<Block>)
      ensures r == GetBlock(View(), hash)
    {
      if hash !in blocks {
        return None;
      }
      var block := blocks[hash].(nextHash := "");
      if block.height < best {
        if block.height + 1 in hashes {
          block := block.(nextHash := hashes[block.height + 1]);
        }
      }
      return Some(block);
    }

    method ProcessDeposits(ds: seq<Deposit>, hash: string, txid: string) returns (ok: bool)
      modifies this
      ensures match Extend(old(View()), ds, hash, txid)
              case Some(c) => ok && View() == c
              case None => !ok && View() == old(View())
    {
      if best !in hashes {
        return false;
      }
      var txs := [];
      if |ds| != 0 {
        var outs := CreateOutputs(ds);
        txs := [BlockTx(txid, outs)];
      }
      var block := Block(hash, best + 1, "", txs);
      var prevHash := hashes[best];
      var prev := Block("", 0, "", []);
      if prevHash in blocks {
        prev := blocks[prevHash];
      }
      prev := prev.(nextHash := hash);
      blocks := blocks[prevHash := prev];
      best := best + 1;
      hashes := hashes[best := hash];
      blocks := blocks[hash := block];
      return true;
    }
  }

  // Runs

  /** At height h, hashes and blocks name each other and the stored link is the next height's hash. */
  ghost predicate LinkedAt(c: Chain, h: int) {
    && h in c.hashes && c.hashes[h] != "" && c.hashes[h] in c.blocks
    && var b := c.blocks[c.hashes[h]];
       && b.height == h && b.hash == c.hashes[h]
       && (h < c.best ==> h + 1 in c.hashes && b.nextHash == c.hashes[h + 1])
       && (h == c.best ==> b.nextHash == "")
  }

  /** Block x sits at a height of its own. */
  ghost predicate Placed(c: Chain, x: string) {
    x in c.blocks && c.blocks[x].height in c.hashes && c.hashes[c.blocks[x].height] == x
  }

  /** The heights are exactly base..best, and all three indexes agree at each of them. */
  ghost predicate Linked(c: Chain, base: int) {
    && base <= c.best
    && (forall h :: h in c.hashes <==> base <= h <= c.best)
    && (forall h :: base <= h <= c.best ==> LinkedAt(c, h))
    && (forall x :: x in c.blocks ==> Placed(c, x))
  }

  /** c' has all blocks of c, with the same transactions, and possibly more on top. */
  ghost predicate Grows(c: Chain, c': Chain) {
    && c.best <= c'.best
    && (forall h :: h in c.hashes ==> h in c'.hashes && c'.hashes[h] == c.hashes[h])
    && (forall x :: x in c.blocks ==> x in c'.blocks && c'.blocks[x].(nextHash := c.blocks[x].nextHash) == c.blocks[x])
  }

  datatype Command = Command(ds: seq<Deposit>, hash: string, txid: string)

  function Run(c: Chain, cmds: seq<Command>): Chain {
    if cmds == [] then c
    else
      var before := Run(c, cmds[..|cmds| - 1]);
      var cmd := cmds[|cmds| - 1];
      match Extend(before, cmd.ds, cmd.hash, cmd.txid) case Some(after) => after case None => before
  }

  /** No hash occurs twice, which is what hashing is relied on for. */
  predicate FreshHashes(c: Chain, cmds: seq<Command>) {
    && (forall i :: 0 <= i < |cmds| ==> cmds[i].hash != "" && cmds[i].hash !in c.blocks)
    && (forall i, j :: 0 <= i < j < |cmds| ==> cmds[i].hash != cmds[j].hash)
  }

  lemma ExtendLinkedAt(c: Chain, base: int, ds: seq<Deposit>, hash: string, txid: string, h: int)
    requires Linked(c, base) && hash != "" && hash !in c.blocks && base <= h <= c.best + 1
    ensures Extend(c, ds, hash, txid).Some? && LinkedAt(Extend(c, ds, hash, txid).value, h)
  {
    assert LinkedAt(c, c.best);
    if h <= c.best {
      assert LinkedAt(c, h);
    }
  }

  lemma ExtendPlaced(c: Chain, base: int, ds: seq<Deposit>, hash: string, txid: string, x: string)
    requires Linked(c, base) && hash !in c.blocks && (x in c.blocks || x == hash)
    ensures Extend(c, ds, hash, txid).Some? && Placed(Extend(c, ds, hash, txid).value, x)
  {
    assert LinkedAt(c, c.best);
    if x in c.blocks {
      assert Placed(c, x);
    }
  }

  lemma ExtendGrows(c: Chain, base: int, ds: seq<Deposit>, hash: string, txid: string)
    requires Linked(c, base) && hash !in c.blocks
    ensures Extend(c, ds, hash, txid).Some?
    ensures var c' := Extend(c, ds, hash, txid).value;
            Grows(c, c') && c'.best == c.best + 1 && c'.blocks.Keys == c.blocks.Keys + {hash}
  {
    assert LinkedAt(c, c.best);
  }

  /** The new block is on top, with one transaction that pays the given deposits, or with none if there are none. */
  lemma ExtendAdds(c: Chain, base: int, ds: seq<Deposit>, hash: string, txid: string)
    requires Linked(c, base) && hash != "" && hash !in c.blocks
    ensures Extend(c, ds, hash, txid).Some?
    ensures var c' := Extend(c, ds, hash, txid).value;
            && c'.best == c.best + 1 && c'.best in c'.hashes && c'.hashes[c'.best] == hash && hash in c'.blocks
            && var b := c'.blocks[hash];
               && b.hash == hash && b.height == c.best + 1 && b.nextHash == ""
               && (ds == [] <==> b.txs == []) && |b.txs| <= 1
               && (ds != [] ==> b.txs[0].txid == txid && b.txs[0].outs == PlaceAll(ds).outs)
  {
    assert LinkedAt(c, c.best);
  }

  lemma ExtendLinked(c: Chain, base: int, ds: seq<Deposit>, hash: string, txid: string)
    requires Linked(c, base) && hash != "" && hash !in c.blocks
    ensures Extend(c, ds, hash, txid).Some?
    ensures Linked(Extend(c, ds, hash, txid).value, base)
  {
    ExtendGrows(c, base, ds, hash, txid);
    var c' := Extend(c, ds, hash, txid).value;
    forall h | base <= h <= c'.best ensures LinkedAt(c', h) {
      ExtendLinkedAt(c, base, ds, hash, txid, h);
    }
    forall x | x in c'.blocks ensures Placed(c', x) {
      ExtendPlaced(c, base, ds, hash, txid, x);
    }
  }

  ghost predicate Given(cmds: seq<Command>, x: string) {
    exists i :: 0 <= i < |cmds| && cmds[i].hash == x
  }

  lemma GivenExtends(cmds: seq<Command>, n: nat, x: string)
    requires n < |cmds| && (Given(cmds[..n], x) || x == cmds[n].hash)
    ensures Given(cmds, x)
  {
    if Given(cmds[..n], x) {
      var i :| 0 <= i < n && cmds[..n][i].hash == x;
      assert cmds[i].hash == x;
    } else {
      assert cmds[n].hash == x;
    }
  }

  lemma LastIsFresh(c: Chain, cmds: seq<Command>)
    requires FreshHashes(c, cmds) && cmds != []
    ensures FreshHashes(c, cmds[..|cmds| - 1])
    ensures cmds[|cmds| - 1].hash !in c.blocks && !Given(cmds[..|cmds| - 1], cmds[|cmds| - 1].hash)
  {
  }

  /** Any run of commands keeps the heights contiguous and all three indexes in agreement, and only adds blocks on
      top. */
  lemma {:induction false} RunLinked(c: Chain, base: int, cmds: seq<Command>)
    requires Linked(c, base) && FreshHashes(c, cmds)
    ensures Linked(Run(c, cmds), base) && Grows(c, Run(c, cmds)) && Run(c, cmds).best == c.best + |cmds|
    ensures forall x :: x in Run(c, cmds).blocks ==> x in c.blocks || Given(cmds, x)
  {
    if cmds != [] {
      var n := |cmds| - 1;
      LastIsFresh(c, cmds);
      RunLinked(c, base, cmds[..n]);
      var before, hash := Run(c, cmds[..n]), cmds[n].hash;
      assert hash !in before.blocks;
      ExtendLinked(before, base, cmds[n].ds, hash, cmds[n].txid);
      ExtendGrows(before, base, cmds[n].ds, hash, cmds[n].txid);
      var after := Run(c, cmds);
      GrowsTransitive(c, before, after);
      forall x | x in after.blocks && x !in c.blocks ensures Given(cmds, x) {
        assert x in before.blocks.Keys + {hash};
        GivenExtends(cmds, n, x);
      }
    }
  }

  lemma GrowsTransitive(a: Chain, b: Chain, c: Chain)
    requires Grows(a, b) && Grows(b, c)
    ensures Grows(a, c)
  {
  }

  /** The NextHash that the node computes for an answer is the one stored in the block. */
  lemma StoredLinkIsAnswer(c: Chain, base: int, hash: string)
    requires Linked(c, base)
    ensures GetBlock(c, hash) == if hash in c.blocks then Some(c.blocks[hash]) else None
  {
    if hash in c.blocks {
      assert Placed(c, hash);
      assert LinkedAt(c, c.blocks[hash].height);
    }
  }

  lemma GenesisLinked(height: int, hash: string, tx: BlockTx)
    requires hash != ""
    ensures Linked(Chain(height, map[height := hash], map[hash := Block(hash, height, "", [tx])]), height)
  {
  }
}

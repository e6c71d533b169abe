/**
 The scanner's walk along the chain: what the node's answers show, and the wait for the next block while the chain
 grows, calls fail and a shutdown may come. The chain is the linked store of FakeChain.
 */
module ChainWalk {
  import opened Common
  import opened ScanStore
  import FakeChain

  type Chain = FakeChain.Chain

  /** The node at one call: its chain, whether the call succeeds, and whether a wait after a failure sees quit. */
  datatype Poll = Poll(chain: Chain, up: bool, quit: bool)

  datatype Wait = Found(block: CommonBlock) | Quit | Failed | Waiting

  // Blocks as the scanner sees them

  function RawTx(txs: seq<FakeChain.BlockTx>): seq<CommonTx> {
    if txs == [] then []
    else
      var tx := txs[|txs| - 1];
      RawTx(txs[..|txs| - 1]) + [CommonTx(tx.txid, Vouts(tx.outs))]
  }

  function Vouts(outs: seq<FakeChain.TxOut>): seq<CommonVout> {
    if outs == [] then []
    else
      var out := outs[|outs| - 1];
      Vouts(outs[..|outs| - 1]) + [CommonVout(out.value, 0, [out.address])]
  }

  /** btcBlock2CommonBlock refuses a block without transactions; skyBlock2CommonBlock leaves NextHash empty. */
  function ToCommonBlock(coin: string, b: FakeChain.Block): Option<CommonBlock> {
    if coin == COIN_BTC && b.txs == [] then None
    else Some(CommonBlock(b.height, b.hash, if coin == COIN_BTC then b.nextHash else "", RawTx(b.txs)))
  }

  lemma {:induction false} VoutsAt(outs: seq<FakeChain.TxOut>, j: nat)
    requires j < |outs|
    ensures |Vouts(outs)| == |outs| && Vouts(outs)[j] == CommonVout(outs[j].value, 0, [outs[j].address])
  {
    var n := |outs| - 1;
    if n > 0 {
      VoutsAt(outs[..n], if j < n then j else 0);
    }
  }

  lemma {:induction false} RawTxAt(txs: seq<FakeChain.BlockTx>, i: nat)
    requires i < |txs|
    ensures |RawTx(txs)| == |txs| && RawTx(txs)[i] == CommonTx(txs[i].txid, Vouts(txs[i].outs))
  {
    var n := |txs| - 1;
    if n > 0 {
      RawTxAt(txs[..n], if i < n then i else 0);
    }
  }

  /** The scanner's block has the transactions of the node's block, each with its outputs, at the same positions; the
      value and the single address of an output are kept and its number is 0. */
  ghost predicate SameTxs(txs: seq<FakeChain.BlockTx>, rawTx: seq<CommonTx>) {
    && |rawTx| == |txs|
    && (forall i :: 0 <= i < |txs| ==> rawTx[i].txid == txs[i].txid && |rawTx[i].vout| == |txs[i].outs|)
    && (forall i, j :: 0 <= i < |txs| && 0 <= j < |txs[i].outs| ==>
          var v, out := rawTx[i].vout[j], txs[i].outs[j];
          v.value == out.value && v.n == 0 && v.addresses == [out.address])
  }

  lemma RawTxIsSame(txs: seq<FakeChain.BlockTx>)
    ensures SameTxs(txs, RawTx(txs))
  {
    if txs != [] {
      RawTxAt(txs, 0);
    }
    forall i | 0 <= i < |txs|
      ensures RawTx(txs)[i].txid == txs[i].txid && |RawTx(txs)[i].vout| == |txs[i].outs|
      ensures forall j :: 0 <= j < |txs[i].outs| ==>
                RawTx(txs)[i].vout[j] == CommonVout(txs[i].outs[j].value, 0, [txs[i].outs[j].address])
    {
      RawTxAt(txs, i);
      if txs[i].outs != [] {
        VoutsAt(txs[i].outs, 0);
      }
      forall j | 0 <= j < |txs[i].outs|
        ensures RawTx(txs)[i].vout[j] == CommonVout(txs[i].outs[j].value, 0, [txs[i].outs[j].address])
      {
        VoutsAt(txs[i].outs, j);
      }
    }
  }

  /** Converting a block keeps all of it; only a Bitcoin block without transactions is refused. */
  lemma ConvertedIsSame(coin: string, b: FakeChain.Block)
    ensures ToCommonBlock(coin, b).Some? <==> coin != COIN_BTC || b.txs != []
    ensures ToCommonBlock(coin, b).Some? ==>
              var block := ToCommonBlock(coin, b).value;
              && block.height == b.height && block.hash == b.hash && SameTxs(b.txs, block.rawTx)
              && (coin == COIN_BTC ==> block.nextHash == b.nextHash) && (coin != COIN_BTC ==> block.nextHash == "")
  {
    RawTxIsSame(b.txs);
  }

  function BlockByHash(p: Poll, hash: string): Option<FakeChain.Block> {
    if p.up then FakeChain.GetBlock(p.chain, hash) else None
  }

  function BlockBySeq(p: Poll, height: int): Option<FakeChain.Block> {
    if height in p.chain.hashes then BlockByHash(p, p.chain.hashes[height]) else None
  }

  /** Skycoin numbers its blocks from 0 and reports one more than the last number. */
  function BlockCount(coin: string, c: Chain): int {
    if coin == COIN_BTC then c.best else c.best + 1
  }

  function GetNextBlock(coin: string, p: Poll, block: CommonBlock): Option<CommonBlock> {
    if coin == COIN_BTC && block.nextHash == "" then None
    else
      match if coin == COIN_BTC then BlockByHash(p, block.nextHash) else BlockBySeq(p, block.height + 1)
      case Some(b) => ToCommonBlock(coin, b)
      case None => None
  }

  // What every answer has in common: it shows a block of the chain that the run ends with

  /** b is a block of chain c; the link to the next block may not have been set yet when it was read. */
  ghost predicate IsBlock(coin: string, c: Chain, b: CommonBlock) {
    && b.hash in c.blocks
    && c.blocks[b.hash].height == b.height
    && b.rawTx == RawTx(c.blocks[b.hash].txs)
    && (coin == COIN_BTC ==> c.blocks[b.hash].txs != [])
    && (b.nextHash != "" ==> b.height + 1 in c.hashes && b.nextHash == c.hashes[b.height + 1])
  }

  ghost predicate View(p: Poll, base: int, last: Chain) {
    FakeChain.Linked(p.chain, base) && FakeChain.Grows(p.chain, last)
  }

  ghost predicate Views(polls: seq<Poll>, base: int, last: Chain) {
    forall i :: 0 <= i < |polls| ==> View(polls[i], base, last)
  }

  lemma AnswerIsBlock(coin: string, p: Poll, base: int, last: Chain, hash: string)
    requires View(p, base, last) && BlockByHash(p, hash).Some?
    ensures var b := BlockByHash(p, hash).value;
            && b.hash == hash && hash in last.blocks
            && b.height == last.blocks[hash].height && b.txs == last.blocks[hash].txs
            && (b.nextHash != "" <==> b.height < p.chain.best)
            && (ToCommonBlock(coin, b).Some? ==> IsBlock(coin, last, ToCommonBlock(coin, b).value))
            && (ToCommonBlock(coin, b).Some? ==>
                  SameTxs(last.blocks[hash].txs, ToCommonBlock(coin, b).value.rawTx))
  {
    ConvertedIsSame(coin, BlockByHash(p, hash).value);
    FakeChain.StoredLinkIsAnswer(p.chain, base, hash);
    assert FakeChain.Placed(p.chain, hash);
    var h := p.chain.blocks[hash].height;
    assert FakeChain.LinkedAt(p.chain, h);
    if h < p.chain.best {
      assert FakeChain.LinkedAt(p.chain, h + 1);
    }
  }

  lemma NextIsNext(coin: string, p: Poll, base: int, last: Chain, block: CommonBlock)
    requires FakeChain.Linked(last, base) && View(p, base, last) && IsBlock(coin, last, block)
    requires GetNextBlock(coin, p, block).Some?
    ensures var next := GetNextBlock(coin, p, block).value;
            IsBlock(coin, last, next) && next.height == block.height + 1
  {
    var hash := if coin == COIN_BTC then block.nextHash else p.chain.hashes[block.height + 1];
    AnswerIsBlock(coin, p, base, last, hash);
    assert FakeChain.LinkedAt(last, block.height + 1);
  }

  /** A call that gets through on a chain whose next block can be converted. */
  ghost predicate Shows(coin: string, p: Poll, last: Chain, height: int) {
    && p.up && height < p.chain.best
    && (coin == COIN_BTC && height + 1 in last.hashes && last.hashes[height + 1] in last.blocks ==>
          last.blocks[last.hashes[height + 1]].txs != [])
  }

  lemma ShownIsFound(coin: string, p: Poll, base: int, last: Chain, block: CommonBlock)
    requires FakeChain.Linked(last, base) && View(p, base, last) && IsBlock(coin, last, block)
    requires Shows(coin, p, last, block.height) && (coin == COIN_BTC ==> block.nextHash != "")
    ensures GetNextBlock(coin, p, block).Some?
  {
    assert FakeChain.Placed(last, block.hash);
    assert FakeChain.LinkedAt(p.chain, block.height + 1);
    assert FakeChain.LinkedAt(last, block.height + 1);
  }

  lemma NotFoundNotShown(coin: string, p: Poll, base: int, last: Chain, block: CommonBlock)
    requires FakeChain.Linked(last, base) && View(p, base, last) && IsBlock(coin, last, block)
    requires (coin == COIN_BTC ==> block.nextHash != "") && GetNextBlock(coin, p, block).None?
    ensures !Shows(coin, p, last, block.height)
  {
    if Shows(coin, p, last, block.height) {
      ShownIsFound(coin, p, base, last, block);
    }
  }

  /** No two of these polls show the block after this height. */
  ghost predicate ShownAtMostOnce(coin: string, polls: seq<Poll>, last: Chain, height: int) {
    forall i, j :: 0 <= i < j < |polls| ==>
        !(Shows(coin, polls[i], last, height) && Shows(coin, polls[j], last, height))
  }

  ghost predicate ShownBy(coin: string, polls: seq<Poll>, last: Chain, height: int) {
    exists i :: 0 <= i < |polls| && Shows(coin, polls[i], last, height)
  }

  lemma UnlinkedShowsNothing(p: Poll, base: int, last: Chain, known: CommonBlock)
    requires FakeChain.Linked(last, base) && View(p, base, last) && IsBlock(COIN_BTC, last, known)
    requires BlockByHash(p, known.hash).None? || BlockByHash(p, known.hash).value.nextHash == ""
    ensures !Shows(COIN_BTC, p, last, known.height)
  {
    assert FakeChain.Placed(last, known.hash);
    if p.up && known.height < p.chain.best {
      assert FakeChain.LinkedAt(last, known.height);
      assert FakeChain.LinkedAt(p.chain, known.height);
      AnswerIsBlock(COIN_BTC, p, base, last, known.hash);
    }
  }

  /** The known block, asked for again, converts to a block of the same height. */
  lemma KnownAnswer(p: Poll, base: int, last: Chain, known: CommonBlock)
    requires FakeChain.Linked(last, base) && View(p, base, last) && IsBlock(COIN_BTC, last, known)
    requires BlockByHash(p, known.hash).Some?
    ensures var b := BlockByHash(p, known.hash).value;
            && ToCommonBlock(COIN_BTC, b).Some? && IsBlock(COIN_BTC, last, ToCommonBlock(COIN_BTC, b).value)
            && ToCommonBlock(COIN_BTC, b).value.height == known.height
            && ToCommonBlock(COIN_BTC, b).value.nextHash == b.nextHash
  {
    AnswerIsBlock(COIN_BTC, p, base, last, known.hash);
  }

  /** Bitcoin's first wait: the known block is asked for again until its NextHash is set. used is the number of polls
      taken. */
  method WaitForLink(known: CommonBlock, polls: seq<Poll>, ghost base: int, ghost last: Chain)
    returns (w: Wait, used: nat)
    requires FakeChain.Linked(last, base) && IsBlock(COIN_BTC, last, known) && Views(polls, base, last)
    ensures !w.Failed? && used <= |polls|
    ensures w.Found? ==> IsBlock(COIN_BTC, last, w.block) && w.block.height == known.height && w.block.nextHash != ""
    ensures w.Found? ==> used > 0 && !ShownBy(COIN_BTC, polls[..used - 1], last, known.height)
    ensures w.Quit? ==> used > 0 && polls[used - 1].quit
    ensures w.Waiting? ==> used == |polls| && !ShownBy(COIN_BTC, polls, last, known.height)
    ensures forall k :: 0 <= k < used - 1 ==> !polls[k].quit
    ensures w.Waiting? && used > 0 ==> !polls[used - 1].quit
  {
    hide BlockByHash, ToCommonBlock, IsBlock, View, FakeChain.Linked, Shows;
    used := 0;
    while used < |polls|
      invariant used <= |polls|
      invariant forall k :: 0 <= k < used ==> !polls[k].quit
      invariant forall k :: 0 <= k < used ==> !Shows(COIN_BTC, polls[k], last, known.height)
    {
      var p := polls[used];
      used := used + 1;
      var answer := BlockByHash(p, known.hash);
      if answer.None? || answer.value.nextHash == "" {
        UnlinkedShowsNothing(p, base, last, known);
        if p.quit {
          return Quit, used;
        }
      } else {
        KnownAnswer(p, base, last, known);
        var block := ToCommonBlock(COIN_BTC, answer.value);
        return if block.None? then Failed else Found(block.value), used;
      }
    }
    return Waiting, used;
  }

  /** No answer before poll n showed the next block, and no wait before it saw a shutdown. */
  ghost predicate NotYet(coin: string, block: CommonBlock, polls: seq<Poll>, n: int) {
    forall k :: 0 <= k < n && k < |polls| ==> GetNextBlock(coin, polls[k], block).None? && !polls[k].quit
  }

  ghost predicate FoundAt(coin: string, block: CommonBlock, polls: seq<Poll>, next: CommonBlock) {
    exists n :: 0 <= n < |polls| && NotYet(coin, block, polls, n) &&
                GetNextBlock(coin, polls[n], block) == Some(next)
  }

  /** The second wait, and Skycoin's only one: the next block is asked for until it is there. */
  method WaitForBlock(coin: string, block: CommonBlock, polls: seq<Poll>, ghost base: int, ghost last: Chain)
    returns (w: Wait)
    requires FakeChain.Linked(last, base) && IsBlock(coin, last, block) && Views(polls, base, last)
    requires coin == COIN_BTC ==> block.nextHash != ""
    ensures !w.Failed?
    ensures w.Found? ==> IsBlock(coin, last, w.block) && w.block.height == block.height + 1
    ensures w.Found? ==> FoundAt(coin, block, polls, w.block)
    ensures w.Quit? ==> exists n :: 0 <= n < |polls| && polls[n].quit && NotYet(coin, block, polls, n)
    ensures w.Waiting? ==> !ShownBy(coin, polls, last, block.height)
    ensures w.Waiting? ==> NotYet(coin, block, polls, |polls|)
  {
    hide GetNextBlock, IsBlock, View, FakeChain.Linked, Shows;
    for i := 0 to |polls|
      invariant NotYet(coin, block, polls, i)
      invariant forall k :: 0 <= k < i ==> !Shows(coin, polls[k], last, block.height)
    {
      var next := GetNextBlock(coin, polls[i], block);
      if next.Some? {
        NextIsNext(coin, polls[i], base, last, block);
        return Found(next.value);
      }
      NotFoundNotShown(coin, polls[i], base, last, block);
      if polls[i].quit {
        return Quit;
      }
    }
    return Waiting;
  }

  /** No two of the waits after these polls saw a shutdown. */
  predicate QuitAtMostOnce(polls: seq<Poll>, n: int) {
    forall j, k :: 0 <= j < k < n && k < |polls| ==> !(polls[j].quit && polls[k].quit)
  }

  /** The first wait does not look at quit when the link is set, so one shutdown signal may be missed there. */
  lemma QuitMissedOnce(coin: string, block: CommonBlock, polls: seq<Poll>, used: nat, n: int)
    requires used <= |polls| && forall k :: 0 <= k < used - 1 ==> !polls[k].quit
    requires 0 <= n <= |polls| - used && NotYet(coin, block, polls[used..], n)
    ensures QuitAtMostOnce(polls, used + n)
  {
    forall k | used <= k < used + n ensures !polls[k].quit {
      assert polls[used..][k - used] == polls[k];
    }
  }

  lemma NeverShownTwice(coin: string, polls: seq<Poll>, used: nat, last: Chain, height: int)
    requires used <= |polls|
    requires used > 0 ==> !ShownBy(coin, polls[..used - 1], last, height)
    requires !ShownBy(coin, polls[used..], last, height)
    ensures ShownAtMostOnce(coin, polls, last, height)
  {
    forall j | used <= j < |polls| ensures !Shows(coin, polls[j], last, height) {
      assert polls[used..][j - used] == polls[j];
      assert !Shows(coin, polls[used..][j - used], last, height);
    }
    assert forall i :: 0 <= i < used - 1 ==> polls[..used - 1][i] == polls[i];
  }

  /** The scanner waits until the node shows the next height; a shutdown is the only other way out, and two good
      answers end the wait. */
  method WaitForNextBlock(coin: string, known: CommonBlock, polls: seq<Poll>, ghost base: int, ghost last: Chain)
    returns (w: Wait)
    requires FakeChain.Linked(last, base) && IsBlock(coin, last, known) && Views(polls, base, last)
    ensures !w.Failed?
    ensures w.Found? ==> IsBlock(coin, last, w.block) && w.block.height == known.height + 1
    ensures w.Quit? ==> exists p :: p in polls && p.quit
    ensures w.Waiting? ==> ShownAtMostOnce(coin, polls, last, known.height) && QuitAtMostOnce(polls, |polls|)
    ensures w.Found? ==> exists n :: 0 <= n < |polls| && polls[n].up && QuitAtMostOnce(polls, n)
  {
    hide IsBlock, View, FakeChain.Linked, Shows;
    var block, used := known, 0;
    if coin == COIN_BTC && block.nextHash == "" {
      w, used := WaitForLink(known, polls, base, last);
      if !w.Found? {
        return;
      }
      block := w.block;
    }
    w := WaitForBlock(coin, block, polls[used..], base, last);
    if w.Waiting? {
      NeverShownTwice(coin, polls, used, last, known.height);
      QuitMissedOnce(coin, block, polls, used, |polls| - used);
    } else if w.Found? {
      ghost var n :| 0 <= n < |polls| - used && NotYet(coin, block, polls[used..], n) &&
          GetNextBlock(coin, polls[used..][n], block) == Some(w.block);
      QuitMissedOnce(coin, block, polls, used, n);
      assert polls[used..][n] == polls[used + n];
    }
  }
}

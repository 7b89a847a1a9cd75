/** One input each for the places where two halves of the code, or the code and
    what is written about it, come apart (sidestr-core/src/marker.rs, block.rs,
    rules.rs, channel.rs); the exact conditions are with the functions. */
module Disagreements {
  import opened Prelude
  import opened Transactions
  import opened WitnessCodec
  import opened Sealing
  import Markers
  import Heights
  import Chain
  import Ledger
  import Timelocks

  function Zeros(n: nat): (s: seq<byte>)
    ensures |s| == n
  {
    if n == 0 then [] else [0] + Zeros(n - 1)
  }

  /** A marker of 256 bytes is written and not read. */
  lemma LongMarkerUnread()
    ensures Markers.OpReturnData(Markers.OpReturn(Zeros(256))) == None
  {
    hide Zeros;
    Markers.OpReturnRoundTrip(Zeros(256));
  }

  /** A coinbase script of one zero byte is height 0 to the node and no height to
      the height rule. */
  lemma ZeroHeightUnread(coinbase: Transaction)
    requires |coinbase.inputs| > 0 && coinbase.inputs[0].scriptSig == [0]
    ensures CoinbaseHeight(Contents(coinbase)) == Some(0) && Chain.Bip34Height(coinbase) == None
  {
    Heights.ZeroPush();
    assert [0] == Heights.HeightPush(0) + [];
    Heights.HeightReadsBack(coinbase, 0, []);
  }

  // --- solutions ---------------------------------------------------------------------------------

  const COMMITMENT: Script :=
    COMMITMENT_PREFIX + [0, 0, 0, 0, 0, 0, 0, 0, 0, 0, 0, 0, 0, 0, 0, 0, 0, 0, 0, 0, 0, 0, 0, 0, 0, 0, 0, 0, 0, 0, 0, 0]

  /** A block of a coinbase whose one output is a commitment and what follows it. */
  function BlockWith(rest: seq<byte>): seq<RawTx>
  {
    [RawTx(2, 0, [], [TxOut(0, COMMITMENT + rest)])]
  }

  lemma CommittedAt(rest: seq<byte>)
    ensures CommitmentOf(BlockWith(rest)) == Some(0)
    ensures BlockWith(rest)[0].outputs[0].script[COMMITMENT_LEN..] == rest
  {
    assert (COMMITMENT + rest)[..6] == COMMITMENT_PREFIX;
    assert (COMMITMENT + rest)[COMMITMENT_LEN..] == rest;
  }

  /** An empty witness behind a push one byte longer than it needs to be. */
  const LONG_PUSH: seq<byte> := [0x4c, 5] + (SIGNET_HEADER + [0])

  /** Its solution is read, and putting it back gives another block. */
  lemma LongPushNotPutBack()
    ensures SolutionOf(BlockWith(LONG_PUSH)) == Some(Solution([], 0))
    ensures WithSolution(BlockWith(LONG_PUSH), []) != Some(BlockWith(LONG_PUSH))
  {
    hide CommitmentOf, Decode;
    CommittedAt(LONG_PUSH);
    assert ReadPush(LONG_PUSH) == Some(SIGNET_HEADER + [0]) by {
      assert LONG_PUSH[2..] == SIGNET_HEADER + [0];
    }
    assert (SIGNET_HEADER + [0])[..4] == SIGNET_HEADER && (SIGNET_HEADER + [0])[4..] == [0];
    EmptyDecodes();
    SolutionReinserted(BlockWith(LONG_PUSH));
  }

  lemma EmptyDecodes()
    ensures Decode([0]) == Some([])
  {
    WitnessCodecExact([0], []);
  }

  /** This many empty items. */
  function Empties(n: nat): (items: Items)
    ensures |items| == n
  {
    if n == 0 then [] else [[]] + Empties(n - 1)
  }

  lemma {:induction false} EmptyItems(n: nat)
    ensures |EncodeItems(Empties(n))| == n
  {
    if n > 0 {
      EmptyItems(n - 1);
      assert Empties(n)[1..] == Empties(n - 1);
    }
  }

  /** A witness of 257 items is written into a block that then reads as unsolved. */
  lemma ManyItemsUnread()
    ensures WithSolution(BlockWith([]), Empties(257)).Some?
    ensures SolutionOf(WithSolution(BlockWith([]), Empties(257)).value) == None
  {
    hide CommitmentOf, SolutionOf, EncodeItems, Empties;
    CommittedAt([]);
    EmptyItems(257);
    SolutionReadBack(BlockWith([]), Empties(257));
  }

  // --- a lock beyond the last height ---------------------------------------------------------------

  /** Five blocks after the last height there is: the earliest height given is that
      last one, where the block rules still refuse. */
  lemma LockNeverEnds(prev: OutPoint)
    ensures var tx := Transaction(Hash(1), 2, 0, [TxIn(prev, [], 5, [])], [], Classified([], [], [], [], [], []));
            && Timelocks.EarliestHeight(tx, 0, U32_MAX) == Some(U32_MAX)
            && !Timelocks.LocksAdmit(tx, [U32_MAX], U32_MAX, None)
  {
    var tx := Transaction(Hash(1), 2, 0, [TxIn(prev, [], 5, [])], [], Classified([], [], [], [], [], []));
    Timelocks.OverflowNeverAdmitted(tx, [U32_MAX], 0, None);
  }
}

/**
 * Block metrics of a node: counts and sizes computed from a committed block
 * and pushed into the node's status handler. The marshaller is a function
 * giving the length of an entity's encoding, or nothing when encoding fails;
 * the status handler is a recording object holding the last value set for
 * each metric and the number of increments of each counter.
 */
module BlockMetrics {
  import opened Wrappers
  import opened GoInts
  import opened Sums
  import DecimalText

  /** The status metrics this component writes. */
  datatype Metric =
    | HeaderSize | NumTxInBlock | NumMiniBlocks | NumShardHeadersProcessed
    | NumShardHeadersFromPool | MiniBlocksSize | TxPoolLoad | NumProcessedTxs
    | CountConsensusAcceptedBlocks | CurrentBlockHash | HighestFinalBlockInShard
    | CrossCheckBlockHeight

  /** A status handler that records what it is told. */
  class StatusRecorder {
    var uint64Values: map<Metric, U64>
    var stringValues: map<Metric, string>
    var increments: map<Metric, nat>

    constructor ()
      ensures uint64Values == map[] && stringValues == map[] && increments == map[]
    {
      uint64Values, stringValues, increments := map[], map[], map[];
    }

    /** How many times counter `m` has been incremented. */
    function Increments(m: Metric): nat
      reads this
    {
      if m in increments then increments[m] else 0
    }

    method SetUInt64Value(m: Metric, value: U64)
      modifies this
      ensures uint64Values == old(uint64Values)[m := value]
      ensures stringValues == old(stringValues) && increments == old(increments)
    {
      uint64Values := uint64Values[m := value];
    }

    method SetStringValue(m: Metric, value: string)
      modifies this
      ensures stringValues == old(stringValues)[m := value]
      ensures uint64Values == old(uint64Values) && increments == old(increments)
    {
      stringValues := stringValues[m := value];
    }

    method Increment(m: Metric)
      modifies this
      ensures increments == old(increments)[m := old(Increments(m)) + 1]
      ensures uint64Values == old(uint64Values) && stringValues == old(stringValues)
    {
      increments := increments[m := Increments(m) + 1];
    }
  }

  // ---------------------------------------------------------------------------
  // Block entities (only the fields the metrics read)
  // ---------------------------------------------------------------------------

  datatype MiniBlockHeader = MiniBlockHeader(hash: seq<byte>)
  datatype ShardData = ShardData(shardMiniBlockHeaders: seq<MiniBlockHeader>)
  datatype MetaBlock = MetaBlock(shardInfo: seq<ShardData>, txCount: U32)
  datatype MiniBlock = MiniBlock(txHashes: seq<seq<byte>>)
  /** A shard block header; its fields matter here only through its encoding. */
  datatype Header = Header(nonce: U64, round: U64, rootHash: seq<byte>)

  // ---------------------------------------------------------------------------
  // Specification functions
  // ---------------------------------------------------------------------------

  /** The same sum accumulated in a Go `uint64`, wrapping modulo 2^64 at each step. */
  function WrappedSum(xs: seq<nat>): U64 {
    if xs == [] then 0 else AddU64(WrappedSum(xs[..|xs| - 1]), xs[|xs| - 1])
  }

  /** An encoded length, or 0 when encoding failed. */
  function SizeOrZero(encoded: Option<Len>): (size: U64)
    ensures encoded.None? ==> size == 0
    ensures encoded.Some? ==> size == encoded.value
  {
    if encoded.Some? then encoded.value else 0
  }

  function MiniBlockHeaderCounts(shardInfo: seq<ShardData>): (r: seq<nat>)
    ensures |r| == |shardInfo|
    ensures forall i :: 0 <= i < |r| ==> r[i] == |shardInfo[i].shardMiniBlockHeaders|
  {
    seq(|shardInfo|, i requires 0 <= i < |shardInfo| => |shardInfo[i].shardMiniBlockHeaders|)
  }

  function TxHashCounts(body: seq<MiniBlock>): (r: seq<nat>)
    ensures |r| == |body|
    ensures forall i :: 0 <= i < |r| ==> r[i] == |body[i].txHashes|
  {
    seq(|body|, i requires 0 <= i < |body| => |body[i].txHashes|)
  }

  function EncodedSizes(body: seq<MiniBlock>, marshal: MiniBlock -> Option<Len>): (r: seq<nat>)
    ensures |r| == |body|
    ensures forall i :: 0 <= i < |r| ==> r[i] == SizeOrZero(marshal(body[i]))
  {
    seq(|body|, i requires 0 <= i < |body| => SizeOrZero(marshal(body[i])))
  }

  /** Every miniblock header of every shard, shard after shard. */
  function AllMiniBlockHeaders(shardInfo: seq<ShardData>): seq<MiniBlockHeader> {
    if shardInfo == [] then []
    else AllMiniBlockHeaders(shardInfo[..|shardInfo| - 1]) + shardInfo[|shardInfo| - 1].shardMiniBlockHeaders
  }

  /** Every transaction hash of every miniblock, miniblock after miniblock. */
  function AllTxHashes(body: seq<MiniBlock>): seq<seq<byte>> {
    if body == [] then [] else AllTxHashes(body[..|body| - 1]) + body[|body| - 1].txHashes
  }

  // ---------------------------------------------------------------------------
  // Lemmas
  // ---------------------------------------------------------------------------

  /** As long as the true sum fits in 64 bits, the wrapping accumulator holds it exactly. */
  lemma {:induction false} WrappedSumExact(xs: seq<nat>)
    requires Sum(xs) < TwoTo64
    ensures WrappedSum(xs) == Sum(xs)
  {
    if xs != [] {
      WrappedSumExact(xs[..|xs| - 1]);
    }
  }

  /** The miniblock count of a metablock is the number of miniblock headers of all its shards. */
  lemma {:induction false} MiniBlockHeaderCountsTotal(shardInfo: seq<ShardData>)
    ensures Sum(MiniBlockHeaderCounts(shardInfo)) == |AllMiniBlockHeaders(shardInfo)|
  {
    if shardInfo != [] {
      var init := shardInfo[..|shardInfo| - 1];
      MiniBlockHeaderCountsTotal(init);
      assert MiniBlockHeaderCounts(shardInfo)[..|shardInfo| - 1] == MiniBlockHeaderCounts(init);
    }
  }

  /** The transaction count of a body is the number of transaction hashes of all its miniblocks. */
  lemma {:induction false} TxHashCountsTotal(body: seq<MiniBlock>)
    ensures Sum(TxHashCounts(body)) == |AllTxHashes(body)|
  {
    if body != [] {
      var init := body[..|body| - 1];
      TxHashCountsTotal(init);
      assert TxHashCounts(body)[..|body| - 1] == TxHashCounts(init);
    }
  }

  /** A body none of whose miniblocks can be encoded has size 0. */
  lemma {:induction false} EncodedSizesAllFail(body: seq<MiniBlock>, marshal: MiniBlock -> Option<Len>)
    requires forall i :: 0 <= i < |body| ==> marshal(body[i]).None?
    ensures WrappedSum(EncodedSizes(body, marshal)) == 0
  {
    if body != [] {
      var init := body[..|body| - 1];
      EncodedSizesAllFail(init, marshal);
      assert EncodedSizes(body, marshal)[..|body| - 1] == EncodedSizes(init, marshal);
    }
  }

  /** The cross-check text: "meta " then the nonce in decimal. */
  function CrossCheckText(nonce: U64): (s: string)
    ensures |s| > 5 && s[..5] == "meta "
    ensures DecimalText.AllDigits(s[5..]) && DecimalText.Parse(s[5..]) == nonce
  {
    DecimalText.ParseDecimal(nonce);
    var s := "meta " + DecimalText.Decimal(nonce);
    assert s[5..] == DecimalText.Decimal(nonce);
    s
  }

  // ---------------------------------------------------------------------------
  // The metric operations
  // ---------------------------------------------------------------------------

  /** Metrics of a metachain block header. */
  method GetMetricsFromMetaHeader(
    header: MetaBlock,
    marshal: MetaBlock -> Option<Len>,
    handler: StatusRecorder,
    headersCountInPool: I64,
    totalHeadersProcessed: U64)
    modifies handler
    ensures handler.uint64Values == old(handler.uint64Values)
      [HeaderSize := SizeOrZero(marshal(header))]
      [NumTxInBlock := header.txCount]
      [NumMiniBlocks := WrappedSum(MiniBlockHeaderCounts(header.shardInfo))]
      [NumShardHeadersProcessed := totalHeadersProcessed]
      [NumShardHeadersFromPool := ToU64(headersCountInPool)]
    ensures handler.stringValues == old(handler.stringValues)
    ensures handler.increments == old(handler.increments)
  {
    var counts := MiniBlockHeaderCounts(header.shardInfo);
    var numMiniBlocksMetaBlock: U64 := 0;
    var headerSize: U64 := 0;
    for i := 0 to |header.shardInfo|
      invariant numMiniBlocksMetaBlock == WrappedSum(counts[..i])
    {
      assert counts[..i + 1][..i] == counts[..i];
      numMiniBlocksMetaBlock := AddU64(numMiniBlocksMetaBlock, |header.shardInfo[i].shardMiniBlockHeaders|);
    }
    assert counts[..|header.shardInfo|] == counts;

    var encoded := marshal(header);
    if encoded.Some? {
      headerSize := encoded.value;
    }

    handler.SetUInt64Value(HeaderSize, headerSize);
    handler.SetUInt64Value(NumTxInBlock, header.txCount);
    handler.SetUInt64Value(NumMiniBlocks, numMiniBlocksMetaBlock);
    handler.SetUInt64Value(NumShardHeadersProcessed, totalHeadersProcessed);
    handler.SetUInt64Value(NumShardHeadersFromPool, ToU64(headersCountInPool));
  }

  /** Metrics of a block body: transactions, miniblocks and encoded size. */
  method GetMetricsFromBlockBody(
    body: seq<MiniBlock>,
    marshal: MiniBlock -> Option<Len>,
    handler: StatusRecorder)
    modifies handler
    ensures handler.uint64Values == old(handler.uint64Values)
      [NumTxInBlock := WrappedSum(TxHashCounts(body))]
      [NumMiniBlocks := AddU64(0, |body|)]
      [MiniBlocksSize := WrappedSum(EncodedSizes(body, marshal))]
    ensures handler.stringValues == old(handler.stringValues)
    ensures handler.increments == old(handler.increments)
  {
    var txCounts := TxHashCounts(body);
    var sizes := EncodedSizes(body, marshal);
    var mbLen := |body|;
    var miniblocksSize: U64 := 0;
    var totalTxCount: U64 := 0;
    for i := 0 to mbLen
      invariant totalTxCount == WrappedSum(txCounts[..i])
      invariant miniblocksSize == WrappedSum(sizes[..i])
    {
      assert txCounts[..i + 1][..i] == txCounts[..i];
      assert sizes[..i + 1][..i] == sizes[..i];
      totalTxCount := AddU64(totalTxCount, |body[i].txHashes|);
      var encoded := marshal(body[i]);
      if encoded.Some? {
        miniblocksSize := AddU64(miniblocksSize, encoded.value);
      }
    }
    assert txCounts[..mbLen] == txCounts && sizes[..mbLen] == sizes;

    handler.SetUInt64Value(NumTxInBlock, totalTxCount);
    handler.SetUInt64Value(NumMiniBlocks, AddU64(0, mbLen));
    handler.SetUInt64Value(MiniBlocksSize, miniblocksSize);
  }

  /** Metrics of a shard block header: its encoded size and the transaction counters given. */
  method GetMetricsFromHeader(
    header: Header,
    numTxWithDst: U64,
    totalTx: I64,
    marshal: Header -> Option<Len>,
    handler: StatusRecorder)
    modifies handler
    ensures handler.uint64Values == old(handler.uint64Values)
      [HeaderSize := SizeOrZero(marshal(header))]
      [TxPoolLoad := numTxWithDst]
      [NumProcessedTxs := ToU64(totalTx)]
    ensures handler.stringValues == old(handler.stringValues)
    ensures handler.increments == old(handler.increments)
  {
    var headerSize: U64 := 0;
    var encoded := marshal(header);
    if encoded.Some? {
      headerSize := encoded.value;
    }
    handler.SetUInt64Value(HeaderSize, headerSize);
    handler.SetUInt64Value(TxPoolLoad, numTxWithDst);
    handler.SetUInt64Value(NumProcessedTxs, ToU64(totalTx));
  }

  /** Metrics recorded when a block is committed. */
  method SaveMetricsForACommittedBlock(
    handler: StatusRecorder,
    isInConsensus: bool,
    currentBlockHash: string,
    highestFinalBlockNonce: U64,
    headerMetaNonce: U64)
    modifies handler
    ensures handler.increments == if isInConsensus
      then old(handler.increments)[CountConsensusAcceptedBlocks := old(handler.Increments(CountConsensusAcceptedBlocks)) + 1]
      else old(handler.increments)
    ensures handler.stringValues == old(handler.stringValues)
      [CurrentBlockHash := currentBlockHash]
      [CrossCheckBlockHeight := CrossCheckText(headerMetaNonce)]
    ensures handler.uint64Values == old(handler.uint64Values)[HighestFinalBlockInShard := highestFinalBlockNonce]
  {
    if isInConsensus {
      handler.Increment(CountConsensusAcceptedBlocks);
    }
    handler.SetStringValue(CurrentBlockHash, currentBlockHash);
    handler.SetUInt64Value(HighestFinalBlockInShard, highestFinalBlockNonce);
    handler.SetStringValue(CrossCheckBlockHeight, CrossCheckText(headerMetaNonce));
  }

  /**
   * When the node's own key is among the consensus group's keys, counts each
   * of the `numBlockHeaders` blocks as accepted; otherwise records nothing.
   */
  method EstimateRewardsForMetachain(
    publicKeys: seq<seq<byte>>,
    ownPublicKey: seq<byte>,
    handler: StatusRecorder,
    numBlockHeaders: I64)
    modifies handler
    ensures handler.increments == if ownPublicKey in publicKeys && numBlockHeaders > 0
      then old(handler.increments)[CountConsensusAcceptedBlocks :=
             old(handler.Increments(CountConsensusAcceptedBlocks)) + numBlockHeaders]
      else old(handler.increments)
    ensures handler.uint64Values == old(handler.uint64Values)
    ensures handler.stringValues == old(handler.stringValues)
  {
    var isInConsensus := false;
    for j := 0 to |publicKeys|
      invariant isInConsensus <==> ownPublicKey in publicKeys[..j]
    {
      assert publicKeys[..j + 1] == publicKeys[..j] + [publicKeys[j]];
      if publicKeys[j] == ownPublicKey {
        isInConsensus := true;
        continue;
      }
    }
    assert publicKeys[..|publicKeys|] == publicKeys;

    if !isInConsensus || numBlockHeaders == 0 {
      return;
    }

    ghost var before := handler.Increments(CountConsensusAcceptedBlocks);
    var i := 0;
    while i < numBlockHeaders
      invariant 0 <= i && (numBlockHeaders > 0 ==> i <= numBlockHeaders)
      invariant numBlockHeaders < 0 ==> i == 0
      invariant handler.increments == if i == 0 then old(handler.increments)
        else old(handler.increments)[CountConsensusAcceptedBlocks := before + i]
      invariant handler.uint64Values == old(handler.uint64Values)
      invariant handler.stringValues == old(handler.stringValues)
    {
      handler.Increment(CountConsensusAcceptedBlocks);
      i := i + 1;
    }
  }
}

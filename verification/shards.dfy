/**
  Assignment of dataset shards to the pipelines: every worker builds one pipeline per
  GPU in its list, and the pipeline for GPU `g` on worker `rank` reads shard
  `gpus.index(g) + len(gpus) * rank` of `len(gpus) * nWrk`.
 */
module Shards {
  import opened Results

  /** A shard of a record file: which part to read, and into how many parts the file is cut. */
  datatype Shard = Shard(id: int, count: int)

  /** No GPU id is listed twice. */
  predicate NoDuplicates(gpus: seq<int>) {
    forall i, j :: 0 <= i < j < |gpus| ==> gpus[i] != gpus[j]
  }

  /** `gpus.index(g)`: the first position holding `g`; an id that is not listed raises `ValueError`. */
  function IndexOf(gpus: seq<int>, g: int): (r: Result<nat>)
    ensures r.Ok? <==> g in gpus
    ensures r.Ok? ==> r.value < |gpus| && gpus[r.value] == g && forall j :: 0 <= j < r.value ==> gpus[j] != g
    ensures r.Err? ==> r.error == ValueError
    decreases |gpus|
  {
    if |gpus| == 0 then Err(ValueError)
    else if gpus[0] == g then Ok(0)
    else
      match IndexOf(gpus[1..], g)
      case Err(e) => Err(e)
      case Ok(i) =>
        assert forall j :: 1 <= j <= i ==> gpus[j] == gpus[1..][j - 1];
        Ok(i + 1)
  }

  /** In a list without repeats, the first position of the `k`-th id is `k`. */
  lemma IndexOfDistinct(gpus: seq<int>, k: int)
    requires NoDuplicates(gpus) && 0 <= k < |gpus|
    ensures IndexOf(gpus, gpus[k]) == Ok(k)
  {
    var r := IndexOf(gpus, gpus[k]);
    assert r.Ok?;
  }

  /** Multiplying by a non-negative factor keeps the order. */
  lemma MulMonotone(n: int, a: int, b: int)
    requires n >= 0 && a <= b
    ensures n * a <= n * b
  {
    assert n * b - n * a == n * (b - a);
  }

  /** The number of shards: one per GPU of every worker. */
  function NumShards(gpus: seq<int>, nWrk: int): int {
    |gpus| * nWrk
  }

  /** The training shard of the pipeline built for the `k`-th listed GPU on worker `rank`. */
  function TrainShard(gpus: seq<int>, k: int, rank: int, nWrk: int): (s: Shard)
    requires 0 <= k < |gpus|
    ensures s.count == |gpus| * nWrk
    ensures 0 <= rank < nWrk ==> 0 <= s.id < s.count
  {
    var idx := IndexOf(gpus, gpus[k]).value;
    if 0 <= rank < nWrk then
      MulMonotone(|gpus|, 0, rank);
      MulMonotone(|gpus|, rank + 1, nWrk);
      Shard(idx + |gpus| * rank, NumShards(gpus, nWrk))
    else
      Shard(idx + |gpus| * rank, NumShards(gpus, nWrk))
  }

  /** The validation shard: in separate-validation mode every pipeline reads the whole set. */
  function ValShard(gpus: seq<int>, k: int, rank: int, nWrk: int, separate: bool): (s: Shard)
    requires 0 <= k < |gpus|
    ensures separate ==> s == Shard(0, 1)
    ensures !separate ==> s == TrainShard(gpus, k, rank, nWrk)
  {
    if separate then Shard(0, 1) else TrainShard(gpus, k, rank, nWrk)
  }

  /** With distinct GPU ids, the shard id is the GPU's position plus the worker's offset. */
  lemma TrainShardId(gpus: seq<int>, k: int, rank: int, nWrk: int)
    requires NoDuplicates(gpus) && 0 <= k < |gpus|
    ensures TrainShard(gpus, k, rank, nWrk).id == k + |gpus| * rank
  {
    IndexOfDistinct(gpus, k);
  }

  /** Distinct (worker, GPU) pairs read distinct shards. */
  lemma ShardsDistinct(gpus: seq<int>, nWrk: int, r1: int, k1: int, r2: int, k2: int)
    requires NoDuplicates(gpus)
    requires 0 <= r1 < nWrk && 0 <= r2 < nWrk
    requires 0 <= k1 < |gpus| && 0 <= k2 < |gpus|
    requires r1 != r2 || k1 != k2
    ensures TrainShard(gpus, k1, r1, nWrk).id != TrainShard(gpus, k2, r2, nWrk).id
  {
    TrainShardId(gpus, k1, r1, nWrk);
    TrainShardId(gpus, k2, r2, nWrk);
    var n := |gpus|;
    if r1 < r2 {
      MulMonotone(n, r1 + 1, r2);
      assert n * (r1 + 1) == n * r1 + n;
    } else if r2 < r1 {
      MulMonotone(n, r2 + 1, r1);
      assert n * (r2 + 1) == n * r2 + n;
    }
  }

  /** Every shard is read by some (worker, GPU) pair: with `ShardsDistinct`, the assignment is a bijection. */
  lemma ShardsCover(gpus: seq<int>, nWrk: int, s: int)
    requires NoDuplicates(gpus)
    requires 0 <= s < NumShards(gpus, nWrk)
    ensures exists r, k :: 0 <= r < nWrk && 0 <= k < |gpus| && TrainShard(gpus, k, r, nWrk).id == s
  {
    var n := |gpus|;
    var r := s / n;
    var k := s % n;
    assert s == k + n * r;
    if nWrk <= r {
      MulMonotone(n, nWrk, r);
    }
    TrainShardId(gpus, k, r, nWrk);
  }

  /** A GPU listed twice makes two pipelines of one worker read the same shard. */
  lemma RepeatedGpuSharesShard()
    ensures TrainShard([0, 0], 0, 0, 1) == TrainShard([0, 0], 1, 0, 1) == Shard(0, 2)
  {
  }
}

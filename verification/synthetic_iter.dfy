/**
  The synthetic-data iterator used instead of the image pipelines for benchmarking:
  one fixed batch per GPU, handed out again and again until the sample counter
  passes the epoch size. The random contents of the batch are opaque values of the
  type parameters `D` (data) and `L` (labels).
 */
module SyntheticIter {
  import opened Results

  /** A data descriptor: name, shape, element type and layout. */
  datatype DataDesc = DataDesc(name: string, shape: seq<int>, dtype: string, layout: string)

  /** One batch for one GPU; the synthetic iterator never pads. */
  datatype DataBatch<D, L> = DataBatch(data: D, labels: L, pad: int)

  /** The outcome of `next()`: the per-GPU batches, or `StopIteration`. */
  datatype Outcome<D, L> = Batches(batches: seq<DataBatch<D, L>>) | StopIteration

  /** The iterator's state; `data` and `labels` hold one copy of the generated batch per GPU. */
  datatype Iter<D, L> = Iter(batchSize: int, curSample: int, epochSize: int, dtype: string,
                             gpus: seq<int>, dataShape: seq<int>, layout: string,
                             data: seq<D>, labels: seq<L>)

  /** The element type of the label descriptor, and the layout a descriptor gets when none is given. */
  const LabelType: string := "float32"
  const DefaultLayout: string := "NCHW"

  /** A state reachable from the constructor. */
  ghost predicate Valid<D, L>(it: Iter<D, L>) {
    && |it.dataShape| > 0
    && it.batchSize == it.dataShape[0]
    && |it.data| == |it.gpus|
    && |it.labels| == |it.gpus|
  }

  /** The number of samples one successful `next()` accounts for. */
  function Step<D, L>(it: Iter<D, L>): int {
    it.batchSize * |it.gpus|
  }

  /** No dimension of the shape is negative. */
  predicate NonNegativeDims(shape: seq<int>) {
    forall i :: 0 <= i < |shape| ==> shape[i] >= 0
  }

  /**
    The constructor. The batch size is the leading dimension of `dataShape`, so an empty shape
    raises `IndexError`; drawing the random labels and data then raises `ValueError` when a
    dimension is negative.
   */
  function Create<D, L>(dataShape: seq<int>, epochSize: int, dtype: string, gpus: seq<int>, layout: string,
                        data: D, labels: L): (r: Result<Iter<D, L>>)
    ensures |dataShape| == 0 <==> r == Err(IndexError)
    ensures r == Err(ValueError) <==> |dataShape| > 0 && exists i :: 0 <= i < |dataShape| && dataShape[i] < 0
    ensures r.Ok? ==> Valid(r.value) && r.value.curSample == 0 && r.value.epochSize == epochSize
    ensures r.Ok? ==> r.value.gpus == gpus && r.value.dataShape == dataShape && r.value.batchSize >= 0
    ensures r.Ok? ==> forall i :: 0 <= i < |gpus| ==> r.value.data[i] == data && r.value.labels[i] == labels
  {
    if |dataShape| == 0 then Err(IndexError)
    else if !NonNegativeDims(dataShape) then Err(ValueError)
    else
      Ok(Iter(dataShape[0], 0, epochSize, dtype, gpus, dataShape, layout,
              seq(|gpus|, _ => data), seq(|gpus|, _ => labels)))
  }

  /** `next()`: while the counter has not passed the epoch size, advance it and return one batch per GPU. */
  function Next<D, L>(it: Iter<D, L>): (r: (Iter<D, L>, Outcome<D, L>))
    ensures r.1.Batches? <==> it.curSample <= it.epochSize
    ensures r.1.StopIteration? ==> r.0 == it
    ensures r.1.Batches? ==> r.0 == it.(curSample := it.curSample + Step(it))
    ensures r.1.Batches? ==> |r.1.batches| == Min(|it.data|, |it.labels|)
    ensures r.1.Batches? ==> forall i :: 0 <= i < |r.1.batches| ==>
                               r.1.batches[i] == DataBatch(it.data[i], it.labels[i], 0)
  {
    if it.curSample <= it.epochSize then
      var n := Min(|it.data|, |it.labels|);
      (it.(curSample := it.curSample + Step(it)),
       Batches(seq(n, i requires 0 <= i < n => DataBatch(it.data[i], it.labels[i], 0))))
    else
      (it, StopIteration)
  }

  /** `reset()`: start a new epoch. */
  function Reset<D, L>(it: Iter<D, L>): (r: Iter<D, L>)
    ensures r.curSample == 0
    ensures r.(curSample := it.curSample) == it
  {
    it.(curSample := 0)
  }

  /** `provide_data`: one descriptor whose leading dimension covers all GPUs. */
  function ProvideData<D, L>(it: Iter<D, L>): (r: seq<DataDesc>)
    requires |it.dataShape| > 0
    ensures |r| == 1 && r[0].name == "data" && r[0].dtype == it.dtype && r[0].layout == it.layout
    ensures |r[0].shape| == |it.dataShape| && r[0].shape[1..] == it.dataShape[1..]
  {
    [DataDesc("data", [it.dataShape[0] * |it.gpus|] + it.dataShape[1..], it.dtype, it.layout)]
  }

  /** `provide_label`: one flat label descriptor of `float32` values. */
  function ProvideLabel<D, L>(it: Iter<D, L>): (r: seq<DataDesc>)
    ensures |r| == 1 && r[0].name == "softmax_label" && r[0].dtype == LabelType && r[0].layout == DefaultLayout
    ensures |r[0].shape| == 1
  {
    [DataDesc("softmax_label", [it.batchSize * |it.gpus|], LabelType, DefaultLayout)]
  }

  /** Both descriptors announce exactly the number of samples each successful `next()` adds to the counter. */
  lemma DescriptorsMatchStep<D, L>(it: Iter<D, L>)
    requires Valid(it)
    ensures ProvideData(it)[0].shape[0] == Step(it)
    ensures ProvideLabel(it)[0].shape == [Step(it)]
    ensures it.curSample <= it.epochSize ==> Next(it).0.curSample - it.curSample == Step(it)
  {
  }

  /** Every batch of a valid iterator pairs the generated data and labels of its GPU, unpadded. */
  lemma BatchesPerGpu<D, L>(it: Iter<D, L>)
    requires Valid(it) && it.curSample <= it.epochSize
    ensures |Next(it).1.batches| == |it.gpus|
    ensures forall i :: 0 <= i < |it.gpus| ==> Next(it).1.batches[i] == DataBatch(it.data[i], it.labels[i], 0)
  {
  }

  /* ------------------------------------------------------------ epochs */

  /** The state after `n` calls of `next()`, whatever they returned. */
  function Run<D, L>(it: Iter<D, L>, n: nat): Iter<D, L>
    decreases n
  {
    if n == 0 then it else Run(Next(it).0, n - 1)
  }

  /** How many of `n` consecutive calls of `next()` return batches. */
  function Successes<D, L>(it: Iter<D, L>, n: nat): nat
    decreases n
  {
    if n == 0 then 0
    else
      var (next, outcome) := Next(it);
      (if outcome.Batches? then 1 else 0) + Successes(next, n - 1)
  }

  /** The number of calls that still return batches, for a positive step. */
  function Remaining<D, L>(it: Iter<D, L>): nat
    requires Step(it) > 0
  {
    if it.curSample > it.epochSize then 0 else (it.epochSize - it.curSample) / Step(it) + 1
  }

  /** Subtracting the divisor once lowers the quotient by one. */
  lemma DivSubtract(x: int, d: int)
    requires x >= d > 0
    ensures (x - d) / d == x / d - 1
  {
    var q, m := (x - d) / d, (x - d) % d;
    var a, b := x / d, x % d;
    var k := q + 1 - a;
    assert d * k == b - m by {
      assert d * (q + 1) + m == d * a + b;
    }
  }

  /** A smaller remainder than the divisor has quotient zero. */
  lemma DivSmall(x: int, d: int)
    requires 0 <= x < d
    ensures x / d == 0
  {
  }

  /** One successful call uses up exactly one of the remaining calls. */
  lemma RemainingAfterNext<D, L>(it: Iter<D, L>)
    requires Step(it) > 0 && it.curSample <= it.epochSize
    ensures Remaining(it) == Remaining(Next(it).0) + 1
  {
    var x := it.epochSize - it.curSample;
    var d := Step(it);
    if x >= d {
      DivSubtract(x, d);
    } else {
      DivSmall(x, d);
    }
  }

  /** Of `n` calls, exactly `min(n, Remaining)` return batches; the rest raise `StopIteration`. */
  lemma {:induction false} SuccessesCount<D, L>(it: Iter<D, L>, n: nat)
    requires Step(it) > 0
    ensures Successes(it, n) == Min(n, Remaining(it))
    decreases n
  {
    if n > 0 {
      var next := Next(it).0;
      assert Step(next) == Step(it);
      SuccessesCount(next, n - 1);
      if it.curSample <= it.epochSize {
        RemainingAfterNext(it);
      }
    }
  }

  /**
    From the start of an epoch, `epoch_size / step + 1` calls return batches: the counter is
    compared with `<=`, so a call still succeeds when it has reached the epoch size exactly.
    A negative epoch size gives none.
   */
  lemma EpochLength<D, L>(it: Iter<D, L>, n: nat)
    requires Step(it) > 0 && it.curSample == 0
    ensures it.epochSize >= 0 ==> Successes(it, n) == Min(n, it.epochSize / Step(it) + 1)
    ensures it.epochSize < 0 ==> Successes(it, n) == 0
  {
    SuccessesCount(it, n);
  }

  /** With no GPUs or an empty batch the counter never moves, so every call succeeds. */
  lemma {:induction false} ZeroStepNeverStops<D, L>(it: Iter<D, L>, n: nat)
    requires Step(it) == 0 && it.curSample <= it.epochSize
    ensures Successes(it, n) == n
    decreases n
  {
    if n > 0 {
      var next := Next(it).0;
      assert next == it;
      ZeroStepNeverStops(next, n - 1);
    }
  }

  /** `next()` changes nothing but the counter. */
  lemma {:induction false} RunKeepsContents<D, L>(it: Iter<D, L>, n: nat)
    ensures Run(it, n).(curSample := it.curSample) == it
    decreases n
  {
    if n > 0 {
      RunKeepsContents(Next(it).0, n - 1);
    }
  }

  /** After any number of calls, `reset()` restores the freshly constructed iterator, so the next epoch repeats the first. */
  lemma ResetRestoresStart<D, L>(it: Iter<D, L>, n: nat)
    requires it.curSample == 0
    ensures Reset(Run(it, n)) == it
    ensures Next(Reset(Run(it, n))) == Next(it)
  {
    RunKeepsContents(it, n);
  }

  /** The constructor's iterator for 100 examples in batches of 10 on one GPU yields 11 batches per epoch. */
  lemma HundredExamplesElevenBatches<D, L>(data: D, labels: L)
    ensures Create([10, 3, 224, 224], 100, "float32", [0], "NCHW", data, labels).Ok?
    ensures Successes(Create([10, 3, 224, 224], 100, "float32", [0], "NCHW", data, labels).value, 20) == 11
  {
    var it := Create([10, 3, 224, 224], 100, "float32", [0], "NCHW", data, labels).value;
    assert Step(it) == 10;
    EpochLength(it, 20);
  }
}

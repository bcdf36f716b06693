/**
  The configuration computed by `get_rec_pipeline_iter`: the target image shape, the GPU
  list, the worker rank and count, the per-pipeline settings, and the sample counts the
  training and validation iterators are told to expect. The pipelines themselves are
  represented by the settings they are built with.
 */
module PipelineConfig {
  import opened Results
  import opened Text
  import opened Attributes
  import opened Shards
  import SyntheticIter

  /* ------------------------------------------------------------ arithmetic */

  /** Python's `a // b`: the quotient rounded toward negative infinity; a zero divisor raises `ZeroDivisionError`. */
  function FloorDiv(a: int, b: int): (r: Result<int>)
    ensures r.Err? <==> b == 0
    ensures r.Err? ==> r.error == ZeroDivisionError
    ensures b > 0 && r.Ok? ==> b * r.value <= a < b * r.value + b
    ensures b < 0 && r.Ok? ==> b * r.value >= a > b * r.value + b
  {
    if b == 0 then Err(ZeroDivisionError)
    else if b > 0 then Ok(a / b)
    else
      var q := (-a) / (-b);
      assert (-b) * q == -(b * q);
      Ok(q)
  }

  /* ------------------------------------------------------------ shapes */

  /** The `image_shape` attribute: comma-separated text, or a tuple of dimensions. */
  datatype ShapeArg = ShapeText(text: string) | ShapeTuple(dims: seq<int>)

  /** The target shape: text is split on commas and every field converted with `int()`, empty fields included. */
  function TargetShape(arg: ShapeArg): (r: Result<seq<int>>)
    ensures arg.ShapeTuple? ==> r == Ok(arg.dims)
    ensures arg.ShapeText? && r.Ok? ==> |r.value| == |Split(arg.text, ',')|
    ensures arg.ShapeText? && r.Ok? ==> forall i :: 0 <= i < |r.value| ==> ParseInt(Split(arg.text, ',')[i]) == Ok(r.value[i])
    ensures r.Err? ==> r.error == ValueError
  {
    match arg
    case ShapeText(text) => ParseInts(Split(text, ','))
    case ShapeTuple(dims) => Ok(dims)
  }

  /** Any shape written out with commas is read back unchanged. */
  lemma TargetShapeRoundTrip(dims: seq<int>)
    requires |dims| > 0
    ensures TargetShape(ShapeText(JoinInts(dims))) == Ok(dims)
  {
    ShowAllFields(dims);
    SplitJoin(ShowAll(dims), ',');
    ParseShowAll(dims);
  }

  /** Appending `parts` with an empty field to a comma-separated list of numbers adds one empty field. */
  lemma SplitTrailingComma(dims: seq<int>)
    requires |dims| > 0
    ensures Split(JoinInts(dims) + ",", ',') == ShowAll(dims) + [""]
  {
    var parts := ShowAll(dims) + [""];
    ShowAllFields(dims);
    JoinAppendEmpty(ShowAll(dims), ',');
    assert forall i :: 0 <= i < |parts| ==> ',' !in parts[i];
    SplitJoin(parts, ',');
  }

  /** A trailing comma in the image shape leaves an empty field, which `int()` rejects. */
  lemma TargetShapeRejectsTrailingComma(dims: seq<int>)
    requires |dims| > 0
    ensures TargetShape(ShapeText(JoinInts(dims) + ",")) == Err(ValueError)
  {
    SplitTrailingComma(dims);
    var fields := ShowAll(dims) + [""];
    assert fields[|dims|] == "";
    assert ParseInt(fields[|dims|]).Err?;
  }

  /** The GPU list given as text: empty fields are dropped before conversion. */
  function GpuIdsFromText(text: string): (r: Result<seq<int>>)
    ensures r.Ok? ==> |r.value| == |DropEmpty(Split(text, ','))|
    ensures r.Ok? ==> forall i :: 0 <= i < |r.value| ==> ParseInt(DropEmpty(Split(text, ','))[i]) == Ok(r.value[i])
    ensures r.Err? ==> r.error == ValueError
  {
    ParseInts(DropEmpty(Split(text, ',')))
  }

  /** Any GPU list written out with commas is read back unchanged, also with a trailing comma. */
  lemma GpuIdsRoundTrip(gpus: seq<int>)
    requires |gpus| > 0
    ensures GpuIdsFromText(JoinInts(gpus)) == Ok(gpus)
    ensures GpuIdsFromText(JoinInts(gpus) + ",") == Ok(gpus)
  {
    var fields := ShowAll(gpus);
    ShowAllFields(gpus);
    ParseShowAll(gpus);
    assert DropEmpty(Split(JoinInts(gpus), ',')) == fields by {
      SplitJoin(fields, ',');
      DropEmptyKeepsNonEmpty(fields);
    }
    assert DropEmpty(Split(JoinInts(gpus) + ",", ',')) == fields by {
      SplitTrailingComma(gpus);
      DropEmptyLast(fields);
    }
  }

  /** `range(n)`: the ids `0 .. n-1`, none for a negative `n`. */
  function Range(n: int): (r: seq<int>)
    ensures |r| == (if n < 0 then 0 else n)
    ensures forall i :: 0 <= i < |r| ==> r[i] == i
  {
    seq(if n < 0 then 0 else n, i => i)
  }

  /**
    The GPU list: the `gpus` attribute (text or a list of ids); without it, the local horovod
    rank when `'horovod' in args.kvstore` holds, and otherwise `range(n_GPUs)`.
   */
  function ResolveGpus(attrs: Namespace, nGpus: int, localRank: int): (r: Result<seq<int>>)
    ensures "gpus" in attrs && attrs["gpus"].PyStr? ==> r == GpuIdsFromText(attrs["gpus"].s)
    ensures "gpus" in attrs && attrs["gpus"].PyInts? ==> r == Ok(attrs["gpus"].items)
    ensures "gpus" !in attrs ==> (r == Err(AttributeError) <==> "kvstore" !in attrs)
    ensures "gpus" !in attrs && "kvstore" in attrs ==>
              && (Contains("horovod", attrs["kvstore"]).Err? ==> r == Err(TypeError))
              && (Contains("horovod", attrs["kvstore"]) == Ok(true) ==> r == Ok([localRank]))
              && (Contains("horovod", attrs["kvstore"]) == Ok(false) ==> r == Ok(Range(nGpus)))
  {
    if "gpus" in attrs then
      match attrs["gpus"]
      case PyStr(text) => GpuIdsFromText(text)
      case PyInts(ids) => Ok(ids)
      case _ => Err(TypeError)
    else if "kvstore" !in attrs then Err(AttributeError)
    else
      var horovod :- Contains("horovod", attrs["kvstore"]);
      Ok(if horovod then [localRank] else Range(nGpus))
  }

  /** The layout of the pipelines' output. */
  datatype Layout = NCHW | NHWC

  /** The model's input layout is the pipelines' output layout; anything but `"NHWC"` means `NCHW`. */
  function OutputLayout(inputLayout: string): (r: Layout)
    ensures r == NHWC <==> inputLayout == "NHWC"
  {
    if inputLayout == "NHWC" then NHWC else NCHW
  }

  /** The synthetic sample shape: for `NHWC` the leading (channel) dimension moves to the end. */
  function SyntheticShape(target: seq<int>, inputLayout: string): (r: seq<int>)
    ensures multiset(r) == multiset(target)
    ensures inputLayout != "NHWC" ==> r == target
    ensures inputLayout == "NHWC" && |target| > 0 ==> r[..|r| - 1] == target[1..] && r[|r| - 1] == target[0]
  {
    if inputLayout == "NHWC" && |target| > 0 then
      assert target == target[..1] + target[1..];
      target[1..] + target[..1]
    else target
  }

  /** A channel-first `(C, H, W)` shape becomes `(H, W, C)`. */
  lemma SyntheticShapeChannelsLast(c: int, h: int, w: int)
    ensures SyntheticShape([c, h, w], "NHWC") == [h, w, c]
    ensures SyntheticShape([c, h, w], "NCHW") == [c, h, w]
  {
  }

  /** The output is padded to four channels exactly when the target shape has four channels. */
  function PadOutput(target: seq<int>): (r: Result<bool>)
    ensures r.Err? <==> |target| == 0
    ensures r.Err? ==> r.error == IndexError
    ensures r.Ok? ==> (r.value <==> target[0] == 4)
  {
    if |target| == 0 then Err(IndexError) else Ok(target[0] == 4)
  }

  /** The crop size: the target shape without its channel dimension. */
  function CropShape(target: seq<int>): (r: seq<int>)
    ensures |target| > 0 ==> [target[0]] + r == target
    ensures |target| == 0 ==> r == []
  {
    if |target| == 0 then [] else target[1..]
  }

  /* ------------------------------------------------------------ workers */

  /** The horovod context: `hvd.rank()`, `hvd.size()` and `hvd.local_rank()`. */
  datatype Horovod = Horovod(rank: int, size: int, localRank: int)

  /** The key-value store handed in by the caller: its rank and number of workers. */
  datatype KvStore = KvStore(rank: int, numWorkers: int)

  /** This worker's rank among `count` workers. */
  datatype Workers = Workers(rank: int, count: int)

  /** The value tested for horovod: the `kvstore` attribute, or without it `kv_store`. */
  function Backend(attrs: Namespace): Option<PyValue> {
    if "kvstore" in attrs then Some(attrs["kvstore"])
    else if "kv_store" in attrs then Some(attrs["kv_store"])
    else None
  }

  /**
    Horovod's rank and size when the backend contains `horovod`; otherwise the store's rank and
    number of workers, or a single worker when there is no store.
   */
  function ResolveWorkers(attrs: Namespace, hvd: Horovod, kv: Option<KvStore>): (r: Result<Workers>)
    ensures Backend(attrs).None? <==> r == Err(AttributeError)
    ensures Backend(attrs).None? <==> "kvstore" !in attrs && "kv_store" !in attrs
    ensures Backend(attrs).Some? ==>
              var b := Backend(attrs).value;
              && (Contains("horovod", b).Err? <==> r == Err(TypeError))
              && (Contains("horovod", b) == Ok(true) ==> r == Ok(Workers(hvd.rank, hvd.size)))
              && (Contains("horovod", b) == Ok(false) ==>
                    r == Ok(if kv.Some? then Workers(kv.value.rank, kv.value.numWorkers) else Workers(0, 1)))
  {
    match Backend(attrs)
    case None => Err(AttributeError)
    case Some(b) =>
      var horovod :- Contains("horovod", b);
      if horovod then Ok(Workers(hvd.rank, hvd.size))
      else if kv.Some? then Ok(Workers(kv.value.rank, kv.value.numWorkers))
      else Ok(Workers(0, 1))
  }

  /** When `kvstore` exists, `kv_store` is never looked at. */
  lemma KvStoreShadowsAlias(attrs: Namespace, alias: PyValue, hvd: Horovod, kv: Option<KvStore>)
    requires "kvstore" in attrs
    ensures ResolveWorkers(attrs["kv_store" := alias], hvd, kv) == ResolveWorkers(attrs, hvd, kv)
  {
    assert Backend(attrs["kv_store" := alias]) == Backend(attrs);
  }

  /**
    Without a `gpus` attribute, a `kvstore` naming horovod makes each process drive the one GPU
    of its local rank, with horovod's rank and size; any other text uses `range(n_GPUs)` and the store.
   */
  lemma HorovodDecidesGpusAndWorkers(attrs: Namespace, nGpus: int, hvd: Horovod, kv: Option<KvStore>, name: string)
    requires "gpus" !in attrs && "kvstore" in attrs && attrs["kvstore"] == PyStr(name)
    ensures IsSubstring("horovod", name) ==>
              ResolveGpus(attrs, nGpus, hvd.localRank) == Ok([hvd.localRank])
              && ResolveWorkers(attrs, hvd, kv) == Ok(Workers(hvd.rank, hvd.size))
    ensures !IsSubstring("horovod", name) ==>
              ResolveGpus(attrs, nGpus, hvd.localRank) == Ok(Range(nGpus))
              && ResolveWorkers(attrs, hvd, kv) == Ok(if kv.Some? then Workers(kv.value.rank, kv.value.numWorkers) else Workers(0, 1))
  {
    assert Backend(attrs) == Some(PyStr(name));
  }

  /* ------------------------------------------------------------ sizes */

  /** The per-pipeline batch: the global batch divided among workers, then among GPUs, unless the pipelines run on the CPU. */
  function PerGpuBatch(batchSize: int, nWrk: int, numGpus: int, daliCpu: bool): (r: Result<int>)
    ensures daliCpu ==> r == Ok(batchSize)
    ensures !daliCpu ==> (r.Err? <==> nWrk == 0 || numGpus == 0)
    ensures r.Err? ==> r.error == ZeroDivisionError
  {
    if daliCpu then Ok(batchSize)
    else
      var perWorker :- FloorDiv(batchSize, nWrk);
      FloorDiv(perWorker, numGpus)
  }

  /** The two floor divisions equal one by the number of pipelines: all pipelines together take at most the global batch, and less than one sample per pipeline is lost. */
  lemma PerGpuBatchShare(batchSize: int, nWrk: int, numGpus: int)
    requires nWrk > 0 && numGpus > 0
    ensures PerGpuBatch(batchSize, nWrk, numGpus, false).Ok?
    ensures var q := PerGpuBatch(batchSize, nWrk, numGpus, false).value;
            q * (nWrk * numGpus) <= batchSize < q * (nWrk * numGpus) + nWrk * numGpus
  {
    var q1 := batchSize / nWrk;
    var q := q1 / numGpus;
    var p := nWrk * numGpus;
    assert lower: nWrk * q1 <= batchSize < nWrk * (q1 + 1) by {
      assert nWrk * (q1 + 1) == nWrk * q1 + nWrk;
    }
    assert numGpus * q <= q1 < numGpus * (q + 1) by {
      assert numGpus * (q + 1) == numGpus * q + numGpus;
    }
    MulMonotone(nWrk, numGpus * q, q1);
    MulMonotone(nWrk, q1 + 1, numGpus * (q + 1));
    assert nWrk * (numGpus * q) == q * p;
    assert nWrk * (numGpus * (q + 1)) == q * p + p;
  }

  /** Training samples per worker: `-1` (the reader's own count) when a reader name is given. */
  function TrainSize(readerFlag: bool, numExamples: int, nWrk: int): (r: Result<int>)
    ensures readerFlag ==> r == Ok(-1)
    ensures !readerFlag ==> r == FloorDiv(numExamples, nWrk)
  {
    if readerFlag then Ok(-1) else FloorDiv(numExamples, nWrk)
  }

  /**
    Validation samples per worker as written: with sharded validation every worker is
    given `V // nWrk` plus one whenever its rank is below `V` itself.
   */
  function ValSizeAsWritten(readerFlag: bool, valFlag: bool, separate: bool, valEpochSize: int, rank: int, nWrk: int): (r: Result<int>)
    ensures readerFlag || !valFlag ==> r == Ok(-1)
    ensures !readerFlag && valFlag && separate ==> r == Ok(valEpochSize)
    ensures r.Err? <==> !readerFlag && valFlag && !separate && nWrk == 0
    ensures nWrk > 0 && !readerFlag && valFlag && !separate ==>
              r == Ok(valEpochSize / nWrk + (if rank < valEpochSize then 1 else 0))
  {
    if readerFlag || !valFlag then Ok(-1)
    else if separate then Ok(valEpochSize)
    else
      var share :- FloorDiv(valEpochSize, nWrk);
      Ok(if rank < valEpochSize then share + 1 else share)
  }

  /**
    Validation samples per worker as evidently intended: the `V % nWrk` lowest ranks take one
    extra sample, so the shares add up to `V`.
   */
  function ValSize(readerFlag: bool, valFlag: bool, separate: bool, valEpochSize: int, rank: int, nWrk: int): (r: Result<int>)
    ensures readerFlag || !valFlag ==> r == Ok(-1)
    ensures !readerFlag && valFlag && separate ==> r == Ok(valEpochSize)
    ensures r.Err? <==> !readerFlag && valFlag && !separate && nWrk == 0
    ensures nWrk > 0 && !readerFlag && valFlag && !separate ==>
              r == Ok(valEpochSize / nWrk + (if rank < valEpochSize % nWrk then 1 else 0))
  {
    if readerFlag || !valFlag then Ok(-1)
    else if separate then Ok(valEpochSize)
    else
      var share :- FloorDiv(valEpochSize, nWrk);
      assert nWrk > 0 ==> valEpochSize - nWrk * share == valEpochSize % nWrk;
      Ok(if rank < valEpochSize - nWrk * share then share + 1 else share)
  }

  /** The sharded validation sizes as written, added up over ranks `0 .. n-1`. */
  function TotalValSizeAsWritten(valEpochSize: int, nWrk: int, n: nat): int
    requires nWrk > 0
  {
    if n == 0 then 0
    else TotalValSizeAsWritten(valEpochSize, nWrk, n - 1) + ValSizeAsWritten(false, true, false, valEpochSize, n - 1, nWrk).value
  }

  /** The sharded validation sizes as intended, added up over ranks `0 .. n-1`. */
  function TotalValSize(valEpochSize: int, nWrk: int, n: nat): int
    requires nWrk > 0
  {
    if n == 0 then 0
    else TotalValSize(valEpochSize, nWrk, n - 1) + ValSize(false, true, false, valEpochSize, n - 1, nWrk).value
  }

  lemma {:induction false} TotalValSizeAsWrittenIs(valEpochSize: int, nWrk: int, n: nat)
    requires nWrk > 0 && valEpochSize >= 0
    ensures TotalValSizeAsWritten(valEpochSize, nWrk, n) == n * (valEpochSize / nWrk) + Min(n, valEpochSize)
  {
    if n > 0 {
      var q := valEpochSize / nWrk;
      TotalValSizeAsWrittenIs(valEpochSize, nWrk, n - 1);
      assert ValSizeAsWritten(false, true, false, valEpochSize, n - 1, nWrk).value == q + (if n - 1 < valEpochSize then 1 else 0);
      assert n * q == (n - 1) * q + q;
    }
  }

  lemma {:induction false} TotalValSizeIs(valEpochSize: int, nWrk: int, n: nat)
    requires nWrk > 0 && valEpochSize >= 0
    ensures TotalValSize(valEpochSize, nWrk, n) == n * (valEpochSize / nWrk) + Min(n, valEpochSize % nWrk)
  {
    if n > 0 {
      TotalValSizeIs(valEpochSize, nWrk, n - 1);
      assert valEpochSize - nWrk * (valEpochSize / nWrk) == valEpochSize % nWrk;
      assert n * (valEpochSize / nWrk) == (n - 1) * (valEpochSize / nWrk) + valEpochSize / nWrk;
    }
  }

  /** As written, once there are at least as many validation samples as workers, the workers together are told of more samples than exist. */
  lemma ValSizesAsWrittenOvercount(valEpochSize: int, nWrk: int)
    requires 1 <= nWrk <= valEpochSize
    ensures TotalValSizeAsWritten(valEpochSize, nWrk, nWrk) == nWrk * (valEpochSize / nWrk) + nWrk
    ensures TotalValSizeAsWritten(valEpochSize, nWrk, nWrk) > valEpochSize
  {
    TotalValSizeAsWrittenIs(valEpochSize, nWrk, nWrk);
  }

  /** Illustration of the finding at one input: ten validation samples on four workers; as written each worker expects 3, twelve in all. */
  lemma ValSizesTenOnFour()
    ensures forall rank :: 0 <= rank < 4 ==> ValSizeAsWritten(false, true, false, 10, rank, 4) == Ok(3)
    ensures TotalValSizeAsWritten(10, 4, 4) == 12
    ensures TotalValSize(10, 4, 4) == 10
  {
    TotalValSizeAsWrittenIs(10, 4, 4);
    TotalValSizeIs(10, 4, 4);
  }

  /** As intended, the shares cover the validation set exactly, and differ by at most one sample. */
  lemma ValSizesPartition(valEpochSize: int, nWrk: int)
    requires nWrk > 0 && valEpochSize >= 0
    ensures TotalValSize(valEpochSize, nWrk, nWrk) == valEpochSize
    ensures forall rank :: 0 <= rank < nWrk ==>
              valEpochSize / nWrk <= ValSize(false, true, false, valEpochSize, rank, nWrk).value <= valEpochSize / nWrk + 1
  {
    TotalValSizeIs(valEpochSize, nWrk, nWrk);
  }

  /* ------------------------------------------------------------ validation switches */

  /** Validation runs when `data_val` is set to something other than `None` and `no_val` is not set to a true value. */
  function ValidationEnabled(attrs: Namespace): (on: bool)
    ensures on ==> "data_val" in attrs && attrs["data_val"] != PyNone
    ensures "no_val" in attrs && Truthy(attrs["no_val"]) ==> !on
    ensures "data_val" in attrs && attrs["data_val"] != PyNone && "no_val" !in attrs ==> on
    ensures "data_val" in attrs && attrs["data_val"] != PyNone && "no_val" in attrs && !Truthy(attrs["no_val"]) ==> on
  {
    && "data_val" in attrs && attrs["data_val"] != PyNone
    && !("no_val" in attrs && Truthy(attrs["no_val"]))
  }

  /** Separate validation as written: the mere presence of either attribute switches it on, whatever its value. */
  function SeparateValidationAsWritten(attrs: Namespace): (on: bool)
    ensures "separ_val" in attrs ==> on
    ensures !on <==> "dali_separ_val" !in attrs && "separ_val" !in attrs
  {
    "dali_separ_val" in attrs || "separ_val" in attrs
  }

  /** Separate validation as evidently intended: one of the two attributes is set to a true value. */
  function SeparateValidation(attrs: Namespace): (on: bool)
    ensures on ==> SeparateValidationAsWritten(attrs)
    ensures "dali_separ_val" !in attrs && "separ_val" in attrs ==> (on <==> Truthy(attrs["separ_val"]))
    ensures "dali_separ_val" in attrs && Truthy(attrs["dali_separ_val"]) ==> on
    ensures "separ_val" in attrs && Truthy(attrs["separ_val"]) ==> on
    ensures && ("dali_separ_val" !in attrs || !Truthy(attrs["dali_separ_val"]))
            && ("separ_val" !in attrs || !Truthy(attrs["separ_val"]))
            ==> !on
  {
    || ("dali_separ_val" in attrs && Truthy(attrs["dali_separ_val"]))
    || ("separ_val" in attrs && Truthy(attrs["separ_val"]))
  }

  /**
    Arguments parsed with the default `--separ-val` switch left off still carry `separ_val = False`,
    which as written selects separate validation; as intended it does not.
   */
  lemma SeparateValidationSwitchIgnored(attrs: Namespace)
    requires "separ_val" in attrs && attrs["separ_val"] == PyBool(false)
    requires "dali_separ_val" !in attrs
    ensures SeparateValidationAsWritten(attrs)
    ensures !SeparateValidation(attrs)
  {
  }

  /** As intended, the `--separ-val` switch alone decides. */
  lemma SeparateValidationFollowsSwitch(attrs: Namespace, on: bool)
    requires "separ_val" in attrs && attrs["separ_val"] == PyBool(on)
    requires "dali_separ_val" !in attrs
    ensures SeparateValidation(attrs) <==> on
    ensures SeparateValidationAsWritten(attrs)
  {
  }

  /* ------------------------------------------------------------ the assembled iterators */

  /** The attributes the caller always supplies; the optional ones are looked up in `attrs`. */
  datatype RunArgs = RunArgs(imageShape: ShapeArg, batchSize: int, inputLayout: string, numExamples: int,
                             dtype: string, nGpus: int, nvjpegPaddingMb: int, attrs: Namespace)

  /** The settings one image pipeline is built with. */
  datatype PipeConfig = PipeConfig(batchSize: int, deviceId: int, seed: int, shard: Shard, randomShuffle: bool,
                                   cropShape: seq<int>, layout: Layout, padOutput: bool, nvjpegPadding: int,
                                   readerName: string)

  /** What `get_rec_pipeline_iter` returns: the synthetic iterator, or the pipelines and sizes of the framework iterators. */
  datatype Setup<D, L> =
    | SyntheticSetup(train: SyntheticIter.Iter<D, L>)
    | DaliSetup(trainPipes: seq<PipeConfig>, valPipes: Option<seq<PipeConfig>>, trainSize: int, valSize: int,
                reader: Option<string>, partialTrainingSet: bool)

  /**
    The synthetic iterator is chosen when the `synthetic` attribute equals 1: the integer 1 or
    `True` does, the text `"1"` does not.
   */
  function SyntheticRequested(attrs: Namespace): (on: bool)
    ensures on ==> "synthetic" in attrs && Truthy(attrs["synthetic"])
    ensures "synthetic" in attrs && (attrs["synthetic"].PyInt? || attrs["synthetic"].PyBool?) ==>
              (on <==> IntOf(attrs["synthetic"]) == Ok(1))
    ensures "synthetic" in attrs && attrs["synthetic"].PyStr? ==> !on
  {
    "synthetic" in attrs && (attrs["synthetic"] == PyInt(1) || attrs["synthetic"] == PyBool(true))
  }

  /** The seed each pipeline is given. */
  function PipeSeed(deviceId: int): int {
    12 + deviceId
  }

  /** The settings of the pipeline for the `k`-th GPU; validation pipelines never shuffle. */
  function PipeFor(gpus: seq<int>, k: int, batch: int, shard: Shard, training: bool, target: seq<int>,
                   layout: Layout, pad: bool, paddingMb: int, readerName: string): (p: PipeConfig)
    requires 0 <= k < |gpus|
    ensures p.deviceId == gpus[k] && p.seed == PipeSeed(gpus[k]) && p.shard == shard
    ensures p.randomShuffle == training && p.cropShape == CropShape(target)
    ensures p.nvjpegPadding == paddingMb * 1048576
  {
    PipeConfig(batch, gpus[k], PipeSeed(gpus[k]), shard, training, CropShape(target), layout, pad,
               paddingMb * 1024 * 1024, readerName)
  }

  /** One shuffling training pipeline per listed GPU, reading its training shard. */
  function TrainPipes(gpus: seq<int>, w: Workers, batch: int, target: seq<int>, layout: Layout, pad: bool,
                      paddingMb: int, readerName: string): (ps: seq<PipeConfig>)
    ensures |ps| == |gpus|
    ensures forall k :: 0 <= k < |gpus| ==>
              ps[k].deviceId == gpus[k] && ps[k].shard == TrainShard(gpus, k, w.rank, w.count) && ps[k].randomShuffle
              && ps[k].batchSize == batch && ps[k].readerName == readerName
  {
    seq(|gpus|, k requires 0 <= k < |gpus| =>
      PipeFor(gpus, k, batch, TrainShard(gpus, k, w.rank, w.count), true, target, layout, pad, paddingMb, readerName))
  }

  /** One non-shuffling validation pipeline per listed GPU, reading its validation shard. */
  function ValPipes(gpus: seq<int>, w: Workers, separate: bool, batch: int, target: seq<int>, layout: Layout, pad: bool,
                    paddingMb: int, readerName: string): (ps: seq<PipeConfig>)
    ensures |ps| == |gpus|
    ensures forall k :: 0 <= k < |gpus| ==>
              ps[k].deviceId == gpus[k] && ps[k].shard == ValShard(gpus, k, w.rank, w.count, separate) && !ps[k].randomShuffle
              && ps[k].batchSize == batch && ps[k].readerName == readerName
  {
    seq(|gpus|, k requires 0 <= k < |gpus| =>
      PipeFor(gpus, k, batch, ValShard(gpus, k, w.rank, w.count, separate), false, target, layout, pad, paddingMb, readerName))
  }

  /** On a list of distinct GPUs, one worker's training pipelines read distinct shards, all of them valid. */
  lemma TrainPipesReadDistinctShards(gpus: seq<int>, w: Workers, batch: int, target: seq<int>, layout: Layout, pad: bool,
                                     paddingMb: int, readerName: string)
    requires NoDuplicates(gpus) && 0 <= w.rank < w.count
    ensures var ps := TrainPipes(gpus, w, batch, target, layout, pad, paddingMb, readerName);
            && (forall k :: 0 <= k < |ps| ==> 0 <= ps[k].shard.id < ps[k].shard.count == |gpus| * w.count)
            && (forall k1, k2 :: 0 <= k1 < k2 < |ps| ==> ps[k1].shard.id != ps[k2].shard.id)
  {
    var ps := TrainPipes(gpus, w, batch, target, layout, pad, paddingMb, readerName);
    forall k1, k2 | 0 <= k1 < k2 < |ps|
      ensures ps[k1].shard.id != ps[k2].shard.id
    {
      ShardsDistinct(gpus, w.count, w.rank, k1, w.rank, k2);
    }
  }

  /** Illustration: the default image shape `"3,224,224"` gives crops of 224 by 224, no padding and channel-first output. */
  lemma ImageShapeExample()
    ensures TargetShape(ShapeText("3,224,224")) == Ok([3, 224, 224])
    ensures CropShape([3, 224, 224]) == [224, 224]
    ensures PadOutput([3, 224, 224]) == Ok(false)
    ensures OutputLayout("NCHW") == NCHW
  {
    var dims := [3, 224, 224];
    ImageShapeText();
    TargetShapeRoundTrip(dims);
  }

  /** The default image shape written out with commas. */
  lemma ImageShapeText()
    ensures JoinInts([3, 224, 224]) == "3,224,224"
  {
    JoinThree(3, 224, 224);
    ShowIntExamples();
  }

  /** Three dimensions written out with commas. */
  lemma JoinThree(a: int, b: int, c: int)
    ensures JoinInts([a, b, c]) == ShowInt(a) + "," + ShowInt(b) + "," + ShowInt(c)
  {
    var fields := ShowAll([a, b, c]);
    assert fields == [ShowInt(a), ShowInt(b), ShowInt(c)];
    assert fields[1..] == [ShowInt(b), ShowInt(c)];
    assert fields[1..][1..] == [ShowInt(c)];
    assert Join(fields[1..], ',') == ShowInt(b) + "," + ShowInt(c);
  }

  /** The decimal texts the illustration above needs. */
  lemma ShowIntExamples()
    ensures ShowInt(3) == "3" && ShowInt(224) == "224"
  {
  }

  /* ------------------------------------------------------------ pipeline construction failures */

  /** The `random_crop` argument: a switch, or a tuple or list of `count` crop parameters. */
  datatype RandomCrop = CropSwitch(on: bool) | CropParams(count: nat)

  /** The truth value of `random_crop`. */
  predicate CropRequested(c: RandomCrop) {
    match c
    case CropSwitch(on) => on
    case CropParams(count) => count > 0
  }

  /**
    The failures of `ImageMethods.__init__` before any operator is created. With a tuple or list of
    crop parameters and no `args`, the assignment `len = len(random_crop)` reads the local `len`
    before it is bound, raising `UnboundLocalError`; without random resizing, the resize reads the
    first two crop dimensions, raising `IndexError` when there are fewer.
   */
  function ImageMethodsCheck(randomCrop: RandomCrop, argsGiven: bool, randomResize: bool, crop: seq<int>): (r: Result<()>)
    ensures r == Err(UnboundLocalError) <==> CropRequested(randomCrop) && randomCrop.CropParams? && !argsGiven
    ensures r == Err(IndexError) <==> r != Err(UnboundLocalError) && !randomResize && |crop| < 2
    ensures r.Ok? || r == Err(UnboundLocalError) || r == Err(IndexError)
  {
    if CropRequested(randomCrop) && randomCrop.CropParams? && !argsGiven then Err(UnboundLocalError)
    else if !randomResize && |crop| < 2 then Err(IndexError)
    else Ok(())
  }

  /** `AttributeError` unless the attribute about to be read exists. */
  function Need(present: bool): (r: Result<()>)
    ensures r.Ok? <==> present
    ensures r.Err? ==> r.error == AttributeError
  {
    if present then Ok(()) else Err(AttributeError)
  }

  /** A record or index path: its own attribute, or else one built from `data_dir`. */
  predicate PathGiven(attrs: Namespace, name: string) {
    name in attrs || "data_dir" in attrs
  }

  /**
    Building the training pipelines: the first one reads `dali_prefetch_queue`, then runs
    `ImageMethods` with `random_resize = not random_crop`. Without GPUs no pipeline is built.
   */
  function TrainPipesCheck(attrs: Namespace, gpus: seq<int>, randomCrop: RandomCrop, propArgs: bool, target: seq<int>): (r: Result<()>)
    ensures |gpus| == 0 ==> r == Ok(())
    ensures |gpus| > 0 ==>
              (r.Ok? <==> "dali_prefetch_queue" in attrs
                          && ImageMethodsCheck(randomCrop, propArgs, !CropRequested(randomCrop), CropShape(target)).Ok?)
    ensures |gpus| > 0 && "dali_prefetch_queue" !in attrs ==> r == Err(AttributeError)
  {
    if |gpus| == 0 then Ok(())
    else
      var prefetch :- Need("dali_prefetch_queue" in attrs);
      ImageMethodsCheck(randomCrop, propArgs, !CropRequested(randomCrop), CropShape(target))
  }

  /** The resize of the validation images: `int(args.resize)`, or else the `data_val_resize` attribute. */
  function ValResize(attrs: Namespace): (r: Result<()>)
    ensures "resize" in attrs ==> (r.Ok? <==> IntOf(attrs["resize"]).Ok?)
    ensures "resize" in attrs && r.Err? ==> r == Err(IntOf(attrs["resize"]).error)
    ensures "resize" !in attrs ==> r == Need("data_val_resize" in attrs)
  {
    if "resize" in attrs then
      var size :- IntOf(attrs["resize"]);
      Ok(())
    else Need("data_val_resize" in attrs)
  }

  /**
    Building the validation pipelines: the index path and the resize are read first; each pipeline
    runs `ImageMethods` without random crop, resizing at random only when `dali_cpu` is `None`.
   */
  function ValPipesCheck(attrs: Namespace, gpus: seq<int>, daliCpu: Option<bool>, propArgs: bool, target: seq<int>): (r: Result<()>)
    ensures r.Ok? <==>
              && PathGiven(attrs, "data_val_idx") && ValResize(attrs).Ok?
              && (|gpus| > 0 ==> ImageMethodsCheck(CropSwitch(false), propArgs, daliCpu.None?, CropShape(target)).Ok?)
    ensures !PathGiven(attrs, "data_val_idx") ==> r == Err(AttributeError)
  {
    var idx :- Need(PathGiven(attrs, "data_val_idx"));
    var resize :- ValResize(attrs);
    if |gpus| == 0 then Ok(())
    else ImageMethodsCheck(CropSwitch(false), propArgs, daliCpu.None?, CropShape(target))
  }

  /**
    With the default `random_crop = True` a training pipeline resizes to the crop's first two
    dimensions, so an image shape of fewer than three dimensions fails; validation pipelines
    read those dimensions only when `dali_cpu` is given.
   */
  lemma ShortShapeFails(target: seq<int>, propArgs: bool, daliCpu: Option<bool>)
    ensures ImageMethodsCheck(CropSwitch(true), propArgs, false, CropShape(target)).Ok? <==> |target| >= 3
    ensures ImageMethodsCheck(CropSwitch(false), propArgs, daliCpu.None?, CropShape(target)).Ok? <==>
              daliCpu.None? || |target| >= 3
  {
  }

  /* ------------------------------------------------------------ the DALI branch */

  /**
    Every step of the DALI branch succeeds: the shape has a first dimension, `dali_threads`
    exists, the workers resolve, the training paths can be formed, the per-GPU batch is
    computed, the training pipelines and, when validation is on, the validation pipelines are
    built, there is a first pipeline to build, and the training size is computed.
   */
  predicate DaliBuilds(args: RunArgs, target: seq<int>, gpus: seq<int>, hvd: Horovod, kv: Option<KvStore>,
                       daliCpu: Option<bool>, randomCrop: RandomCrop, propArgs: bool)
  {
    && |target| > 0
    && "dali_threads" in args.attrs
    && ResolveWorkers(args.attrs, hvd, kv).Ok?
    && PathGiven(args.attrs, "data_train") && PathGiven(args.attrs, "data_train_idx")
    && PerGpuBatch(args.batchSize, ResolveWorkers(args.attrs, hvd, kv).value.count, |gpus|, daliCpu == Some(true)).Ok?
    && TrainPipesCheck(args.attrs, gpus, randomCrop, propArgs, target).Ok?
    && (ValidationEnabled(args.attrs) ==> ValPipesCheck(args.attrs, gpus, daliCpu, propArgs, target).Ok?)
    && |gpus| > 0
    && TrainSize(ReaderFlag(args.attrs), args.numExamples, ResolveWorkers(args.attrs, hvd, kv).value.count).Ok?
  }

  /**
    The framework iterators' configuration, in the order the source computes it: padding,
    thread count, workers, reader name, record paths, per-GPU batch, training pipelines,
    validation pipelines, and the sizes.
   */
  function DaliPipelines<D, L>(args: RunArgs, target: seq<int>, gpus: seq<int>, hvd: Horovod, kv: Option<KvStore>,
                               daliCpu: Option<bool>, randomCrop: RandomCrop, propArgs: bool,
                               trainEpochSize: int, valEpochSize: int): (r: Result<Setup<D, L>>)
    ensures |target| == 0 ==> r == Err(IndexError)
    ensures r.Ok? ==> r.value.DaliSetup? && ResolveWorkers(args.attrs, hvd, kv).Ok?
    ensures r.Ok? <==> DaliBuilds(args, target, gpus, hvd, kv, daliCpu, randomCrop, propArgs)
    ensures r.Ok? ==>
              var w := ResolveWorkers(args.attrs, hvd, kv).value;
              && PerGpuBatch(args.batchSize, w.count, |gpus|, daliCpu == Some(true)).Ok?
              && var batch := PerGpuBatch(args.batchSize, w.count, |gpus|, daliCpu == Some(true)).value;
              && r.value.trainPipes == TrainPipes(gpus, w, batch, target, OutputLayout(args.inputLayout),
                                                  target[0] == 4, args.nvjpegPaddingMb, PipelineReaderName(args.attrs))
              && (r.value.valPipes.Some? <==> ValidationEnabled(args.attrs))
              && (r.value.valPipes.Some? ==>
                    r.value.valPipes.value == ValPipes(gpus, w, SeparateValidationAsWritten(args.attrs), batch, target,
                                                       OutputLayout(args.inputLayout), target[0] == 4, args.nvjpegPaddingMb,
                                                       PipelineReaderName(args.attrs)))
              && r.value.reader == IteratorReader(args.attrs)
              && Ok(r.value.trainSize) == TrainSize(ReaderFlag(args.attrs), args.numExamples, w.count)
              && Ok(r.value.valSize) == ValSizeAsWritten(ReaderFlag(args.attrs), ValidationEnabled(args.attrs),
                                                         SeparateValidationAsWritten(args.attrs), valEpochSize, w.rank, w.count)
              && r.value.partialTrainingSet == (args.numExamples < trainEpochSize)
  {
    var pad :- PadOutput(target);
    var threads :- Need("dali_threads" in args.attrs);
    var layout := OutputLayout(args.inputLayout);
    var w :- ResolveWorkers(args.attrs, hvd, kv);
    var readerFlag := ReaderFlag(args.attrs);
    var readerName := PipelineReaderName(args.attrs);
    var paths :- Need(PathGiven(args.attrs, "data_train") && PathGiven(args.attrs, "data_train_idx"));
    var batch :- PerGpuBatch(args.batchSize, w.count, |gpus|, daliCpu == Some(true));
    var trainBuilt :- TrainPipesCheck(args.attrs, gpus, randomCrop, propArgs, target);
    var trainPipes := TrainPipes(gpus, w, batch, target, layout, pad, args.nvjpegPaddingMb, readerName);
    var valFlag := ValidationEnabled(args.attrs);
    var separate := SeparateValidationAsWritten(args.attrs);
    var valBuilt :- if valFlag then ValPipesCheck(args.attrs, gpus, daliCpu, propArgs, target) else Ok(());
    var valPipes := if valFlag then Some(ValPipes(gpus, w, separate, batch, target, layout, pad, args.nvjpegPaddingMb, readerName)) else None;
    if |gpus| == 0 then Err(IndexError)
    else
      var trainSize :- TrainSize(readerFlag, args.numExamples, w.count);
      // Once the training size is computed, the validation size cannot fail.
      var valSize := ValSizeAsWritten(readerFlag, valFlag, separate, valEpochSize, w.rank, w.count);
      Ok(DaliSetup(trainPipes, valPipes, trainSize, valSize.value, IteratorReader(args.attrs), args.numExamples < trainEpochSize))
  }

  /** With the default `random_crop`, a shape of one or two dimensions makes the DALI branch fail. */
  lemma DaliRejectsShortShape<D, L>(args: RunArgs, target: seq<int>, gpus: seq<int>, hvd: Horovod, kv: Option<KvStore>,
                                    daliCpu: Option<bool>, propArgs: bool, trainEpochSize: int, valEpochSize: int)
    requires |gpus| > 0 && |target| < 3
    ensures DaliPipelines<D, L>(args, target, gpus, hvd, kv, daliCpu, CropSwitch(true), propArgs, trainEpochSize, valEpochSize).Err?
  {
    ShortShapeFails(target, propArgs, daliCpu);
  }

  /**
    The synthetic branch: the data shape is the batch size followed by the rotated target
    shape, and the iterator's constructor raises `ValueError` for a negative dimension.
   */
  function SyntheticBranch<D, L>(args: RunArgs, target: seq<int>, gpus: seq<int>, data: D, labels: L): (r: Result<Setup<D, L>>)
    ensures r.Ok? <==> args.batchSize >= 0 && SyntheticIter.NonNegativeDims(SyntheticShape(target, args.inputLayout))
    ensures r.Err? ==> r == Err(ValueError)
    ensures r.Ok? ==>
              && r.value.SyntheticSetup?
              && var it := r.value.train;
              && it.curSample == 0 && it.epochSize == args.numExamples && it.batchSize == args.batchSize >= 0
              && it.gpus == gpus && it.dataShape == [args.batchSize] + SyntheticShape(target, args.inputLayout)
  {
    var shape := SyntheticShape(target, args.inputLayout);
    assert forall i :: 0 <= i < |shape| ==> ([args.batchSize] + shape)[i + 1] == shape[i];
    var it :- SyntheticIter.Create([args.batchSize] + shape, args.numExamples, args.dtype, gpus, args.inputLayout, data, labels);
    Ok(SyntheticSetup(it))
  }

  /**
    `get_rec_pipeline_iter`. The caller's environment is passed in: the horovod context, the
    key-value store, the `dali_cpu`, `random_crop` and `prop_args` arguments, the number of
    samples the training and validation record files hold, and the synthetic data and labels.
   */
  function GetRecPipelineIter<D, L>(args: RunArgs, hvd: Horovod, kv: Option<KvStore>, daliCpu: Option<bool>,
                                    randomCrop: RandomCrop, propArgs: bool,
                                    trainEpochSize: int, valEpochSize: int, data: D, labels: L): (r: Result<Setup<D, L>>)
    ensures TargetShape(args.imageShape).Err? ==> r == Err(ValueError)
    ensures TargetShape(args.imageShape).Ok? && ResolveGpus(args.attrs, args.nGpus, hvd.localRank).Err? ==>
              r == Err(ResolveGpus(args.attrs, args.nGpus, hvd.localRank).error)
    ensures r.Ok? ==> (r.value.SyntheticSetup? <==> SyntheticRequested(args.attrs))
    ensures && TargetShape(args.imageShape).Ok? && ResolveGpus(args.attrs, args.nGpus, hvd.localRank).Ok?
            && SyntheticRequested(args.attrs) && args.batchSize < 0
            ==> r == Err(ValueError)
    ensures r.Ok? && r.value.SyntheticSetup? ==>
              var it := r.value.train;
              && it.curSample == 0 && it.epochSize == args.numExamples && it.batchSize == args.batchSize >= 0
              && it.gpus == ResolveGpus(args.attrs, args.nGpus, hvd.localRank).value
              && it.dataShape == [args.batchSize] + SyntheticShape(TargetShape(args.imageShape).value, args.inputLayout)
    ensures && TargetShape(args.imageShape).Ok? && ResolveGpus(args.attrs, args.nGpus, hvd.localRank).Ok?
            && SyntheticRequested(args.attrs)
            ==> && (r.Ok? <==> args.batchSize >= 0
                               && SyntheticIter.NonNegativeDims(SyntheticShape(TargetShape(args.imageShape).value, args.inputLayout)))
                && (r.Ok? ==> r.value.SyntheticSetup?)
    ensures && TargetShape(args.imageShape).Ok? && ResolveGpus(args.attrs, args.nGpus, hvd.localRank).Ok?
            && !SyntheticRequested(args.attrs)
            ==> r == DaliPipelines(args, TargetShape(args.imageShape).value, ResolveGpus(args.attrs, args.nGpus, hvd.localRank).value,
                                   hvd, kv, daliCpu, randomCrop, propArgs, trainEpochSize, valEpochSize)
    ensures r.Ok? && r.value.DaliSetup? ==>
              r == DaliPipelines(args, TargetShape(args.imageShape).value, ResolveGpus(args.attrs, args.nGpus, hvd.localRank).value,
                                 hvd, kv, daliCpu, randomCrop, propArgs, trainEpochSize, valEpochSize)
  {
    var target :- TargetShape(args.imageShape);
    var gpus :- ResolveGpus(args.attrs, args.nGpus, hvd.localRank);
    if SyntheticRequested(args.attrs) then
      SyntheticBranch(args, target, gpus, data, labels)
    else
      DaliPipelines(args, target, gpus, hvd, kv, daliCpu, randomCrop, propArgs, trainEpochSize, valEpochSize)
  }
}

# DALI pipeline configuration for image classification, in Dafny

This project models the configuration logic of
`scripts/classification/imagenet/common/dali_utils.py`. That file connects the DALI
image-loading library to MXNet training scripts. The model covers:

- **Argument merging** (`add_dali_pipeline_args`). The caller's argument tuples are combined
  with six default DALI options. Each caller tuple removes the first default whose name
  `are_synonyms` matches. The synonym test checks whether a name occurs as a substring of the
  synonym table's text. The caller's tuples are registered first, then the surviving defaults.
  A 3-tuple registers an action flag; a longer tuple registers a typed option. Registering an
  option string twice raises argparse's `ArgumentError`.
- **Attribute helpers.** `get_attribute`, and the two rules that choose a reader name:
  `ImageReader` and the check at the top of the pipeline assembly.
- **Shard assignment.** Each worker builds one pipeline per listed GPU. Worker `rank`'s
  pipeline for GPU `g` reads shard `gpus.index(g) + len(gpus)*rank` of `len(gpus)*nWrk`.
  In separate-validation mode, every validation pipeline reads the whole set.
- **`SyntheticDataIter`.** Its state machine (`next`, `reset`), the batches it returns, and the
  shapes it reports.
- **`get_rec_pipeline_iter`:**
  - parsing of the image shape and the GPU list;
  - the NHWC rotation of the synthetic shape;
  - padding and crop shape;
  - worker rank and count;
  - per-GPU batch size;
  - the settings of every training and validation pipeline;
  - the errors raised while the pipelines are constructed;
  - the sample counts handed to the framework iterators.

Python exceptions become `Err` values of `Results.Result`. Integer division is Python's floor
division (`PipelineConfig.FloorDiv`). A `Namespace` is a map from attribute names to values,
so `hasattr(args, n)` is `n in args`. The environment is passed in as parameters:
- the horovod context (`Horovod`);
- the key-value store (`KvStore`);
- whether DALI runs on the CPU;
- the epoch sizes the record readers report;
- the random synthetic tensors, as opaque type parameters.

Modules, one per file:
- `results.dfy` — `Results`: exceptions, `Result`, `Option`.
- `text.dfy` — `Text`. The Python string operations used:
  - `in` on strings;
  - `str.split(',')`;
  - `filter(None, …)`;
  - `int()` on text and its inverse.
- `arg_merge.dfy` — `ArgMerge`: `add_dali_pipeline_args`.
- `attributes.dfy` — `Attributes`: `get_attribute` and the reader name.
- `shards.dfy` — `Shards`: `gpus.index` and shard ids.
- `synthetic_iter.dfy` — `SyntheticIter`: `SyntheticDataIter`.
- `pipeline_config.dfy` — `PipelineConfig`: `get_rec_pipeline_iter`.

Two behaviours of the code that are easy to misread:
- **Synthetic batch count.** `SyntheticDataIter.next` compares `cur_sample <= epoch_size`, so
  `epoch_size // step + 1` calls succeed from a fresh start. With 100 examples in batches of
  10 on one GPU, an epoch has 11 batches (`SyntheticIter.HundredExamplesElevenBatches`).
- **Validation remainder.** With sharded validation, every rank below the validation set size
  gets one sample more than `V // nWrk`, not only the first `V % nWrk` ranks (see Findings).

## Model

All source paths are relative to the repository root.

| member | source | states |
|---|---|---|
| Text.Split | scripts/classification/imagenet/common/dali_utils.py:256 | `str.split(',')` returns at least one field; no field contains the separator; joining the fields with the separator gives back the input |
| Text.SplitJoin | scripts/classification/imagenet/common/dali_utils.py:256 | splitting the comma-join of separator-free fields gives back exactly those fields |
| Text.DropEmpty | scripts/classification/imagenet/common/dali_utils.py:261 | `filter(None, …)` returns only non-empty fields and never more than it was given |
| Text.DropEmptySingle | scripts/classification/imagenet/common/dali_utils.py:261 | one field survives `filter(None, …)` iff it is non-empty |
| Text.DropEmptyAppend | scripts/classification/imagenet/common/dali_utils.py:261 | filtering a concatenation concatenates the filtered parts, so survivors keep their order and multiplicity |
| Text.DropEmptyMembers | scripts/classification/imagenet/common/dali_utils.py:261 | a field survives `filter(None, …)` exactly when it was given and is non-empty |
| Text.DropEmptyKeepsNonEmpty | scripts/classification/imagenet/common/dali_utils.py:261 | a list with no empty field passes `filter(None, …)` unchanged |
| Text.DropEmptyLast | scripts/classification/imagenet/common/dali_utils.py:261 | the empty field a trailing comma leaves is the only one removed |
| Text.ParseInt | scripts/classification/imagenet/common/dali_utils.py:256 | `int()` of text that is empty once the whitespace `int()` skips is stripped raises `ValueError`; any accepted text contains a digit; every failure is `ValueError` |
| Text.ParseIntSkipsSpace | scripts/classification/imagenet/common/dali_utils.py:256 | any whitespace character before a digit is skipped: `int()` gives the digit's value |
| Text.ParseIntSkipsNoBreakSpace | scripts/classification/imagenet/common/dali_utils.py:256 | a leading no-break space (U+00A0) is skipped |
| Text.ParseIntRejectsSeparator | scripts/classification/imagenet/common/dali_utils.py:256 | the ASCII separator U+001C before a digit is not skipped: `int()` rejects the text with `ValueError` |
| Text.ParseShowInt | scripts/classification/imagenet/common/dali_utils.py:256 | `int()` reads back every integer's decimal text |
| Text.ParseInts | scripts/classification/imagenet/common/dali_utils.py:256 | on success there is one result per field, each what `int()` gives for that field; a failure is `ValueError` and names a field `int()` rejects |
| Text.ParseShowAll | scripts/classification/imagenet/common/dali_utils.py:256 | every list of integers is read back from its decimal texts |
| ArgMerge.AreSynonyms | scripts/classification/imagenet/common/dali_utils.py:46-52 | equal names are synonyms; different names are synonyms only if the first name keys a table entry |
| ArgMerge.LookupSynonym | scripts/classification/imagenet/common/dali_utils.py:49-52 | the table loop can answer true only for a name that keys some entry |
| ArgMerge.AreSynonymsMeaning | scripts/classification/imagenet/common/dali_utils.py:46-52 | both directions: synonyms iff the names are equal or the second occurs in the text of the FIRST entry keyed by the first |
| ArgMerge.UnkeyedHasNoSynonyms | scripts/classification/imagenet/common/dali_utils.py:46-52 | a name keying no entry is a synonym of itself only |
| ArgMerge.SynonymsNotSymmetric | scripts/classification/imagenet/common/dali_utils.py:36-52 | with the real table, `--dali-separ-val` is a synonym of `--separ-val` but not the reverse |
| ArgMerge.SynonymTextIsSearched | scripts/classification/imagenet/common/dali_utils.py:36-52 | the table text is searched as a string, so `--dali`, `separ-val` and even the empty name count as synonyms of `--separ-val` |
| ArgMerge.SynonymNeedsContiguousText | scripts/classification/imagenet/common/dali_utils.py:36-52 | `--separ` is not a synonym of `--separ-val`: its characters do not occur contiguously in the text |
| ArgMerge.RemoveFirstSynonym | scripts/classification/imagenet/common/dali_utils.py:63-66 | one caller tuple removes at most one default and adds none; with no synonymous default the list is unchanged |
| ArgMerge.RemoveFirstSynonymRemovesFirst | scripts/classification/imagenet/common/dali_utils.py:63-66 | exactly the first synonymous default is removed; everything before and after it stays in place |
| ArgMerge.RemoveDuplicates | scripts/classification/imagenet/common/dali_utils.py:62-66 | the caller's tuples remove at most one default each, and only defaults survive |
| ArgMerge.RemoveDuplicatesIsSubsequence | scripts/classification/imagenet/common/dali_utils.py:62-66 | the surviving defaults keep their original relative order |
| ArgMerge.UnmatchedDefaultsSurvive | scripts/classification/imagenet/common/dali_utils.py:62-66 | every default that no caller name matches survives, in order |
| ArgMerge.RemoveDuplicatesDropsNames | scripts/classification/imagenet/common/dali_utils.py:62-66 | in a well-separated default list, no survivor carries the name of a caller tuple |
| ArgMerge.DefaultArgsWellSeparated | scripts/classification/imagenet/common/dali_utils.py:36-59 | no real default is a synonym of a later default's name |
| ArgMerge.Register | scripts/classification/imagenet/common/dali_utils.py:71-74 | a 3-tuple registers an action flag, a longer tuple a typed option, with the tuple's name; a shorter tuple raises `IndexError` |
| ArgMerge.RegisterKeepsFields | scripts/classification/imagenet/common/dali_utils.py:71-74 | a registration records every tuple element that is read; elements after the fourth are ignored |
| ArgMerge.MergedArgs | scripts/classification/imagenet/common/dali_utils.py:69-70 | the caller's tuples come first, unchanged, followed by exactly the defaults that `RemoveDuplicates` keeps; every merged tuple is a caller tuple or a default |
| ArgMerge.AddDaliPipelineArgs | scripts/classification/imagenet/common/dali_utils.py:62-74 | `None` for the caller's tuples raises `TypeError`; otherwise the registrations are, in order, those of the merged tuples; success iff every merged tuple has at least three elements and no option string is registered twice or already held by the parser; every failure is `TypeError`, `IndexError` or argparse's `ArgumentError` |
| ArgMerge.AddArgument | scripts/classification/imagenet/common/dali_utils.py:70-74 | one `add_argument` call: the tuple's `IndexError` first, then `ArgumentError` iff the name is an option string the parser already holds; otherwise the tuple's registration |
| ArgMerge.RegisterAll | scripts/classification/imagenet/common/dali_utils.py:68-74 | the registration loop succeeds iff every tuple is long enough and no option string conflicts; a conflict among long-enough tuples is `ArgumentError`, a short tuple without conflicts `IndexError` |
| ArgMerge.NoConflictsStep | scripts/classification/imagenet/common/dali_utils.py:68-74 | registering the first tuple adds its option string to the parser's set, and the rest must avoid it |
| ArgMerge.DuplicateCallerNamesRejected | scripts/classification/imagenet/common/dali_utils.py:68-74 | two caller tuples with the same option name make the merge raise `ArgumentError` |
| ArgMerge.CallerWins | scripts/classification/imagenet/common/dali_utils.py:54-74 | a merged tuple named like a caller tuple is a caller tuple: a caller's tuple replaces the default of the same name |
| Attributes.Contains | scripts/classification/imagenet/common/dali_utils.py:263 | `'horovod' in value`: a substring test on text, an element test on a tuple or list of strings, false on a list of numbers, and `TypeError` for `None`, a bool or an integer |
| Attributes.ContainsListVersusString | scripts/classification/imagenet/common/dali_utils.py:281 | a list holding a text that contains the needle does not contain the needle itself, while that text does |
| Attributes.IntOf | scripts/classification/imagenet/common/dali_utils.py:327 | `int()` of an integer is itself, of a bool 1 or 0, of text what `int()` parses; `None` and lists raise `TypeError` |
| Attributes.IntOfShowInt | scripts/classification/imagenet/common/dali_utils.py:327 | `int(str(n))` and `int(n)` are both `n` |
| Attributes.GetAttribute | scripts/classification/imagenet/common/dali_utils.py:78-84 | as written: the default for an absent attribute, and `True` for a present one |
| Attributes.GetAttributeIgnoresValue | scripts/classification/imagenet/common/dali_utils.py:78-84 | as written, the stored value never affects the result, which is never a string |
| Attributes.GetAttributeIntended | scripts/classification/imagenet/common/dali_utils.py:78-84 | corrected: a present non-string value is returned; a string becomes its comma-separated fields, which join back to the string |
| Attributes.GetAttributeDiscrepancy | scripts/classification/imagenet/common/dali_utils.py:78-84 | for any comma-separated value, the corrected helper returns its fields while the helper as written returns `True` |
| Attributes.ImageReaderName | scripts/classification/imagenet/common/dali_utils.py:94 | the name is never empty; it is the given value iff that value is a non-empty string; otherwise it is `"Reader"` |
| Attributes.PipelineReaderName | scripts/classification/imagenet/common/dali_utils.py:290-291 | the name is never empty; it is the `reader_name` attribute iff that is a non-empty string; otherwise it is `"Reader"` |
| Attributes.IteratorReader | scripts/classification/imagenet/common/dali_utils.py:356 | the iterators receive a reader name iff the caller supplied a non-empty string, and then it is the pipelines' name |
| Attributes.ReaderNameRulesAgree | scripts/classification/imagenet/common/dali_utils.py:290-291 | the assembly's name passes through `ImageReader` unchanged, and equals what `ImageReader` picks from the raw attribute |
| Shards.IndexOf | scripts/classification/imagenet/common/dali_utils.py:305 | `gpus.index(g)` succeeds iff `g` is listed; it returns the first position holding `g`; otherwise `ValueError` |
| Shards.IndexOfDistinct | scripts/classification/imagenet/common/dali_utils.py:305 | in a list without repeats, the index of the `k`-th id is `k` |
| Shards.TrainShard | scripts/classification/imagenet/common/dali_utils.py:288-306 | the shard count is `len(gpus)*nWrk`; for a rank below `nWrk` the id lies within `[0, count)`, even with repeated ids |
| Shards.ValShard | scripts/classification/imagenet/common/dali_utils.py:334-335 | separate validation reads shard 0 of 1; otherwise the training shard |
| Shards.TrainShardId | scripts/classification/imagenet/common/dali_utils.py:305 | with distinct ids, the `k`-th GPU of worker `rank` reads shard `k + len(gpus)*rank` |
| Shards.ShardsDistinct | scripts/classification/imagenet/common/dali_utils.py:288-306 | distinct (worker, GPU) pairs read distinct shards |
| Shards.ShardsCover | scripts/classification/imagenet/common/dali_utils.py:288-306 | every shard is read by some (worker, GPU) pair; with `ShardsDistinct`, the assignment is a bijection |
| Shards.RepeatedGpuSharesShard | scripts/classification/imagenet/common/dali_utils.py:305 | a GPU listed twice makes two pipelines read the same shard |
| SyntheticIter.Create | scripts/classification/imagenet/common/dali_utils.py:190-203 | an empty data shape raises `IndexError`; a negative dimension raises `ValueError`, as numpy's array constructor does; otherwise: the counter starts at 0; the batch size is non-negative; the batch size is the leading dimension; every GPU holds the same generated data and labels |
| SyntheticIter.Next | scripts/classification/imagenet/common/dali_utils.py:218-226 | succeeds iff `cur_sample <= epoch_size`; success advances the counter by batch size × GPUs and returns per-GPU, unpadded batches; `StopIteration` leaves the state unchanged |
| SyntheticIter.Reset | scripts/classification/imagenet/common/dali_utils.py:231-232 | the counter returns to 0 and nothing else changes |
| SyntheticIter.ProvideData | scripts/classification/imagenet/common/dali_utils.py:208-211 | one `data` descriptor with the iterator's dtype and layout; it keeps the sample dimensions after the leading one |
| SyntheticIter.ProvideLabel | scripts/classification/imagenet/common/dali_utils.py:213-216 | one flat `softmax_label` descriptor of `float32` with the default `NCHW` layout |
| SyntheticIter.DescriptorsMatchStep | scripts/classification/imagenet/common/dali_utils.py:208-224 | both descriptors announce exactly the number of samples by which a successful `next()` advances the counter |
| SyntheticIter.BatchesPerGpu | scripts/classification/imagenet/common/dali_utils.py:221-224 | a constructed iterator returns one batch per GPU, each holding that GPU's data and labels with pad 0 |
| SyntheticIter.SuccessesCount | scripts/classification/imagenet/common/dali_utils.py:218-226 | of `n` calls, exactly `min(n, remaining)` return batches, and the rest raise `StopIteration` |
| SyntheticIter.EpochLength | scripts/classification/imagenet/common/dali_utils.py:218-226 | from a fresh start, `epoch_size // step + 1` calls succeed, and none for a negative epoch size |
| SyntheticIter.ZeroStepNeverStops | scripts/classification/imagenet/common/dali_utils.py:218-226 | with no GPUs or an empty batch, the counter never moves and every call succeeds |
| SyntheticIter.RunKeepsContents | scripts/classification/imagenet/common/dali_utils.py:218-226 | calls of `next()` change nothing but the counter |
| SyntheticIter.ResetRestoresStart | scripts/classification/imagenet/common/dali_utils.py:218-232 | after any number of calls, `reset()` restores the constructed iterator, so the next batch is the first batch again |
| SyntheticIter.HundredExamplesElevenBatches | scripts/classification/imagenet/common/dali_utils.py:190-226 | 100 examples in batches of 10 on one GPU give 11 successful calls |
| PipelineConfig.FloorDiv | scripts/classification/imagenet/common/dali_utils.py:297 | Python's `//`: floor of the quotient for either sign of the divisor; a zero divisor raises `ZeroDivisionError` |
| PipelineConfig.TargetShape | scripts/classification/imagenet/common/dali_utils.py:254-256 | a tuple is kept; text gives one `int()` per comma field, empty fields included; failures are `ValueError` |
| PipelineConfig.TargetShapeRoundTrip | scripts/classification/imagenet/common/dali_utils.py:254-256 | every non-empty shape written with commas is read back unchanged |
| PipelineConfig.TargetShapeRejectsTrailingComma | scripts/classification/imagenet/common/dali_utils.py:256 | a trailing comma in the image shape raises `ValueError` |
| PipelineConfig.GpuIdsFromText | scripts/classification/imagenet/common/dali_utils.py:261 | the GPU text gives one `int()` per non-empty comma field |
| PipelineConfig.GpuIdsRoundTrip | scripts/classification/imagenet/common/dali_utils.py:261 | a GPU list written with commas is read back unchanged, also with a trailing comma |
| PipelineConfig.Range | scripts/classification/imagenet/common/dali_utils.py:263 | `range(n)` lists `0 … n-1`, and nothing for negative `n` |
| PipelineConfig.ResolveGpus | scripts/classification/imagenet/common/dali_utils.py:258-263 | the `gpus` attribute as text or list; without it: `[local_rank]` when `'horovod' in kvstore` holds, `range(n_GPUs)` when it does not, `TypeError` when the test itself fails; `AttributeError` iff neither `gpus` nor `kvstore` exists |
| PipelineConfig.OutputLayout | scripts/classification/imagenet/common/dali_utils.py:279 | the output is NHWC iff the input layout is `"NHWC"` |
| PipelineConfig.SyntheticShape | scripts/classification/imagenet/common/dali_utils.py:268 | a permutation of the target shape; for NHWC the first dimension moves to the end; otherwise it is unchanged |
| PipelineConfig.SyntheticShapeChannelsLast | scripts/classification/imagenet/common/dali_utils.py:268 | `(C, H, W)` becomes `(H, W, C)` for NHWC and stays for NCHW |
| PipelineConfig.PadOutput | scripts/classification/imagenet/common/dali_utils.py:274 | an empty shape raises `IndexError`; otherwise padding is on iff the first dimension is 4 |
| PipelineConfig.CropShape | scripts/classification/imagenet/common/dali_utils.py:307 | the crop is the target shape without its first dimension |
| PipelineConfig.ImageShapeExample | scripts/classification/imagenet/common/dali_utils.py:254-307 | illustration: `"3,224,224"` gives a 224×224 crop, no padding and NCHW output |
| PipelineConfig.ResolveWorkers | scripts/classification/imagenet/common/dali_utils.py:281-286 | the backend tested is `kvstore`, or `kv_store` when `kvstore` is absent; `AttributeError` iff neither exists; `TypeError` iff the `in` test on the backend fails; a backend containing `horovod` gives horovod's rank and size; any other gives the store's rank and worker count, or `(0, 1)` without a store |
| PipelineConfig.KvStoreShadowsAlias | scripts/classification/imagenet/common/dali_utils.py:281 | when `kvstore` exists, the value of `kv_store` never affects the workers |
| PipelineConfig.HorovodDecidesGpusAndWorkers | scripts/classification/imagenet/common/dali_utils.py:258-286 | without `gpus`, one horovod test on the `kvstore` text decides both: `[local_rank]` with horovod's rank and size, or `range(n_GPUs)` with the store's rank and count |
| PipelineConfig.PerGpuBatch | scripts/classification/imagenet/common/dali_utils.py:296-297 | on the CPU the batch is unchanged; otherwise `ZeroDivisionError` iff there are no workers or no GPUs |
| PipelineConfig.PerGpuBatchShare | scripts/classification/imagenet/common/dali_utils.py:296-297 | the two floor divisions equal one division by the number of pipelines: all pipelines together take at most the global batch, and less than one sample per pipeline is lost |
| PipelineConfig.TrainSize | scripts/classification/imagenet/common/dali_utils.py:355-358 | `-1` when a reader name is given; otherwise `num_examples // nWrk` |
| PipelineConfig.ValSizeAsWritten | scripts/classification/imagenet/common/dali_utils.py:355-364 | as written: `-1` with a reader name or without validation; the whole set in separate mode; `ZeroDivisionError` iff sharded with no workers; otherwise `V // nWrk`, plus one for every rank below `V` |
| PipelineConfig.ValSize | scripts/classification/imagenet/common/dali_utils.py:355-364 | corrected: the same cases and error, but only ranks below `V % nWrk` get the extra sample |
| PipelineConfig.TotalValSizeAsWrittenIs | scripts/classification/imagenet/common/dali_utils.py:359-364 | as written, the sizes of ranks `0 … n-1` add up to `n*(V // nWrk) + min(n, V)` |
| PipelineConfig.TotalValSizeIs | scripts/classification/imagenet/common/dali_utils.py:359-364 | corrected, the sizes of ranks `0 … n-1` add up to `n*(V // nWrk) + min(n, V % nWrk)` |
| PipelineConfig.ValSizesAsWrittenOvercount | scripts/classification/imagenet/common/dali_utils.py:359-364 | as written, with at least as many validation samples as workers, the workers together expect more samples than exist |
| PipelineConfig.ValSizesTenOnFour | scripts/classification/imagenet/common/dali_utils.py:359-364 | illustration of the finding: 10 samples on 4 workers: as written each worker expects 3, 12 in all; corrected, the total is 10 |
| PipelineConfig.ValSizesPartition | scripts/classification/imagenet/common/dali_utils.py:359-364 | corrected, the sizes add up to exactly `V` and each is `V // nWrk` or one more |
| PipelineConfig.ValidationEnabled | scripts/classification/imagenet/common/dali_utils.py:319 | validation needs `data_val` present and not `None`; a true `no_val` turns it off; `data_val` set with `no_val` absent or false turns it on |
| PipelineConfig.SeparateValidationAsWritten | scripts/classification/imagenet/common/dali_utils.py:323 | as written: on iff `dali_separ_val` or `separ_val` exists, whatever its value |
| PipelineConfig.SeparateValidation | scripts/classification/imagenet/common/dali_utils.py:323 | corrected: on iff one of the two attributes holds a true value, which implies the test as written; with `separ_val` alone, on iff its value is true |
| PipelineConfig.SeparateValidationSwitchIgnored | scripts/classification/imagenet/common/dali_utils.py:323 | with `separ_val = False`, as parsed from the default switch, separate validation is on as written and off as intended |
| PipelineConfig.SeparateValidationFollowsSwitch | scripts/classification/imagenet/common/dali_utils.py:323 | corrected, the `--separ-val` value alone decides; as written, the mode is on whatever the value |
| PipelineConfig.SyntheticRequested | scripts/classification/imagenet/common/dali_utils.py:266 | the synthetic iterator is chosen only for a present, true `synthetic`; for an integer or bool exactly when `int()` of it is 1; never for text, since `"1" != 1` |
| PipelineConfig.PipeFor | scripts/classification/imagenet/common/dali_utils.py:300-317 | a pipeline's settings: its device, seed `12 + device_id`, shard, shuffling only for training, the crop shape, and the nvJPEG padding in bytes |
| PipelineConfig.TrainPipes | scripts/classification/imagenet/common/dali_utils.py:300-317 | one shuffling training pipeline per listed GPU, in order, each reading its training shard with the per-GPU batch |
| PipelineConfig.ValPipes | scripts/classification/imagenet/common/dali_utils.py:329-346 | one non-shuffling validation pipeline per listed GPU, in order, each reading its validation shard |
| PipelineConfig.TrainPipesReadDistinctShards | scripts/classification/imagenet/common/dali_utils.py:300-317 | with distinct GPU ids, one worker's training pipelines read distinct shards, all valid |
| PipelineConfig.ImageMethodsCheck | scripts/classification/imagenet/common/dali_utils.py:109-130 | `UnboundLocalError` iff `random_crop` is a non-empty tuple or list and no `args` are passed; otherwise `IndexError` iff, without random resizing, the crop has fewer than two dimensions; nothing else fails |
| PipelineConfig.TrainPipesCheck | scripts/classification/imagenet/common/dali_utils.py:300-317 | with no GPUs nothing is built; otherwise success iff `dali_prefetch_queue` exists and `ImageMethods` succeeds with `random_resize = not random_crop`; a missing prefetch queue is `AttributeError` |
| PipelineConfig.ValResize | scripts/classification/imagenet/common/dali_utils.py:327 | with `resize`, success iff `int()` accepts it, failing with the error `int()` raises; without it, `AttributeError` iff `data_val_resize` is absent too |
| PipelineConfig.ValPipesCheck | scripts/classification/imagenet/common/dali_utils.py:321-346 | success iff the index path can be formed, the resize can be read and, with GPUs, `ImageMethods` succeeds without random crop, resizing at random iff `dali_cpu` is `None`; a missing index path is `AttributeError` |
| PipelineConfig.ShortShapeFails | scripts/classification/imagenet/common/dali_utils.py:109-130 | with the default `random_crop`, a training pipeline is built iff the shape has at least three dimensions; a validation pipeline iff `dali_cpu` is `None` or the shape has at least three |
| PipelineConfig.DaliPipelines | scripts/classification/imagenet/common/dali_utils.py:273-368 | the DALI branch as written. An empty shape raises `IndexError`. It succeeds iff every step does (`DaliBuilds`): `dali_threads`, the workers, the training paths, the per-GPU batch, the training and, when validation is on, the validation pipeline checks, at least one GPU, and the training size. The result gives the training pipelines, the validation pipelines (present iff validation is enabled, sharded by the as-written separate-validation test), the reader, the sizes as written and the partial-training-set warning |
| PipelineConfig.DaliRejectsShortShape | scripts/classification/imagenet/common/dali_utils.py:300-317 | with at least one GPU and the default `random_crop`, a shape of fewer than three dimensions makes the DALI branch fail |
| PipelineConfig.GetRecPipelineIter | scripts/classification/imagenet/common/dali_utils.py:235-368 | shape errors come first, then GPU-list errors. With both parsed, `synthetic == 1` selects the synthetic branch, which succeeds iff the batch size and every rotated dimension are non-negative and otherwise raises `ValueError` (`SyntheticBranch`); the iterator starts at 0 with `num_examples` as its epoch size and the rotated data shape. Otherwise the result is exactly the DALI branch's |
| PipelineConfig.SyntheticBranch | scripts/classification/imagenet/common/dali_utils.py:265-270 | success iff the batch size and every rotated dimension are non-negative, `ValueError` otherwise; the iterator starts at 0 with `num_examples`, the given GPUs and the data shape `(batch,) + rotated shape` |

## Left out

- The DALI operator graphs (`ImageMethods`, and `define_graph` of `HybridTrainPipe` and
  `HybridValPipe`) are calls into a foreign library. A pipeline is represented only by the
  settings it is built with (`PipeConfig`). Of `ImageMethods`, only the failures raised before
  any operator is created are modelled (`ImageMethodsCheck`).
- Building pipelines and asking them for their epoch sizes are calls into the library. The epoch
  sizes are parameters of `GetRecPipelineIter`.
- `DALIClassificationIterator` is represented by the arguments it receives: the pipelines, the
  size and the reader.
- The horovod functions and the key-value store are inputs (`Horovod`, `KvStore`).
- The random synthetic tensors drawn with `np.random` are opaque type parameters. Only the
  `ValueError` numpy raises for a negative dimension is modelled.
- Floating point is not modelled:
  - the mean and standard deviation pixels;
  - the `float` conversion in the corrected `get_attribute`, which keeps the field texts.
- These values only reach the library calls, so their contents are left out: the record and index
  path texts, the thread counts, the prefetch depth, the dtype handed to the pipelines, the
  validation resize once `int()` accepts it, the crop parameters themselves, and
  `fill_last_batch`. Their absence is modelled where it raises `AttributeError`.
- A `data_dir` that is not text raises `TypeError` when a path is built from it. The model only
  checks that a path can be formed (`PathGiven`).
- `int()` skips the whitespace CPython's integer parser skips: tab, line feed, vertical tab, form
  feed, carriage return, space and the non-ASCII whitespace characters (`Text.IsSpace`). The
  ASCII separators U+001C to U+001F are not skipped. Underscores between digits and non-ASCII
  digits are not modelled.
- Parsing (`parse_args`), registration side effects inside the argument parser, printing and the
  `warnings.warn` call are not modelled. The warning's condition is the `partialTrainingSet`
  flag.
- The attributes every script defines are typed fields of `RunArgs`: image shape, batch size,
  input layout, example count, dtype, `n_GPUs` and nvJPEG padding. Their absence
  (`AttributeError`) is not modelled.
- A `gpus` attribute that is neither text nor a list of integers gives `TypeError` as soon as it
  is read. Python raises the error at its later first use.
- An argument tuple without a name cannot be represented. `ArgSpec` always has one.
- `ArgMerge.AddDaliPipelineArgs`: of argparse's checks inside `add_argument`, only the conflict of
  an option string already in use is modelled. An unknown action or type, an empty name and
  keyword errors are not. The option strings the parser holds beforehand are the parameter
  `taken`.

## Findings

The pipeline assembly (`DaliPipelines`, `GetRecPipelineIter`) follows the code as written; each
corrected member is proved beside its as-written counterpart.

| source | as written | input that shows it | evidently intended | confidence | as-written member | corrected member |
|---|---|---|---|---|---|---|
| scripts/classification/imagenet/common/dali_utils.py:81 | `attr = hasattr(args, attr_name)`, so a present attribute yields `True` and the string branch is dead | `rgb_mean = "123.68,116.78,103.94"` gives `True` instead of three values | read the attribute's value (`getattr`) and split a string on commas | high; not executed | Attributes.GetAttribute, Attributes.GetAttributeDiscrepancy | Attributes.GetAttributeIntended |
| scripts/classification/imagenet/common/dali_utils.py:363 | one extra validation sample for every `rank < V` | `V = 10`, `nWrk = 4`: each worker expects 3, 12 in all | one extra sample for `rank < V % nWrk`, so the shares add up to `V` | high; not executed | PipelineConfig.ValSizeAsWritten, PipelineConfig.ValSizesAsWrittenOvercount | PipelineConfig.ValSize, PipelineConfig.ValSizesPartition |
| scripts/classification/imagenet/common/dali_utils.py:323 | `hasattr(args, "dali_separ_val") or hasattr(args, "separ_val")` tests only presence | arguments parsed with the default `--separ-val` switch left off carry `separ_val = False`, and separate validation is still on | test the switch's value | medium; not executed | PipelineConfig.SeparateValidationAsWritten, PipelineConfig.SeparateValidationSwitchIgnored | PipelineConfig.SeparateValidation, PipelineConfig.SeparateValidationFollowsSwitch |

# Prediction reassembly and Earth Engine option handling, modelled in Dafny

This project models two parts of the ACES crop-mapping workflow.

The first part is the inference script `workflow/v2/5.prediction_dnn.py`. It does four things:

- It picks its input files out of a bucket listing. The tiles are the entries that contain the export prefix and end in `.tfrecord.gz`, sorted. The JSON mixer file is the last such entry that ends in `.json`.
- It computes the kernel buffers and the buffered patch shape.
- It extends the shared feature list with the elevation and Sentinel-1 bands.
- It runs the loop that turns the stream of per-pixel predictions back into patches. Six parallel lists receive the first-maximum class index and the first five class scores of each prediction. When they hold `patch_width * patch_height` pixels they are written out as one record, then cleared, and the patch counter advances. Every hundredth patch prints a progress line.

The second part is the option handling of the Earth Engine helpers in `aces/utils.py`:

- the four ways `initialize_session` opens a session;
- the dispatch in `export_training_data`;
- the defaults that `_export_to_cloud_storage` and `sample_image_by_collection` fill in.

A keyword-argument dictionary is a map from names to optional values. That lets the model tell an absent key from a key given as `None`.

Modules:

- `Wrappers`: `Option` and `Result`.
- `FileSelection`: the listing filter, the file split, and string sorting.
- `PredictionSetup`: the buffer arithmetic and the `Config` feature list.
- `PatchSpec`: what the loop should produce, as functions of the prediction stream. These are `Chunks` (the records), `Pending` (what stays in the buffers) and `Milestones` (the progress lines).
- `PatchWriter`: the loop itself. A `PatchAssembler` object has the `patch` buffers, the counter, the written records and the progress lines as fields. It has one `Feed` method per loop iteration and a whole-run method. `Run` folds the loop body `Step` over the stream; `RunIsChunks` proves that this fold equals the `PatchSpec` functions.
- `EEUtils`: the helpers' option resolution, with the Earth Engine calls returned as request values.

Scores are real numbers, and argmax is the index of the first maximum, as numpy returns it. Set-up values come in as parameters:

- the listing;
- the prefix;
- `KERNEL_BUFFER`, `PATCH_SHAPE`, `USE_ELEVATION` and `USE_S1`;
- the mixer's patch dimensions;
- the model's predictions.

A prediction stands for `model.predict`'s output for one pixel, a single row of scores. The model stores scores 0 to 4 of that row, and it takes argmax over the whole row.

The loop's behaviour for a stream whose length is not a multiple of the patch size is kept as the code has it. The trailing partial patch is never written. `ChunksCount` states how many predictions are dropped. `ExactStream` states that nothing is dropped when the stream is exactly `totalPatches` patches long, which is the case the mixer metadata promises.

## Model

| member | source | states |
|---|---|---|
| `FileSelection.Exported` | workflow/v2/5.prediction_dnn.py:37 | the exported entries are exactly the listing entries that contain the prefix, and there are no more of them than in the listing |
| `FileSelection.EmptyPrefixKeepsAll` | workflow/v2/5.prediction_dnn.py:37 | with an empty prefix the filter keeps the whole listing, in order and with its repeats |
| `FileSelection.ExportedCounts` | workflow/v2/5.prediction_dnn.py:37 | each name occurs in the filtered listing as often as in the listing if it contains the prefix, and not at all otherwise |
| `FileSelection.Tiles` | workflow/v2/5.prediction_dnn.py:42-44 | the appended list holds exactly the entries that end in `.tfrecord.gz` |
| `FileSelection.TilesCounts` | workflow/v2/5.prediction_dnn.py:42-44 | each tile name is appended once per occurrence in the files, and no other name is appended |
| `FileSelection.SelectedTileCounts` | workflow/v2/5.prediction_dnn.py:37-44 | each name is selected as a tile exactly as often as it occurs in the listing when it contains the prefix and ends in `.tfrecord.gz`, and never otherwise |
| `FileSelection.TileNotJson` | workflow/v2/5.prediction_dnn.py:43-46 | no name ends in both suffixes, so the `elif` never hides a mixer file |
| `FileSelection.LastMixerIndex` | workflow/v2/5.prediction_dnn.py:41-46 | the position found is a mixer file with no mixer file after it, or -1 when there is no mixer file at all |
| `FileSelection.LastJsonNone` | workflow/v2/5.prediction_dnn.py:41-46 | `json_file` stays None exactly when no entry is a mixer file |
| `FileSelection.LastJsonSnoc` | workflow/v2/5.prediction_dnn.py:41-46 | one more entry replaces `json_file` iff it is a mixer file, and otherwise leaves it as it was |
| `FileSelection.ExportedSnoc` | workflow/v2/5.prediction_dnn.py:37-46 | the mixer file chosen from a listing is its last entry when that entry has the prefix and ends in `.json`, and otherwise the one chosen from the listing without it |
| `FileSelection.LastJsonOfListing` | workflow/v2/5.prediction_dnn.py:37-46 | a chosen mixer file is a listing entry, at some position, that has the prefix and ends in `.json`, and no later entry does both |
| `FileSelection.LastJsonNoneOfListing` | workflow/v2/5.prediction_dnn.py:37-46 | no mixer file is chosen iff no listing entry has the prefix and ends in `.json` |
| `FileSelection.LexLeqRefl` | workflow/v2/5.prediction_dnn.py:49 | Python's string order is reflexive |
| `FileSelection.LexLeqTotal` | workflow/v2/5.prediction_dnn.py:49 | any two strings are comparable |
| `FileSelection.LexLeqAntisym` | workflow/v2/5.prediction_dnn.py:49 | two strings each at most the other are equal |
| `FileSelection.LexLeqTrans` | workflow/v2/5.prediction_dnn.py:49 | the string order is transitive |
| `FileSelection.Insert` | workflow/v2/5.prediction_dnn.py:49 | insertion adds exactly one name to the multiset |
| `FileSelection.InsertAtMostAll` | workflow/v2/5.prediction_dnn.py:49 | a lower bound of the list and of the new name remains a lower bound after insertion |
| `FileSelection.InsertSorted` | workflow/v2/5.prediction_dnn.py:49 | insertion into a sorted list keeps it sorted |
| `FileSelection.SortStrings` | workflow/v2/5.prediction_dnn.py:49 | after `image_files_list.sort()` the list is a sorted permutation of itself; the model returns that list as a new value |
| `FileSelection.SortedUnique` | workflow/v2/5.prediction_dnn.py:49 | two sorted permutations of the same names are equal, so the tile order is fixed by the names alone |
| `FileSelection.SelectFiles` | workflow/v2/5.prediction_dnn.py:37-49 | the tile list is sorted and is a permutation of the prefixed `.tfrecord.gz` entries: each name occurs in it as often as in the listing when it contains the prefix and is a tile, and never otherwise. `json_file` is the listing entry with the prefix and `.json` suffix that no later entry follows, never a tile; it is None iff there is no such entry |
| `PredictionSetup.HalfDown` | workflow/v2/5.prediction_dnn.py:72-73 | `n // 2` is the floor of half of `n`, negative `n` included |
| `PredictionSetup.ComputeBuffers` | workflow/v2/5.prediction_dnn.py:71-82 | an empty kernel buffer gives zero buffers and the unchanged patch shape. Otherwise the run succeeds iff both lists have two entries, each buffer is the floor of half its kernel entry, and the shape is the element-wise sum; shorter lists raise IndexError |
| `PredictionSetup.EvenKernelPadsBothSides` | workflow/v2/5.prediction_dnn.py:71-78 | for an even kernel the buffered shape is the patch plus one buffer on each side |
| `PredictionSetup.ExtraBandsLayout` | workflow/v2/5.prediction_dnn.py:84-90 | the two elevation bands come first and appear iff elevation is on; the eight Sentinel-1 bands follow, in order, iff Sentinel-1 is on |
| `PredictionSetup.Config.ExtendFeatures` | workflow/v2/5.prediction_dnn.py:84-90 | the feature list becomes its old entries, unchanged and first, followed by the optional bands |
| `PatchSpec.Argmax` | workflow/v2/5.prediction_dnn.py:152 | the index is in range and holds a maximum, and every earlier score is strictly smaller (numpy's first maximum) |
| `PatchSpec.Pending` | workflow/v2/5.prediction_dnn.py:151-196 | fewer predictions than one patch stay buffered, and with a patch size below one every prediction stays |
| `PatchSpec.ToRecordSnoc` | workflow/v2/5.prediction_dnn.py:152-157 | one more prediction adds one pixel to each of the six lists |
| `PatchSpec.ChunksStep` | workflow/v2/5.prediction_dnn.py:151-196 | a prediction that completes the pending patch emits exactly that patch as a record and empties the buffers. Any other prediction emits nothing and joins the buffers |
| `PatchSpec.ChunksCover` | workflow/v2/5.prediction_dnn.py:151-196 | the count identity: records times S plus pending predictions equals the stream length |
| `PatchSpec.PendingSuffix` | workflow/v2/5.prediction_dnn.py:151-196 | the pending predictions are exactly the tail of the stream after the last complete patch, records times S onwards |
| `PatchSpec.ChunksCount` | workflow/v2/5.prediction_dnn.py:151-198 | for size S of at least one, n / S records come out and n % S predictions stay pending, which `PendingSuffix` shows are the last ones, so they are never written. For S below one, nothing is written |
| `PatchSpec.ChunkAt` | workflow/v2/5.prediction_dnn.py:163-194 | record k is built from predictions k*S .. k*S+S-1, in input order |
| `PatchSpec.RecordFields` | workflow/v2/5.prediction_dnn.py:152-194 | pixel i of record k holds the first-maximum class index and scores 0-4 of prediction k*S+i, and every field has S entries |
| `PatchSpec.ExactStream` | workflow/v2/5.prediction_dnn.py:151-198 | a stream of exactly `patches` patches yields `patches` records and drops nothing |
| `PatchSpec.MilestonesClosed` | workflow/v2/5.prediction_dnn.py:164-165 | the progress lines name patches 100, 200, ... in order, one per multiple of 100 among the records written |
| `PatchWriter.RunSnoc` | workflow/v2/5.prediction_dnn.py:151-196 | running the loop on one more prediction is one more loop step |
| `PatchWriter.ExpectedSnoc` | workflow/v2/5.prediction_dnn.py:151-196 | the specified state moves by exactly one loop step per prediction, counter and progress lines included |
| `PatchWriter.RunIsChunks` | workflow/v2/5.prediction_dnn.py:149-196 | after any prefix of the stream, the loop's state is the specified one. The written records are the complete patches and the buffers hold the pending pixels. `cur_patch` is one plus the records written, and the progress lines are the milestones |
| `PatchWriter.RunShape` | workflow/v2/5.prediction_dnn.py:152-163 | the six lists always have one length, below the patch size after the flush check |
| `PatchWriter.PatchAssembler.constructor` | workflow/v2/5.prediction_dnn.py:149-150 | empty buffers, `cur_patch` 1, nothing written |
| `PatchWriter.PatchAssembler.Feed` | workflow/v2/5.prediction_dnn.py:151-196 | one iteration keeps the state equal to the loop run on the predictions consumed, and performs exactly one loop step. A row with no score, or with fewer than five, is reported as an error and changes nothing |
| `PatchWriter.WritePredictions` | workflow/v2/5.prediction_dnn.py:149-198 | the run succeeds iff every prediction has five scores. On success the records are the complete patches, n / S of them, and the progress lines are the milestones. Otherwise it stops at the first bad prediction, telling an empty row from a short one, and reports the complete patches before it, which were already written |
| `EEUtils.InitializeSession` | aces/utils.py:38-56 | the high-volume URL is used iff `use_highvolume` is passed as True, so leaving it out means False; service-account credentials from the key are used iff a key is given |
| `EEUtils.InitializeSessionDefaults` | aces/utils.py:38-50 | a call with no arguments opens the default session on the default endpoint, the same as passing False and no key |
| `EEUtils.InitializeSessionInjective` | aces/utils.py:38-56 | calls whose arguments resolve differently open different sessions, so the four cases are distinct |
| `EEUtils.ExportToCloudStorage` | aces/utils.py:93-103 | description, bucket, format and selectors take their defaults only when the key is absent. An explicit None passes through. The file prefix is the given one unless it is absent or None, and then it is the description. The export is started iff `start_training` is truthy in Python's sense, so None, False, 0 and empty values do not start it |
| `EEUtils.ExportTrainingData` | aces/utils.py:85-89 | it exports iff the export type is left out or is `"cloud"`; any other value, None included, raises NotImplementedError and exports nothing. The task is the one `_export_to_cloud_storage` builds from the keyword arguments. It is started iff `start_training` is left out or is truthy |
| `EEUtils.ExplicitNoneDoesNotStart` | aces/utils.py:85-103 | passing `start_training=None` creates the task without starting it, leaving the argument out starts it, and `export_type=None` raises |
| `EEUtils.ExportTrainingDataDefaults` | aces/utils.py:85-103 | `export_training_data(collection)` exports to cloud storage, starts the task, and uses every default of the export |
| `EEUtils.ExportDefaults` | aces/utils.py:93-101 | with no keyword arguments the description is `myExportTableTask`, the prefix is the same, bucket `myBucket`, format `TFRecord`, and the first feature's property names as selectors |
| `EEUtils.ExplicitNone` | aces/utils.py:98-100 | an explicit None prefix falls back to the description, while an explicit None bucket or format is passed on as None |
| `EEUtils.PrefixPresent` | aces/utils.py:93-98 | the file prefix is None only when the description was given as None and no prefix was given |
| `EEUtils.SampleImageByCollection` | aces/utils.py:106-113 | when the key is absent, properties default to the first feature's property names, `scale` to None, `geometries` to False and `tileScale` to 1; a present key, None included, passes through |
| `EEUtils.SampleIgnoresOtherKeys` | aces/utils.py:106-113 | keys other than the four sampling options do not change the request |

## Left out

- The shell calls are not modelled: `gsutil ls`, `gsutil cat`, `gsutil cp`, `earthengine upload` and `sudo` (workflow/v2/5.prediction_dnn.py:31-34, 57-63, 200-209). The listing, already split into lines, and the mixer values are inputs. Reading those values out of the parsed JSON is not modelled.
- The TensorFlow work is not modelled: the dataset pipeline, parsing and batching, model loading, `predict`, `tf.train.Example` and its serialisation (workflow/v2/5.prediction_dnn.py:50-55, 94-147, 167-194). A written record is the `Record` value of its six fields.
- Logging and prints are not modelled, except for which patch numbers get a progress line. The shape print on the first iteration is also out.
- Scores are modelled as reals, not IEEE floats. NaN and how numpy's argmax treats it are not modelled.
- `PatchWriter.PatchAssembler.Feed`: an empty row makes `np.argmax` raise before any list is appended to (workflow/v2/5.prediction_dnn.py:152). A row with one to four scores raises only after the first lists have been appended to. In both cases the model reports the error and leaves the state unchanged, because the run ends there and the partial buffers are never written.
- `PatchWriter.WritePredictions`: it starts from the first row of each prediction. It assumes one row per prediction, so numpy's argmax over the whole array is the argmax of that row. Predictions with several rows are not modelled.
- `FileSelection.SortStrings`: `list.sort()` sorts in place. The model sorts a sequence value with insertion sort. `SortedUnique` shows that any sort yields the same list, so only the in-place update is lost.
- `PredictionSetup.ComputeBuffers`: a falsy `KERNEL_BUFFER` is taken to be the empty list. `None` behaves the same in the source but is not a separate input here.
- `EEUtils.ExportToCloudStorage`: `collection.first().propertyNames().getInfo()` is a network query. `kwargs.get` evaluates its fallback argument even when the key is present, here and for `properties` in `sample_image_by_collection`. The model takes it from the `firstPropertyNames` field of the collection. The logging line is out.
- `EEUtils.SampleImageByCollection`: sampling is not modelled. The request is returned as a value, and `properties` comes from the same collection field.
- `EEUtils.InitializeSession`: `use_highvolume` is annotated `bool` and modelled as an optional bool. A falsy non-bool value such as an explicit None behaves as False in the source and is not a separate input here.
- `EEUtils.InitializeSession`: reading the key file in `get_credentials_by_service_account_key` (aces/utils.py:22-35) is file I/O. The credentials are named by their key path.
- `calculate_min_max_statistics` (aces/utils.py:59-82) is left out: it is a single Earth Engine reducer call.
- The downloaders `beam_yield_sample_points` and `beam_get_training_patches` are left out: they use the network, retry policies and float geometry. `beam_serialize` is also left out, as protobuf serialisation.
- `filter_good_patches` is left out: NaN and infinity checks on float32 data.
- `split_dataset` is left out: random sampling.
- `plot_metrics` is left out: plotting.

# lilac dataset utilities and task bookkeeping, in Dafny

This project models two parts of lilac, a tool for organising and enriching
unstructured datasets, and proves properties of the model.

- **Dataset utilities** (`lilac/data/dataset_utils.py`). Paths into a dataset
  are tuples of string segments, where the segment `"*"` (lilac's
  `PATH_WILDCARD`) stands for every element of a repeated field. The model
  covers the cardinality prefix of a path, sibling output paths, the common
  ancestor of two paths, whether a schema contains a path, the output schema
  of a map function nested along a path, wrapping map outputs in
  single-key dicts, flattening nested inputs into vector keys, computing
  over the non-None values of a sparse column, replacing embeddings with
  None, the item range of a shard and the parquet file name of a shard.
- **Task bookkeeping** (`lilac/tasks.py`). `TaskManager` keeps the tasks it
  has created by id and moves each between PENDING, COMPLETED and ERROR.
  Completion never overwrites ERROR, but a COMPLETED task can still fail. The
  manifest averages the progress of the tasks that are not COMPLETED (failed
  tasks included), and the progress reporter reports progress as items flow
  through an iterator.

Files:

| file | module | contents |
|---|---|---|
| `wrappers.dfy` | `Wrappers` | `Option`, `Result`, what a generator yielded before it ended, and the Python exceptions raised |
| `paths.dfy` | `Paths` | cardinality prefix, sibling output path, common ancestor |
| `shards.dfy` | `Shards` | shard ranges, parquet file names |
| `schemas.dfy` | `Schemas` | `Field` trees, path lookup, nested output schemas |
| `items.dfy` | `Items` | JSON-like row values, replacing embeddings |
| `wrapping.dfy` | `Wrapping` | wrapping values in dicts by a spec, and reading them back |
| `flatten.dfy` | `Flatten` | vector keys of nested inputs |
| `sparse.dfy` | `SparseDense` | sparse to dense and back |
| `tasks.dfy` | `Tasks` | `TaskManager`, task status steps, manifest, progress reporter |

The code that is a loop in the source is a method with loop invariants. This
covers `_cardinality_prefix`, `get_sibling_output_path`,
`get_common_ancestor`, `schema_contains_path`,
`create_json_map_output_schema`, `_wrap_value_in_dict`,
`sparse_to_dense_compute` and `progress_reporter`. Most methods are proved
against a function whose properties are proved as lemmas; the others state
their property directly in their postconditions.
The code that is recursion or comprehensions is a function. `TaskManager`
is a class whose methods update its `tasks` map in place.

## Model

| member | source | states |
|---|---|---|
| `Paths.LastMatch` | lilac/data/dataset_utils.py:354-358 | the index of the last wildcard (or last non-wildcard) segment, or 0 when there is none: in range, of the right kind, and no later segment is of that kind |
| `Paths.CardinalityPrefix` | lilac/data/dataset_utils.py:351-358 | the result is a prefix of the path that stops right before a wildcard, with no wildcard after that position; it is `()` when there is no wildcard or the only one is at index 0 |
| `Paths.PathsHaveSameCardinality` | lilac/data/dataset_utils.py:361-363 | true exactly when both paths have the same cardinality prefix |
| `Paths.SiblingOutputPath` | lilac/data/dataset_utils.py:366-373 | raises IndexError exactly for the empty path; otherwise the result has the same length and equals the path except at the last non-wildcard index, which becomes `<segment>_<suffix>`, never a wildcard |
| `Paths.FirstDifference` | lilac/data/dataset_utils.py:381-386 | the first index within both paths where they differ, with equal prefixes before it; None when they agree on their common length |
| `Paths.CommonAncestor` | lilac/data/dataset_utils.py:376-388 | at the first difference i it returns `(path1[:i], path1[i], path2[i])`, otherwise `((), '', '')`, including when one path is a prefix of the other; the ancestor is a prefix of both paths |
| `Shards.CeilDiv` | lilac/data/dataset_utils.py:345 | the ceiling of the quotient, for either sign of the divisor |
| `Shards.ShardSize` | lilac/data/dataset_utils.py:345 | ZeroDivisionError exactly for a zero shard count; for a positive count, the smallest size whose multiple by the count covers the items |
| `Shards.ShardIdToRange` | lilac/data/dataset_utils.py:341-348 | ZeroDivisionError exactly for a zero shard count; `(0, num_items)` without a shard id; otherwise both ends are at most `num_items`, and `0 <= start <= end` for a non-negative id, item count and shard count |
| `Shards.ShardsTileItems` | lilac/data/dataset_utils.py:341-348 | for c > 0 shards the ranges of ids 0..c-1 start at 0, end at num_items, and each ends where the next starts |
| `Shards.ItemInExactlyOneShard` | lilac/data/dataset_utils.py:341-348 | every item of `[0, num_items)` lies in exactly one shard range, that of id `item // shard_size` |
| `Shards.Format05RoundTrip` | lilac/data/dataset_utils.py:288 | `{n:05d}` of a number below 100000 has five characters and reads back as n |
| `Shards.ParquetFilenameFields` | lilac/data/dataset_utils.py:286-288 | the file name is the prefix, then fixed-width fields from which shard index and shard count read back, then `.parquet` |
| `Shards.ParquetFilename` | lilac/data/dataset_utils.py:286-288 | the file name of a shard; its lemmas prove its fixed layout below 100000 and that it is injective in both numbers at any width |
| `Shards.Format05Reads` | lilac/data/dataset_utils.py:288 | for any non-negative n, `{n:05d}` is a run of digits that reads back as n |
| `Shards.ParquetFilenameInjective` | lilac/data/dataset_utils.py:286-288 | two shards with non-negative numbers of any width and the same prefix never get the same file name |
| `Schemas.SchemaContainsPath` | lilac/data/dataset_utils.py:106-118 | true exactly when every segment can be followed: a wildcard through `repeated_field`, a key through `fields` |
| `Schemas.CreateJsonMapOutputSchema` | lilac/data/dataset_utils.py:121-131 | AssertionError exactly when the path starts with a wildcard, or is empty and the map schema has no fields; otherwise a schema with only fields that contains the path and leads along it back to the map schema |
| `Schemas.LookupNest` | lilac/data/dataset_utils.py:124-128 | following a path through the field nested along it reaches the inner field |
| `Schemas.OutputSchemaContainsPath` | lilac/data/dataset_utils.py:106-131 | round trip: for an output path not starting with a wildcard, the output schema exists and `schema_contains_path` holds of it, reaching the map schema |
| `Schemas.NestShape` | lilac/data/dataset_utils.py:124-128 | at each depth along the path the built field is a repeated field (wildcard) or a field whose only child is the segment (key) |
| `Items.ReplaceEmbeddingsWithNone` | lilac/data/dataset_utils.py:49-62 | no embedding is left and a value without embeddings is unchanged (so replacing twice equals replacing once); at the top level an array becomes None, other primitives are kept, lists and dicts keep their length and keys |
| `Items.ReplaceEmbeddingsAt` | lilac/data/dataset_utils.py:49-57 | at every depth: the result has the same positions as the input; an array there becomes None, any other primitive is kept, a list or dict keeps its kind, length and keys |
| `Wrapping.WrapValueInDict` | lilac/data/dataset_utils.py:73-79 | NaN becomes None; the value is nested in one single-key dict per key, the first key outermost, and walking back down the keys recovers it |
| `Wrapping.DescendWrapValue` | lilac/data/dataset_utils.py:77-78 | indexing the wrapped value with the keys in turn gives the value back |
| `Wrapping.WrapInDicts` | lilac/data/dataset_utils.py:82-98 | the only exception raised is ValueError; with a one-entry spec, walking down its keys gives the input with NaN as None |
| `Wrapping.WrapInDictsFailsExactlyWhenNotNestable` | lilac/data/dataset_utils.py:86-97 | ValueError is raised exactly when, above the last spec entry, some value is a dict or a primitive rather than a list, None or NaN |
| `Wrapping.WrapInDictsRoundTrip` | lilac/data/dataset_utils.py:82-98 | reading a wrapped value back gives the input, with None and NaN both read back as None (None/NaN above the last entry became `{}`); a list comes back as a list of the same length whose elements read back under the rest of the spec |
| `Wrapping.WrapAllInDicts` | lilac/data/dataset_utils.py:101-103 | yields `_wrap_in_dicts` of the inputs in order; the first input that raises ends the generator with ValueError and nothing is yielded after it; without a raise there is one item per input |
| `Wrapping.WrapAllInDictsRoundTrip` | lilac/data/dataset_utils.py:101-103 | every item that `wrap_in_dicts` yields reads back as its input |
| `Wrapping.WrapAllInDictsRaisesExactlyWhenNotNestable` | lilac/data/dataset_utils.py:86-103 | the generator runs to the end exactly when every input is nestable under the spec |
| `Flatten.FlattenKeysFrom` | lilac/data/dataset_utils.py:291-306 | `_flatten_keys`: a leaf (the predicate, `is_primitive` or a dict) gives its own location, a list its elements' keys in order; its lemmas prove the keys are exactly the leaf paths, in strictly increasing order |
| `Flatten.FlattenKeysFromAreLeafPaths` | lilac/data/dataset_utils.py:291-306 | a key is yielded exactly when it is the row id with the location followed by an index path to a leaf (a primitive, a dict, or what the predicate accepts) |
| `Flatten.FlattenKeysFromSorted` | lilac/data/dataset_utils.py:291-306 | keys come in strictly increasing left-to-right order, so each leaf gets exactly one key |
| `Flatten.FlattenKeys` | lilac/data/dataset_utils.py:309-319 | `flatten_keys` over the zipped rows; its lemmas prove the row blocks come in row order, one None per None row, and exactly the leaf keys of the other rows |
| `Flatten.FlattenKeysNonePerNullRow` | lilac/data/dataset_utils.py:309-319 | the number of Nones yielded equals the number of zipped rows whose input is None |
| `Flatten.FlattenKeysByRow` | lilac/data/dataset_utils.py:309-319 | the output is the zipped rows' outputs one after the other in row order, each row a contiguous block |
| `Flatten.RowKeysShape` | lilac/data/dataset_utils.py:315-319 | a None row's block is a single None; any other row's block holds only keys with that row's id, in strictly increasing order |
| `Flatten.FlattenKeysAreLeaves` | lilac/data/dataset_utils.py:309-319 | a key is yielded exactly when it carries the id of a zipped row with a non-None input and indexes a leaf of that input, so every leaf of such a row is yielded |
| `SparseDense.Sparsify` | lilac/data/dataset_utils.py:334-338 | same length as the input, None exactly at the input's None positions |
| `SparseDense.DensifySparsify` | lilac/data/dataset_utils.py:326-338 | the non-None outputs are exactly the function's outputs, in order, as many as there are non-None inputs |
| `SparseDense.SparseToDenseCompute` | lilac/data/dataset_utils.py:326-338 | raises RuntimeError exactly when the function gives fewer outputs than there are non-None inputs; otherwise yields the sparsified outputs; when it raises, what was yielded is the sparsified prefix up to the first input left without an output |
| `Tasks.NewTask` | lilac/tasks.py:107-114 | a new task is PENDING with the given name, type, description and total length, started now, with no progress, end, error, message or details |
| `Tasks.Report` | lilac/tasks.py:118-121 | only `total_progress` changes |
| `Tasks.Fail` | lilac/tasks.py:123-128 | status ERROR, the error stored and the end set whatever the prior status, nothing else changes |
| `Tasks.Complete` | lilac/tasks.py:130-141 | the end is always set; a non-ERROR task becomes COMPLETED with the completion message; an ERROR task keeps status, error and message |
| `Tasks.ErrorIsFinal` | lilac/tasks.py:118-141 | once ERROR, no sequence of reports, failures and completions leaves ERROR, and the error is the one of the last failure |
| `Tasks.PendingUntilFinished` | lilac/tasks.py:118-141 | a task is still PENDING exactly when it was PENDING and only progress was reported; name and start never change |
| `Tasks.HasProgress` | lilac/tasks.py:91 | the filter of `manifest`: progress and length both present and non-zero, status not COMPLETED; its lemmas prove the average is None exactly when no task passes it, and lies in [0, 1] when each passing task's progress is within its length |
| `Tasks.NoProgressIffNoTaskHasProgress` | lilac/tasks.py:86-96 | the list averaged over is empty exactly when no task has non-zero progress, non-zero length and a status other than COMPLETED |
| `Tasks.AverageIsFraction` | lilac/tasks.py:86-96 | when the progress of each averaged task (progress and length non-zero, not COMPLETED, failed tasks included) lies within its length, the manifest progress lies in [0, 1] |
| `Tasks.Prepare` | lilac/tasks.py:166-171 | a non-zero estimated length and a non-empty description replace the task's own; every other field is kept |
| `Tasks.Reported` | lilac/tasks.py:174-179 | no item leaves the task unchanged; after k > 0 items the progress is `offset + k`; nothing else changes |
| `Tasks.TaskManager.constructor` | lilac/tasks.py:78-80 | a manager starts with no tasks |
| `Tasks.TaskManager.GetTaskInfo` | lilac/tasks.py:82-84 | the task's info, or KeyError exactly for an unknown id |
| `Tasks.TaskManager.Manifest` | lilac/tasks.py:86-96 | all tasks, and the average progress fraction over the qualifying tasks in dict order; None exactly when no task qualifies |
| `Tasks.TaskManager.NewTaskId` | lilac/tasks.py:98-116 | the id maps to a new PENDING task, every other entry is unchanged, and the id is appended to the dict order when new |
| `Tasks.TaskManager.ReportTaskProgress` | lilac/tasks.py:118-121 | KeyError and no change for an unknown id; otherwise only that task's progress changes |
| `Tasks.TaskManager.SetTaskError` | lilac/tasks.py:123-128 | KeyError and no change for an unknown id; otherwise only that task changes, to ERROR |
| `Tasks.TaskManager.SetTaskCompleted` | lilac/tasks.py:130-141 | KeyError and no change for an unknown id; otherwise only that task changes, completed unless in ERROR |
| `Tasks.TaskManager.ReportItems` | lilac/tasks.py:176-179 | every item is handed on in order and the task's progress ends at `offset + k` after k items; no other task changes |
| `Tasks.TaskManager.FinishTask` | lilac/tasks.py:180-183 | an exception from the input fails the task with its message; an exhausted input completes it |
| `Tasks.TaskManager.ProgressReporter` | lilac/tasks.py:153-183 | KeyError for an unknown task; otherwise all items are yielded, the task gets the estimated length and description, progress `offset + k`, and then ERROR with the input's message or completion; the input's exception is raised again |

## Left out

- `write_embeddings_to_disk`, `write_items_to_parquet` and `_validate`: file I/O, pyarrow, numpy matrices and a vector store whose code is not part of this model.
- `count_leafs` and `create_signal_schema`: they rely on `flatten_iter`, `Signal` and `Schema.leafs`, which are not part of this model. `get_callable_name` is Python reflection.
- `_flat_embeddings`: its detection of embedding lists is duck-typed on `EMBEDDING_KEY`, and it only feeds the vector store that is left out.
- lilac/schema.py and lilac/utils.py are not part of this model. Three things are taken as given: the wildcard segment is the string `"*"`, `is_primitive` holds of every value except lists and dicts, and a top-level `Schema` is a field that has named children only.
- `Field` attributes other than `fields`, `repeated_field` and `dtype` are left out. So is the deep copy in `create_json_map_output_schema`: values have no identity here.
- Exception messages are left out. Only the exception's kind is kept.
- `Shards.CeilDiv`: exact rational ceiling. The source divides in floating point, which differs for item counts beyond 2^53.
- `Tasks.TaskManager.Manifest`: the average is an exact `real`. Float rounding is not modelled.
- `SparseDense.SparseToDenseCompute`: `func` is a pure function of the whole dense input. The interleaving of its lazy consumption with the output is not modelled.
- `Tasks.TaskManager.ProgressReporter`: the consumer is assumed to drain the generator. A consumer that closes it early is not modelled. In that case the last progress report and the completion never happen.
- `Tasks.TaskManager.GetTaskInfo`: returns a copy. The aliasing of the returned `TaskInfo` is not modelled. `get_progress_bar` writes through that alias; `Tasks.Prepare` writes the same fields into the manager's map instead.
- uuid4 ids, `datetime.now()` timestamps and the text of `pretty_timedelta` are parameters.
- The `functools.cache` singleton `get_task_manager` and the sharing of tasks across processes are left out. So are the `LILAC_TEST` and tqdm-only branches of `get_progress_bar`, which do not touch the manager.
- lilac/embeddings/jina.py and lilac/embeddings/cohere.py: thin wrappers over a model library and an HTTP client. They have no logic of their own to model.

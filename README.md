# Success logger of a reinforcement-learning training run

This project models `SuccessLoggerCallback`, the training-loop observer of a
set of robotic-arm training scripts. The trainer calls the observer once per
environment step. For every environment instance whose episode has just ended,
the observer appends one row `timesteps,episode,success` to a CSV log. The log
is created with a fixed header when it is missing and is only ever appended to.

The model is in four modules:

- `PyObjects` (`py_objects.dfy`): the Python values the logger looks at
  (None, bool, int, list/tuple/array, dict). It also gives their truthiness,
  `int()` and `dict.get`.
- `CsvLog` (`csv_log.dfy`): the log file as a class holding a `present` flag
  and a sequence of rows. Opening in mode `"w"` truncates; opening in mode `"a"`
  creates a missing file and appends.
- `SuccessRule` (`success_rule.dfy`): pure functions giving the success
  decision for one finished episode and the rows one step appends (with the
  exception that stops it, if any). The lemmas relate these functions to an
  independent description: the increasing list of indices of the true `dones`
  entries.
- `Callbacks` (`callbacks.dfy`): the observer as a class with the fields
  `episode` and `episodeTimesteps`. Its constructor and its step method
  (`OnStep`, split into `LogBatch` for the loop and `LogFlag` for a single
  flag) are proved against `SuccessRule`. Its invariant `Valid()` says that
  the records it has written number the episodes 0, 1, 2, … with no gap.
  `CallbacksClient.ShortRun` is a verified client: it takes one logger through
  a short run, and its assertions about the rows follow from the contracts alone.

Inputs that come from outside the callback become parameters:

- the trainer's `locals` is a `map<string, PyObj>`;
- `num_timesteps` is an argument of `OnStep`;
- the file's state before construction is a `CsvFile` argument;
- `success_fn` is an optional total function giving the truthiness of its result.

Python's own exceptions are modelled as a `Raised` outcome of the step:

- `IndexError` when a true entry of `dones` has an index past the end of the
  `infos` list (false entries past the end raise nothing);
- `TypeError` when `int()` is applied to a list or dict `is_success`.

Rows appended before the exception stay in the file, because each row is
written and closed on its own.

Three behaviours of the code are easy to misread:

- `episode_timesteps` advances on every call, including a call skipped because
  `infos` or `dones` is missing (callbacks.py:29).
- The success value is `int(is_success)` as it is, so an int `is_success` of 2
  is written as 2 (callbacks.py:47, callbacks.py:62). Only a bool
  `is_success`, the `success_fn` path and the default path give 0 or 1.
  Lemma `BinaryWhenFlagsAreBools` states when every written value is 0 or 1.
- A single `dones` flag uses `infos` whole, even when `infos` is a list
  (callbacks.py:59). `ScalarIsSingletonBatch` states the exact equivalence:
  a single flag is the batch `[dones]` with the records `[infos]`.

## Model

| member | source | states |
|---|---|---|
| `PyObjects.IntOfMatchesTruthiness` | callbacks.py:47 | `int()` of `is_success` succeeds exactly on a bool or an int, and its result is nonzero exactly when `is_success` is truthy; on a bool it is 1 for true and 0 for false |
| `CsvLog.CsvFile.Exists` | callbacks.py:19 | reports whether the log file exists; a missing file holds no rows |
| `CsvLog.CsvFile.Rewrite` | callbacks.py:20-22 | opening with `"w"` and writing one row leaves a file that exists and holds exactly that row |
| `CsvLog.CsvFile.Append` | callbacks.py:52-54 | opening with `"a"` and writing one row leaves a file that exists and holds its old rows followed by the new one |
| `SuccessRule.SuccessOf` | callbacks.py:44-50 | fallback chain, stated on the record's `is_success` entry: in a dict, a bool entry gives 0/1 and an int entry is kept as it is; for a record that is not a dict, or has no `is_success` key, or has it set to None, the value is 0 or 1, and it is 1 exactly when `success_fn` is given and its result is truthy; the only failure is TypeError, raised exactly when the dict's `is_success` is a list or dict |
| `SuccessRule.FailureIsFinal` | callbacks.py:40-55 | once an exception is raised inside the loop, the later `dones` entries write nothing and the same exception ends the step |
| `SuccessRule.StepEmission` | callbacks.py:29-70 | a step with `infos` or `dones` missing or None writes nothing and fails in no way; every row a step writes is a record carrying the step's `num_timesteps` and episode numbers `ep`, `ep+1`, … in order |
| `SuccessRule.TruthyIndicesExact` | callbacks.py:40-42 | the reference index list holds every true entry of `dones` once, in increasing order, and nothing else |
| `SuccessRule.EmitPrefixFollowsIndices` | callbacks.py:40-55 | after the loop has looked at the first `n` entries, row `k` belongs to the `k`-th true entry and holds `(num_timesteps, ep + k, its success)`; the step fails exactly when fewer rows than true entries were written, and the failure is that of the first true entry whose success cannot be computed |
| `SuccessRule.ListStepFailsIffSomeEntryFails` | callbacks.py:40-55 | a batch step raises exactly when some true entry has no computable success (its index is past the end of the `infos` list, or its `is_success` is a list or dict); otherwise it writes one row per true entry |
| `SuccessRule.EmittedNumbersRows` | callbacks.py:40-68 | for either shape of `dones`, the rows of one step all carry the same timestep count and consecutive episode numbers starting at the counter's value before the step |
| `SuccessRule.ScalarIsSingletonBatch` | callbacks.py:56-68 | a single `dones` flag behaves like the one-entry batch `[dones]` with records `[infos]`; a false flag writes nothing, and a true flag with a computable success writes exactly one row for `infos` itself |
| `SuccessRule.SuccessAtIsBinary` | callbacks.py:43-50 | when every record's `is_success` is absent, None or a bool, the success for an index is 0 or 1, or the IndexError of an index past the end of the `infos` list |
| `SuccessRule.BinaryWhenFlagsAreBools` | callbacks.py:40-64 | when every record's `is_success` is absent, None or a bool, a step never raises TypeError and every success value it writes is 0 or 1 |
| `Callbacks.SuccessLoggerCallback.constructor` | callbacks.py:14-25 | writes the header only when the file is missing and leaves an existing file's rows unchanged; both counters start at 0; the invariant holds with no records yet |
| `Callbacks.SuccessLoggerCallback.OnStep` | callbacks.py:27-70 | the step counter always advances by one; the file becomes its old rows followed by exactly the rows `StepEmission` gives; `episode` grows by their number; the result is `True` unless an exception ends the step; the gap-free episode numbering is kept |
| `Callbacks.SuccessLoggerCallback.LogBatch` | callbacks.py:40-55 | the loop over a list of dones appends exactly the rows of `EmitPrefix` in index order, keeps the episode numbering gap-free, and ends with the exception of the first failing true entry, if any |
| `Callbacks.SuccessLoggerCallback.LogFlag` | callbacks.py:56-68 | a single flag appends the one row for `infos` when it is true and nothing when it is false, and keeps the episode numbering gap-free |

## Left out

- `train_ddpg_reach.py`, `train_ddpg_push.py`, `eval_agent.py` and
  `plot_results.py` are not part of this model. They configure and call an
  external learning library, run environments, render, parse arguments and plot.
- CSV text formatting and parsing are left out. A row is a datatype value, not
  a line of text.
- File-system errors are left out. Writes always succeed.
- A second writer to the same file is left out. The logger is assumed to own
  the file, which `Valid()` relies on.
- The `BaseCallback` superclass and how it fills `locals` and `num_timesteps`
  are left out. They are parameters of `OnStep`.
- Exceptions raised inside `success_fn` are left out. It is a total function,
  and only the truthiness of its result is kept.
- Values other than None, bool, int, list and dict are left out. This covers
  floats, strings and numpy scalars: `int()` of a float truncates, and `int()`
  of a string parses or raises. A numpy array `infos` is not a list for the
  index rule, and the model has no separate value for it.
- A two-dimensional numpy `dones` is left out. Its entries are arrays, and
  `if done:` on a multi-element array raises in Python (callbacks.py:42). The
  model treats such an entry as a list, which is truthy when it is non-empty.
- `out_csv` and `verbose` are left out. The path is represented by the
  `CsvFile` object, and `verbose` has no effect on this class.

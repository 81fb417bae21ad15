/** The success logger: a training-loop observer that, for every finished
    episode, appends a `timesteps,episode,success` record to a CSV file. */
module Callbacks {
  import opened PyObjects
  import opened CsvLog
  import opened SuccessRule

  /** How the step hook ends: it returns to the trainer, or an exception
      raised in its body propagates. */
  datatype StepResult = Returned(value: bool) | Raised(error: PyError)

  class SuccessLoggerCallback {
    const log: CsvFile
    const successFn: SuccessFn
    var episode: nat
    var episodeTimesteps: nat
    /** Number of rows the file held once construction finished; every row
        after them is a record of this logger. */
    ghost const base: nat

    /** The file exists, and the records this logger wrote number its
        episodes 0, 1, 2, ... with no gap; `episode` is the next number. */
    ghost predicate Valid()
      reads this, log
    {
      log.Valid() && log.present && base <= |log.rows| &&
      episode == |log.rows| - base &&
      forall k :: base <= k < |log.rows| ==> log.rows[k].Record? && log.rows[k].episode == k - base
    }

    /** Writes the header only when the file does not exist yet; a file that
        exists keeps its rows.  Both counters start at 0. */
    constructor (log: CsvFile, successFn: SuccessFn)
      requires log.Valid()
      modifies log
      ensures Valid()
      ensures this.log == log && this.successFn == successFn
      ensures episode == 0 && episodeTimesteps == 0
      ensures log.rows == if old(log.present) then old(log.rows) else [HeaderRow]
      ensures base == |log.rows|
    {
      this.log := log;
      this.successFn := successFn;
      var found := log.Exists();
      if !found {
        log.Rewrite(HeaderRow);
      }
      episode := 0;
      episodeTimesteps := 0;
      base := |log.rows|;
    }

    /** One call per environment step.  `locals` is the trainer's local
        variables, `numTimesteps` its cumulative step count.  The step counter
        always advances; the file gains exactly the rows `StepEmission`
        describes (nothing when `infos` or `dones` is missing), after the rows
        already there, and `episode` grows by their number.  The hook returns
        true unless an exception cuts it short. */
    method OnStep(locals: map<string, PyObj>, numTimesteps: int) returns (r: StepResult)
      requires Valid()
      modifies this, log
      ensures Valid()
      ensures episodeTimesteps == old(episodeTimesteps) + 1
      ensures var e := StepEmission(successFn, locals, numTimesteps, old(episode));
        log.rows == old(log.rows) + e.rows &&
        episode == old(episode) + |e.rows| &&
        r == if e.failure.Some? then Raised(e.failure.value) else Returned(true)
    {
      episodeTimesteps := episodeTimesteps + 1;

      var infos := Get(locals, "infos");
      if infos.PyNone? {
        return Returned(true);
      }
      var dones := Get(locals, "dones");
      if dones.PyNone? {
        return Returned(true);
      }

      if dones.PyList? {
        r := LogBatch(infos, dones.items, numTimesteps);
      } else {
        r := LogFlag(infos, dones, numTimesteps);
      }
    }

    /** The `for i, done in enumerate(dones)` loop: each true entry takes its
        record from `infos` (by index when `infos` is a list), and its row is
        appended before the next entry is looked at. */
    method LogBatch(infos: PyObj, dones: seq<PyObj>, numTimesteps: int) returns (r: StepResult)
      requires Valid()
      modifies this, log
      ensures Valid()
      ensures episodeTimesteps == old(episodeTimesteps)
      ensures var e := EmitPrefix(successFn, infos, dones, |dones|, numTimesteps, old(episode));
        log.rows == old(log.rows) + e.rows &&
        episode == old(episode) + |e.rows| &&
        r == if e.failure.Some? then Raised(e.failure.value) else Returned(true)
    {
      var i := 0;
      while i < |dones|
        invariant 0 <= i <= |dones|
        invariant Valid()
        invariant episodeTimesteps == old(episodeTimesteps)
        invariant var e := EmitPrefix(successFn, infos, dones, i, numTimesteps, old(episode));
          e.failure.None? && log.rows == old(log.rows) + e.rows && episode == old(episode) + |e.rows|
      {
        if Truthy(dones[i]) {
          var info: PyObj;
          if infos.PyList? {
            if i >= |infos.items| {
              FailureIsFinal(successFn, infos, dones, i + 1, |dones|, numTimesteps, old(episode));
              return Raised(IndexError);
            }
            info := infos.items[i];
          } else {
            info := infos;
          }
          var success := SuccessOf(successFn, info);
          if success.Err? {
            FailureIsFinal(successFn, infos, dones, i + 1, |dones|, numTimesteps, old(episode));
            return Raised(success.error);
          }
          log.Append(Record(numTimesteps, episode, success.value));
          episode := episode + 1;
        }
        i := i + 1;
      }
      return Returned(true);
    }

    /** A single `dones` flag: when true, one row for the record `infos`. */
    method LogFlag(infos: PyObj, done: PyObj, numTimesteps: int) returns (r: StepResult)
      requires Valid()
      requires !done.PyList?
      modifies this, log
      ensures Valid()
      ensures episodeTimesteps == old(episodeTimesteps)
      ensures var e := Emitted(successFn, infos, done, numTimesteps, old(episode));
        log.rows == old(log.rows) + e.rows &&
        episode == old(episode) + |e.rows| &&
        r == if e.failure.Some? then Raised(e.failure.value) else Returned(true)
    {
      if Truthy(done) {
        var success := SuccessOf(successFn, infos);
        if success.Err? {
          return Raised(success.error);
        }
        log.Append(Record(numTimesteps, episode, success.value));
        episode := episode + 1;
      }
      return Returned(true);
    }
  }
}

/** A client of the logger, driven through the step sequences of a short
    training run; what it asserts follows from the contracts above alone. */
module CallbacksClient {
  import opened PyObjects
  import opened CsvLog
  import opened SuccessRule
  import opened Callbacks

  method ShortRun()
  {
    var file := new CsvFile(false, []);
    var logger := new SuccessLoggerCallback(file, None);
    assert file.rows == [HeaderRow];

    // no `infos`: nothing written, the hook still returns true
    var r := logger.OnStep(map["dones" := PyBool(true)], 7);
    assert r == Returned(true) && file.rows == [HeaderRow] && logger.episode == 0;

    // one environment, finished with is_success = 1 at step 42
    var one := map["is_success" := PyInt(1)];
    r := logger.OnStep(map["infos" := PyDict(one), "dones" := PyBool(true)], 42);
    assert file.rows == [HeaderRow, Record(42, 0, 1)];

    // not finished: nothing written, the episode counter stays
    r := logger.OnStep(map["infos" := PyDict(one), "dones" := PyBool(false)], 43);
    assert file.rows == [HeaderRow, Record(42, 0, 1)] && logger.episode == 1;

    // three environments, the last two finished, no success_fn: both log 0
    var infos := PyList([PyDict(map[]), PyDict(map["is_success" := PyInt(0)]), PyDict(map[])]);
    var dones := PyList([PyBool(false), PyBool(true), PyBool(true)]);
    r := logger.OnStep(map["infos" := infos, "dones" := dones], 50);
    assert EmitPrefix(None, infos, dones.items, 1, 50, 1) == Emission([], None);
    assert EmitPrefix(None, infos, dones.items, 2, 50, 1) == Emission([Record(50, 1, 0)], None);
    assert EmitPrefix(None, infos, dones.items, 3, 50, 1) == Emission([Record(50, 1, 0), Record(50, 2, 0)], None);
    assert r == Returned(true);
    assert file.rows == [HeaderRow, Record(42, 0, 1), Record(50, 1, 0), Record(50, 2, 0)];
    assert logger.episode == 3 && logger.episodeTimesteps == 4;
  }
}

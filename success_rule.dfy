/** What one call of the logger's step hook writes, as functions of its
    inputs: the success decision for one finished episode, the rows a step
    appends, and the exception (if any) that cuts the step short.  The
    lemmas relate these to an independent description: the indices of the
    true entries of `dones`, taken in increasing order. */
module SuccessRule {
  import opened PyObjects
  import opened CsvLog

  /** The optional `success_fn`, reduced to the truthiness of its result. */
  type SuccessFn = Option<PyObj -> bool>

  /** `info.get("is_success")` when `info` is a dict, and None otherwise
      (the `isinstance(info, dict)` guard). */
  function IsSuccessField(info: PyObj): PyObj
  {
    if info.PyDict? then Get(info.entries, "is_success") else PyNone
  }

  /** The success column for one finished episode, by the fallback chain:
      a present `is_success` goes through `int()`, else `success_fn`'s
      result goes through `int(bool(...))`, else 0. */
  function SuccessOf(fn: SuccessFn, info: PyObj): (r: Result<int>)
    // a dict record with an `is_success` entry: int() of that entry, kept as it is
    ensures info.PyDict? && "is_success" in info.entries && info.entries["is_success"].PyBool? ==>
              r == Ok(if info.entries["is_success"].b then 1 else 0)
    ensures info.PyDict? && "is_success" in info.entries && info.entries["is_success"].PyInt? ==>
              r == Ok(info.entries["is_success"].n)
    // not a dict, no `is_success` key, or an `is_success` of None: always 0 or 1,
    // and 1 exactly when success_fn is given and says so
    ensures !info.PyDict? || "is_success" !in info.entries || info.entries["is_success"].PyNone? ==>
              r.Ok? && (r.value == 0 || r.value == 1) && (r.value == 1 <==> fn.Some? && fn.value(info))
    // the only failure is TypeError, from int() of a list or dict `is_success`
    ensures r.Err? <==> info.PyDict? && "is_success" in info.entries &&
                        (info.entries["is_success"].PyList? || info.entries["is_success"].PyDict?)
    ensures r.Err? ==> r.error == TypeError
  {
    var field := IsSuccessField(info);
    if !field.PyNone? then IntOf(field)
    else if fn.Some? then Ok(if fn.value(info) then 1 else 0)
    else Ok(0)
  }

  /** The record for done index `i`: `infos[i]` when `infos` is a list
      (IndexError when it is too short), else `infos` itself. */
  function InfoFor(infos: PyObj, i: nat): Result<PyObj>
  {
    if !infos.PyList? then Ok(infos)
    else if i < |infos.items| then Ok(infos.items[i])
    else Err(IndexError)
  }

  /** The success column for done index `i` of a batch, or the exception
      raised while computing it. */
  function SuccessAt(fn: SuccessFn, infos: PyObj, i: nat): Result<int>
  {
    match InfoFor(infos, i)
    case Err(e) => Err(e)
    case Ok(info) => SuccessOf(fn, info)
  }

  /** The rows one step appends and the exception that ended it, if any.
      Rows written before an exception stay in the file. */
  datatype Emission = Emission(rows: seq<Row>, failure: Option<PyError>)

  /** The effect of the loop over `enumerate(dones)` after its first `n`
      iterations, the episode counter having been `ep` when the step began. */
  function EmitPrefix(fn: SuccessFn, infos: PyObj, dones: seq<PyObj>, n: nat, ts: int, ep: int): Emission
    requires n <= |dones|
    decreases n
  {
    if n == 0 then Emission([], None)
    else
      var prev := EmitPrefix(fn, infos, dones, n - 1, ts, ep);
      if prev.failure.Some? || !Truthy(dones[n - 1]) then prev
      else match SuccessAt(fn, infos, n - 1)
        case Err(e) => Emission(prev.rows, Some(e))
        case Ok(s) => Emission(prev.rows + [Record(ts, ep + |prev.rows|, s)], None)
  }

  /** An exception ends the loop: the later entries of `dones` write
      nothing and the exception is the one the step reports. */
  lemma {:induction false} FailureIsFinal(fn: SuccessFn, infos: PyObj, dones: seq<PyObj>, n: nat, m: nat, ts: int, ep: int)
    requires n <= m <= |dones|
    requires EmitPrefix(fn, infos, dones, n, ts, ep).failure.Some?
    ensures EmitPrefix(fn, infos, dones, m, ts, ep) == EmitPrefix(fn, infos, dones, n, ts, ep)
    decreases m
  {
    if m > n {
      FailureIsFinal(fn, infos, dones, n, m - 1, ts, ep);
    }
  }

  /** The body of the step once `infos` and `dones` are both present: a
      list of dones is walked index by index; any other `dones` is one flag
      whose record is `infos` itself. */
  function Emitted(fn: SuccessFn, infos: PyObj, dones: PyObj, ts: int, ep: int): Emission
  {
    if dones.PyList? then EmitPrefix(fn, infos, dones.items, |dones.items|, ts, ep)
    else if !Truthy(dones) then Emission([], None)
    else match SuccessOf(fn, infos)
      case Err(e) => Emission([], Some(e))
      case Ok(s) => Emission([Record(ts, ep, s)], None)
  }

  /** The whole step: nothing is written when `infos` or `dones` is missing
      from the trainer's locals (or None); otherwise every row carries the
      step's `num_timesteps` and consecutive episode numbers from `ep`. */
  function StepEmission(fn: SuccessFn, locals: map<string, PyObj>, ts: int, ep: int): (e: Emission)
    ensures Get(locals, "infos").PyNone? || Get(locals, "dones").PyNone? ==> e == Emission([], None)
    ensures forall k :: 0 <= k < |e.rows| ==> e.rows[k].Record? && e.rows[k].timesteps == ts && e.rows[k].episode == ep + k
  {
    var infos := Get(locals, "infos");
    var dones := Get(locals, "dones");
    if infos.PyNone? || dones.PyNone? then Emission([], None)
    else
      EmittedNumbersRows(fn, infos, dones, ts, ep);
      Emitted(fn, infos, dones, ts, ep)
  }

  /** Reference description of which entries of `dones[..n]` finish an
      episode: their indices, in increasing order. */
  function TruthyIndices(dones: seq<PyObj>, n: nat): seq<nat>
    requires n <= |dones|
  {
    if n == 0 then []
    else TruthyIndices(dones, n - 1) + (if Truthy(dones[n - 1]) then [n - 1] else [])
  }

  /** `TruthyIndices` lists exactly the true entries of `dones[..n]`, each
      once, in increasing order. */
  lemma {:induction false} TruthyIndicesExact(dones: seq<PyObj>, n: nat)
    requires n <= |dones|
    ensures var ix := TruthyIndices(dones, n);
      (forall k :: 0 <= k < |ix| ==> ix[k] < n && Truthy(dones[ix[k]])) &&
      (forall k, l :: 0 <= k < l < |ix| ==> ix[k] < ix[l]) &&
      (forall j :: 0 <= j < n && Truthy(dones[j]) ==> j in ix)
  {
    if n > 0 {
      TruthyIndicesExact(dones, n - 1);
    }
  }

  /** The loop writes one row per true entry of `dones`, in index order:
      row `k` belongs to the `k`-th true entry, carries episode `ep + k` and
      that entry's success value.  It stops at the first true entry whose
      success cannot be computed, having written the rows before it; with no
      such entry it writes one row for every true entry. */
  lemma {:induction false} EmitPrefixFollowsIndices(fn: SuccessFn, infos: PyObj, dones: seq<PyObj>, n: nat, ts: int, ep: int)
    requires n <= |dones|
    ensures var e := EmitPrefix(fn, infos, dones, n, ts, ep);
      var ix := TruthyIndices(dones, n);
      |e.rows| <= |ix| &&
      (e.failure.None? <==> |e.rows| == |ix|) &&
      (forall k :: 0 <= k < |e.rows| ==>
         SuccessAt(fn, infos, ix[k]).Ok? && e.rows[k] == Record(ts, ep + k, SuccessAt(fn, infos, ix[k]).value)) &&
      (e.failure.Some? ==> SuccessAt(fn, infos, ix[|e.rows|]) == Err(e.failure.value))
  {
    if n > 0 {
      EmitPrefixFollowsIndices(fn, infos, dones, n - 1, ts, ep);
      var prev := EmitPrefix(fn, infos, dones, n - 1, ts, ep);
      var ixPrev := TruthyIndices(dones, n - 1);
      var ix := TruthyIndices(dones, n);
      assert forall k :: 0 <= k < |ixPrev| ==> ix[k] == ixPrev[k];
    }
  }

  /** A step with a list of dones fails exactly when some true entry's
      success cannot be computed; otherwise it writes one row per true entry. */
  lemma ListStepFailsIffSomeEntryFails(fn: SuccessFn, infos: PyObj, dones: seq<PyObj>, ts: int, ep: int)
    ensures var e := Emitted(fn, infos, PyList(dones), ts, ep);
      var ix := TruthyIndices(dones, |dones|);
      (e.failure.Some? <==> exists k :: 0 <= k < |ix| && SuccessAt(fn, infos, ix[k]).Err?) &&
      (e.failure.None? ==> |e.rows| == |ix|)
  {
    var e := Emitted(fn, infos, PyList(dones), ts, ep);
    var ix := TruthyIndices(dones, |dones|);
    EmitPrefixFollowsIndices(fn, infos, dones, |dones|, ts, ep);
    if e.failure.Some? {
      assert SuccessAt(fn, infos, ix[|e.rows|]).Err?;
    }
  }

  /** Every row a step writes carries the step's timestep count and the
      episode numbers `ep`, `ep + 1`, ... in order. */
  lemma EmittedNumbersRows(fn: SuccessFn, infos: PyObj, dones: PyObj, ts: int, ep: int)
    ensures var e := Emitted(fn, infos, dones, ts, ep);
      forall k :: 0 <= k < |e.rows| ==> e.rows[k].Record? && e.rows[k].timesteps == ts && e.rows[k].episode == ep + k
  {
    if dones.PyList? {
      EmitPrefixFollowsIndices(fn, infos, dones.items, |dones.items|, ts, ep);
    }
  }

  /** A single `dones` flag behaves as a batch of one whose only record is
      `infos` itself: a false flag writes nothing, a true one writes at most
      one row. */
  lemma ScalarIsSingletonBatch(fn: SuccessFn, infos: PyObj, dones: PyObj, ts: int, ep: int)
    requires !dones.PyList?
    ensures Emitted(fn, infos, dones, ts, ep) == Emitted(fn, PyList([infos]), PyList([dones]), ts, ep)
    ensures !Truthy(dones) ==> Emitted(fn, infos, dones, ts, ep) == Emission([], None)
    ensures Truthy(dones) && SuccessOf(fn, infos).Ok? ==>
              Emitted(fn, infos, dones, ts, ep) == Emission([Record(ts, ep, SuccessOf(fn, infos).value)], None)
  {
    assert EmitPrefix(fn, PyList([infos]), [dones], 0, ts, ep) == Emission([], None);
  }

  /** Every record a batch can hand to the success rule has an `is_success`
      that is absent, None or a bool. */
  ghost predicate BoolFlagsOnly(infos: PyObj)
  {
    (!infos.PyList? ==> IsSuccessField(infos).PyNone? || IsSuccessField(infos).PyBool?) &&
    (infos.PyList? ==> forall k :: 0 <= k < |infos.items| ==>
       IsSuccessField(infos.items[k]).PyNone? || IsSuccessField(infos.items[k]).PyBool?)
  }

  /** When no record's `is_success` is an int or a container, the step
      cannot raise TypeError and every success value it writes is 0 or 1.
      (An int `is_success` is written as it is, so 2 gives a row with 2.) */
  lemma BinaryWhenFlagsAreBools(fn: SuccessFn, infos: PyObj, dones: PyObj, ts: int, ep: int)
    requires BoolFlagsOnly(infos)
    ensures var e := Emitted(fn, infos, dones, ts, ep);
      (e.failure.Some? ==> e.failure.value == IndexError) &&
      forall k :: 0 <= k < |e.rows| ==> e.rows[k].Record? && (e.rows[k].success == 0 || e.rows[k].success == 1)
  {
    if dones.PyList? {
      var e := Emitted(fn, infos, dones, ts, ep);
      var ix := TruthyIndices(dones.items, |dones.items|);
      EmitPrefixFollowsIndices(fn, infos, dones.items, |dones.items|, ts, ep);
      forall k | 0 <= k < |e.rows|
        ensures e.rows[k].Record? && (e.rows[k].success == 0 || e.rows[k].success == 1)
      {
        SuccessAtIsBinary(fn, infos, ix[k]);
      }
      if e.failure.Some? {
        SuccessAtIsBinary(fn, infos, ix[|e.rows|]);
      }
    }
  }

  /** Under `BoolFlagsOnly`, the success for one index is 0 or 1, or the
      IndexError of a short `infos` list. */
  lemma SuccessAtIsBinary(fn: SuccessFn, infos: PyObj, i: nat)
    requires BoolFlagsOnly(infos)
    ensures SuccessAt(fn, infos, i).Ok? ==> SuccessAt(fn, infos, i).value == 0 || SuccessAt(fn, infos, i).value == 1
    ensures SuccessAt(fn, infos, i).Err? ==> SuccessAt(fn, infos, i).error == IndexError
  {
  }
}

/**
 * The jobs manager's bookkeeping: one queue per job group created on first use, the jobs
 * queued so far by id, the options each job is added to its queue with, the checks on the
 * arguments of queueJob and processJobGroup, and the record of a job's last result. The
 * queues themselves (their scheduling, retries and events) and Redis are outside the model:
 * a queue here only records what it was asked to do.
 */
module Jobs {
  import opened JsValues
  import opened Wrappers

  // ---------------------------------------------------------------------------------------
  // Values
  // ---------------------------------------------------------------------------------------

  /** `_isObject`: null is not an object; anything else is one when `typeof` says 'object'. */
  function IsObject(v: JsValue): (r: bool)
    ensures r <==> v.JsObject? || v.JsArray?
    ensures v == JsNull ==> !r
  {
    if v == JsNull then false else TypeOf(v) == "object"
  }

  /** An array is already an object, so the `Array.isArray` test beside `_isObject` adds nothing. */
  lemma ArrayTestRedundant(v: JsValue)
    ensures IsObject(v) || v.JsArray? <==> IsObject(v)
  {
  }

  /** The value `_objectToKeyValueArray` pushes for a property: JSON text for an object or array, the value itself otherwise. */
  function Flat(v: JsValue, stringify: JsValue -> string): (r: JsValue)
    ensures v.JsObject? || v.JsArray? ==> r == JsString(stringify(v))
    ensures !(v.JsObject? || v.JsArray?) ==> r == v
  {
    if IsObject(v) || v.JsArray? then JsString(stringify(v)) else v
  }

  /** The key and flattened value of each of `keys`, one pair after the other. */
  function KeyValues(props: seq<(string, JsValue)>, keys: seq<string>, stringify: JsValue -> string): seq<JsValue>
    decreases |keys|
  {
    if keys == [] then []
    else
      var k := keys[|keys| - 1];
      KeyValues(props, keys[..|keys| - 1], stringify) + [JsString(k), Flat(Lookup(props, k), stringify)]
  }

  /** The pairs are twice as many as the keys: each key at an even position, its value right after it. */
  lemma {:induction false} KeyValuesShape(props: seq<(string, JsValue)>, keys: seq<string>, stringify: JsValue -> string)
    ensures var pairs := KeyValues(props, keys, stringify);
      && |pairs| == 2 * |keys|
      && forall i :: 0 <= i < |keys| ==>
           pairs[2 * i] == JsString(keys[i]) && pairs[2 * i + 1] == Flat(Lookup(props, keys[i]), stringify)
    decreases |keys|
  {
    if keys != [] {
      var n := |keys|;
      var init := keys[..n - 1];
      KeyValuesShape(props, init, stringify);
      var pairs := KeyValues(props, keys, stringify);
      var before := KeyValues(props, init, stringify);
      forall i | 0 <= i < n
        ensures pairs[2 * i] == JsString(keys[i]) && pairs[2 * i + 1] == Flat(Lookup(props, keys[i]), stringify)
      {
        if i < n - 1 {
          assert init[i] == keys[i];
          assert pairs[2 * i] == before[2 * i] && pairs[2 * i + 1] == before[2 * i + 1];
        }
      }
    }
  }

  /** `_objectToKeyValueArray` of an object: its own keys in enumeration order, each followed by its value. */
  function KeyValueArray(props: seq<(string, JsValue)>, stringify: JsValue -> string): seq<JsValue> {
    KeyValues(props, OwnKeys(props), stringify)
  }

  /**
   * What `hmset` receives: as many pairs as the object has own properties, every property
   * name once, each followed by its value (JSON text for an object or array).
   */
  lemma KeyValueArrayPairs(props: seq<(string, JsValue)>, stringify: JsValue -> string)
    ensures var pairs := KeyValueArray(props, stringify);
      var keys := OwnKeys(props);
      && |keys| == |props|
      && |pairs| == 2 * |keys|
      && multiset(keys) == multiset(seq(|props|, i requires 0 <= i < |props| => props[i].0))
      && forall i :: 0 <= i < |keys| ==>
           pairs[2 * i] == JsString(keys[i]) && pairs[2 * i + 1] == Flat(Lookup(props, keys[i]), stringify)
  {
    var names := seq(|props|, i requires 0 <= i < |props| => props[i].0);
    OwnKeyOrderIsPermutation(names);
    assert |OwnKeys(props)| == |names| by {
      assert |multiset(OwnKeys(props))| == |multiset(names)|;
    }
    KeyValuesShape(props, OwnKeys(props), stringify);
  }

  /** `_objectToKeyValueArray`: the for…in loop over the object's own keys, pushing each key and its value. */
  method ObjectToKeyValueArray(props: seq<(string, JsValue)>, stringify: JsValue -> string) returns (pairs: seq<JsValue>)
    ensures pairs == KeyValueArray(props, stringify)
  {
    pairs := [];
    var keys := OwnKeys(props);
    for i := 0 to |keys|
      invariant pairs == KeyValues(props, keys[..i], stringify)
    {
      ghost var before := pairs;
      var key := keys[i];
      var value := Lookup(props, key);
      pairs := pairs + [JsString(key)];
      ghost var pushed := pairs;
      if IsObject(value) || value.JsArray? {
        pairs := pairs + [JsString(stringify(value))];
      } else {
        pairs := pairs + [value];
      }
      KeyValuesStep(props, keys, i, stringify);
      PushTwo(before, JsString(key), Flat(value, stringify), pushed, pairs);
    }
    assert keys[..|keys|] == keys;
  }

  /** One more key adds its pair after the pairs of the keys before it. */
  lemma KeyValuesStep(props: seq<(string, JsValue)>, keys: seq<string>, i: nat, stringify: JsValue -> string)
    requires i < |keys|
    ensures KeyValues(props, keys[..i + 1], stringify)
         == KeyValues(props, keys[..i], stringify) + [JsString(keys[i]), Flat(Lookup(props, keys[i]), stringify)]
  {
    var p := keys[..i + 1];
    assert p[..|p| - 1] == keys[..i];
    assert p[|p| - 1] == keys[i];
  }

  /** Two pushes, one after the other, append the pair. */
  lemma PushTwo(before: seq<JsValue>, a: JsValue, b: JsValue, middle: seq<JsValue>, after: seq<JsValue>)
    requires middle == before + [a] && after == middle + [b]
    ensures after == before + [a, b]
  {
  }

  // ---------------------------------------------------------------------------------------
  // A job's last result
  // ---------------------------------------------------------------------------------------

  /** `obj[key] = v`: an existing property keeps its place and takes the value, a new one goes last. */
  function SetProp(props: seq<(string, JsValue)>, key: string, v: JsValue): (r: seq<(string, JsValue)>)
    ensures Lookup(r, key) == v
    ensures forall k :: k != key ==> Lookup(r, k) == Lookup(props, k)
    decreases |props|
  {
    if props == [] then [(key, v)]
    else if props[0].0 == key then [(key, v)] + props[1..]
    else [props[0]] + SetProp(props[1..], key, v)
  }

  /** An object literal always has the property it was just given. */
  lemma {:induction false} SetPropHasKey(props: seq<(string, JsValue)>, key: string, v: JsValue)
    ensures exists i :: 0 <= i < |SetProp(props, key, v)| && SetProp(props, key, v)[i].0 == key
    decreases |props|
  {
    var r := SetProp(props, key, v);
    if props == [] || props[0].0 == key {
      assert r[0].0 == key;
    } else {
      SetPropHasKey(props[1..], key, v);
      var i :| 0 <= i < |SetProp(props[1..], key, v)| && SetProp(props[1..], key, v)[i].0 == key;
      assert r[i + 1].0 == key;
    }
  }

  /**
   * What `hgetall` hands back for a record `_setJobResult` wrote with `hmset`: every field in
   * order, as the text Redis keeps for its flattened value. `text` is the Redis client's
   * conversion of an argument to text.
   */
  function StoredHash(record: seq<(string, JsValue)>, stringify: JsValue -> string, text: JsValue -> string): (r: seq<(string, JsValue)>)
    ensures |r| == |record|
    ensures forall i :: 0 <= i < |r| ==> r[i] == (record[i].0, JsString(text(Flat(record[i].1, stringify))))
    decreases |record|
  {
    if record == [] then []
    else [(record[0].0, JsString(text(Flat(record[0].1, stringify))))] + StoredHash(record[1..], stringify, text)
  }

  /** A field the record has reads back as the text of its flattened value. */
  lemma {:induction false} StoredLookup(record: seq<(string, JsValue)>, k: string, stringify: JsValue -> string, text: JsValue -> string)
    requires exists i :: 0 <= i < |record| && record[i].0 == k
    ensures Lookup(StoredHash(record, stringify, text), k) == JsString(text(Flat(Lookup(record, k), stringify)))
    decreases |record|
  {
    if record[0].0 != k {
      var i :| 0 <= i < |record| && record[i].0 == k;
      assert record[1..][i - 1].0 == k;
      StoredLookup(record[1..], k, stringify, text);
    }
  }

  /**
   * What the process callback hands to `onProcessJob` (`_getJobResult`): null when nothing is
   * stored; otherwise the stored `lastResult` text, JSON-parsed when it is not empty and null
   * when it is. `parse` is JSON.parse, None where it throws; None here is the callback failing.
   */
  function LastResult(stored: Option<seq<(string, JsValue)>>, parse: string -> Option<JsValue>): (r: Option<JsValue>)
    ensures stored.None? ==> r == Some(JsNull)
    ensures stored.Some? && !Truthy(Lookup(stored.value, "lastResult")) ==> r == Some(JsNull)
    ensures stored.Some? && Lookup(stored.value, "lastResult") == JsString("") ==> r == Some(JsNull)
  {
    if stored.None? then Some(JsNull)
    else
      var t := Lookup(stored.value, "lastResult");
      if Truthy(t) then parse(Str(t)) else Some(JsNull)
  }

  /** The record the process callback stores once `onProcessJob` returned `result`: the stored one (or {}) with `lastResult` replaced. */
  function Recorded(stored: Option<seq<(string, JsValue)>>, result: JsValue): (r: seq<(string, JsValue)>)
    ensures Lookup(r, "lastResult") == result
    ensures forall k :: k != "lastResult" ==> Lookup(r, k) == (if stored.Some? then Lookup(stored.value, k) else JsUndefined)
  {
    SetProp(if stored.Some? then stored.value else [], "lastResult", result)
  }

  /**
   * The next run of the same job is handed the result of this one when that result is an
   * object or an array whose JSON text parses back to it, and the record's other fields stay.
   */
  lemma NextRunSeesResult(stored: Option<seq<(string, JsValue)>>, result: JsValue, k: string,
                          stringify: JsValue -> string, text: JsValue -> string, parse: string -> Option<JsValue>)
    requires IsObject(result)
    requires stringify(result) != "" && text(JsString(stringify(result))) == stringify(result)
    requires parse(stringify(result)) == Some(result)
    requires k != "lastResult"
    ensures LastResult(Some(StoredHash(Recorded(stored, result), stringify, text)), parse) == Some(result)
    ensures stored.Some? ==> Lookup(Recorded(stored, result), k) == Lookup(stored.value, k)
  {
    var record := Recorded(stored, result);
    var json := stringify(result);
    SetPropHasKey(if stored.Some? then stored.value else [], "lastResult", result);
    StoredLookup(record, "lastResult", stringify, text);
    assert Flat(result, stringify) == JsString(json);
    assert Lookup(StoredHash(record, stringify, text), "lastResult") == JsString(json);
    assert Str(JsString(json)) == json;
  }

  /**
   * Any other result (a string, number, boolean, null or undefined) is stored as its text and
   * JSON-parsed on the next run: an empty text is handed on as null, and a text that is not JSON
   * (such as the string "done") makes the next run fail.
   */
  lemma PrimitiveResultReparsed(stored: Option<seq<(string, JsValue)>>, result: JsValue,
                                stringify: JsValue -> string, text: JsValue -> string, parse: string -> Option<JsValue>)
    requires !IsObject(result)
    ensures var t := text(result);
      LastResult(Some(StoredHash(Recorded(stored, result), stringify, text)), parse)
        == if t == "" then Some(JsNull) else parse(t)
  {
    var record := Recorded(stored, result);
    SetPropHasKey(if stored.Some? then stored.value else [], "lastResult", result);
    StoredLookup(record, "lastResult", stringify, text);
  }

  // ---------------------------------------------------------------------------------------
  // Arguments
  // ---------------------------------------------------------------------------------------

  /** A job: its `id`, `group` and `payload` properties (JsUndefined when missing). */
  datatype Job = Job(id: JsValue, group: JsValue, payload: JsValue)

  /** The properties of queueJob's `options` that it reads. */
  datatype JobOptions = JobOptions(delay: JsValue, timeout: JsValue, attempts: JsValue, backoff: JsValue)

  /** The options a job is added to its queue with. */
  datatype AddOptions = AddOptions(
    jobId: JsValue,
    delay: JsValue,
    removeOnComplete: bool,
    timeout: JsValue,
    attempts: JsValue,
    backoff: JsValue)

  const DefaultAttempts: JsValue := JsNumber(10)
  const ExponentialBackoff: JsValue := JsObject([("type", JsString("exponential")), ("delay", JsNumber(2000))])

  /**
   * queueJob's options for `queue.add`: keyed by the job's id and removed once complete; the
   * caller's delay and timeout; 10 attempts and an exponential backoff from 2000 ms unless
   * the caller gives (truthy) ones.
   */
  function AddOptionsFor(job: Job, options: Option<JobOptions>): (r: AddOptions)
    ensures r.jobId == job.id && r.removeOnComplete
    ensures r.delay == (if options.Some? then options.value.delay else JsUndefined)
    ensures r.timeout == (if options.Some? then options.value.timeout else JsUndefined)
    ensures Truthy(r.attempts) && Truthy(r.backoff)
    ensures options.Some? && Truthy(options.value.attempts) ==> r.attempts == options.value.attempts
    ensures !(options.Some? && Truthy(options.value.attempts)) ==> r.attempts == DefaultAttempts
    ensures options.Some? && Truthy(options.value.backoff) ==> r.backoff == options.value.backoff
    ensures !(options.Some? && Truthy(options.value.backoff)) ==> r.backoff == ExponentialBackoff
  {
    AddOptions(
      job.id,
      if options.Some? then options.value.delay else JsUndefined,
      true,
      if options.Some? then options.value.timeout else JsUndefined,
      if options.Some? && Truthy(options.value.attempts) then options.value.attempts else DefaultAttempts,
      if options.Some? && Truthy(options.value.backoff) then options.value.backoff else ExponentialBackoff)
  }

  /** The error queueJob throws (`job` None is a falsy job): the first missing one of job, id, group and payload. */
  function QueueJobError(job: Option<Job>): (error: Option<string>)
    ensures error.None? <==> job.Some? && Truthy(job.value.id) && Truthy(job.value.group) && Truthy(job.value.payload)
    ensures job.None? ==> error == Some("job is required")
    ensures job.Some? && !Truthy(job.value.id) ==> error == Some("id is required")
    ensures job.Some? && Truthy(job.value.id) && !Truthy(job.value.group) ==> error == Some("group is required")
    ensures job.Some? && Truthy(job.value.id) && Truthy(job.value.group) && !Truthy(job.value.payload)
            ==> error == Some("payload is required")
  {
    if job.None? then Some("job is required")
    else if !Truthy(job.value.id) then Some("id is required")
    else if !Truthy(job.value.group) then Some("group is required")
    else if !Truthy(job.value.payload) then Some("payload is required")
    else None
  }

  /** The error processJobGroup throws: the first of a falsy owner, a falsy group, a callback that is not a function. */
  function ProcessJobGroupError(owner: JsValue, jobGroup: JsValue, onProcessJob: JsValue, onCompletedJob: JsValue)
    : (error: Option<string>)
    ensures error.None? <==> Truthy(owner) && Truthy(jobGroup) && onProcessJob.JsFunction? && onCompletedJob.JsFunction?
    ensures !Truthy(owner) ==> error == Some("owner is required")
    ensures Truthy(owner) && !Truthy(jobGroup) ==> error == Some("jobGroup is required")
    ensures Truthy(owner) && Truthy(jobGroup) && !onProcessJob.JsFunction?
            ==> error == Some("onProcessJob is missing or is not a function")
    ensures Truthy(owner) && Truthy(jobGroup) && onProcessJob.JsFunction? && !onCompletedJob.JsFunction?
            ==> error == Some("onCompletedJob is missing or is not a function")
  {
    if !Truthy(owner) then Some("owner is required")
    else if !Truthy(jobGroup) then Some("jobGroup is required")
    else if !Truthy(onProcessJob) || !onProcessJob.JsFunction? then Some("onProcessJob is missing or is not a function")
    else if !Truthy(onCompletedJob) || !onCompletedJob.JsFunction? then Some("onCompletedJob is missing or is not a function")
    else None
  }

  /** The concurrency a group is processed with: the call's own `options.concurrency` when truthy, else the manager's. */
  function EffectiveConcurrency(options: JsValue, managerConcurrency: JsValue): (c: JsValue)
    ensures Truthy(Get(options, "concurrency")) ==> c == Get(options, "concurrency")
    ensures !Truthy(Get(options, "concurrency")) ==> c == managerConcurrency
  {
    if Truthy(options) && Truthy(Get(options, "concurrency")) then Get(options, "concurrency") else managerConcurrency
  }

  /** The constructor's `_.defaults`: `concurrency` is 20 unless the options give one. */
  function ConcurrencyOption(given: JsValue): (c: JsValue)
    ensures given != JsUndefined ==> c == given
    ensures given == JsUndefined ==> c == JsNumber(20)
  {
    if given == JsUndefined then JsNumber(20) else given
  }

  /** Without options anywhere, a group is processed 20 jobs at a time. */
  lemma DefaultConcurrency(options: JsValue)
    requires !options.JsObject?
    ensures EffectiveConcurrency(options, ConcurrencyOption(JsUndefined)) == JsNumber(20)
  {
  }

  // ---------------------------------------------------------------------------------------
  // Queues and the manager
  // ---------------------------------------------------------------------------------------

  /** A job group's queue, as far as the manager uses it: what was added to it and the process registrations. */
  class Queue {
    const name: JsValue
    /** The payload and options of each `add`, oldest first. */
    var added: seq<(JsValue, AddOptions)>
    /** The concurrency of each `process` registration. */
    var processes: seq<JsValue>

    constructor(name: JsValue)
      ensures this.name == name && added == [] && processes == []
    {
      this.name := name;
      added := [];
      processes := [];
    }

    method Add(payload: JsValue, options: AddOptions)
      modifies this
      ensures added == old(added) + [(payload, options)] && processes == old(processes)
    {
      added := added + [(payload, options)];
    }

    method Process(concurrency: JsValue)
      modifies this
      ensures processes == old(processes) + [concurrency] && added == old(added)
    {
      processes := processes + [concurrency];
    }
  }

  class JobsManager {
    /** `options.concurrency`, after the defaults. */
    var concurrency: JsValue
    /** `_jobGroupsQueue`: the queue of each group, by the group's text. */
    var jobGroupsQueue: map<string, Queue>
    /** `_jobs`: every job queued, by the text of its id; a later job with the same id replaces the earlier. */
    var jobs: map<string, Job>

    /** No two groups share a queue. */
    predicate Valid()
      reads this
    {
      forall k1, k2 :: k1 in jobGroupsQueue && k2 in jobGroupsQueue && k1 != k2 ==> jobGroupsQueue[k1] != jobGroupsQueue[k2]
    }

    constructor(concurrency: JsValue)
      ensures Valid()
      ensures this.concurrency == ConcurrencyOption(concurrency) && jobGroupsQueue == map[] && jobs == map[]
    {
      this.concurrency := ConcurrencyOption(concurrency);
      jobGroupsQueue := map[];
      jobs := map[];
    }

    /** `_getJobGroupsQueue`: the group's queue, created on the first request for the group. */
    method GetJobGroupsQueue(jobGroup: JsValue) returns (queue: Queue)
      requires Valid()
      modifies this
      ensures Valid()
      ensures Str(jobGroup) in old(jobGroupsQueue) ==>
        queue == old(jobGroupsQueue)[Str(jobGroup)] && jobGroupsQueue == old(jobGroupsQueue)
      ensures Str(jobGroup) !in old(jobGroupsQueue) ==>
        && fresh(queue) && queue.name == jobGroup && queue.added == [] && queue.processes == []
        && jobGroupsQueue == old(jobGroupsQueue)[Str(jobGroup) := queue]
      ensures jobs == old(jobs) && concurrency == old(concurrency)
    {
      var key := Str(jobGroup);
      if key in jobGroupsQueue {
        queue := jobGroupsQueue[key];
      } else {
        queue := new Queue(jobGroup);
        jobGroupsQueue := jobGroupsQueue[key := queue];
      }
    }

    /**
     * `queueJob`: after the argument checks, records the job under its id and adds its
     * payload to its group's queue with the options of AddOptionsFor. Other queues are untouched.
     */
    method QueueJob(job: Option<Job>, options: Option<JobOptions>) returns (error: Option<string>)
      requires Valid()
      modifies this, jobGroupsQueue.Values
      ensures Valid()
      ensures error == QueueJobError(job)
      ensures concurrency == old(concurrency)
      ensures error.Some? ==> jobs == old(jobs) && jobGroupsQueue == old(jobGroupsQueue)
      ensures old(jobGroupsQueue).Keys <= jobGroupsQueue.Keys
      ensures forall k :: k in old(jobGroupsQueue) ==> jobGroupsQueue[k] == old(jobGroupsQueue[k])
      ensures forall k :: k in jobGroupsQueue && k !in old(jobGroupsQueue) ==> fresh(jobGroupsQueue[k])
      ensures forall k :: k in old(jobGroupsQueue) && (error.Some? || k != Str(job.value.group)) ==>
        jobGroupsQueue[k].added == old(jobGroupsQueue[k].added)
      ensures forall k :: k in old(jobGroupsQueue) ==> jobGroupsQueue[k].processes == old(jobGroupsQueue[k].processes)
      ensures error.None? ==>
        var key := Str(job.value.group);
        && jobs == old(jobs)[Str(job.value.id) := job.value]
        && jobGroupsQueue.Keys == old(jobGroupsQueue).Keys + {key}
        && jobGroupsQueue[key].added
             == (if key in old(jobGroupsQueue) then old(jobGroupsQueue[key].added) else [])
                + [(job.value.payload, AddOptionsFor(job.value, options))]
    {
      error := QueueJobError(job);
      if error.None? {
        var queue := GetJobGroupsQueue(job.value.group);
        jobs := jobs[Str(job.value.id) := job.value];
        queue.Add(job.value.payload, AddOptionsFor(job.value, options));
      }
    }

    /**
     * `processJobGroup`: after the argument checks, registers the group's queue for
     * processing with the call's concurrency, or the manager's when the call gives none.
     */
    method ProcessJobGroup(owner: JsValue, jobGroup: JsValue, options: JsValue, onProcessJob: JsValue,
                           onCompletedJob: JsValue) returns (error: Option<string>)
      requires Valid()
      modifies this, jobGroupsQueue.Values
      ensures Valid()
      ensures error == ProcessJobGroupError(owner, jobGroup, onProcessJob, onCompletedJob)
      ensures concurrency == old(concurrency) && jobs == old(jobs)
      ensures error.Some? ==> jobGroupsQueue == old(jobGroupsQueue)
      ensures old(jobGroupsQueue).Keys <= jobGroupsQueue.Keys
      ensures forall k :: k in old(jobGroupsQueue) ==> jobGroupsQueue[k] == old(jobGroupsQueue[k])
      ensures forall k :: k in jobGroupsQueue && k !in old(jobGroupsQueue) ==> fresh(jobGroupsQueue[k])
      ensures forall k :: k in old(jobGroupsQueue) ==> jobGroupsQueue[k].added == old(jobGroupsQueue[k].added)
      ensures forall k :: k in old(jobGroupsQueue) && (error.Some? || k != Str(jobGroup)) ==>
        jobGroupsQueue[k].processes == old(jobGroupsQueue[k].processes)
      ensures error.None? ==>
        var key := Str(jobGroup);
        && jobGroupsQueue.Keys == old(jobGroupsQueue).Keys + {key}
        && jobGroupsQueue[key].processes
             == (if key in old(jobGroupsQueue) then old(jobGroupsQueue[key].processes) else [])
                + [EffectiveConcurrency(options, concurrency)]
    {
      error := ProcessJobGroupError(owner, jobGroup, onProcessJob, onCompletedJob);
      if error.None? {
        var queue := GetJobGroupsQueue(jobGroup);
        queue.Process(EffectiveConcurrency(options, concurrency));
      }
    }
  }
}

/** Concrete runs of the jobs manager. */
module JobsScenarios {
  import opened JsValues
  import opened Wrappers
  import opened Jobs

  /**
   * Two jobs of one group, queued one after the other with no options: one queue is created
   * for the group, it receives both payloads in order, each with 10 attempts and the
   * exponential backoff, and both jobs are recorded under their ids.
   */
  method TwoJobsOneGroup(p1: JsValue, p2: JsValue) returns (groups: set<string>, added: seq<(JsValue, AddOptions)>, ids: set<string>)
    requires Truthy(p1) && Truthy(p2)
    ensures groups == {"g"} && ids == {"a", "b"}
    ensures |added| == 2 && added[0].0 == p1 && added[1].0 == p2
    ensures forall i :: 0 <= i < 2 ==> added[i].1.attempts == DefaultAttempts && added[i].1.backoff == ExponentialBackoff
  {
    var m := new JobsManager(JsUndefined);
    var e1 := m.QueueJob(Some(Job(JsString("a"), JsString("g"), p1)), None);
    var e2 := m.QueueJob(Some(Job(JsString("b"), JsString("g"), p2)), None);
    groups := m.jobGroupsQueue.Keys;
    ids := m.jobs.Keys;
    added := m.jobGroupsQueue["g"].added;
  }

  /** A job without a payload is refused with the payload error and leaves the manager empty. */
  method JobWithoutPayload() returns (error: Option<string>, groups: set<string>, ids: set<string>)
    ensures error == Some("payload is required") && groups == {} && ids == {}
  {
    var m := new JobsManager(JsUndefined);
    error := m.QueueJob(Some(Job(JsString("a"), JsString("g"), JsUndefined)), None);
    groups := m.jobGroupsQueue.Keys;
    ids := m.jobs.Keys;
  }
}

/** The cases of `test_apply_changes`, each list followed by the scheduler's
    own node (status `scheduler-ha`, autoscale off). */
module ApplyChangesScenarios {
  import opened Wrappers
  import opened Cluster
  import opened Errors
  import opened ApplyChanges

  function N(name: string, status: Option<string>): Node
  {
    Node(name, None, None, status, true, None, None, None)
  }

  const Scheduler: Node := Node("scheduler", None, None, Some("scheduler-ha"), false, None, None, None)

  lemma SchedulerOnlyPasses()
    ensures CheckApplyChanges([Scheduler]) == Pass
  {
  }

  /** `Off`, the empty status and no status at all pass. */
  lemma QuietStatusesPass()
    ensures CheckApplyChanges([N("n-1", Some("Off")), Scheduler]) == Pass
    ensures CheckApplyChanges([N("n-1", Some("")), Scheduler]) == Pass
    ensures CheckApplyChanges([N("n-1", None), Scheduler]) == Pass
  {
    assert !Transitional("Off") && !Transitional("");
  }

  /** Each transitional status fails, naming the node. */
  lemma TransitionalStatusesFail()
    ensures CheckApplyChanges([N("n-1", Some("Started")), Scheduler]) == Fail(NodeMidLifecycle("n-1", "Started"))
    ensures CheckApplyChanges([N("n-1", Some("Deallocated")), Scheduler]) == Fail(NodeMidLifecycle("n-1", "Deallocated"))
    ensures CheckApplyChanges([N("n-1", Some("Terminating")), Scheduler]) == Fail(NodeMidLifecycle("n-1", "Terminating"))
  {
  }

  /** `Terminated` passes, so the second node is the one named. */
  lemma TerminatedThenStarted()
    ensures CheckApplyChanges([N("n-1", Some("Terminated")), N("n-2", Some("Started")), Scheduler])
         == Fail(NodeMidLifecycle("n-2", "Started"))
  {
    var nodes := [N("n-1", Some("Terminated")), N("n-2", Some("Started")), Scheduler];
    assert !Transitional("Terminated");
    NamesFirstBlocker(nodes, 1);
  }
}

/** What a reconciler plugin reports about one resource. */
module Actions {
  datatype ActionType = Create | Update | Noop | Skipped

  datatype Action = Action(plugin: string, resource: string, actionType: ActionType, changes: seq<string>,
                           error: string)

  predicate AllNoop(actions: seq<Action>) {
    forall i :: 0 <= i < |actions| ==> actions[i].actionType == Noop
  }

  predicate AnyError(actions: seq<Action>) {
    exists i :: 0 <= i < |actions| && actions[i].error != ""
  }
}

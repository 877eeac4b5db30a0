/**
 * Clients of the task store: concrete sequences of reducer calls, in the orders an
 * interleaving of in-flight thunks can produce, with the state each one ends in.
 */
module Scenarios {

  import opened Wrappers
  import opened TasksSlice
  import opened TaskBoard

  /** A confirmed move of task "1" from todo to done. */
  method ConfirmedMove() {
    var store := new Store();
    var task: Task := map["id" := "1", "status" := "todo"];
    store.FetchPending();
    store.FetchFulfilled([task]);
    var drop := DropResult(Location("todo", 0), Some(Location("done", 0)), "1");
    var move := HandleDragEnd(drop);
    assert move == Some(Move("1", "done"));
    var sent := MovePayload(store.items, "1", "done");
    assert sent == map["id" := "1", "status" := "done"];
    store.MovePending();
    store.MoveFulfilled(sent);
    assert store.items == [map["id" := "1", "status" := "done"]];
    assert store.error == None && !store.loading;
  }

  /** A draft without a status is created in the todo column. */
  method AddWithoutStatus() {
    var store := new Store();
    var sent := AddPayload(map["title" := "X"], "1700000000000", "2023-11-14T22:13:20.000Z");
    assert StatusOf(sent) == Some("todo") && IdOf(sent) == Some("1700000000000");
    store.AddPending();
    assert store.loading;
    store.AddFulfilled(sent);
    assert store.items == [sent] && !store.loading;
    ColumnsPartition(store.items, sent);
    assert sent in Columns(store.items)[0].tasks;
  }

  /** An update the server rejects leaves the items alone and reports the fallback message. */
  method RejectedUpdate(items: seq<Task>) {
    var store := new Store();
    store.FetchFulfilled(items);
    store.UpdatePending();
    store.UpdateRejected(RejectionPayload(None, UpdateFailed));
    assert store.items == items;
    assert store.error == Some("Failed to update task") && !store.loading;
  }

  /**
   * A fetch and an add in flight together: the fetch's completion clears
   * `loading` although the add is still outstanding.
   */
  method OverlappingFetchAndAdd(listed: seq<Task>, created: Task) {
    var store := new Store();
    store.FetchPending();
    store.AddPending();
    store.FetchFulfilled(listed);
    assert !store.loading;
    store.AddFulfilled(created);
    assert store.items == listed + [created];
  }

  /**
   * Two moves of the same task whose responses arrive in the opposite order:
   * the response applied last wins, though it answers the earlier request.
   */
  method StaleMoveResponseWins() {
    var store := new Store();
    store.FetchFulfilled([map["id" := "1", "status" := "todo"]]);
    var first := MovePayload(store.items, "1", "inProgress");
    var second := MovePayload(store.items, "1", "done");
    assert first == map["id" := "1", "status" := "inProgress"];
    LastResponseWins(store.items, second, first);
    store.MovePending();
    store.MovePending();
    store.MoveFulfilled(second);
    store.MoveFulfilled(first);
    assert store.items == [map["id" := "1", "status" := "inProgress"]];
  }

  /** A second confirmed delete of the same id changes nothing more. */
  method DeleteTwice(items: seq<Task>, id: string) {
    var store := new Store();
    store.FetchFulfilled(items);
    store.DeleteFulfilled(id);
    var once := store.items;
    store.DeleteFulfilled(id);
    DeleteIdempotent(items, id);
    assert store.items == once;
  }

  /**
   * With a duplicated id (an add does not check for one), a fulfilled update
   * overwrites only the first entry with that id.
   */
  method UpdateWithDuplicateIds() {
    var store := new Store();
    var a: Task := map["id" := "1", "title" := "a"];
    var b: Task := map["id" := "1", "title" := "b"];
    store.FetchFulfilled([a]);
    store.AddFulfilled(b);
    store.UpdateFulfilled(b);
    assert store.items == [b, b];
  }
}

/**
 * The task store of the board: the payloads the asynchronous thunks send,
 * the reducer transitions applied when a thunk is pending, fulfilled or
 * rejected, and the selectors over the store's items.
 *
 * A task is a JavaScript object whose fields all hold strings (`id`, `title`,
 * `description`, `priority`, `status`, `createdAt`, and whatever else a form
 * put in the draft). It is modelled as the finite map from field name to
 * value, so that object spread `{...t, k: v}` is map update and a missing
 * field reads as `None` (JavaScript's `undefined`).
 */
module TasksSlice {

  import opened Wrappers
  import opened Seqs

  type Task = map<string, string>

  function Field(t: Task, name: string): Option<string>
  {
    if name in t then Some(t[name]) else None
  }

  /** `t.id`, which is `undefined` when the record has no id. */
  function IdOf(t: Task): Option<string>
  {
    Field(t, "id")
  }

  /** `t.status`, which is `undefined` when the record has no status. */
  function StatusOf(t: Task): Option<string>
  {
    Field(t, "status")
  }

  /** A string field is truthy in JavaScript when it is present and not empty. */
  predicate Truthy(v: Option<string>)
  {
    v.Some? && v.value != ""
  }

  /** At most one task per id (a missing id counts as one value of its own). */
  predicate UniqueIds(items: seq<Task>)
  {
    DistinctKeys(items, IdOf)
  }

  const DefaultStatus: string := "todo"

  // Fallback rejection messages of the five thunks.
  const FetchFailed: string := "Failed to fetch tasks"
  const AddFailed: string := "Failed to add task"
  const UpdateFailed: string := "Failed to update task"
  const DeleteFailed: string := "Failed to delete task"
  const MoveFailed: string := "Failed to move task"

  /**
   * The value a thunk rejects with: the server's response body when it is
   * truthy, and the thunk's fallback message otherwise. With any of the five
   * fallback messages the store's error is never empty after a rejection.
   */
  function RejectionPayload(responseData: Option<string>, fallback: string): (r: string)
    ensures r == fallback || Some(r) == responseData
    ensures Truthy(responseData) ==> Some(r) == responseData
    ensures fallback != "" ==> r != ""
  {
    if Truthy(responseData) then responseData.value else fallback
  }

  /**
   * The record `addTask` sends: every field of the draft, then `id` and
   * `createdAt` overwritten with the generated values, and `status` kept when
   * the draft's status is truthy and set to "todo" otherwise.
   */
  function AddPayload(draft: Task, id: string, createdAt: string): (r: Task)
    ensures r.Keys == draft.Keys + {"id", "createdAt", "status"}
    ensures forall k :: k in draft && k != "id" && k != "createdAt" && k != "status" ==> r[k] == draft[k]
    ensures IdOf(r) == Some(id) && Field(r, "createdAt") == Some(createdAt)
    ensures Truthy(StatusOf(draft)) ==> StatusOf(r) == StatusOf(draft)
    ensures !Truthy(StatusOf(draft)) ==> StatusOf(r) == Some(DefaultStatus)
    ensures Truthy(StatusOf(r))
  {
    var status := if Truthy(StatusOf(draft)) then draft["status"] else DefaultStatus;
    draft + map["id" := id, "createdAt" := createdAt, "status" := status]
  }

  /**
   * `items.findIndex(t => t.id === key)`: the first position whose id is
   * `key`, or -1 when there is none.
   */
  function FindIndex(items: seq<Task>, key: Option<string>): (r: int)
    ensures -1 <= r < |items|
    ensures r == -1 <==> forall i :: 0 <= i < |items| ==> IdOf(items[i]) != key
    ensures 0 <= r ==> IdOf(items[r]) == key
    ensures 0 <= r ==> forall i :: 0 <= i < r ==> IdOf(items[i]) != key
  {
    if items == [] then -1
    else if IdOf(items[0]) == key then 0
    else
      var i := FindIndex(items[1..], key);
      if i == -1 then -1 else i + 1
  }

  /** `items.find(t => t.id === id)`: the first task with that id, if any. */
  function Find(items: seq<Task>, id: string): (r: Option<Task>)
    ensures r.None? <==> forall i :: 0 <= i < |items| ==> IdOf(items[i]) != Some(id)
    ensures r.Some? ==> r.value in items && IdOf(r.value) == Some(id)
    ensures r.Some? ==> r.value == items[FindIndex(items, Some(id))]
  {
    var i := FindIndex(items, Some(id));
    if i == -1 then None else Some(items[i])
  }

  /**
   * The record `moveTask` sends: the current local record for `id` with only
   * `status` replaced. When no local record has that id the spread of
   * `undefined` contributes no field, and only `status` is sent.
   */
  function MovePayload(items: seq<Task>, id: string, newStatus: string): (r: Task)
    ensures StatusOf(r) == Some(newStatus)
    ensures Find(items, id).None? ==> r.Keys == {"status"}
    ensures Find(items, id).Some? ==> r.Keys == Find(items, id).value.Keys + {"status"}
    ensures Find(items, id).Some? ==> IdOf(r) == Some(id)
    ensures Find(items, id).Some? ==>
              forall k :: k in Find(items, id).value && k != "status" ==> r[k] == Find(items, id).value[k]
  {
    var current: Task := match Find(items, id) case Some(t) => t case None => map[];
    current["status" := newStatus]
  }

  /**
   * The items after an update or move is fulfilled: the first entry whose id
   * equals the payload's id is replaced by the payload at the same index;
   * without such an entry nothing changes.
   */
  function ReplaceFirst(items: seq<Task>, payload: Task): (r: seq<Task>)
    ensures |r| == |items|
    ensures forall j :: 0 <= j < |r| ==> IdOf(r[j]) == IdOf(items[j])
    ensures (forall j :: 0 <= j < |items| ==> IdOf(items[j]) != IdOf(payload)) ==> r == items
    ensures FindIndex(items, IdOf(payload)) != -1 ==> r[FindIndex(items, IdOf(payload))] == payload
    ensures forall j :: 0 <= j < |r| && j != FindIndex(items, IdOf(payload)) ==> r[j] == items[j]
    ensures payload in r <==> payload in items || exists j :: 0 <= j < |items| && IdOf(items[j]) == IdOf(payload)
  {
    var index := FindIndex(items, IdOf(payload));
    if index != -1 then items[index := payload] else items
  }

  /** The predicate `task => task.id !== id` of the delete reducer's filter. */
  function NotId(id: string): Task -> bool
  {
    t => IdOf(t) != Some(id)
  }

  /** The predicate `task => task.status === status` of the status selector. */
  function HasStatus(status: string): Task -> bool
  {
    t => StatusOf(t) == Some(status)
  }

  /** The items after a delete of `id` is fulfilled. */
  function Without(items: seq<Task>, id: string): (r: seq<Task>)
    ensures forall t :: t in r <==> t in items && IdOf(t) != Some(id)
  {
    Filter(items, NotId(id))
  }

  /** `selectTasksByStatus`: the tasks whose status is `status`, in item order. */
  function SelectTasksByStatus(items: seq<Task>, status: string): (r: seq<Task>)
    ensures forall t :: t in r <==> t in items && StatusOf(t) == Some(status)
  {
    Filter(items, HasStatus(status))
  }

  /**
   * A delete removes every entry with the id and keeps all others, as often
   * as they occurred and in their original order.
   */
  lemma DeleteKeepsOthersInOrder(items: seq<Task>, id: string, t: Task)
    ensures IsSubsequence(Without(items, id), items)
    ensures multiset(Without(items, id))[t] == if IdOf(t) == Some(id) then 0 else multiset(items)[t]
  {
    FilterIsSubsequence(items, NotId(id));
    FilterCount(items, NotId(id), t);
  }

  /** Deleting the same id twice gives the same items as deleting it once. */
  lemma DeleteIdempotent(items: seq<Task>, id: string)
    ensures Without(Without(items, id), id) == Without(items, id)
  {
    FilterIdempotent(items, NotId(id));
  }

  /** A delete preserves uniqueness of ids. */
  lemma DeletePreservesUniqueIds(items: seq<Task>, id: string)
    requires UniqueIds(items)
    ensures UniqueIds(Without(items, id))
  {
    FilterKeepsDistinctKeys(items, NotId(id), IdOf);
  }

  /**
   * The status selector returns exactly the tasks with that status, each as
   * often as it occurs in the items, in item order.
   */
  lemma SelectByStatusExact(items: seq<Task>, status: string, t: Task)
    ensures IsSubsequence(SelectTasksByStatus(items, status), items)
    ensures multiset(SelectTasksByStatus(items, status))[t]
            == if StatusOf(t) == Some(status) then multiset(items)[t] else 0
  {
    FilterIsSubsequence(items, HasStatus(status));
    FilterCount(items, HasStatus(status), t);
  }

  /** An update or move never changes which ids are present, so it preserves uniqueness. */
  lemma ReplacePreservesUniqueIds(items: seq<Task>, payload: Task)
    requires UniqueIds(items)
    ensures UniqueIds(ReplaceFirst(items, payload))
  {
    // ReplaceFirst keeps the id at every index
  }

  /** An item sequence with the same ids at every position has the same first match. */
  lemma FindIndexSameIds(a: seq<Task>, b: seq<Task>, key: Option<string>)
    requires |a| == |b|
    requires forall j :: 0 <= j < |a| ==> IdOf(a[j]) == IdOf(b[j])
    ensures FindIndex(a, key) == FindIndex(b, key)
  {
  }

  /**
   * Two fulfilled updates for the same id: whichever response is applied last
   * determines the items, whatever the order the requests were issued in.
   */
  lemma LastResponseWins(items: seq<Task>, first: Task, last: Task)
    requires IdOf(first) == IdOf(last)
    ensures ReplaceFirst(ReplaceFirst(items, first), last) == ReplaceFirst(items, last)
  {
    FindIndexSameIds(ReplaceFirst(items, first), items, IdOf(last));
  }

  /** Fulfilled updates for different ids commute. */
  lemma ReplacesOfDifferentIdsCommute(items: seq<Task>, p: Task, q: Task)
    requires IdOf(p) != IdOf(q)
    ensures ReplaceFirst(ReplaceFirst(items, p), q) == ReplaceFirst(ReplaceFirst(items, q), p)
  {
    FindIndexSameIds(ReplaceFirst(items, p), items, IdOf(q));
    FindIndexSameIds(ReplaceFirst(items, q), items, IdOf(p));
  }

  /**
   * Appending keeps ids unique exactly when the appended record's id is new:
   * the add reducer does not check for duplicates.
   */
  lemma AppendUniqueIds(items: seq<Task>, payload: Task)
    ensures UniqueIds(items + [payload])
            <==> UniqueIds(items) && forall j :: 0 <= j < |items| ==> IdOf(items[j]) != IdOf(payload)
  {
    var r := items + [payload];
    if UniqueIds(r) {
      forall j | 0 <= j < |items| ensures IdOf(items[j]) != IdOf(payload) {
        assert r[j] == items[j] && r[|items|] == payload;
      }
      forall i, j | 0 <= i < j < |items| ensures IdOf(items[i]) != IdOf(items[j]) {
        assert r[i] == items[i] && r[j] == items[j];
      }
    }
  }

  /**
   * A move confirmed by a server that echoes the request changes the moved
   * task's status and nothing else: every other field of it, its position and
   * every other entry stay as they were.
   */
  lemma MoveEchoChangesOnlyStatus(items: seq<Task>, id: string, newStatus: string)
    requires Find(items, id).Some?
    ensures var i := FindIndex(items, Some(id));
            var r := ReplaceFirst(items, MovePayload(items, id, newStatus));
            && 0 <= i < |r| == |items|
            && r[i] == items[i]["status" := newStatus]
            && StatusOf(r[i]) == Some(newStatus)
            && (forall j :: 0 <= j < |r| && j != i ==> r[j] == items[j])
            && r[i] in SelectTasksByStatus(r, newStatus)
  {
    // the payload is the first match with its status replaced, and keeps its id
  }

  /**
   * The task store's state: the items, whether a fetch, add, update or
   * delete is outstanding, and the last rejection (`None` for `null`).
   * Each method is one reducer case; an interleaving of in-flight thunks is
   * any order of calls to these methods.
   */
  class Store {
    var items: seq<Task>
    var loading: bool
    var error: Option<string>

    /** The initial state `{items: [], loading: false, error: null}`. */
    constructor ()
      ensures items == [] && !loading && error == None
    {
      items := [];
      loading := false;
      error := None;
    }

    /** `clearError`: only the error changes. */
    method ClearError()
      modifies this
      ensures error == None
      ensures items == old(items) && loading == old(loading)
    {
      error := None;
    }

    method FetchPending()
      modifies this
      ensures loading && error == None
      ensures items == old(items)
    {
      loading := true;
      error := None;
    }

    /** The server's list replaces the items wholesale. */
    method FetchFulfilled(payload: seq<Task>)
      modifies this
      ensures !loading && items == payload
      ensures error == old(error)
    {
      loading := false;
      items := payload;
    }

    method FetchRejected(payload: string)
      modifies this
      ensures !loading && error == Some(payload)
      ensures items == old(items)
    {
      loading := false;
      error := Some(payload);
    }

    method AddPending()
      modifies this
      ensures loading && error == None
      ensures items == old(items)
    {
      loading := true;
      error := None;
    }

    /** The created record goes at the end; every earlier entry is unchanged. */
    method AddFulfilled(payload: Task)
      modifies this
      ensures !loading && error == old(error)
      ensures |items| == |old(items)| + 1
      ensures items[..|old(items)|] == old(items) && items[|old(items)|] == payload
    {
      loading := false;
      items := items + [payload];
    }

    method AddRejected(payload: string)
      modifies this
      ensures !loading && error == Some(payload)
      ensures items == old(items)
    {
      loading := false;
      error := Some(payload);
    }

    method UpdatePending()
      modifies this
      ensures loading && error == None
      ensures items == old(items)
    {
      loading := true;
      error := None;
    }

    /**
     * The first entry with the payload's id is replaced at its index; with no
     * such entry the items are unchanged. Unique ids stay unique.
     */
    method UpdateFulfilled(payload: Task)
      modifies this
      ensures !loading && error == old(error)
      ensures items == ReplaceFirst(old(items), payload)
      ensures UniqueIds(old(items)) ==> UniqueIds(items)
    {
      loading := false;
      var index := FindIndex(items, IdOf(payload));
      if index != -1 {
        items := items[index := payload];
      }
      if UniqueIds(old(items)) {
        ReplacePreservesUniqueIds(old(items), payload);
      }
    }

    method UpdateRejected(payload: string)
      modifies this
      ensures !loading && error == Some(payload)
      ensures items == old(items)
    {
      loading := false;
      error := Some(payload);
    }

    method DeletePending()
      modifies this
      ensures loading && error == None
      ensures items == old(items)
    {
      loading := true;
      error := None;
    }

    /**
     * The payload is the deleted id: every entry with it goes, the others stay
     * in order. Unique ids stay unique.
     */
    method DeleteFulfilled(id: string)
      modifies this
      ensures !loading && error == old(error)
      ensures items == Without(old(items), id)
      ensures UniqueIds(old(items)) ==> UniqueIds(items)
    {
      loading := false;
      items := Without(items, id);
      if UniqueIds(old(items)) {
        DeletePreservesUniqueIds(old(items), id);
      }
    }

    method DeleteRejected(payload: string)
      modifies this
      ensures !loading && error == Some(payload)
      ensures items == old(items)
    {
      loading := false;
      error := Some(payload);
    }

    /** A move clears the error but leaves `loading` alone. */
    method MovePending()
      modifies this
      ensures error == None
      ensures items == old(items) && loading == old(loading)
    {
      error := None;
    }

    /** Same replacement rule as an update, without touching `loading` or `error`. */
    method MoveFulfilled(payload: Task)
      modifies this
      ensures items == ReplaceFirst(old(items), payload)
      ensures loading == old(loading) && error == old(error)
      ensures UniqueIds(old(items)) ==> UniqueIds(items)
    {
      var index := FindIndex(items, IdOf(payload));
      if index != -1 {
        items := items[index := payload];
      }
      if UniqueIds(old(items)) {
        ReplacePreservesUniqueIds(old(items), payload);
      }
    }

    /** Only the error changes: the task keeps its previous status. */
    method MoveRejected(payload: string)
      modifies this
      ensures error == Some(payload)
      ensures items == old(items) && loading == old(loading)
    {
      error := Some(payload);
    }
  }
}

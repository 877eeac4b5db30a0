/**
 * The board's read side and its drag-and-drop rule: the three fixed columns
 * built from the status selector, and the decision taken when a drag ends.
 */
module TaskBoard {

  import opened Wrappers
  import opened Seqs
  import opened TasksSlice

  /** A place in a droppable column: the column's id and the index in it. */
  datatype Location = Location(droppableId: string, index: int)

  /** What the drag-and-drop library reports when a drag ends. */
  datatype DropResult = DropResult(source: Location, destination: Option<Location>, draggableId: string)

  /** The `moveTask` request dispatched for a drop. */
  datatype Move = Move(id: string, newStatus: string)

  datatype Column = Column(id: string, title: string, tasks: seq<Task>, color: string)

  const ColumnIds: seq<string> := ["todo", "inProgress", "done"]

  /**
   * `handleDragEnd`: a drop outside any column and a drop on the same spot do
   * nothing; a drop on another column moves the dragged task to that column's
   * status. Reordering within one column is ignored.
   */
  function HandleDragEnd(result: DropResult): (r: Option<Move>)
    ensures result.destination.None? ==> r.None?
    ensures result.destination.Some? && result.destination.value.droppableId == result.source.droppableId
            ==> r.None?
    ensures result.destination.Some? && result.destination.value.droppableId != result.source.droppableId
            ==> r == Some(Move(result.draggableId, result.destination.value.droppableId))
  {
    match result.destination
    case None => None
    case Some(destination) =>
      if destination.droppableId == result.source.droppableId
         && destination.index == result.source.index then
        None
      else if destination.droppableId != result.source.droppableId then
        Some(Move(result.draggableId, destination.droppableId))
      else
        None
  }

  /**
   * The board's columns: todo, inProgress and done, in that order, each
   * holding exactly the items whose status is that column's id.
   */
  function Columns(items: seq<Task>): (r: seq<Column>)
    ensures |r| == |ColumnIds|
    ensures forall c :: 0 <= c < |r| ==> r[c].id == ColumnIds[c]
    ensures forall c, t :: 0 <= c < |r| ==> (t in r[c].tasks <==> t in items && StatusOf(t) == Some(ColumnIds[c]))
  {
    [ Column("todo", "To Do", SelectTasksByStatus(items, "todo"), "#e74c3c"),
      Column("inProgress", "In Progress", SelectTasksByStatus(items, "inProgress"), "#f39c12"),
      Column("done", "Done", SelectTasksByStatus(items, "done"), "#27ae60") ]
  }

  predicate OnBoard(t: Task)
  {
    StatusOf(t) == Some("todo") || StatusOf(t) == Some("inProgress") || StatusOf(t) == Some("done")
  }

  /**
   * The columns partition the items whose status is one of the three column
   * ids: each such task appears in exactly one column, as often as in the
   * items and in item order, and every other task appears in none.
   */
  lemma ColumnsPartition(items: seq<Task>, t: Task)
    ensures var cols := Columns(items);
            && (forall c :: 0 <= c < |cols| ==> IsSubsequence(cols[c].tasks, items))
            && multiset(cols[0].tasks)[t] + multiset(cols[1].tasks)[t] + multiset(cols[2].tasks)[t]
               == (if OnBoard(t) then multiset(items)[t] else 0)
            && (t in items && OnBoard(t) ==> exists c :: 0 <= c < |cols| && t in cols[c].tasks)
            && (forall c, d :: 0 <= c < |cols| && 0 <= d < |cols| && t in cols[c].tasks && t in cols[d].tasks ==> c == d)
  {
    var cols := Columns(items);
    forall c | 0 <= c < |cols| ensures IsSubsequence(cols[c].tasks, items) {
      SelectByStatusExact(items, ColumnIds[c], t);
    }
    SelectByStatusExact(items, "todo", t);
    SelectByStatusExact(items, "inProgress", t);
    SelectByStatusExact(items, "done", t);
  }

  /**
   * A drop on another column, once the server confirms it with the record it
   * was sent, moves the dragged task into the destination column and changes
   * nothing else about it.
   */
  lemma DropOnOtherColumnMovesTask(items: seq<Task>, result: DropResult)
    requires result.destination.Some? && result.destination.value.droppableId in ColumnIds
    requires result.destination.value.droppableId != result.source.droppableId
    requires Find(items, result.draggableId).Some?
    ensures HandleDragEnd(result).Some?
    ensures var m := HandleDragEnd(result).value;
            var r := ReplaceFirst(items, MovePayload(items, m.id, m.newStatus));
            var i := FindIndex(items, Some(m.id));
            var c :| 0 <= c < |ColumnIds| && ColumnIds[c] == m.newStatus;
            && 0 <= i < |r|
            && r[i] == items[i]["status" := m.newStatus]
            && r[i] in Columns(r)[c].tasks
  {
    var m := HandleDragEnd(result).value;
    MoveEchoChangesOnlyStatus(items, m.id, m.newStatus);
  }
}

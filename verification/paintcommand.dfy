// Commands of the local user (SharedPaintCommand.cpp): which task each of them appends when it is executed and undone.

module PaintCommand {
  import opened PaintTask

  datatype Command =
    | Add(key: Key)
    | Remove(key: Key)
    | Update(key: Key, prev: Data, data: Data)
    | Move(key: Key, prevX: real, prevY: real, x: real, y: real)

  function TaskOf(c: Command): Task {
    match c
    case Add(k) => AddItem(k)
    case Remove(k) => RemoveItem(k)
    case Update(k, p, d) => UpdateItem(k, p, d)
    case Move(k, px, py, x, y) => MoveItem(k, px, py, x, y)
  }

  // Undoing an update or a move appends the same task again.
  function UndoTaskOf(c: Command): Task {
    match c
    case Add(k) => RemoveItem(k)
    case Remove(k) => AddItem(k)
    case Update(k, p, d) => UpdateItem(k, p, d)
    case Move(k, px, py, x, y) => MoveItem(k, px, py, x, y)
  }

  // An update or a move to where the item was before.
  predicate Idle(c: Command) {
    match c
    case Update(_, p, d) => p == d
    case Move(_, px, py, x, y) => px == x && py == y
    case _ => false
  }

  // So undoing a command gives back the item exactly for additions and removals, and for commands that changed nothing.
  lemma UndoRestores(it: Item, c: Command)
    requires Fits(it, TaskOf(c))
    ensures Applied(Applied(it, TaskOf(c)), UndoTaskOf(c)) == it <==> c.Add? || c.Remove? || Idle(c)
  {
  }

  // And the task that undoes it fits the item exactly then.
  lemma UndoFits(it: Item, c: Command)
    requires Fits(it, TaskOf(c))
    ensures Fits(Applied(it, TaskOf(c)), UndoTaskOf(c)) <==> c.Add? || c.Remove? || Idle(c)
  {
  }

  // For example, an item that is moved one step to the right stays there when the move is undone, and an item that is made twice
  // as large stays so.
  lemma NotUndone(k: Key)
    ensures
      var it, c := Item(true, 0.0, 0.0, 1.0), Move(k, 0.0, 0.0, 1.0, 0.0);
      Fits(it, TaskOf(c)) && Applied(Applied(it, TaskOf(c)), UndoTaskOf(c)) == it.(x := 1.0)
    ensures
      var it, c := Item(true, 0.0, 0.0, 1.0), Update(k, Data(0.0, 0.0, 1.0), Data(0.0, 0.0, 2.0));
      Fits(it, TaskOf(c)) && Applied(Applied(it, TaskOf(c)), UndoTaskOf(c)) == it.(scale := 2.0)
  {
  }

  function Tasks(cs: seq<Command>): (r: seq<Task>)
    ensures |r| == |cs|
    ensures forall i :: 0 <= i < |cs| ==> r[i] == TaskOf(cs[i])
  {
    seq(|cs|, i requires 0 <= i < |cs| => TaskOf(cs[i]))
  }

  // A stack, bottom first, in the order its elements come off.
  function Reversed(s: seq<Command>): (r: seq<Command>)
    ensures |r| == |s|
    ensures forall i :: 0 <= i < |s| ==> r[i] == s[|s| - 1 - i]
  {
    seq(|s|, i requires 0 <= i < |s| => s[|s| - 1 - i])
  }

  // Executing a command that has been undone takes it from one stack to the other; the sequence of both stays the same.
  lemma Shift(done: seq<Command>, undone: seq<Command>)
    requires undone != []
    ensures done + Reversed(undone) == (done + [undone[|undone| - 1]]) + Reversed(undone[..|undone| - 1])
  {
  }
}

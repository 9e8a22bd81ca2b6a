// Items on the shared canvas and the tasks that change them (SharedPaintTask.cpp). A task changes one item, and the item's
// owner is the task's owner, so what happens to an item depends on the tasks for that item alone.

module PaintTask {

  datatype Key = Key(owner: string, id: int)

  // The data of an item that tasks change: whether it is on the canvas, where, and how large.
  datatype Item = Item(drawn: bool, x: real, y: real, scale: real)

  datatype Data = Data(x: real, y: real, scale: real)

  datatype Task =
    | AddItem(key: Key)
    | RemoveItem(key: Key)
    | UpdateItem(key: Key, prev: Data, data: Data)
    | MoveItem(key: Key, prevX: real, prevY: real, x: real, y: real)

  type Items = map<Key, Item>

  // What executing a task does to its item.
  function Applied(it: Item, t: Task): Item {
    match t
    case AddItem(_) => it.(drawn := true)
    case RemoveItem(_) => it.(drawn := false)
    case UpdateItem(_, _, d) => it.(x := d.x, y := d.y, scale := d.scale)
    case MoveItem(_, _, _, x, y) => it.(x := x, y := y)
  }

  // What rolling it back does.
  function Undone(it: Item, t: Task): Item {
    match t
    case AddItem(_) => it.(drawn := false)
    case RemoveItem(_) => it.(drawn := true)
    case UpdateItem(_, p, _) => it.(x := p.x, y := p.y, scale := p.scale)
    case MoveItem(_, px, py, _, _) => it.(x := px, y := py)
  }

  // The tasks look their item up, and do nothing when there is none.
  function Executed(items: Items, t: Task): (r: Items)
    ensures r.Keys == items.Keys
  {
    if t.key in items then items[t.key := Applied(items[t.key], t)] else items
  }

  function RolledBack(items: Items, t: Task): (r: Items)
    ensures r.Keys == items.Keys
  {
    if t.key in items then items[t.key := Undone(items[t.key], t)] else items
  }

  // A task fits an item: an item that is added is not on the canvas, one that is removed is, and the previous values that
  // an update or a move carries are the item's.
  predicate Fits(it: Item, t: Task) {
    match t
    case AddItem(_) => !it.drawn
    case RemoveItem(_) => it.drawn
    case UpdateItem(_, p, _) => p == Data(it.x, it.y, it.scale)
    case MoveItem(_, px, py, _, _) => px == it.x && py == it.y
  }

  // Rolling back what has been executed gives back the item exactly when the task fits it.
  lemma UndoApplied(it: Item, t: Task)
    ensures Undone(Applied(it, t), t) == it <==> Fits(it, t)
  {
  }

  // The item k after a run of tasks, starting from it.
  function Track(it: Item, log: seq<Task>, k: Key): Item {
    if log == [] then it
    else
      var before := Track(it, log[..|log| - 1], k);
      var t := log[|log| - 1];
      if t.key == k then Applied(before, t) else before
  }

  // All items after a run of tasks.
  function Replayed(items: Items, log: seq<Task>): (r: Items)
    ensures r.Keys == items.Keys
  {
    if log == [] then items else Executed(Replayed(items, log[..|log| - 1]), log[|log| - 1])
  }

  // Replaying a log tracks every item on its own.
  lemma {:induction false} ReplayTracks(items: Items, log: seq<Task>, k: Key)
    requires k in items
    ensures Replayed(items, log)[k] == Track(items[k], log, k)
  {
    if log != [] {
      ReplayTracks(items, log[..|log| - 1], k);
    }
  }

  // The tasks of a log for one owner.
  function OwnedBy(log: seq<Task>, owner: string): seq<Task> {
    if log == [] then []
    else
      var t := log[|log| - 1];
      OwnedBy(log[..|log| - 1], owner) + (if t.key.owner == owner then [t] else [])
  }

  // Tasks of other owners do not matter to an item.
  lemma {:induction false} TrackOwned(it: Item, log: seq<Task>, k: Key)
    ensures Track(it, log, k) == Track(it, OwnedBy(log, k.owner), k)
  {
    if log != [] {
      var rest, t := log[..|log| - 1], log[|log| - 1];
      TrackOwned(it, rest, k);
      var own := OwnedBy(rest, k.owner);
      if t.key.owner == k.owner {
        assert (own + [t])[..|own + [t]| - 1] == own;
      } else {
        assert own + [] == own;
      }
    }
  }

  lemma TrackStep(it: Item, log: seq<Task>, i: nat, k: Key)
    requires i < |log|
    ensures Track(it, log[..i + 1], k) == if log[i].key == k then Applied(Track(it, log[..i], k), log[i]) else Track(it, log[..i], k)
  {
    assert log[..i + 1][..i] == log[..i];
  }

  // Tasks of different owners commute.
  lemma Commute(items: Items, s: Task, t: Task)
    requires s.key.owner != t.key.owner
    ensures Executed(Executed(items, s), t) == Executed(Executed(items, t), s)
  {
  }

  // Every task of the log fits its item in the state that the tasks before it lead to.
  ghost predicate Coherent(init: Items, log: seq<Task>) {
    forall i :: 0 <= i < |log| && log[i].key in init ==> Fits(Track(init[log[i].key], log[..i], log[i].key), log[i])
  }

  lemma {:induction false} CoherentMore(init: Items, log: seq<Task>, t: Task)
    requires Coherent(init, log) && (t.key in init ==> Fits(Track(init[t.key], log, t.key), t))
    ensures Coherent(init, log + [t])
  {
    var log' := log + [t];
    forall i | 0 <= i < |log'| && log'[i].key in init
      ensures Fits(Track(init[log'[i].key], log'[..i], log'[i].key), log'[i])
    {
      assert log'[..i] == log[..i];
      if i == |log| {
        assert log[..i] == log;
      }
    }
  }

  // ----- what a task writes

  predicate WritesDrawn(t: Task) {
    t.AddItem? || t.RemoveItem?
  }

  predicate WritesPos(t: Task) {
    t.UpdateItem? || t.MoveItem?
  }

  predicate WritesScale(t: Task) {
    t.UpdateItem?
  }

  // Two items agree on everything that no task of the log for k writes.
  ghost predicate AgreeOutside(a: Item, b: Item, log: seq<Task>, k: Key) {
    && (a.drawn == b.drawn || exists t :: t in log && t.key == k && WritesDrawn(t))
    && ((a.x == b.x && a.y == b.y) || exists t :: t in log && t.key == k && WritesPos(t))
    && (a.scale == b.scale || exists t :: t in log && t.key == k && WritesScale(t))
  }

  // A run of tasks changes only what one of them writes.
  lemma {:induction false} TrackChanges(it: Item, log: seq<Task>, k: Key)
    ensures AgreeOutside(Track(it, log, k), it, log, k)
  {
    if log != [] {
      var rest, t := log[..|log| - 1], log[|log| - 1];
      TrackChanges(it, rest, k);
      assert forall s :: s in rest ==> s in log;
      assert t in log;
    }
  }

  // The last task that writes a field decides about it: replaying the whole log over items on which some of it has
  // already been carried out ends like replaying it from the start.
  lemma {:induction false} LastWriteWins(a: Item, b: Item, log: seq<Task>, k: Key)
    requires AgreeOutside(a, b, log, k)
    ensures Track(a, log, k) == Track(b, log, k)
  {
    LastWriteEach(a, b, log, k);
  }

  lemma {:induction false} LastWriteEach(a: Item, b: Item, log: seq<Task>, k: Key)
    ensures a.drawn == b.drawn || (exists t :: t in log && t.key == k && WritesDrawn(t)) ==> Track(a, log, k).drawn == Track(b, log, k).drawn
    ensures (a.x == b.x && a.y == b.y) || (exists t :: t in log && t.key == k && WritesPos(t)) ==>
              Track(a, log, k).x == Track(b, log, k).x && Track(a, log, k).y == Track(b, log, k).y
    ensures a.scale == b.scale || (exists t :: t in log && t.key == k && WritesScale(t)) ==> Track(a, log, k).scale == Track(b, log, k).scale
  {
    if log != [] {
      var rest, t := log[..|log| - 1], log[|log| - 1];
      LastWriteEach(a, b, rest, k);
      assert forall s :: s in log ==> s in rest || s == t;
    }
  }
}

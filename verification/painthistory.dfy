// The history of the shared canvas (CSharedPaintCommandManager): an append-only log of tasks with a playback position, a
// set of painters who may draw, and the stacks for undo and redo. The canvas is changed step by step; it always shows what
// replaying the log up to the playback position shows, for the painters who may draw.

module PaintHistory {
  import opened PaintTask
  import opened PaintCommand

  const INIT_PLAYBACK_POS := -2

  // Every item of a painter who may draw is as the first n tasks leave it, every other item as it was at first.
  ghost predicate Showing(items: Items, init: Items, log: seq<Task>, n: nat, allow: set<string>) {
    && n <= |log| && items.Keys == init.Keys
    && forall k :: k in items ==> items[k] == if k.owner in allow then Track(init[k], log[..n], k) else init[k]
  }

  // The same, except that the items of user are as the first m tasks leave them.
  ghost predicate ShowingExcept(items: Items, init: Items, log: seq<Task>, n: nat, allow: set<string>, user: string, m: nat) {
    && n <= |log| && m <= |log| && items.Keys == init.Keys
    && forall k :: k in items ==>
         items[k] == if k.owner == user then Track(init[k], log[..m], k) else if k.owner in allow then Track(init[k], log[..n], k) else init[k]
  }

  lemma Forward(items: Items, init: Items, log: seq<Task>, n: nat, allow: set<string>)
    requires Showing(items, init, log, n, allow) && n < |log|
    ensures Showing(if log[n].key.owner in allow then Executed(items, log[n]) else items, init, log, n + 1, allow)
  {
    forall k | k in items && k.owner in allow
      ensures Track(init[k], log[..n + 1], k) == if log[n].key == k then Applied(items[k], log[n]) else items[k]
    {
      TrackStep(init[k], log, n, k);
    }
  }

  lemma Backward(items: Items, init: Items, log: seq<Task>, n: nat, allow: set<string>)
    requires Showing(items, init, log, n + 1, allow) && n < |log| && Coherent(init, log)
    ensures Showing(if log[n].key.owner in allow then RolledBack(items, log[n]) else items, init, log, n, allow)
  {
    forall k | k in items && k.owner in allow
      ensures Track(init[k], log[..n], k) == if log[n].key == k then Undone(items[k], log[n]) else items[k]
    {
      TrackStep(init[k], log, n, k);
      if log[n].key == k {
        UndoApplied(Track(init[k], log[..n], k), log[n]);
      }
    }
  }

  lemma ForwardFor(items: Items, init: Items, log: seq<Task>, n: nat, allow: set<string>, user: string, m: nat)
    requires ShowingExcept(items, init, log, n, allow, user, m) && m < |log|
    ensures ShowingExcept(if log[m].key.owner == user then Executed(items, log[m]) else items, init, log, n, allow, user, m + 1)
  {
    forall k | k in items && k.owner == user
      ensures Track(init[k], log[..m + 1], k) == if log[m].key == k then Applied(items[k], log[m]) else items[k]
    {
      TrackStep(init[k], log, m, k);
    }
  }

  lemma BackwardFor(items: Items, init: Items, log: seq<Task>, n: nat, allow: set<string>, user: string, m: nat)
    requires ShowingExcept(items, init, log, n, allow, user, m + 1) && m < |log| && Coherent(init, log)
    ensures ShowingExcept(if log[m].key.owner == user then RolledBack(items, log[m]) else items, init, log, n, allow, user, m)
  {
    forall k | k in items && k.owner == user
      ensures Track(init[k], log[..m], k) == if log[m].key == k then Undone(items[k], log[m]) else items[k]
    {
      TrackStep(init[k], log, m, k);
      if log[m].key == k {
        UndoApplied(Track(init[k], log[..m], k), log[m]);
      }
    }
  }

  // Carrying out the tasks i to end of painters who may draw; nothing happens for positions outside the log.
  function Forwarded(items: Items, log: seq<Task>, allow: set<string>, i: int, end: int): (r: Items)
    requires 0 <= i && end < |log|
    ensures r.Keys == items.Keys
    decreases end - i
  {
    if i > end then items else Forwarded(if log[i].key.owner in allow then Executed(items, log[i]) else items, log, allow, i + 1, end)
  }

  // Rolling them back, from i down to the one behind end.
  function Backwarded(items: Items, log: seq<Task>, allow: set<string>, i: int, end: int): (r: Items)
    requires -1 <= end && i < |log|
    ensures r.Keys == items.Keys
    decreases i - end
  {
    if i <= end then items else Backwarded(if log[i].key.owner in allow then RolledBack(items, log[i]) else items, log, allow, i - 1, end)
  }

  function Played(items: Items, log: seq<Task>, allow: set<string>, from: int, end: int): (r: Items)
    ensures r.Keys == items.Keys
  {
    if from < end then if -1 <= from < |log| && 0 <= end < |log| then Forwarded(items, log, allow, from + 1, end) else items
    else if 0 <= from < |log| && -1 <= end < |log| then Backwarded(items, log, allow, from, end) else items
  }

  lemma {:induction false} ForwardedShows(items: Items, init: Items, log: seq<Task>, allow: set<string>, i: nat, end: int)
    requires Showing(items, init, log, i, allow) && i <= end + 1 <= |log|
    ensures Showing(Forwarded(items, log, allow, i, end), init, log, end + 1, allow)
    decreases end - i
  {
    hide Showing;
    if i <= end {
      Forward(items, init, log, i, allow);
      ForwardedShows(if log[i].key.owner in allow then Executed(items, log[i]) else items, init, log, allow, i + 1, end);
    }
  }

  lemma {:induction false} BackwardedShows(items: Items, init: Items, log: seq<Task>, allow: set<string>, i: int, end: int)
    requires -1 <= end <= i < |log| && Showing(items, init, log, i + 1, allow) && Coherent(init, log)
    ensures Showing(Backwarded(items, log, allow, i, end), init, log, end + 1, allow)
    decreases i - end
  {
    hide Showing, Coherent;
    if i > end {
      Backward(items, init, log, i, allow);
      BackwardedShows(if log[i].key.owner in allow then RolledBack(items, log[i]) else items, init, log, allow, i - 1, end);
    }
  }

  // A painter who may not draw is one whose items are where no task has touched them.
  lemma Excepting(items: Items, init: Items, log: seq<Task>, n: nat, allow: set<string>, user: string)
    requires n <= |log|
    ensures user !in allow ==> (Showing(items, init, log, n, allow) <==> ShowingExcept(items, init, log, n, allow, user, 0))
    ensures Showing(items, init, log, n, allow + {user}) <==> ShowingExcept(items, init, log, n, allow, user, n)
  {
    assert log[..0] == [];
  }

  // The canvas after a painter has been allowed to draw, or no longer.
  function Toggled(items: Items, log: seq<Task>, allow: set<string>, user: string, enabled: bool, cur: int): Items
    requires cur < |log|
  {
    if enabled == (user in allow) then items
    else if enabled then Forwarded(items, log, {user}, 0, cur)
    else Backwarded(items, log, {user}, cur, -1)
  }

  lemma {:induction false} ForwardedFor(items: Items, init: Items, log: seq<Task>, n: nat, allow: set<string>, user: string, i: nat, end: int)
    requires ShowingExcept(items, init, log, n, allow, user, i) && i <= end + 1 <= |log|
    ensures ShowingExcept(Forwarded(items, log, {user}, i, end), init, log, n, allow, user, end + 1)
    decreases end - i
  {
    hide ShowingExcept;
    if i <= end {
      ForwardFor(items, init, log, n, allow, user, i);
      ForwardedFor(if log[i].key.owner == user then Executed(items, log[i]) else items, init, log, n, allow, user, i + 1, end);
    }
  }

  lemma {:induction false} BackwardedFor(items: Items, init: Items, log: seq<Task>, n: nat, allow: set<string>, user: string, i: int)
    requires -1 <= i < |log| && ShowingExcept(items, init, log, n, allow, user, i + 1) && Coherent(init, log)
    ensures ShowingExcept(Backwarded(items, log, {user}, i, -1), init, log, n, allow, user, 0)
    decreases i + 1
  {
    hide ShowingExcept, Coherent;
    if i >= 0 {
      BackwardFor(items, init, log, n, allow, user, i);
      BackwardedFor(if log[i].key.owner == user then RolledBack(items, log[i]) else items, init, log, n, allow, user, i - 1);
    }
  }

  // It shows the log as before, with the painter or without; without, if every task fits what is before it.
  lemma ToggledShows(items: Items, init: Items, log: seq<Task>, allow: set<string>, user: string, enabled: bool, cur: int)
    requires -2 <= cur < |log| && (cur == -2 ==> log == [])
    requires Showing(items, init, log, if cur < 0 then 0 else cur + 1, allow)
    ensures
      enabled || Coherent(init, log) ==>
      Showing(Toggled(items, log, allow, user, enabled, cur), init, log, if cur < 0 then 0 else cur + 1, if enabled then allow + {user} else allow - {user})
  {
    hide Showing, ShowingExcept, Coherent, Forwarded, Backwarded;
    var n := if cur < 0 then 0 else cur + 1;
    if enabled == (user in allow) {
      assert allow == if enabled then allow + {user} else allow - {user};
    } else if enabled {
      Excepting(items, init, log, n, allow, user);
      NoneMoved(items, log, user, cur);
      if cur >= -1 {
        ForwardedFor(items, init, log, n, allow, user, 0, cur);
      }
      Excepting(Forwarded(items, log, {user}, 0, cur), init, log, n, allow, user);
    } else if Coherent(init, log) {
      assert (allow - {user}) + {user} == allow;
      Excepting(items, init, log, n, allow - {user}, user);
      NoneMoved(items, log, user, cur);
      if cur >= -1 {
        BackwardedFor(items, init, log, n, allow - {user}, user, cur);
      }
      Excepting(Backwarded(items, log, {user}, cur, -1), init, log, n, allow - {user}, user);
    }
  }

  lemma NoneMoved(items: Items, log: seq<Task>, user: string, cur: int)
    requires cur < |log|
    ensures cur < 0 ==> Forwarded(items, log, {user}, 0, cur) == items == Backwarded(items, log, {user}, cur, -1)
  {
  }

  // Appending a task beyond the position does not matter.
  lemma Longer(items: Items, init: Items, log: seq<Task>, n: nat, allow: set<string>, t: Task)
    requires Showing(items, init, log, n, allow)
    ensures Showing(items, init, log + [t], n, allow)
  {
    assert (log + [t])[..n] == log[..n];
  }

  // The top of the stack a has moved to b.
  predicate Moved(a: seq<Command>, a': seq<Command>, b: seq<Command>, b': seq<Command>) {
    a != [] && a' == a[..|a| - 1] && b' == b + [a[|a| - 1]]
  }

  lemma CoherentOneMore(init: Items, log: seq<Task>, t: Task)
    ensures Coherent(init, log) ==> (Coherent(init, log + [t]) <==> (t.key in init ==> Fits(Track(init[t.key], log, t.key), t)))
  {
    hide Track, Fits;
    var log' := log + [t];
    if Coherent(init, log) {
      if t.key in init ==> Fits(Track(init[t.key], log, t.key), t) {
        CoherentMore(init, log, t);
      } else {
        assert log'[|log|] == t && log'[..|log|] == log;
      }
    }
  }

  // ----- runs of commands

  lemma CoherentPrefix(init: Items, log: seq<Task>, n: nat)
    requires Coherent(init, log) && n <= |log|
    ensures Coherent(init, log[..n])
  {
    forall i | 0 <= i < n && log[i].key in init
      ensures Fits(Track(init[log[i].key], log[..n][..i], log[i].key), log[i])
    {
      assert log[..n][..i] == log[..i];
    }
  }

  lemma TasksMore(cs: seq<Command>, c: Command)
    ensures Tasks(cs + [c]) == Tasks(cs) + [TaskOf(c)]
    ensures Tasks(cs + [c])[..|cs|] == Tasks(cs)
  {
  }

  lemma TasksPrefix(cs: seq<Command>, ds: seq<Command>)
    ensures Tasks(cs + ds)[..|cs|] == Tasks(cs)
  {
  }

  lemma RunMore(base: Items, cs: seq<Command>, c: Command)
    ensures Replayed(base, Tasks(cs + [c])) == Executed(Replayed(base, Tasks(cs)), TaskOf(c))
  {
    TasksMore(cs, c);
  }

  // In a coherent run every command fits the state that those before it lead to.
  lemma {:induction false} RunFits(base: Items, cs: seq<Command>, c: Command, rest: seq<Command>)
    requires Coherent(base, Tasks(cs + [c] + rest)) && c.key in base
    ensures Fits(Replayed(base, Tasks(cs))[c.key], TaskOf(c))
  {
    var all := cs + [c] + rest;
    assert all == cs + ([c] + rest);
    TasksPrefix(cs, [c] + rest);
    assert all[|cs|] == c && Tasks(all)[|cs|] == TaskOf(c);
    ReplayTracks(base, Tasks(cs), c.key);
  }

  lemma {:induction false} RunCoherent(base: Items, cs: seq<Command>, c: Command)
    requires Coherent(base, Tasks(cs)) && c.key in base && Fits(Replayed(base, Tasks(cs))[c.key], TaskOf(c))
    ensures Coherent(base, Tasks(cs + [c]))
  {
    ReplayTracks(base, Tasks(cs), c.key);
    TasksMore(cs, c);
    CoherentMore(base, Tasks(cs), TaskOf(c));
  }

  // Undoing the last addition or removal leads back to where the run was before it.
  lemma {:induction false} RunBack(base: Items, cs: seq<Command>, c: Command, rest: seq<Command>)
    requires Coherent(base, Tasks(cs + [c] + rest)) && c.key in base && (c.Add? || c.Remove?)
    ensures
      var items := Replayed(base, Tasks(cs + [c]));
      Fits(items[c.key], UndoTaskOf(c)) && Executed(items, UndoTaskOf(c)) == Replayed(base, Tasks(cs))
  {
    RunFits(base, cs, c, rest);
    RunMore(base, cs, c);
    var before := Replayed(base, Tasks(cs));
    PaintCommand.UndoFits(before[c.key], c);
    UndoRestores(before[c.key], c);
  }

  datatype Action = Execute(c: Command) | Undo | Redo

  class CommandManager {
    var items: Items
    var log: seq<Task>
    var cur: int
    var allow: set<string>
    var commandList: seq<Command>
    var redoList: seq<Command>

    // Which tasks still have to be sent to the other users, and those that have been sent, by their place in the log.
    var unsent: seq<bool>
    var sent: seq<nat>

    // The items before any task.
    ghost var initial: Items

    // The number of tasks the canvas shows.
    function Shown(): nat
      reads this
    {
      if cur < 0 then 0 else cur + 1
    }

    // The canvas shows the log up to the playback position, for the painters who may draw.
    ghost predicate Consistent()
      reads this
    {
      && (cur == INIT_PLAYBACK_POS ==> log == []) && INIT_PLAYBACK_POS <= cur < |log|
      && Showing(items, initial, log, Shown(), allow)
      && SentOnce()
    }

    // And rolling back works, as every task of the log fits what is before it.
    ghost predicate Valid()
      reads this
    {
      Consistent() && Coherent(initial, log)
    }

    // No task is sent twice: a task that has been sent is not waiting to be sent.
    ghost predicate SentOnce()
      reads this
    {
      && |unsent| == |log|
      && (forall i :: 0 <= i < |sent| ==> sent[i] < |log| && !unsent[sent[i]])
      && (forall i, j :: 0 <= i < j < |sent| ==> sent[i] != sent[j])
    }

    constructor ()
      ensures Valid() && items == map[] && log == [] && allow == {} && cur == INIT_PLAYBACK_POS == -2
      ensures commandList == [] && redoList == [] && sent == [] && initial == map[]
    {
      items, log, cur, allow := map[], [], INIT_PLAYBACK_POS, {};
      commandList, redoList, unsent, sent := [], [], [], [];
      initial := map[];
    }

    // Neither at the end of the log nor untouched (isPlaybackMode).
    predicate PlaybackMode()
      reads this
    {
      !(cur == INIT_PLAYBACK_POS || |log| - 1 == cur)
    }

    // The previous values and the state that the task t starts from are those of its item at the end of the log.
    ghost predicate FitsNow(t: Task)
      reads this
    {
      t.key in initial ==> Fits(Track(initial[t.key], log, t.key), t)
    }

    twostate predicate OnlyCanvas()
      reads this
    {
      && log == old(log) && cur == old(cur) && allow == old(allow) && initial == old(initial)
      && commandList == old(commandList) && redoList == old(redoList)
    }

    // Sending and executing a task of the log.
    method ExecuteAt(i: nat)
      requires i < |log| && SentOnce()
      modifies this
      ensures OnlyCanvas() && items == Executed(old(items), log[i]) && SentOnce()
      ensures sent == if old(unsent)[i] then old(sent) + [i] else old(sent)
      ensures unsent == old(unsent)[i := false]
    {
      if unsent[i] {
        sent := sent + [i];
        unsent := unsent[i := false];
      }
      items := Executed(items, log[i]);
    }

    // Append a task, and carry it out unless the user is looking at an earlier position or the painter may not draw. The canvas
    // shows the log whatever the task is; rolling back goes on to work exactly if the task fits.
    method ExecuteTask(t: Task, send: bool)
      requires SentOnce()
      modifies this
      ensures log == old(log) + [t] && allow == old(allow) && initial == old(initial) && SentOnce()
      ensures commandList == old(commandList) && redoList == old(redoList)
      ensures cur == if old(PlaybackMode()) then old(cur) else |old(log)|
      ensures items == if old(PlaybackMode()) || t.key.owner !in allow then old(items) else Executed(old(items), t)
      ensures !old(PlaybackMode()) && t.key.owner in allow && t.key in old(items) ==>
        var a := old(items)[t.key];
        items == old(items)[t.key := match t
                                       case AddItem(_) => Item(true, a.x, a.y, a.scale)
                                       case RemoveItem(_) => Item(false, a.x, a.y, a.scale)
                                       case UpdateItem(_, _, d) => Item(a.drawn, d.x, d.y, d.scale)
                                       case MoveItem(_, _, _, x, y) => Item(a.drawn, x, y, a.scale)]
      ensures sent == old(sent) + if send && !old(PlaybackMode()) && t.key.owner in allow then [|old(log)|] else []
      ensures old(Consistent()) ==> Consistent()
      ensures old(Valid()) ==> (Valid() <==> old(FitsNow(t)))
    {
      hide Track, Coherent, Showing;
      if Consistent() {
        Longer(items, initial, log, Shown(), allow, t);
        if !PlaybackMode() {
          Forward(items, initial, log + [t], |log|, allow);
        }
      }
      CoherentOneMore(initial, log, t);
      var playback := PlaybackMode();
      log := log + [t];
      if !playback {
        cur := |log| - 1;
      }
      unsent := unsent + [send];
      if playback || t.key.owner !in allow {
        return;
      }
      ExecuteAt(|log| - 1);
    }

    // Move the playback position, to any place. Positions outside the log are taken as well, without anything happening to the
    // canvas; that is where the canvas and the position go apart.
    method PlaybackTo(position: int)
      requires SentOnce()
      modifies this
      ensures cur == position && items == Played(old(items), log, allow, old(cur), position) && SentOnce()
      ensures log == old(log) && allow == old(allow) && initial == old(initial)
      ensures commandList == old(commandList) && redoList == old(redoList)
      ensures old(Consistent()) && old(cur) < position < |log| ==> Consistent()
      ensures old(Valid()) ==> (Valid() <==> -1 <= position < |log| || (position == INIT_PLAYBACK_POS && log == []))
    {
      hide Track, Coherent, Showing, Forwarded, Backwarded;
      if Consistent() && cur < position < |log| && position >= 0 {
        ForwardedShows(items, initial, log, allow, Shown(), position);
      }
      if Valid() && -1 <= position <= cur {
        BackwardedShows(items, initial, log, allow, cur, position);
      }
      if cur < position {
        PlayForward(cur, position);
      } else {
        PlayBackward(cur, position);
      }
      cur := position;
    }

    method PlayForward(from: int, to: int)
      requires SentOnce() && from < to
      modifies this
      ensures OnlyCanvas() && SentOnce() && items == Played(old(items), log, allow, from, to)
    {
      hide Executed, SentOnce;
      if from < -1 || from >= |log| {
        return;
      }
      if to < 0 || to >= |log| {
        return;
      }
      var i := from + 1;
      while i <= to
        invariant from + 1 <= i <= to + 1
        invariant OnlyCanvas() && SentOnce() && Forwarded(items, log, allow, i, to) == old(Forwarded(items, log, allow, from + 1, to))
      {
        if log[i].key.owner in allow {
          ExecuteAt(i);
        }
        i := i + 1;
      }
    }

    method PlayBackward(from: int, to: int)
      requires to <= from
      modifies this`items
      ensures items == Played(old(items), log, allow, from, to)
    {
      hide RolledBack;
      if from < 0 || from >= |log| {
        return;
      }
      if to < -1 || to >= |log| {
        return;
      }
      var i := from;
      while i > to
        invariant to <= i <= from
        invariant Backwarded(items, log, allow, i, to) == old(Backwarded(items, log, allow, from, to))
      {
        if log[i].key.owner in allow {
          items := RolledBack(items, log[i]);
        }
        i := i - 1;
      }
    }

    // Let a painter draw or not: the tasks of that painter up to the playback position are carried out or rolled back, on whatever
    // the canvas shows. The position must not be behind the log.
    method SetAllowPainterToDraw(user: string, enabled: bool)
      requires SentOnce() && cur < |log|
      modifies this
      ensures items == old(Toggled(items, log, allow, user, enabled, cur))
      ensures log == old(log) && cur == old(cur) && initial == old(initial) && SentOnce()
      ensures commandList == old(commandList) && redoList == old(redoList)
      ensures allow == if enabled then old(allow) + {user} else old(allow) - {user}
      ensures (old(Consistent()) && (enabled || old(Valid())) ==> Consistent()) && (old(Valid()) ==> Valid())
    {
      hide Track, Coherent, Showing, ShowingExcept, Forwarded, Backwarded;
      if Consistent() {
        ToggledShows(items, initial, log, allow, user, enabled, cur);
      }
      if enabled {
        if user in allow {
          assert allow + {user} == allow;
          return;
        }
        allow := allow + {user};
        EnablePainter(user);
      } else {
        if user !in allow {
          assert allow - {user} == allow;
          return;
        }
        allow := allow - {user};
        DisablePainter(user);
      }
    }

    method EnablePainter(user: string)
      requires SentOnce() && cur < |log|
      modifies this
      ensures OnlyCanvas() && SentOnce() && items == Forwarded(old(items), log, {user}, 0, cur)
    {
      hide Executed, SentOnce;
      var i := 0;
      while i <= cur
        invariant 0 <= i && (i <= cur + 1 || i == 0)
        invariant OnlyCanvas() && SentOnce() && Forwarded(items, log, {user}, i, cur) == old(Forwarded(items, log, {user}, 0, cur))
      {
        if log[i].key.owner == user {
          ExecuteAt(i);
        }
        i := i + 1;
      }
    }

    method DisablePainter(user: string)
      requires cur < |log|
      modifies this`items
      ensures items == Backwarded(old(items), log, {user}, cur, -1)
    {
      hide RolledBack;
      var i := cur;
      while i >= 0
        invariant i <= cur && (i >= -1 || i == cur)
        invariant Backwarded(items, log, {user}, i, -1) == old(Backwarded(items, log, {user}, cur, -1))
      {
        if log[i].key.owner == user {
          items := RolledBack(items, log[i]);
        }
        i := i - 1;
      }
    }

    // A painter joins. The tasks of that painter that are in the log already are not carried out, so the canvas shows the log
    // exactly if they make no difference.
    method AddPainter(user: string)
      modifies this`allow
      ensures allow == old(allow) + {user}
      ensures old(Consistent()) ==> (Consistent() <==> user in old(allow) || Untouched(user))
      ensures old(Consistent()) && (forall i :: 0 <= i < Shown() ==> log[i].key.owner != user) ==> Consistent()
      ensures old(Valid()) && Consistent() ==> Valid()
    {
      hide Coherent;
      if Consistent() && forall i :: 0 <= i < Shown() ==> log[i].key.owner != user {
        forall k | k in items && k.owner == user
          ensures Track(initial[k], log[..Shown()], k) == initial[k]
        {
          TrackNone(initial[k], log[..Shown()], k);
        }
      }
      allow := allow + {user};
    }

    // The tasks shown do not make a difference to the items of user.
    ghost predicate Untouched(user: string)
      requires Shown() <= |log| && items.Keys == initial.Keys
      reads this
    {
      forall k :: k in items && k.owner == user ==> Track(initial[k], log[..Shown()], k) == initial[k]
    }

    static lemma {:induction false} TrackNone(it: Item, log: seq<Task>, k: Key)
      requires forall i :: 0 <= i < |log| ==> log[i].key != k
      ensures Track(it, log, k) == it
    {
      if log != [] {
        TrackNone(it, log[..|log| - 1], k);
      }
    }

    // An item is made known. A second item with the same key is reported and ignored. The canvas shows the log afterwards exactly
    // if the tasks that are already there for the item make no difference to it.
    method AddHistoryItem(k: Key, it: Item) returns (ok: bool)
      modifies this`items, this`initial
      ensures ok == (k !in old(items))
      ensures items == if ok then old(items)[k := it] else old(items)
      ensures initial == if ok then old(initial)[k := it] else old(initial)
      ensures old(Consistent()) ==> (Consistent() <==> !ok || k.owner !in allow || Track(it, log[..Shown()], k) == it)
      ensures old(Valid()) && (forall i :: 0 <= i < |log| ==> log[i].key != k) ==> Valid()
    {
      ok := k !in items;
      if ok {
        items := items[k := it];
        initial := initial[k := it];
        if old(Valid()) && forall i :: 0 <= i < |log| ==> log[i].key != k {
          TrackNone(it, log[..Shown()], k);
        }
      }
    }

    // Whenever the canvas shows the log: the items of a painter who may draw are what that painter's own tasks up to the playback
    // position make of them, those of any other painter are untouched.
    lemma {:induction false} OwnersCanvas(k: Key)
      requires Consistent() && k in items
      ensures k in initial
      ensures items[k] == if k.owner in allow then Track(initial[k], OwnedBy(log[..Shown()], k.owner), k) else initial[k]
    {
      hide Coherent;
      TrackOwned(initial[k], log[..Shown()], k);
    }

    // ----- commands of the local user

    // The item a task is for, at the end of the log, is on the canvas if nothing keeps it from being shown.
    lemma FitsShown(t: Task)
      requires Consistent() && !PlaybackMode() && t.key in items && t.key.owner in allow
      ensures FitsNow(t) <==> Fits(items[t.key], t)
    {
      assert log[..Shown()] == log;
    }

    method ExecuteCommand(c: Command) returns (ok: bool)
      requires SentOnce()
      modifies this
      ensures SentOnce() && ok && log == old(log) + [TaskOf(c)] && allow == old(allow) && initial == old(initial)
      ensures old(Consistent()) ==> Consistent()
      ensures old(Valid()) ==> (Valid() <==> old(FitsNow(TaskOf(c))))
      ensures cur == if old(PlaybackMode()) then old(cur) else |old(log)|
      ensures items == if old(PlaybackMode()) || c.key.owner !in allow then old(items) else Executed(old(items), TaskOf(c))
      ensures !old(PlaybackMode()) && c.key.owner in allow && c.key in old(items) ==>
        var a := old(items)[c.key];
        items == old(items)[c.key := match c
                                       case Add(_) => Item(true, a.x, a.y, a.scale)
                                       case Remove(_) => Item(false, a.x, a.y, a.scale)
                                       case Update(_, _, d) => Item(a.drawn, d.x, d.y, d.scale)
                                       case Move(_, _, _, x, y) => Item(a.drawn, x, y, a.scale)]
      ensures commandList == old(commandList) + [c] && redoList == []
    {
      ExecuteTask(TaskOf(c), true);
      commandList := commandList + [c];
      redoList := [];
      ok := true;
    }

    method RedoCommand() returns (ok: bool)
      requires SentOnce()
      modifies this
      ensures SentOnce() && ok == (old(redoList) != []) && allow == old(allow) && initial == old(initial)
      ensures old(Consistent()) ==> Consistent()
      ensures ok && old(Valid()) ==> (Valid() <==> old(FitsNow(TaskOf(redoList[|redoList| - 1]))))
      ensures !ok ==> OnlyCanvas() && items == old(items)
      ensures ok ==>
        var c := old(redoList)[|old(redoList)| - 1];
        && log == old(log) + [TaskOf(c)]
        && cur == (if old(PlaybackMode()) then old(cur) else |old(log)|)
        && items == (if old(PlaybackMode()) || c.key.owner !in allow then old(items) else Executed(old(items), TaskOf(c)))
        && commandList == old(commandList) + [c] && redoList == old(redoList)[..|old(redoList)| - 1]
      ensures ok ==>
        var c := old(redoList)[|old(redoList)| - 1];
        !old(PlaybackMode()) && c.key.owner in allow && c.key in old(items) ==>
          var a := old(items)[c.key];
          items == old(items)[c.key := match c
                                         case Add(_) => Item(true, a.x, a.y, a.scale)
                                         case Remove(_) => Item(false, a.x, a.y, a.scale)
                                         case Update(_, _, d) => Item(a.drawn, d.x, d.y, d.scale)
                                         case Move(_, _, _, x, y) => Item(a.drawn, x, y, a.scale)]
    {
      if redoList == [] {
        return false;
      }
      var c := redoList[|redoList| - 1];
      ExecuteTask(TaskOf(c), true);
      commandList := commandList + [c];
      redoList := redoList[..|redoList| - 1];
      ok := true;
    }

    method UndoCommand() returns (ok: bool)
      requires SentOnce()
      modifies this
      ensures SentOnce() && ok == (old(commandList) != []) && allow == old(allow) && initial == old(initial)
      ensures old(Consistent()) ==> Consistent()
      ensures ok && old(Valid()) ==> (Valid() <==> old(FitsNow(UndoTaskOf(commandList[|commandList| - 1]))))
      ensures !ok ==> OnlyCanvas() && items == old(items)
      ensures ok ==>
        var c := old(commandList)[|old(commandList)| - 1];
        && log == old(log) + [UndoTaskOf(c)]
        && cur == (if old(PlaybackMode()) then old(cur) else |old(log)|)
        && items == (if old(PlaybackMode()) || c.key.owner !in allow then old(items) else Executed(old(items), UndoTaskOf(c)))
        && redoList == old(redoList) + [c] && commandList == old(commandList)[..|old(commandList)| - 1]
      ensures ok ==>
        var c := old(commandList)[|old(commandList)| - 1];
        !old(PlaybackMode()) && c.key.owner in allow && c.key in old(items) ==>
          var a := old(items)[c.key];
          items == old(items)[c.key := match c
                                         case Add(_) => Item(false, a.x, a.y, a.scale)
                                         case Remove(_) => Item(true, a.x, a.y, a.scale)
                                         case Update(_, _, d) => Item(a.drawn, d.x, d.y, d.scale)
                                         case Move(_, _, _, x, y) => Item(a.drawn, x, y, a.scale)]
    {
      if commandList == [] {
        return false;
      }
      var c := commandList[|commandList| - 1];
      ExecuteTask(UndoTaskOf(c), true);
      redoList := redoList + [c];
      commandList := commandList[..|commandList| - 1];
      ok := true;
    }

    // A run of additions and removals by painters who may draw, with undo and redo, outside playback: the canvas is what the
    // commands on the first stack, bottom first, make of the items the run began with; those on the other stack, top first,
    // fit behind them.
    ghost predicate InRun(base: Items)
      reads this
    {
      && Valid() && !PlaybackMode() && items == Replayed(base, Tasks(commandList))
      && Coherent(base, Tasks(commandList + Reversed(redoList)))
      && Local(commandList) && Local(redoList)
    }

    ghost predicate Local(cs: seq<Command>)
      reads this
    {
      forall i :: 0 <= i < |cs| ==> (cs[i].Add? || cs[i].Remove?) && cs[i].key in items && cs[i].key.owner in allow
    }

    // The task that undoes the last command fits.
    lemma {:induction false} UndoReady(base: Items)
      requires InRun(base) && commandList != []
      ensures
        var c := commandList[|commandList| - 1];
        && FitsNow(UndoTaskOf(c))
        && Executed(items, UndoTaskOf(c)) == Replayed(base, Tasks(commandList[..|commandList| - 1]))
    {
      var n := |commandList| - 1;
      var cs, c := commandList[..n], commandList[n];
      assert commandList == cs + [c];
      RunBack(base, cs, c, Reversed(redoList));
      FitsShown(UndoTaskOf(c));
    }

    // The task of the command to be redone fits.
    lemma {:induction false} RedoReady(base: Items)
      requires InRun(base) && redoList != []
      ensures
        var c := redoList[|redoList| - 1];
        && FitsNow(TaskOf(c))
        && Executed(items, TaskOf(c)) == Replayed(base, Tasks(commandList + [c]))
    {
      var n := |redoList| - 1;
      var c := redoList[n];
      Shift(commandList, redoList);
      RunFits(base, commandList, c, Reversed(redoList[..n]));
      RunMore(base, commandList, c);
      FitsShown(TaskOf(c));
    }

    method RunUndo(ghost base: Items) returns (ok: bool)
      requires InRun(base)
      modifies this
      ensures InRun(base) && ok == (old(commandList) != []) && old(log) <= log
      ensures ok ==> Moved(old(commandList), commandList, old(redoList), redoList)
      ensures !ok ==> commandList == old(commandList) && redoList == old(redoList)
      ensures allow == old(allow) && items.Keys == old(items.Keys)
      ensures |log| == |old(log)| + (if ok then 1 else 0)
    {
      hide Coherent, Showing, Track, SentOnce, Reversed, Replayed, Tasks, Executed, UndoTaskOf, TaskOf, FitsNow;
      if commandList != [] {
        UndoReady(base);
        Shift(commandList[..|commandList| - 1], redoList + [commandList[|commandList| - 1]]);
        assert (redoList + [commandList[|commandList| - 1]])[..|redoList|] == redoList;
        assert commandList[..|commandList| - 1] + [commandList[|commandList| - 1]] == commandList;
      }
      ok := UndoCommand();
    }

    method RunRedo(ghost base: Items) returns (ok: bool)
      requires InRun(base)
      modifies this
      ensures InRun(base) && ok == (old(redoList) != []) && old(log) <= log
      ensures ok ==> Moved(old(redoList), redoList, old(commandList), commandList)
      ensures !ok ==> commandList == old(commandList) && redoList == old(redoList)
      ensures allow == old(allow) && items.Keys == old(items.Keys)
      ensures |log| == |old(log)| + (if ok then 1 else 0)
    {
      hide Coherent, Showing, Track, SentOnce, Reversed, Replayed, Tasks, Executed, UndoTaskOf, TaskOf, FitsNow;
      if redoList != [] {
        RedoReady(base);
        Shift(commandList, redoList);
      }
      ok := RedoCommand();
    }

    // As many redos as undos bring back both stacks and the canvas; the log keeps growing.
    method UndoRedo(k: nat, ghost base: Items)
      requires InRun(base) && k <= |commandList|
      modifies this
      ensures InRun(base) && items == old(items) && commandList == old(commandList) && redoList == old(redoList)
      ensures old(log) <= log && |log| == |old(log)| + 2 * k
    {
      hide Coherent, Showing, Track, SentOnce, InRun;
      ghost var stack, n := commandList, |redoList|;
      InRunItems(base);
      var i := 0;
      while i < k
        invariant 0 <= i <= k && InRun(base) && old(log) <= log && |log| == |old(log)| + i
        invariant commandList == stack[..|stack| - i]
        invariant redoList == old(redoList) + Reversed(stack[|stack| - i..])
      {
        var ok := RunUndo(base);
        i := i + 1;
      }
      while i > 0
        invariant 0 <= i <= k && InRun(base) && old(log) <= log && |log| == |old(log)| + 2 * k - i
        invariant commandList == stack[..|stack| - i]
        invariant redoList == old(redoList) + Reversed(stack[|stack| - i..])
      {
        var ok := RunRedo(base);
        i := i - 1;
      }
      assert commandList == stack && redoList == old(redoList);
      InRunItems(base);
    }

    lemma {:induction false} InRunItems(base: Items)
      requires InRun(base)
      ensures items == Replayed(base, Tasks(commandList))
    {
    }

    // A new command of a run; it clears the stack of undone commands.
    method RunExecute(c: Command, ghost base: Items) returns (ok: bool)
      requires InRun(base) && (c.Add? || c.Remove?) && c.key in items && c.key.owner in allow && Fits(items[c.key], TaskOf(c))
      modifies this
      ensures InRun(base) && ok && old(log) <= log && commandList == old(commandList) + [c] && redoList == []
      ensures allow == old(allow) && items.Keys == old(items.Keys)
    {
      hide Coherent, Showing, Track, SentOnce;
      FitsShown(TaskOf(c));
      TasksPrefix(commandList, Reversed(redoList));
      CoherentPrefix(base, Tasks(commandList + Reversed(redoList)), |commandList|);
      RunCoherent(base, commandList, c);
      RunMore(base, commandList, c);
      assert commandList + [c] + Reversed([]) == commandList + [c];
      ok := ExecuteCommand(c);
    }

    // Any sequence of additions, removals, undos and redos. Only commands that make sense for what is on the canvas can be
    // given: adding an item that is not on it, removing one that is.
    method Session(actions: seq<Action>, ghost base: Items)
      requires InRun(base)
      modifies this
      ensures InRun(base) && items == Replayed(base, Tasks(commandList)) && old(log) <= log
    {
      hide Coherent, Showing, Track, SentOnce, InRun;
      var i := 0;
      while i < |actions|
        invariant InRun(base) && old(log) <= log
      {
        var ok;
        match actions[i] {
          case Execute(c) =>
            if (c.Add? || c.Remove?) && c.key in items && c.key.owner in allow && items[c.key].drawn == c.Remove? {
              ok := RunExecute(c, base);
            }
          case Undo => ok := RunUndo(base);
          case Redo => ok := RunRedo(base);
        }
        i := i + 1;
      }
      InRunItems(base);
    }
  }

  // ----- a user who joins late

  // What is sent of an item is its data; the copy is not on the canvas yet.
  function Sent(it: Item): Item {
    it.(drawn := false)
  }

  // The sender's items differ from the initial ones only in what some task of the log writes.
  lemma SenderAgrees(items: Items, init: Items, log: seq<Task>, n: nat, allow: set<string>, k: Key)
    requires Showing(items, init, log, n, allow) && k in items && !init[k].drawn
    ensures AgreeOutside(Sent(items[k]), init[k], log, k)
  {
    TrackChanges(init[k], log[..n], k);
    assert forall t :: t in log[..n] ==> t in log;
  }

  // Whatever the sender's playback position and painters, replaying the whole log over the sent items ends where replaying
  // it over the initial items ends.
  lemma {:induction false} SyncConverges(items: Items, init: Items, log: seq<Task>, n: nat, allow: set<string>, k: Key)
    requires Showing(items, init, log, n, allow) && k in items && !init[k].drawn
    ensures Track(Sent(items[k]), log, k) == Track(init[k], log, k)
  {
    SenderAgrees(items, init, log, n, allow, k);
    LastWriteWins(Sent(items[k]), init[k], log, k);
  }

  // The receiver is told about every painter and every item.
  method CopyItems(sender: CommandManager, painters: set<string>) returns (receiver: CommandManager)
    requires forall k :: k in sender.items ==> k.owner in painters
    ensures fresh(receiver) && receiver.Valid() && receiver.log == [] && receiver.sent == []
    ensures receiver.cur == INIT_PLAYBACK_POS && receiver.allow == painters
    ensures receiver.items.Keys == sender.items.Keys
    ensures forall k :: k in receiver.items ==> receiver.items[k] == Sent(sender.items[k])
    ensures forall k :: k in sender.items ==> receiver.items[k] == Item(false, sender.items[k].x, sender.items[k].y, sender.items[k].scale)
  {
    hide Coherent, Showing;
    receiver := new CommandManager();
    var ps := painters;
    while ps != {}
      invariant fresh(receiver) && receiver.Valid() && receiver.items == map[] && receiver.log == [] && receiver.sent == []
      invariant receiver.cur == INIT_PLAYBACK_POS && receiver.allow + ps == painters
      decreases ps
    {
      var p :| p in ps;
      ps := ps - {p};
      receiver.AddPainter(p);
    }
    var ks := sender.items.Keys;
    while ks != {}
      invariant fresh(receiver) && receiver.Valid() && receiver.log == [] && receiver.sent == []
      invariant receiver.cur == INIT_PLAYBACK_POS && receiver.allow == painters && ks <= sender.items.Keys
      invariant receiver.items.Keys == sender.items.Keys - ks
      invariant forall k :: k in receiver.items ==> receiver.items[k] == Sent(sender.items[k])
      decreases ks
    {
      var k :| k in ks;
      ks := ks - {k};
      var ok := receiver.AddHistoryItem(k, Sent(sender.items[k]));
    }
  }

  // And carries out the whole log.
  method ReplayLog(receiver: CommandManager, log: seq<Task>)
    requires receiver.SentOnce() && receiver.log == [] && receiver.cur == INIT_PLAYBACK_POS && receiver.sent == []
    requires forall k :: k in receiver.items ==> k.owner in receiver.allow
    modifies receiver
    ensures receiver.items.Keys == old(receiver.items.Keys)
    ensures receiver.log == log && receiver.SentOnce() && receiver.cur == (if log == [] then INIT_PLAYBACK_POS else |log| - 1)
    ensures receiver.items == Replayed(old(receiver.items), log) && receiver.allow == old(receiver.allow) && receiver.sent == []
  {
    hide Applied, CommandManager.Shown, Track;
    var i := 0;
    while i < |log|
      invariant 0 <= i <= |log| && receiver.allow == old(receiver.allow) && receiver.sent == []
      invariant receiver.log == log[..i] && receiver.SentOnce() && receiver.cur == if i == 0 then INIT_PLAYBACK_POS else i - 1
      invariant receiver.items == Replayed(old(receiver.items), log[..i])
      invariant forall k :: k in receiver.items ==> k.owner in receiver.allow
    {
      receiver.ExecuteTask(log[i], false);
      assert log[..i + 1] == log[..i] + [log[i]];
      i := i + 1;
    }
    assert log[..i] == log;
  }

  // Sync of an empty receiver: every painter, every item as it is at the sender, and then the whole log. The receiver ends
  // with the sender's log and with what the whole log makes of the initial items; for its later playback these are its
  // initial items as well.
  method Sync(sender: CommandManager, painters: set<string>) returns (receiver: CommandManager)
    requires sender.Consistent() && (forall k :: k in sender.items ==> !sender.initial[k].drawn)
    requires forall k :: k in sender.items ==> k.owner in painters
    ensures fresh(receiver) && receiver.Consistent() && !receiver.PlaybackMode() && (sender.Valid() ==> receiver.Valid())
    ensures receiver.log == sender.log && receiver.initial == sender.initial && receiver.allow == painters
    ensures receiver.items.Keys == sender.items.Keys
    ensures forall k :: k in receiver.items ==> receiver.items[k] == Track(sender.initial[k], sender.log, k)
    ensures receiver.sent == []
  {
    hide Coherent, Replayed, Track;
    receiver := CopyItems(sender, painters);
    ghost var copies := receiver.items;
    ReplayLog(receiver, sender.log);
    receiver.initial := sender.initial;
    forall k | k in receiver.items
      ensures receiver.items[k] == Track(sender.initial[k], sender.log, k)
    {
      ReplayTracks(copies, sender.log, k);
      SyncConverges(sender.items, sender.initial, sender.log, sender.Shown(), sender.allow, k);
    }
    NowShowing(receiver.items, sender.initial, sender.log, receiver.Shown(), painters);
  }

  lemma {:induction false} NowShowing(items: Items, init: Items, log: seq<Task>, n: nat, allow: set<string>)
    requires items.Keys == init.Keys && n == |log|
    requires forall k :: k in items ==> k.owner in allow && items[k] == Track(init[k], log, k)
    ensures Showing(items, init, log, n, allow)
  {
    assert log[..n] == log;
  }
}

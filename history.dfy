/**
 * The editor's command history as a value: the node/way maps with the undo
 * and redo stacks (OSMEditor's `executeCommand`, `undo`, `redo` and the push
 * done by `moveSelectedNode`), and the laws relating them.
 */
module UndoHistory {
  import opened OsmGraph
  import opened Commands

  /** `maxUndoLevels`. */
  const MaxUndoLevels: nat := 50

  /** The maps together with both stacks; the top of a stack is its last element. */
  datatype History = History(store: Store, undo: seq<Command>, redo: seq<Command>)

  /** The stack-size bound the cap is meant to keep. */
  predicate Bounded(h: History)
  {
    |h.undo| + |h.redo| <= MaxUndoLevels
  }

  /** Push onto the undo stack, then drop the oldest entry once if the stack is longer than the cap. */
  function PushCapped(undo: seq<Command>, c: Command): (r: seq<Command>)
    ensures r != [] && r[|r| - 1] == c
    ensures |r| == if |undo| < MaxUndoLevels then |undo| + 1 else |undo|
    ensures forall i :: 0 <= i < |r| - 1 ==> r[i] == undo[|undo| + 1 - |r| + i]
  {
    var pushed := undo + [c];
    if |pushed| > MaxUndoLevels then pushed[1..] else pushed
  }

  /** `executeCommand(c)`: run it, push it with the cap, clear the redo stack. */
  function ExecuteCommand(h: History, c: Command): (r: History)
    ensures r.store == Execute(c, h.store) && r.redo == []
    ensures r.undo != [] && r.undo[|r.undo| - 1] == c
  {
    History(Execute(c, h.store), PushCapped(h.undo, c), [])
  }

  /** `undo()`: nothing on an empty stack, else revert the top command and move it onto the redo stack. */
  function Undo(h: History): (r: History)
    ensures h.undo == [] ==> r == h
    ensures h.undo != [] ==>
      var c := h.undo[|h.undo| - 1];
      && r.store == Revert(c, h.store)
      && r.undo + [c] == h.undo && r.redo == h.redo + [c]
    ensures |r.undo| + |r.redo| == |h.undo| + |h.redo|
  {
    if h.undo == [] then h
    else
      var c := h.undo[|h.undo| - 1];
      History(Revert(c, h.store), h.undo[..|h.undo| - 1], h.redo + [c])
  }

  /** `redo()`: nothing on an empty stack, else execute the top command again and push it back, uncapped. */
  function Redo(h: History): (r: History)
    ensures h.redo == [] ==> r == h
    ensures h.redo != [] ==>
      var c := h.redo[|h.redo| - 1];
      && r.store == Execute(c, h.store)
      && r.undo == h.undo + [c] && r.redo + [c] == h.redo
    ensures |r.undo| + |r.redo| == |h.undo| + |h.redo|
  {
    if h.redo == [] then h
    else
      var c := h.redo[|h.redo| - 1];
      History(Execute(c, h.store), h.undo + [c], h.redo[..|h.redo| - 1])
  }

  /**
   * `executeCommand` always leaves an undo stack of at most the cap when it
   * started within it, ending with the new command, with an empty redo stack.
   */
  lemma ExecuteKeepsCap(h: History, c: Command)
    requires |h.undo| <= MaxUndoLevels
    ensures var r := ExecuteCommand(h, c);
      && |r.undo| <= MaxUndoLevels && r.undo != [] && r.undo[|r.undo| - 1] == c && r.redo == []
  {
  }

  /** At the cap the oldest entry is the one dropped; below it nothing is dropped. */
  lemma ExecuteDropsOldest(h: History, c: Command)
    ensures |h.undo| == MaxUndoLevels ==> ExecuteCommand(h, c).undo == h.undo[1..] + [c]
    ensures |h.undo| < MaxUndoLevels ==> ExecuteCommand(h, c).undo == h.undo + [c]
  {
    if |h.undo| == MaxUndoLevels {
      assert (h.undo + [c])[1..] == h.undo[1..] + [c];
    }
  }

  /** Execute, undo and redo all keep the total size of both stacks within the cap. */
  lemma BoundedPreserved(h: History, c: Command)
    requires Bounded(h)
    ensures Bounded(ExecuteCommand(h, c))
    ensures Bounded(Undo(h))
    ensures Bounded(Redo(h))
  {
  }

  /** Undo and redo never change the total number of commands on the two stacks. */
  lemma UndoRedoConserveCommands(h: History)
    ensures |Undo(h).undo| + |Undo(h).redo| == |h.undo| + |h.redo|
    ensures |Redo(h).undo| + |Redo(h).redo| == |h.undo| + |h.redo|
    ensures h.undo != [] ==> Undo(h).redo[..|h.redo|] == h.redo
    ensures h.redo != [] ==> Redo(h).redo == h.redo[..|h.redo| - 1]
  {
  }

  /**
   * Undo right after execute restores the maps, when the command's snapshots
   * match the state it ran in, and leaves exactly that command to redo.
   */
  lemma UndoAfterExecuteRestores(h: History, c: Command)
    requires Consistent(c, h.store)
    ensures Undo(ExecuteCommand(h, c)).store == h.store
    ensures Undo(ExecuteCommand(h, c)).redo == [c]
    ensures |h.undo| < MaxUndoLevels ==> Undo(ExecuteCommand(h, c)).undo == h.undo
  {
    UndoAfterExecute(c, h.store);
    var e := ExecuteCommand(h, c);
    assert e.undo[|e.undo| - 1] == c;
    if |h.undo| < MaxUndoLevels {
      assert e.undo == h.undo + [c];
      assert e.undo[..|e.undo| - 1] == h.undo;
    }
  }

  /**
   * Undoing once and redoing once reproduces exactly the history left by the
   * original execute, stacks included (whatever the cap dropped stays dropped).
   */
  lemma RedoAfterUndoAfterExecute(h: History, c: Command)
    ensures Redo(Undo(ExecuteCommand(h, c))) == ExecuteCommand(h, c)
  {
    var e := ExecuteCommand(h, c);
    var u := Undo(e);
    assert e.undo != [] && e.undo[|e.undo| - 1] == c;
    assert u.redo == [c];
    ExecuteAfterUndo(c, h.store);
    assert Redo(u).undo == e.undo[..|e.undo| - 1] + [c];
    assert e.undo[..|e.undo| - 1] + [c] == e.undo;
  }

  /**
   * Redo followed by undo is the identity on a history whose next redo
   * command's snapshots match the current maps.
   */
  lemma UndoAfterRedo(h: History)
    requires h.redo != [] && Consistent(h.redo[|h.redo| - 1], h.store)
    ensures Undo(Redo(h)) == h
  {
    var c := h.redo[|h.redo| - 1];
    UndoAfterExecute(c, h.store);
    var r := Redo(h);
    assert r.undo[..|r.undo| - 1] == h.undo;
    assert r.redo + [c] == h.redo;
  }

  /** Undo and redo on an empty stack leave everything as it was. */
  lemma EmptyStacksAreNoOps(h: History)
    ensures h.undo == [] ==> Undo(h) == h
    ensures h.redo == [] ==> Redo(h) == h
  {
  }

  /** Executing a list of commands one after the other through `executeCommand`. */
  function ExecuteEach(h: History, cs: seq<Command>): History
    decreases |cs|
  {
    if cs == [] then h else ExecuteEach(ExecuteCommand(h, cs[0]), cs[1..])
  }

  function Min(a: nat, b: nat): nat
  {
    if a <= b then a else b
  }

  /**
   * From an empty undo stack, executing any number of commands leaves exactly
   * the most recent ones on the undo stack, at most the cap of them, oldest
   * first, and maps changed by all of them in order.
   */
  lemma {:induction false} ExecuteEachKeepsLatest(h: History, cs: seq<Command>)
    requires |h.undo| <= MaxUndoLevels
    ensures var r := ExecuteEach(h, cs);
      && |r.undo| == Min(|h.undo| + |cs|, MaxUndoLevels)
      && r.undo == (h.undo + cs)[|h.undo| + |cs| - |r.undo|..]
      && r.store == ExecuteAll(cs, h.store)
      && (cs != [] ==> r.redo == [])
      && (cs == [] ==> r == h)
    decreases |cs|
  {
    if cs != [] {
      var h1 := ExecuteCommand(h, cs[0]);
      ExecuteDropsOldest(h, cs[0]);
      ExecuteEachKeepsLatest(h1, cs[1..]);
      var r := ExecuteEach(h1, cs[1..]);
      var n := |h.undo| + |cs|;
      assert h.undo + cs == (h.undo + [cs[0]]) + cs[1..];
      if |h.undo| == MaxUndoLevels {
        assert h1.undo + cs[1..] == (h.undo + cs)[1..];
      } else {
        assert h1.undo + cs[1..] == h.undo + cs;
      }
    }
  }

  /** Executing one more command extends the run by one `executeCommand`. */
  lemma {:induction false} ExecuteEachSnoc(h: History, cs: seq<Command>, c: Command)
    ensures ExecuteEach(h, cs + [c]) == ExecuteCommand(ExecuteEach(h, cs), c)
    decreases |cs|
  {
    if cs == [] {
      assert ExecuteEach(h, [c]) == ExecuteEach(ExecuteCommand(h, c), []);
    } else {
      assert (cs + [c])[0] == cs[0];
      assert (cs + [c])[1..] == cs[1..] + [c];
      ExecuteEachSnoc(ExecuteCommand(h, cs[0]), cs[1..], c);
    }
  }

  /** Two runs one after the other are one run of both. */
  lemma {:induction false} ExecuteEachAppend(h: History, a: seq<Command>, b: seq<Command>)
    ensures ExecuteEach(h, a + b) == ExecuteEach(ExecuteEach(h, a), b)
    decreases |a|
  {
    if a == [] {
      assert a + b == b;
    } else {
      assert (a + b)[0] == a[0];
      assert (a + b)[1..] == a[1..] + b;
      ExecuteEachAppend(ExecuteCommand(h, a[0]), a[1..], b);
    }
  }

  /** Undoing `n` times. */
  function UndoTimes(h: History, n: nat): History
    decreases n
  {
    if n == 0 then h else UndoTimes(Undo(h), n - 1)
  }

  lemma {:induction false} UndoTimesPops(h: History, cs: seq<Command>)
    requires h.undo == cs
    ensures UndoTimes(h, |cs|).store == RevertAll(cs, h.store)
    ensures UndoTimes(h, |cs|).undo == []
    decreases |cs|
  {
    if cs != [] {
      var u := Undo(h);
      assert u.undo == cs[..|cs| - 1];
      UndoTimesPops(u, cs[..|cs| - 1]);
    }
  }

  /**
   * Executing up to the cap of commands from an empty undo stack, each
   * consistent with the maps it meets, and then undoing as many times,
   * restores the maps and empties the undo stack.
   */
  lemma UndoAllAfterExecuteAll(h: History, cs: seq<Command>)
    requires h.undo == [] && |cs| <= MaxUndoLevels
    requires ConsistentAll(cs, h.store)
    ensures UndoTimes(ExecuteEach(h, cs), |cs|).store == h.store
    ensures UndoTimes(ExecuteEach(h, cs), |cs|).undo == []
  {
    ExecuteEachKeepsLatest(h, cs);
    var e := ExecuteEach(h, cs);
    assert e.undo == cs;
    UndoTimesPops(e, cs);
    UndoAllRestores(cs, h.store);
  }

  /**
   * What `moveSelectedNode` does to the stacks after moving the node in
   * place: push the command with no cap and clear the redo stack.
   */
  function PushMoved(h: History, c: Command): (r: History)
    ensures r.store == h.store && r.redo == []
    ensures r.undo == h.undo + [c] && |r.undo| == |h.undo| + 1
  {
    History(h.store, h.undo + [c], [])
  }

  /**
   * The push of `moveSelectedNode` skips the cap: from a full undo stack it
   * leaves one more entry than `maxUndoLevels`, and a later `executeCommand`
   * shifts only once, so the excess stays.
   */
  lemma MovePushExceedsCap(h: History, c: Command, d: Command)
    requires |h.undo| == MaxUndoLevels
    ensures |PushMoved(h, c).undo| == MaxUndoLevels + 1
    ensures |ExecuteCommand(PushMoved(h, c), d).undo| == MaxUndoLevels + 1
    ensures !Bounded(PushMoved(h, c))
  {
  }
}

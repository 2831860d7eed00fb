/**
 * The four reversible edit commands (AddObjectCommand, DeleteObjectCommand,
 * ModifyTagsCommand, MoveNodeCommand) as one datatype, with what `execute()`
 * and `undo()` do to the editor's node and way maps stated as functions.
 *
 * Every command keeps value snapshots of what it needs (the source deep-copies
 * them with structuredClone or an array spread at construction): here they are
 * immutable values, so a later change to the live object cannot alter them.
 */
module Commands {
  import opened Wrappers
  import opened OsmGraph

  /** The two maps every command edits. */
  datatype Store = Store(nodes: map<int, Node>, ways: map<int, Way>)

  /**
   * The object type string together with the payload of Add/Delete:
   * 'node' with node data, 'way' with way data, or any other type string.
   */
  datatype Obj = NodeObj(node: Node) | WayObj(way: Way) | OtherObj(kind: string)

  /** The object type string of ModifyTagsCommand. */
  datatype Kind = NodeKind | WayKind | OtherKind(name: string)

  /** A `[lon, lat]` position array. */
  datatype Pos = Pos(lon: real, lat: real)

  datatype Command =
    | AddObject(id: int, obj: Obj)
    | DeleteObject(id: int, obj: Obj, affectedWays: map<int, Way>)
    | ModifyTags(kind: Kind, id: int, oldTags: Tags, newTags: Tags)
    | MoveNode(id: int, oldPos: Pos, newPos: Pos)

  /** DeleteObjectCommand's constructor: a missing `affectedWays` becomes the empty snapshot. */
  function NewDeleteObject(id: int, obj: Obj, affectedWays: Option<map<int, Way>>): (c: Command)
    ensures c.DeleteObject? && c.id == id && c.obj == obj
    ensures c.affectedWays == if affectedWays.Some? then affectedWays.value else map[]
  {
    DeleteObject(id, obj, if affectedWays.Some? then affectedWays.value else map[])
  }

  /** A node's position as a `[lon, lat]` pair. */
  function PosOf(n: Node): Pos
  {
    Pos(n.lon, n.lat)
  }

  /**
   * `execute()` of each command: only the addressed map changes, and in it
   * only the addressed object (and, for a node deletion, the ways in its
   * snapshot); an added object is present as given, a deleted one is gone,
   * with the ways that held a deleted node; an unknown type changes nothing.
   */
  function Execute(c: Command, s: Store): (r: Store)
    ensures forall k :: k != c.id ==> (k in r.nodes <==> k in s.nodes) && (k in s.nodes ==> r.nodes[k] == s.nodes[k])
    ensures forall k :: k != c.id && !(c.DeleteObject? && k in c.affectedWays) ==>
      (k in r.ways <==> k in s.ways) && (k in s.ways ==> r.ways[k] == s.ways[k])
    ensures c.AddObject? && c.obj.NodeObj? ==> c.id in r.nodes && r.nodes[c.id] == c.obj.node
    ensures c.AddObject? && c.obj.WayObj? ==> c.id in r.ways && r.ways[c.id] == c.obj.way
    ensures c.DeleteObject? && c.obj.NodeObj? ==> c.id !in r.nodes && forall k :: k in c.affectedWays ==> k !in r.ways
    ensures c.DeleteObject? && c.obj.WayObj? ==> c.id !in r.ways
    ensures c.AddObject? && !c.obj.WayObj? ==> r.ways == s.ways
    ensures c.AddObject? && !c.obj.NodeObj? ==> r.nodes == s.nodes
    ensures c.DeleteObject? && !c.obj.NodeObj? ==> r.nodes == s.nodes
    ensures c.DeleteObject? && c.obj.NodeObj? ==> r.ways == s.ways - c.affectedWays.Keys
    ensures (c.AddObject? || c.DeleteObject?) && c.obj.OtherObj? ==> r == s
    ensures c.ModifyTags? || c.MoveNode? ==> r.nodes.Keys == s.nodes.Keys && r.ways.Keys == s.ways.Keys
    ensures c.MoveNode? ==> r.ways == s.ways
  {
    match c
    case AddObject(id, obj) =>
      (match obj
       case NodeObj(n) => s.(nodes := s.nodes[id := n])
       case WayObj(w) => s.(ways := s.ways[id := w])
       case OtherObj(_) => s)
    case DeleteObject(id, obj, affected) =>
      (match obj
       case NodeObj(_) => Store(s.nodes - {id}, s.ways - affected.Keys)
       case WayObj(_) => s.(ways := s.ways - {id})
       case OtherObj(_) => s)
    case ModifyTags(kind, id, _, newTags) => SetTags(s, kind, id, newTags)
    case MoveNode(id, _, newPos) => SetPos(s, id, newPos)
  }

  /**
   * `undo()` of each command: only the addressed map changes, and in it only
   * the addressed object (and, for a node deletion, the ways in its
   * snapshot); an added object is gone again, a deleted one is back as its
   * snapshot, with the ways that held it; an unknown type changes nothing.
   */
  function Revert(c: Command, s: Store): (r: Store)
    ensures forall k :: k != c.id ==> (k in r.nodes <==> k in s.nodes) && (k in s.nodes ==> r.nodes[k] == s.nodes[k])
    ensures forall k :: k != c.id && !(c.DeleteObject? && k in c.affectedWays) ==>
      (k in r.ways <==> k in s.ways) && (k in s.ways ==> r.ways[k] == s.ways[k])
    ensures c.AddObject? && c.obj.NodeObj? ==> c.id !in r.nodes
    ensures c.AddObject? && c.obj.WayObj? ==> c.id !in r.ways
    ensures c.DeleteObject? && c.obj.NodeObj? ==>
      && c.id in r.nodes && r.nodes[c.id] == c.obj.node
      && forall k :: k in c.affectedWays ==> k in r.ways && r.ways[k] == c.affectedWays[k]
    ensures c.DeleteObject? && c.obj.WayObj? ==> c.id in r.ways && r.ways[c.id] == c.obj.way
    ensures c.AddObject? && !c.obj.WayObj? ==> r.ways == s.ways
    ensures c.AddObject? && !c.obj.NodeObj? ==> r.nodes == s.nodes
    ensures c.DeleteObject? && !c.obj.NodeObj? ==> r.nodes == s.nodes
    ensures c.DeleteObject? && c.obj.NodeObj? ==> r.ways == s.ways + c.affectedWays
    ensures (c.AddObject? || c.DeleteObject?) && c.obj.OtherObj? ==> r == s
    ensures c.ModifyTags? || c.MoveNode? ==> r.nodes.Keys == s.nodes.Keys && r.ways.Keys == s.ways.Keys
    ensures c.MoveNode? ==> r.ways == s.ways
  {
    match c
    case AddObject(id, obj) =>
      (match obj
       case NodeObj(_) => s.(nodes := s.nodes - {id})
       case WayObj(_) => s.(ways := s.ways - {id})
       case OtherObj(_) => s)
    case DeleteObject(id, obj, affected) =>
      (match obj
       case NodeObj(n) => Store(s.nodes[id := n], s.ways + affected)
       case WayObj(w) => s.(ways := s.ways[id := w])
       case OtherObj(_) => s)
    case ModifyTags(kind, id, oldTags, _) => SetTags(s, kind, id, oldTags)
    case MoveNode(id, oldPos, _) => SetPos(s, id, oldPos)
  }

  /**
   * The tag replacement shared by ModifyTagsCommand's execute and undo: an
   * existing node or way gets `tags`; a missing object or an unknown type
   * changes nothing, and nothing but that one object's tags ever changes.
   */
  function SetTags(s: Store, kind: Kind, id: int, tags: Tags): (r: Store)
    ensures r.nodes.Keys == s.nodes.Keys && r.ways.Keys == s.ways.Keys
    ensures forall k :: k in s.nodes ==>
      r.nodes[k] == if kind == NodeKind && k == id then s.nodes[k].(tags := tags) else s.nodes[k]
    ensures forall k :: k in s.ways ==>
      r.ways[k] == if kind == WayKind && k == id then s.ways[k].(tags := tags) else s.ways[k]
  {
    if kind == NodeKind && id in s.nodes then s.(nodes := s.nodes[id := s.nodes[id].(tags := tags)])
    else if kind == WayKind && id in s.ways then s.(ways := s.ways[id := s.ways[id].(tags := tags)])
    else s
  }

  /**
   * The position assignment shared by MoveNodeCommand's execute and undo:
   * an existing node gets `p` as its lon/lat and keeps its tags; a missing node
   * changes nothing; other nodes and all ways are untouched.
   */
  function SetPos(s: Store, id: int, p: Pos): (r: Store)
    ensures r.nodes.Keys == s.nodes.Keys && r.ways == s.ways
    ensures forall k :: k in s.nodes ==>
      r.nodes[k] == if k == id then Node(p.lon, p.lat, s.nodes[k].tags) else s.nodes[k]
  {
    if id in s.nodes then s.(nodes := s.nodes[id := s.nodes[id].(lon := p.lon, lat := p.lat)])
    else s
  }

  /**
   * The snapshot condition under which `undo()` after `execute()` restores
   * the maps exactly: an added id was free; a deleted object's snapshot is the
   * live entry and, for a node, the affected ways are exactly the ways that
   * contain it (as deleteSelected builds them); a tag or position change
   * remembers the current tags or position.
   */
  predicate Consistent(c: Command, s: Store)
  {
    match c
    case AddObject(id, obj) =>
      (obj.NodeObj? ==> id !in s.nodes) && (obj.WayObj? ==> id !in s.ways)
    case DeleteObject(id, obj, affected) =>
      && (obj.NodeObj? ==> id in s.nodes && s.nodes[id] == obj.node && affected == WaysContaining(s.ways, id))
      && (obj.WayObj? ==> id in s.ways && s.ways[id] == obj.way)
    case ModifyTags(kind, id, oldTags, _) =>
      && (kind == NodeKind && id in s.nodes ==> s.nodes[id].tags == oldTags)
      && (kind == WayKind && id in s.ways ==> s.ways[id].tags == oldTags)
    case MoveNode(id, oldPos, _) =>
      id in s.nodes ==> PosOf(s.nodes[id]) == oldPos
  }

  lemma MapUpdateRemove<V>(m: map<int, V>, k: int, v: V)
    requires k !in m
    ensures m[k := v] - {k} == m
  {
    assert (m[k := v] - {k}).Keys == m.Keys;
  }

  lemma MapRemoveUpdate<V>(m: map<int, V>, k: int, v: V)
    requires k in m && m[k] == v
    ensures (m - {k})[k := v] == m
  {
    assert ((m - {k})[k := v]).Keys == m.Keys;
  }

  lemma RestoreRemoved(ways: map<int, Way>, affected: map<int, Way>)
    requires forall k :: k in affected ==> k in ways && affected[k] == ways[k]
    ensures (ways - affected.Keys) + affected == ways
  {
    var r := (ways - affected.Keys) + affected;
    forall k ensures k in r <==> k in ways {
      if k in affected { assert k in ways; }
    }
    assert r.Keys == ways.Keys;
    forall k | k in r ensures r[k] == ways[k] {
      if k in affected { assert r[k] == affected[k]; } else { assert r[k] == ways[k]; }
    }
  }

  /** AddObjectCommand: `undo()` after `execute()` restores both maps when the id was free. */
  lemma AddThenUndoRestores(id: int, obj: Obj, s: Store)
    requires obj.NodeObj? ==> id !in s.nodes
    requires obj.WayObj? ==> id !in s.ways
    ensures Revert(AddObject(id, obj), Execute(AddObject(id, obj), s)) == s
  {
    match obj
    case NodeObj(n) => MapUpdateRemove(s.nodes, id, n);
    case WayObj(w) => MapUpdateRemove(s.ways, id, w);
    case OtherObj(_) =>
  }

  /**
   * DeleteObjectCommand: `undo()` after `execute()` restores both maps when
   * the snapshot is the live entry and, for a node, the affected ways are the
   * ways containing it.
   */
  lemma DeleteThenUndoRestores(id: int, obj: Obj, affected: map<int, Way>, s: Store)
    requires Consistent(DeleteObject(id, obj, affected), s)
    ensures Revert(DeleteObject(id, obj, affected), Execute(DeleteObject(id, obj, affected), s)) == s
  {
    match obj
    case NodeObj(n) =>
      MapRemoveUpdate(s.nodes, id, n);
      assert forall k :: k in affected ==> k in s.ways && affected[k] == s.ways[k];
      RestoreRemoved(s.ways, affected);
    case WayObj(w) => MapRemoveUpdate(s.ways, id, w);
    case OtherObj(_) =>
  }

  /** ModifyTagsCommand: `undo()` after `execute()` restores the tags it remembered. */
  lemma ModifyTagsThenUndoRestores(kind: Kind, id: int, oldTags: Tags, newTags: Tags, s: Store)
    requires Consistent(ModifyTags(kind, id, oldTags, newTags), s)
    ensures Revert(ModifyTags(kind, id, oldTags, newTags), Execute(ModifyTags(kind, id, oldTags, newTags), s)) == s
  {
    var c := ModifyTags(kind, id, oldTags, newTags);
    var r := Revert(c, Execute(c, s));
    if kind == NodeKind && id in s.nodes {
      MapRemoveUpdate(s.nodes, id, s.nodes[id]);
      assert r.nodes == s.nodes[id := s.nodes[id]];
    } else if kind == WayKind && id in s.ways {
      MapRemoveUpdate(s.ways, id, s.ways[id]);
      assert r.ways == s.ways[id := s.ways[id]];
    }
  }

  /** MoveNodeCommand: `undo()` after `execute()` restores the position it remembered. */
  lemma MoveThenUndoRestores(id: int, oldPos: Pos, newPos: Pos, s: Store)
    requires Consistent(MoveNode(id, oldPos, newPos), s)
    ensures Revert(MoveNode(id, oldPos, newPos), Execute(MoveNode(id, oldPos, newPos), s)) == s
  {
    if id in s.nodes {
      var r := Revert(MoveNode(id, oldPos, newPos), Execute(MoveNode(id, oldPos, newPos), s));
      assert r.nodes[id] == s.nodes[id];
      assert r.nodes == s.nodes[id := s.nodes[id]];
      MapRemoveUpdate(s.nodes, id, s.nodes[id]);
    }
  }

  /** The inverse law for every command: under its snapshot condition, undo undoes execute. */
  lemma UndoAfterExecute(c: Command, s: Store)
    requires Consistent(c, s)
    ensures Revert(c, Execute(c, s)) == s
  {
    match c
    case AddObject(id, obj) => AddThenUndoRestores(id, obj, s);
    case DeleteObject(id, obj, affected) => DeleteThenUndoRestores(id, obj, affected, s);
    case ModifyTags(kind, id, oldTags, newTags) => ModifyTagsThenUndoRestores(kind, id, oldTags, newTags, s);
    case MoveNode(id, oldPos, newPos) => MoveThenUndoRestores(id, oldPos, newPos, s);
  }

  /**
   * Redo replays forward, with no condition: executing again after
   * `execute(); undo()` gives exactly the state after the first execute
   * (for Add, the identical data is reinserted).
   */
  lemma ExecuteAfterUndo(c: Command, s: Store)
    ensures Execute(c, Revert(c, Execute(c, s))) == Execute(c, s)
  {
    match c
    case AddObject(_, _) => AddAfterUndo(c, s);
    case DeleteObject(_, _, _) => DeleteAfterUndo(c, s);
    case ModifyTags(_, _, _, _) => ModifyAfterUndo(c, s);
    case MoveNode(_, _, _) => MoveAfterUndo(c, s);
  }

  lemma AddAfterUndo(c: Command, s: Store)
    requires c.AddObject?
    ensures Execute(c, Revert(c, Execute(c, s))) == Execute(c, s)
  {
    var e := Execute(c, s);
    if c.obj.NodeObj? {
      MapRemoveUpdate(e.nodes, c.id, c.obj.node);
    } else if c.obj.WayObj? {
      MapRemoveUpdate(e.ways, c.id, c.obj.way);
    }
  }

  lemma DeleteAfterUndo(c: Command, s: Store)
    requires c.DeleteObject?
    ensures Execute(c, Revert(c, Execute(c, s))) == Execute(c, s)
  {
    var e := Execute(c, s);
    var r := Revert(c, e);
    if c.obj.NodeObj? {
      assert (r.nodes - {c.id}).Keys == e.nodes.Keys;
      assert (r.ways - c.affectedWays.Keys).Keys == e.ways.Keys;
    } else if c.obj.WayObj? {
      assert (r.ways - {c.id}).Keys == e.ways.Keys;
    }
  }

  lemma ModifyAfterUndo(c: Command, s: Store)
    requires c.ModifyTags?
    ensures Execute(c, Revert(c, Execute(c, s))) == Execute(c, s)
  {
    var e := Execute(c, s);
    var r := Execute(c, Revert(c, e));
    if c.kind == NodeKind && c.id in s.nodes {
      assert r.nodes.Keys == e.nodes.Keys;
    } else if c.kind == WayKind && c.id in s.ways {
      assert r.ways.Keys == e.ways.Keys;
    }
  }

  lemma MoveAfterUndo(c: Command, s: Store)
    requires c.MoveNode?
    ensures Execute(c, Revert(c, Execute(c, s))) == Execute(c, s)
  {
    var e := Execute(c, s);
    var r := Execute(c, Revert(c, e));
    assert r.nodes.Keys == e.nodes.Keys;
  }

  /** ModifyTagsCommand's and MoveNodeCommand's `execute()` are idempotent. */
  lemma ExecuteIdempotent(c: Command, s: Store)
    requires c.ModifyTags? || c.MoveNode?
    ensures Execute(c, Execute(c, s)) == Execute(c, s)
  {
    var e := Execute(c, s);
    var r := Execute(c, e);
    assert r.nodes.Keys == e.nodes.Keys && r.ways.Keys == e.ways.Keys;
  }

  /** `execute()` of a sequence of commands, in order. */
  function ExecuteAll(cs: seq<Command>, s: Store): Store
    decreases |cs|
  {
    if cs == [] then s else ExecuteAll(cs[1..], Execute(cs[0], s))
  }

  /** `undo()` of a sequence of commands, most recent first. */
  function RevertAll(cs: seq<Command>, s: Store): Store
    decreases |cs|
  {
    if cs == [] then s else RevertAll(cs[..|cs| - 1], Revert(cs[|cs| - 1], s))
  }

  /** Each command meets its snapshot condition in the state its predecessors leave. */
  predicate ConsistentAll(cs: seq<Command>, s: Store)
    decreases |cs|
  {
    cs == [] || (Consistent(cs[0], s) && ConsistentAll(cs[1..], Execute(cs[0], s)))
  }

  lemma {:induction false} ExecuteAllSnoc(cs: seq<Command>, c: Command, s: Store)
    ensures ExecuteAll(cs + [c], s) == Execute(c, ExecuteAll(cs, s))
    decreases |cs|
  {
    if cs == [] {
      assert cs + [c] == [c];
    } else {
      assert (cs + [c])[1..] == cs[1..] + [c];
      ExecuteAllSnoc(cs[1..], c, Execute(cs[0], s));
    }
  }

  /** A run stays consistent when the next command is consistent with the state the run leaves. */
  lemma {:induction false} ConsistentAllSnoc(cs: seq<Command>, c: Command, s: Store)
    requires ConsistentAll(cs, s) && Consistent(c, ExecuteAll(cs, s))
    ensures ConsistentAll(cs + [c], s)
    decreases |cs|
  {
    if cs == [] {
      assert [c][1..] == [];
      assert cs + [c] == [c];
    } else {
      assert (cs + [c])[1..] == cs[1..] + [c];
      ConsistentAllSnoc(cs[1..], c, Execute(cs[0], s));
    }
  }

  /**
   * Executing N consistent commands and then undoing all N, most recent
   * first, restores both maps to their state before the sequence.
   */
  lemma {:induction false} UndoAllRestores(cs: seq<Command>, s: Store)
    requires ConsistentAll(cs, s)
    ensures RevertAll(cs, ExecuteAll(cs, s)) == s
    decreases |cs|
  {
    if cs != [] {
      var rest := cs[1..];
      var s1 := Execute(cs[0], s);
      UndoAllRestores(rest, s1);
      // Peel the first command off the end of the reverted sequence.
      RevertAllPrefix(cs, ExecuteAll(cs, s));
      assert ExecuteAll(cs, s) == ExecuteAll(rest, s1);
      UndoAfterExecute(cs[0], s);
    }
  }

  lemma {:induction false} RevertAllPrefix(cs: seq<Command>, s: Store)
    requires cs != []
    ensures RevertAll(cs, s) == Revert(cs[0], RevertAll(cs[1..], s))
    decreases |cs|
  {
    if |cs| == 1 {
      assert cs[..0] == [] && cs[1..] == [];
    } else {
      var last := cs[|cs| - 1];
      var init := cs[..|cs| - 1];
      RevertAllPrefix(init, Revert(last, s));
      assert init[0] == cs[0];
      assert init[1..] == cs[1..][..|cs[1..]| - 1];
      assert cs[1..][|cs[1..]| - 1] == last;
    }
  }
}

/*
 * The tag editor dialog: edits go to a working copy of one object's tags,
 * and applying hands the whole copy to a single ModifyTagsCommand through
 * the editor's undoable `executeCommand`.
 */
module TagEditor {
  import opened Wrappers
  import opened OsmGraph
  import opened Commands
  import Editing
  import UndoHistory

  /** The tags the dialog starts from: the node's for type 'node', else the way's; a missing object has none. */
  function LiveTags(s: Store, objType: string, id: int): (t: Tags)
    ensures objType == "node" && id in s.nodes ==> t == s.nodes[id].tags
    ensures objType != "node" && id in s.ways ==> t == s.ways[id].tags
    ensures (if objType == "node" then id !in s.nodes else id !in s.ways) ==> t == map[]
  {
    if objType == "node" then (if id in s.nodes then s.nodes[id].tags else map[])
    else if id in s.ways then s.ways[id].tags else map[]
  }

  /** ModifyTagsCommand's object type: 'node', 'way', or anything else, which it ignores. */
  function KindOf(objType: string): (k: Kind)
    ensures k == NodeKind <==> objType == "node"
    ensures k == WayKind <==> objType == "way"
  {
    if objType == "node" then NodeKind else if objType == "way" then WayKind else OtherKind(objType)
  }

  /** A prompt answer counts only when it is neither cancelled nor empty. */
  predicate Given(key: Option<string>)
  {
    key.Some? && key.value != ""
  }

  /** `addTag()`: a key that is cancelled or empty, or a cancelled value, changes nothing; otherwise the key is set. */
  function AddTag(tags: Tags, key: Option<string>, value: Option<string>): (r: Tags)
    ensures !Given(key) || value.None? ==> r == tags
    ensures Given(key) && value.Some? ==>
      && r.Keys == tags.Keys + {key.value} && r[key.value] == value.value
      && forall k :: k in tags && k != key.value ==> r[k] == tags[k]
  {
    if !Given(key) || value.None? then tags else tags[key.value := value.value]
  }

  /** `delTag()` on the selected key: only that key disappears. */
  function DelTag(tags: Tags, key: string): (r: Tags)
    ensures key !in r && r.Keys == tags.Keys - {key}
    ensures forall k :: k in r ==> r[k] == tags[k]
  {
    tags - {key}
  }

  /** Adding a key and deleting it again leaves what deleting alone leaves, and a new key leaves nothing behind. */
  lemma AddThenDelete(tags: Tags, key: string, value: string)
    requires key != ""
    ensures DelTag(AddTag(tags, Some(key), Some(value)), key) == DelTag(tags, key)
    ensures key !in tags ==> DelTag(AddTag(tags, Some(key), Some(value)), key) == tags
  {
    var once := DelTag(tags, key);
    var twice := DelTag(AddTag(tags, Some(key), Some(value)), key);
    assert twice.Keys == once.Keys;
    if key !in tags {
      assert once.Keys == tags.Keys;
    }
  }

  /** The command `apply()` runs: from the object's current tags to the edited ones. */
  function ApplyCommand(s: Store, objType: string, id: int, tags: Tags): Command
  {
    ModifyTags(KindOf(objType), id, LiveTags(s, objType, id), tags)
  }

  /**
   * After `apply()` the object shows exactly the edited tags and everything
   * else is as it was; undoing the command restores the data exactly, since
   * its old tags were read off the live object.
   */
  lemma ApplyThenUndo(s: Store, objType: string, id: int, tags: Tags)
    requires objType == "node" || objType == "way"
    ensures var after := Execute(ApplyCommand(s, objType, id, tags), s);
      && (objType == "node" && id in s.nodes ==> LiveTags(after, objType, id) == tags)
      && (objType == "way" && id in s.ways ==> LiveTags(after, objType, id) == tags)
      && after.nodes.Keys == s.nodes.Keys && after.ways.Keys == s.ways.Keys
      && (forall k :: k in s.nodes && (objType != "node" || k != id) ==> after.nodes[k] == s.nodes[k])
      && (forall k :: k in s.ways && (objType != "way" || k != id) ==> after.ways[k] == s.ways[k])
      && Revert(ApplyCommand(s, objType, id, tags), after) == s
  {
    var c := ApplyCommand(s, objType, id, tags);
    assert Consistent(c, s);
    ModifyTagsThenUndoRestores(c.kind, id, c.oldTags, tags, s);
  }

  /** The dialog: the edited object and the working copy of its tags. */
  class TagEditorDialog {
    const editor: Editing.Editor
    const objType: string
    const objId: int
    var tags: Tags

    /** The constructor copies the object's tags (none when it is missing). */
    constructor(editor: Editing.Editor, objType: string, objId: int)
      ensures this.editor == editor && this.objType == objType && this.objId == objId
      ensures tags == LiveTags(editor.Data(), objType, objId)
    {
      this.editor := editor;
      this.objType := objType;
      this.objId := objId;
      var obj: Option<Tags> := None;
      if objType == "node" {
        if objId in editor.nodes {
          obj := Some(editor.nodes[objId].tags);
        }
      } else if objId in editor.ways {
        obj := Some(editor.ways[objId].tags);
      }
      tags := if obj.Some? then obj.value else map[];
    }

    /** `addTag()` with the two prompt answers (`None` when cancelled). */
    method AddTagPrompt(key: Option<string>, value: Option<string>)
      modifies this`tags
      ensures tags == AddTag(old(tags), key, value)
    {
      if !Given(key) {
        return;
      }
      if value.None? {
        return;
      }
      tags := tags[key.value := value.value];
    }

    /** `editTag()`: without a selected row it alerts; a cancelled value changes nothing. */
    method EditTag(selected: Option<string>, value: Option<string>) returns (alerted: bool)
      modifies this`tags
      ensures alerted <==> !Given(selected)
      ensures tags == if alerted then old(tags) else AddTag(old(tags), selected, value)
    {
      if !Given(selected) {
        return true;
      }
      alerted := false;
      if value.None? {
        return;
      }
      tags := tags[selected.value := value.value];
    }

    /** `delTag()`: without a selected row it alerts; otherwise that key is deleted. */
    method DelTagSelected(selected: Option<string>) returns (alerted: bool)
      modifies this`tags
      ensures alerted <==> !Given(selected)
      ensures tags == if alerted then old(tags) else DelTag(old(tags), selected.value)
    {
      if !Given(selected) {
        return true;
      }
      alerted := false;
      tags := tags - {selected.value};
    }

    /** `apply()`: exactly one ModifyTagsCommand, through the undoable `executeCommand`. */
    method Apply()
      modifies editor`nodes, editor`ways, editor`undoStack, editor`redoStack
      ensures editor.Hist() == UndoHistory.ExecuteCommand(old(editor.Hist()), ApplyCommand(old(editor.Data()), objType, objId, tags))
    {
      var oldTags := LiveTags(editor.Data(), objType, objId);
      editor.ExecuteCommand(ModifyTags(KindOf(objType), objId, oldTags, tags));
    }
  }
}

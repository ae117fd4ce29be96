/**
 * One rendered mind-map node of src/modules/onemap/components/MindMapFlowNode.tsx:
 * its local state (the text-edit session and the two style popovers) as a
 * class, and the callbacks it fires into the canvas as the `NodeCall`s its
 * handlers return, in firing order. The node's current data is a parameter
 * of the handlers that read it; the user's answer to the delete prompt is a
 * boolean parameter.
 */
module MindMapFlowNode {
  import opened Wrappers
  import opened MindMapData
  import opened GraphOps

  /** A call into one of the callbacks the canvas hands each node. */
  datatype NodeCall =
    | UpdateNode(nodeId: Id, updates: NodeUpdate)
    | AddChild(nodeId: Id)
    | DeleteNode(nodeId: Id)
    | ToggleExpanded(nodeId: Id)
    | DuplicateNode(nodeId: Id)
    | ConnectNode(nodeId: Id)
    | RenameNode(nodeId: Id)

  /** The empty partial update `{}`. */
  const NoUpdates: NodeUpdate := NodeUpdate(None, None, None, None, None, None, None, None, None, None, None)

  /** The characters `String.prototype.trim` strips: ECMAScript WhiteSpace and LineTerminator. */
  predicate IsWhitespace(c: char) {
    || c == '\t' || c == '\n' || c == '\U{000B}' || c == '\U{000C}' || c == '\r' || c == ' '
    || c == '\U{00A0}' || c == '\U{1680}' || ('\U{2000}' <= c <= '\U{200A}')
    || c == '\U{2028}' || c == '\U{2029}' || c == '\U{202F}' || c == '\U{205F}'
    || c == '\U{3000}' || c == '\U{FEFF}'
  }

  /** `s` with its leading whitespace removed. */
  function TrimStart(s: string): (r: string)
    ensures |r| <= |s| && r == s[|s| - |r|..]
    ensures r == [] || !IsWhitespace(r[0])
    ensures forall i :: 0 <= i < |s| - |r| ==> IsWhitespace(s[i])
  {
    if |s| > 0 && IsWhitespace(s[0]) then TrimStart(s[1..]) else s
  }

  /** `s` with its trailing whitespace removed. */
  function TrimEnd(s: string): (r: string)
    ensures |r| <= |s| && r == s[..|r|]
    ensures r == [] || !IsWhitespace(r[|r| - 1])
    ensures forall i :: |r| <= i < |s| ==> IsWhitespace(s[i])
  {
    if |s| > 0 && IsWhitespace(s[|s| - 1]) then TrimEnd(s[..|s| - 1]) else s
  }

  /** `s.trim()`: `s` without its leading and trailing whitespace (see `TrimCutsEnds`). */
  function Trim(s: string): (r: string)
    ensures |r| <= |s|
    ensures r == [] || (!IsWhitespace(r[0]) && !IsWhitespace(r[|r| - 1]))
    ensures r == [] <==> forall i :: 0 <= i < |s| ==> IsWhitespace(s[i])
  {
    var t := TrimStart(s);
    TrimEnd(t)
  }

  /** `r` is the stretch of `s` starting at `k`, with only whitespace before and after it. */
  predicate CutsEnds(s: string, r: string, k: int) {
    && 0 <= k <= |s| - |r| && r == s[k..][..|r|]
    && (forall i :: 0 <= i < k ==> IsWhitespace(s[i]))
    && (forall i :: k + |r| <= i < |s| ==> IsWhitespace(s[i]))
  }

  /** What trimming keeps: a contiguous stretch of `s` with only whitespace before it and only whitespace after it. */
  lemma TrimCutsEnds(s: string)
    ensures exists k :: CutsEnds(s, Trim(s), k)
  {
    var t := TrimStart(s);
    var r := Trim(s);
    var k := |s| - |t|;
    assert t == s[k..] && r == TrimEnd(t);
    forall i | k + |r| <= i < |s| ensures IsWhitespace(s[i]) {
      assert s[i] == t[i - k];
    }
    assert CutsEnds(s, r, k);
  }

  /** A string with no whitespace at either end is its own trim. */
  lemma TrimClean(s: string)
    requires s == [] || (!IsWhitespace(s[0]) && !IsWhitespace(s[|s| - 1]))
    ensures Trim(s) == s
  {
  }

  /** Trimming twice is trimming once. */
  lemma TrimIdempotent(s: string)
    ensures Trim(Trim(s)) == Trim(s)
  {
    TrimClean(Trim(s));
  }

  /**
   * What `finishEditing` fires: one text update carrying the trimmed edit text,
   * exactly when that is non-empty and differs from the node's current text.
   */
  function FinishCalls(id: Id, editText: string, current: string): (calls: seq<NodeCall>)
    ensures |calls| <= 1
    ensures calls != [] <==> Trim(editText) != "" && Trim(editText) != current
    ensures calls != [] ==> calls[0] == UpdateNode(id, NoUpdates.(text := Some(Trim(editText))))
  {
    var trimmed := Trim(editText);
    if trimmed != "" && trimmed != current then [UpdateNode(id, NoUpdates.(text := Some(trimmed)))] else []
  }

  /** Finishing with only whitespace typed never writes the text. */
  lemma FinishIgnoresBlank(id: Id, editText: string, current: string)
    requires forall i :: 0 <= i < |editText| ==> IsWhitespace(editText[i])
    ensures FinishCalls(id, editText, current) == []
  {
  }

  /** Finishing right after starting (the edit text is the node's text) changes nothing when that text is already trimmed. */
  lemma FinishUnchangedIsSilent(id: Id, current: string)
    requires current == [] || (!IsWhitespace(current[0]) && !IsWhitespace(current[|current| - 1]))
    ensures FinishCalls(id, current, current) == []
  {
    TrimClean(current);
  }

  /** Any text `finishEditing` writes is non-empty and already trimmed, so finishing again on it fires nothing. */
  lemma FinishWritesTrimmed(id: Id, editText: string, current: string)
    requires FinishCalls(id, editText, current) != []
    ensures var t := FinishCalls(id, editText, current)[0].updates.text.value;
      t != "" && Trim(t) == t && FinishCalls(id, t, t) == []
  {
    TrimIdempotent(editText);
  }

  /**
   * How `finishEditing` ends: the calls that reached the canvas, whether the
   * node is still being edited, and whether the handler threw.
   */
  datatype FinishOutcome = FinishOutcome(calls: seq<NodeCall>, stillEditing: bool, threw: bool)

  /**
   * `finishEditing` as the canvas assembles the node: the canvas hands the
   * callbacks over inside `data`, while the component reads them as props, so
   * `onUpdateNode` is undefined. Calling it throws before `setIsEditing(false)`:
   * an edit worth saving is neither saved nor closed; any other edit closes.
   */
  function FinishAsAssembled(id: Id, editText: string, current: string): (f: FinishOutcome)
    ensures f.calls == []
    ensures f.threw <==> Trim(editText) != "" && Trim(editText) != current
    ensures f.stillEditing <==> f.threw
  {
    var trimmed := Trim(editText);
    if trimmed != "" && trimmed != current then FinishOutcome([], true, true)
    else FinishOutcome([], false, false)
  }

  /**
   * The edits the component means to save are exactly the ones lost as
   * assembled: where `FinishCalls` (callbacks delivered) writes the trimmed
   * text and ends editing, the assembled node writes nothing and stays editing.
   */
  lemma AssembledFinishLosesEdit(id: Id, editText: string, current: string)
    ensures FinishCalls(id, editText, current) != [] <==> FinishAsAssembled(id, editText, current).threw
    ensures FinishCalls(id, editText, current) != [] ==>
      FinishAsAssembled(id, editText, current).stillEditing &&
      FinishAsAssembled(id, editText, current).calls == [] &&
      FinishCalls(id, editText, current) == [UpdateNode(id, NoUpdates.(text := Some(Trim(editText))))]
  {
  }

  /** `handleFontWeightToggle`: 'bold' becomes 'normal', any other weight becomes 'bold'. */
  function ToggledWeight(w: string): (r: string)
    ensures r == "bold" || r == "normal"
    ensures r == "normal" <==> w == "bold"
  {
    if w == "bold" then "normal" else "bold"
  }

  /** Toggling twice restores 'bold' and 'normal', and turns any other weight into 'normal'. */
  lemma ToggledWeightTwice(w: string)
    ensures ToggledWeight(ToggledWeight(w)) == if w == "bold" then "bold" else "normal"
  {
  }

  /** `hasChildren`: the node lists at least one child, which is when its expand/collapse control is shown. */
  predicate HasChildren(data: NodeData) {
    |data.children| > 0
  }

  class NodeEditor {
    const id: Id
    var isEditing: bool
    var editText: string
    var showColorPicker: bool
    var showFontOptions: bool

    /** A node mounts not editing, with its text as the edit text and both popovers closed. */
    constructor (id: Id, data: NodeData)
      ensures this.id == id && !isEditing && editText == data.text
      ensures !showColorPicker && !showFontOptions
    {
      this.id := id;
      isEditing := false;
      editText := data.text;
      showColorPicker := false;
      showFontOptions := false;
    }

    /** The effect that resynchronises the edit text when the node's text changes. */
    method TextChanged(data: NodeData)
      modifies this`editText
      ensures editText == data.text
    {
      editText := data.text;
    }

    /** `startEditing` (double click, the edit button): editing, with the node's current text. */
    method StartEditing(data: NodeData)
      modifies this`isEditing, this`editText
      ensures isEditing && editText == data.text
    {
      isEditing := true;
      editText := data.text;
    }

    /** `handleInputChange`. */
    method InputChange(value: string)
      modifies this`editText
      ensures editText == value
    {
      editText := value;
    }

    /** `finishEditing`: possibly one text update, and editing always ends; the edit text is kept. */
    method FinishEditing(data: NodeData) returns (calls: seq<NodeCall>)
      modifies this`isEditing
      ensures !isEditing
      ensures calls == FinishCalls(id, editText, data.text)
    {
      var trimmed := Trim(editText);
      if trimmed != "" && trimmed != data.text {
        calls := [UpdateNode(id, NoUpdates.(text := Some(trimmed)))];
      } else {
        calls := [];
      }
      isEditing := false;
    }

    /** `cancelEditing`: the edit text goes back to the node's text and editing ends, firing nothing. */
    method CancelEditing(data: NodeData)
      modifies this`isEditing, this`editText
      ensures !isEditing && editText == data.text
    {
      editText := data.text;
      isEditing := false;
    }

    /** `handleInputBlur`: finishing, after a delay that is not modelled. */
    method InputBlur(data: NodeData) returns (calls: seq<NodeCall>)
      modifies this`isEditing
      ensures !isEditing
      ensures calls == FinishCalls(id, editText, data.text)
    {
      calls := FinishEditing(data);
    }

    /**
     * `handleKeyDown`: Enter finishes, Escape cancels, Tab finishes and then
     * asks for a child of this node; any other key changes nothing.
     */
    method KeyDown(key: string, data: NodeData) returns (calls: seq<NodeCall>)
      modifies this`isEditing, this`editText
      ensures key == "Enter" ==>
        !isEditing && editText == old(editText) && calls == FinishCalls(id, old(editText), data.text)
      ensures key == "Escape" ==>
        !isEditing && editText == data.text && calls == []
      ensures key == "Tab" ==>
        !isEditing && editText == old(editText) && calls == FinishCalls(id, old(editText), data.text) + [AddChild(id)]
      ensures key != "Enter" && key != "Escape" && key != "Tab" ==>
        isEditing == old(isEditing) && editText == old(editText) && calls == []
    {
      if key == "Enter" {
        calls := FinishEditing(data);
      } else if key == "Escape" {
        CancelEditing(data);
        calls := [];
      } else if key == "Tab" {
        calls := FinishEditing(data);
        calls := calls + [AddChild(id)];
      } else {
        calls := [];
      }
    }

    /** `handleColorChange`: a background update, and the colour popover closes. */
    method ColorChange(color: string) returns (calls: seq<NodeCall>)
      modifies this`showColorPicker
      ensures !showColorPicker
      ensures calls == [UpdateNode(id, NoUpdates.(backgroundColor := Some(color)))]
    {
      calls := [UpdateNode(id, NoUpdates.(backgroundColor := Some(color)))];
      showColorPicker := false;
    }

    /** `handleFontSizeChange`: a font-size update, and the font popover closes. */
    method FontSizeChange(fontSize: int) returns (calls: seq<NodeCall>)
      modifies this`showFontOptions
      ensures !showFontOptions
      ensures calls == [UpdateNode(id, NoUpdates.(fontSize := Some(fontSize)))]
    {
      calls := [UpdateNode(id, NoUpdates.(fontSize := Some(fontSize)))];
      showFontOptions := false;
    }

    /** `handleFontWeightToggle`: one update carrying the toggled weight; the popover stays open. */
    method FontWeightToggle(data: NodeData) returns (calls: seq<NodeCall>)
      ensures |calls| == 1 && calls[0].UpdateNode? && calls[0].nodeId == id
      ensures calls[0].updates == NoUpdates.(fontWeight := Some(ToggledWeight(data.fontWeight)))
    {
      var newWeight := if data.fontWeight == "bold" then "normal" else "bold";
      calls := [UpdateNode(id, NoUpdates.(fontWeight := Some(newWeight)))];
    }

    /** `handleRenameClick`: notify the canvas, then start editing. */
    method RenameClick(data: NodeData) returns (calls: seq<NodeCall>)
      modifies this`isEditing, this`editText
      ensures isEditing && editText == data.text
      ensures calls == [RenameNode(id)]
    {
      calls := [RenameNode(id)];
      StartEditing(data);
    }

    /** `handleDeleteClick`: a root is never deleted; any other node exactly when the user confirms. */
    method DeleteClick(data: NodeData, confirmed: bool) returns (calls: seq<NodeCall>)
      ensures data.isRoot ==> calls == []
      ensures !data.isRoot ==> (calls != [] <==> confirmed)
      ensures calls != [] ==> calls == [DeleteNode(id)]
    {
      if data.isRoot {
        return [];
      }
      if confirmed {
        calls := [DeleteNode(id)];
      } else {
        calls := [];
      }
    }

    /**
     * The expand/collapse control: it is rendered in place of the text input,
     * so only while the node is not being edited, and only when the node has
     * children; it reacts only when it is there.
     */
    method ExpandControlClick(data: NodeData) returns (calls: seq<NodeCall>)
      ensures calls != [] <==> !isEditing && HasChildren(data)
      ensures calls != [] ==> calls == [ToggleExpanded(id)]
    {
      if !isEditing && |data.children| > 0 {
        calls := [ToggleExpanded(id)];
      } else {
        calls := [];
      }
    }

    /** The add-child button. */
    method AddChildClick() returns (calls: seq<NodeCall>)
      ensures calls == [AddChild(id)]
    {
      calls := [AddChild(id)];
    }

    /** `handleDuplicateClick`. */
    method DuplicateClick() returns (calls: seq<NodeCall>)
      ensures calls == [DuplicateNode(id)]
    {
      calls := [DuplicateNode(id)];
    }

    /** `handleConnectClick`. */
    method ConnectClick() returns (calls: seq<NodeCall>)
      ensures calls == [ConnectNode(id)]
    {
      calls := [ConnectNode(id)];
    }
  }

  /**
   * The Tab workflow: start editing, type a text whose trim is new and
   * non-empty, press Tab: the node's text is updated to the trimmed text and
   * then a child is requested, in that order, and editing has ended.
   */
  method EditThenTab(e: NodeEditor, data: NodeData, typed: string) returns (calls: seq<NodeCall>)
    requires Trim(typed) != "" && Trim(typed) != data.text
    modifies e
    ensures !e.isEditing
    ensures calls == [UpdateNode(e.id, NoUpdates.(text := Some(Trim(typed)))), AddChild(e.id)]
  {
    e.StartEditing(data);
    e.InputChange(typed);
    calls := e.KeyDown("Tab", data);
  }
}

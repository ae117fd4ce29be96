/**
 * The board list page of src/modules/oneboard/pages/OneBoard.tsx: the boards,
 * the grid/canvas switch, the board open on the canvas, the modal flags and
 * the browser storage slot the page writes to, as one object whose handlers
 * replace its fields. The list updates inside the handlers are functions with
 * lemmas about them. Fresh ids, the clock and the user's answer to the delete
 * prompt are parameters.
 */
module OneBoard {
  import opened Wrappers

  /** A board as listed on the page. */
  datatype Board = Board(
    id: string,
    name: string,
    description: string,
    columnsCount: int,
    isActive: bool,
    isShared: bool,
    createdAt: string,
    updatedAt: string,
    createdBy: string)

  /** What the create dialog submits: a board without id, timestamps or author. */
  datatype BoardDraft = BoardDraft(name: string, description: string, columnsCount: int, isActive: bool, isShared: bool)

  /** A kanban column handed over by a template; the page only passes columns on. */
  datatype BoardColumn = BoardColumn(id: string, title: string)

  datatype ViewMode = Grid | Canvas

  /** The `action` strings `handleBoardAction` recognises; any other string is `Unrecognised`. */
  datatype Action = View | Edit | Share | ToggleActive | Delete | Unrecognised

  /**
   * What the page finds under its storage key: nothing (or an empty string),
   * something it cannot use (unparsable text, or no array under `boards`),
   * or a saved list with its save time.
   */
  datatype StorageSlot = Empty | Unusable | Saved(boards: seq<Board>, lastUpdated: string)

  /** The author `handleCreateBoard` writes on every new board. */
  const CurrentUser: string := "current-user"

  /**
   * The three boards the page starts with before storage is read. The second
   * description keeps the characters the source file holds: "estrat", then
   * U+221A and U+00A9 (a mis-decoded "é"), then "gias".
   */
  const SeedBoards: seq<Board> := [
    Board("1", "Projeto Principal", "Quadro para organizar tarefas do projeto principal da empresa",
          4, true, false, "2024-01-15", "2024-01-20", "user1"),
    Board("2", "Marketing Digital", "Campanhas e estrat\U{221A}\U{00A9}gias de marketing digital",
          3, true, true, "2024-01-10", "2024-01-18", "user2"),
    Board("3", "Desenvolvimento", "Tasks de desenvolvimento de software",
          5, false, false, "2024-01-05", "2024-01-12", "user1")]

  function BoardIds(boards: seq<Board>): set<string> {
    set b | b in boards :: b.id
  }

  /** `boards.find(b => b.id === id)`: the first board with that id, if any. */
  function FindBoard(boards: seq<Board>, id: string): (r: Option<Board>)
    ensures r.Some? ==> r.value in boards && r.value.id == id
    ensures r.None? <==> id !in BoardIds(boards)
  {
    if |boards| == 0 then None
    else if boards[0].id == id then Some(boards[0])
    else
      var r := FindBoard(boards[1..], id);
      assert BoardIds(boards) == {boards[0].id} + BoardIds(boards[1..]) by {
        assert boards == [boards[0]] + boards[1..];
      }
      r
  }

  /** The board found is the first in the list with that id. */
  lemma {:induction false} FindBoardIsFirst(boards: seq<Board>, id: string)
    requires id in BoardIds(boards)
    ensures exists k :: 0 <= k < |boards| && boards[k] == FindBoard(boards, id).value &&
                        forall j :: 0 <= j < k ==> boards[j].id != id
  {
    if boards[0].id == id {
      assert boards[0] == FindBoard(boards, id).value;
    } else {
      assert boards == [boards[0]] + boards[1..];
      FindBoardIsFirst(boards[1..], id);
      var k :| 0 <= k < |boards| - 1 && boards[1..][k] == FindBoard(boards[1..], id).value
        && forall j :: 0 <= j < k ==> boards[1..][j].id != id;
      assert boards[k + 1] == FindBoard(boards, id).value;
    }
  }

  /** The board with its active flag flipped and stamped `now`. */
  function Toggled(b: Board, now: string): Board {
    b.(isActive := !b.isActive, updatedAt := now)
  }

  /** The list 'toggle-active' produces. */
  function ToggleActiveIn(boards: seq<Board>, id: string, now: string): seq<Board> {
    seq(|boards|, i requires 0 <= i < |boards| => if boards[i].id == id then Toggled(boards[i], now) else boards[i])
  }

  /** The list a confirmed 'delete' produces: `boards.filter(b => b.id !== id)`. */
  function WithoutBoard(boards: seq<Board>, id: string): (r: seq<Board>)
    ensures |r| <= |boards|
    ensures forall b :: b in r <==> b in boards && b.id != id
    ensures id !in BoardIds(r)
    ensures id !in BoardIds(boards) ==> r == boards
  {
    if |boards| == 0 then []
    else
      var rest := WithoutBoard(boards[1..], id);
      assert boards == [boards[0]] + boards[1..];
      if boards[0].id == id then rest else [boards[0]] + rest
  }

  /** The list `handleUpdateBoard` produces: each board with the submitted id is replaced by the submission, stamped `now`. */
  function ReplaceBoard(boards: seq<Board>, updated: Board, now: string): seq<Board> {
    seq(|boards|, i requires 0 <= i < |boards| => if boards[i].id == updated.id then updated.(updatedAt := now) else boards[i])
  }

  /** The board `handleCreateBoard` appends. */
  function NewBoard(draft: BoardDraft, id: string, now: string): Board {
    Board(id, draft.name, draft.description, draft.columnsCount, draft.isActive, draft.isShared, now, now, CurrentUser)
  }

  /**
   * 'toggle-active' keeps the length and every other board, and on a board
   * with that id flips `isActive`, stamps `updatedAt` and keeps everything else.
   */
  lemma ToggleActiveSpec(boards: seq<Board>, id: string, now: string)
    ensures var r := ToggleActiveIn(boards, id, now);
      && |r| == |boards|
      && BoardIds(r) == BoardIds(boards)
      && (forall i :: 0 <= i < |r| && boards[i].id != id ==> r[i] == boards[i])
      && (forall i :: 0 <= i < |r| && boards[i].id == id ==>
            r[i].isActive == !boards[i].isActive && r[i].updatedAt == now
            && r[i].(isActive := boards[i].isActive, updatedAt := boards[i].updatedAt) == boards[i])
  {
    var r := ToggleActiveIn(boards, id, now);
    forall x | x in BoardIds(boards) ensures x in BoardIds(r) {
      var i :| 0 <= i < |boards| && boards[i].id == x;
      assert r[i].id == x;
    }
  }

  /** Toggling twice restores every flag; only the timestamps of the toggled boards moved. */
  lemma ToggleActiveTwice(boards: seq<Board>, id: string, now: string, later: string)
    ensures var r := ToggleActiveIn(ToggleActiveIn(boards, id, now), id, later);
      && |r| == |boards|
      && forall i :: 0 <= i < |r| ==>
           r[i] == if boards[i].id == id then boards[i].(updatedAt := later) else boards[i]
  {
  }

  /** After 'toggle-active' the lookup the page uses to refresh its active board finds the toggled board. */
  lemma {:induction false} FindToggled(boards: seq<Board>, id: string, now: string)
    requires id in BoardIds(boards)
    ensures FindBoard(ToggleActiveIn(boards, id, now), id) == Some(Toggled(FindBoard(boards, id).value, now))
  {
    var r := ToggleActiveIn(boards, id, now);
    if boards[0].id != id {
      assert r[1..] == ToggleActiveIn(boards[1..], id, now);
      assert boards == [boards[0]] + boards[1..];
      FindToggled(boards[1..], id, now);
    }
  }

  /** Deleting one board leaves the lookup of every other id as it was. */
  lemma {:induction false} FindAfterDelete(boards: seq<Board>, id: string, other: string)
    requires other != id
    ensures FindBoard(WithoutBoard(boards, id), other) == FindBoard(boards, other)
  {
    if |boards| > 0 {
      FindAfterDelete(boards[1..], id, other);
    }
  }

  /** `handleUpdateBoard`'s list keeps the length and every other board, and holds the stamped submission where the id matched. */
  lemma ReplaceBoardSpec(boards: seq<Board>, updated: Board, now: string)
    ensures var r := ReplaceBoard(boards, updated, now);
      && |r| == |boards|
      && (forall i :: 0 <= i < |r| && boards[i].id != updated.id ==> r[i] == boards[i])
      && (forall i :: 0 <= i < |r| && boards[i].id == updated.id ==> r[i] == updated.(updatedAt := now))
      && BoardIds(r) == BoardIds(boards)
  {
    var r := ReplaceBoard(boards, updated, now);
    forall x | x in BoardIds(boards) ensures x in BoardIds(r) {
      var i :| 0 <= i < |boards| && boards[i].id == x;
      assert r[i].id == x;
    }
  }

  /** After an update, looking the board up finds the submission with the fresh timestamp. */
  lemma {:induction false} FindReplaced(boards: seq<Board>, updated: Board, now: string)
    requires updated.id in BoardIds(boards)
    ensures FindBoard(ReplaceBoard(boards, updated, now), updated.id) == Some(updated.(updatedAt := now))
  {
    var r := ReplaceBoard(boards, updated, now);
    if boards[0].id != updated.id {
      assert r[1..] == ReplaceBoard(boards[1..], updated, now);
      assert boards == [boards[0]] + boards[1..];
      FindReplaced(boards[1..], updated, now);
    }
  }

  /** Appending a board under a fresh id makes it findable and changes no other lookup. */
  lemma {:induction false} FindAppended(boards: seq<Board>, b: Board, other: string)
    requires b.id !in BoardIds(boards)
    ensures FindBoard(boards + [b], b.id) == Some(b)
    ensures other != b.id ==> FindBoard(boards + [b], other) == FindBoard(boards, other)
  {
    if |boards| > 0 {
      assert (boards + [b])[1..] == boards[1..] + [b];
      FindAppended(boards[1..], b, other);
    }
  }

  /** Every field of the page at once. */
  datatype PageState = PageState(
    boards: seq<Board>,
    viewMode: ViewMode,
    activeBoard: Option<Board>,
    activeBoardColumns: seq<BoardColumn>,
    isCreateModalOpen: bool,
    isEditModalOpen: bool,
    isShareModalOpen: bool,
    isTemplateModalOpen: bool,
    editingBoard: Option<Board>,
    sharingBoard: Option<Board>,
    storage: StorageSlot)

  /** `activeBoard?.id === id`. */
  predicate IsActive(active: Option<Board>, id: string) {
    active.Some? && active.value.id == id
  }

  /** The page after `handleBoardAction(boardId, action)`, given the user's answer to the delete prompt. */
  function AfterAction(s: PageState, boardId: string, action: Action, confirmed: bool, now: string): PageState {
    var found := FindBoard(s.boards, boardId);
    if found.None? then s
    else match action
      case View => s.(activeBoard := found, activeBoardColumns := [], viewMode := Canvas)
      case Edit => s.(editingBoard := found, isEditModalOpen := true)
      case Share => s.(sharingBoard := found, isShareModalOpen := true)
      case ToggleActive =>
        var toggled := ToggleActiveIn(s.boards, boardId, now);
        s.(boards := toggled, storage := Saved(toggled, now),
           activeBoard := if IsActive(s.activeBoard, boardId) then FindBoard(toggled, boardId) else s.activeBoard)
      case Delete =>
        if !confirmed then s
        else
          var kept := WithoutBoard(s.boards, boardId);
          s.(boards := kept, storage := Saved(kept, now),
             activeBoard := if IsActive(s.activeBoard, boardId) then None else s.activeBoard,
             viewMode := if IsActive(s.activeBoard, boardId) then Grid else s.viewMode)
      case Unrecognised => s
  }

  /** An action on an id the list does not hold leaves the whole page as it was, whatever the action. */
  lemma UnknownBoardIgnored(s: PageState, boardId: string, action: Action, confirmed: bool, now: string)
    requires boardId !in BoardIds(s.boards)
    ensures AfterAction(s, boardId, action, confirmed, now) == s
  {
  }

  /**
   * 'toggle-active' keeps the length, the view and the dialogs, saves the new
   * list, and an active board with that id is replaced by its toggled self.
   */
  lemma ToggleActiveAction(s: PageState, boardId: string, now: string)
    requires boardId in BoardIds(s.boards)
    ensures var t := AfterAction(s, boardId, ToggleActive, false, now);
      && |t.boards| == |s.boards| && BoardIds(t.boards) == BoardIds(s.boards)
      && t.storage == Saved(t.boards, now)
      && t.viewMode == s.viewMode && t.activeBoardColumns == s.activeBoardColumns
      && (IsActive(s.activeBoard, boardId) ==> t.activeBoard == Some(Toggled(FindBoard(s.boards, boardId).value, now)))
      && (!IsActive(s.activeBoard, boardId) ==> t.activeBoard == s.activeBoard)
  {
    ToggleActiveSpec(s.boards, boardId, now);
    FindToggled(s.boards, boardId, now);
  }

  /**
   * A declined 'delete' changes nothing. A confirmed one removes exactly the
   * boards with that id, leaves every other lookup alone, saves the new list,
   * and closes the board if it was the active one.
   */
  lemma DeleteAction(s: PageState, boardId: string, confirmed: bool, now: string)
    ensures var t := AfterAction(s, boardId, Delete, confirmed, now);
      && (!confirmed ==> t == s)
      && (confirmed && boardId in BoardIds(s.boards) ==>
            && (forall b :: b in t.boards <==> b in s.boards && b.id != boardId)
            && boardId !in BoardIds(t.boards)
            && (forall x :: x != boardId ==> FindBoard(t.boards, x) == FindBoard(s.boards, x))
            && t.storage == Saved(t.boards, now)
            && (IsActive(s.activeBoard, boardId) ==> t.activeBoard == None && t.viewMode == Grid)
            && (!IsActive(s.activeBoard, boardId) ==> t.activeBoard == s.activeBoard && t.viewMode == s.viewMode))
  {
    if confirmed && boardId in BoardIds(s.boards) {
      var t := AfterAction(s, boardId, Delete, confirmed, now);
      forall x | x != boardId ensures FindBoard(t.boards, x) == FindBoard(s.boards, x) {
        FindAfterDelete(s.boards, boardId, x);
      }
    }
  }

  class BoardPage {
    var boards: seq<Board>
    var viewMode: ViewMode
    var activeBoard: Option<Board>
    var activeBoardColumns: seq<BoardColumn>
    var isCreateModalOpen: bool
    var isEditModalOpen: bool
    var isShareModalOpen: bool
    var isTemplateModalOpen: bool
    var editingBoard: Option<Board>
    var sharingBoard: Option<Board>
    /** The storage slot the page reads on mount and writes after every list change. */
    var storage: StorageSlot

    function State(): PageState
      reads this
    {
      PageState(boards, viewMode, activeBoard, activeBoardColumns, isCreateModalOpen, isEditModalOpen,
                isShareModalOpen, isTemplateModalOpen, editingBoard, sharingBoard, storage)
    }

    /**
     * Mounting: the seed boards, in the grid, nothing open; then the load
     * effect, which takes the stored list only when storage holds a usable one
     * (an empty list included).
     */
    constructor (storage: StorageSlot)
      ensures boards == if storage.Saved? then storage.boards else SeedBoards
      ensures viewMode == Grid && activeBoard == None && activeBoardColumns == []
      ensures !isCreateModalOpen && !isEditModalOpen && !isShareModalOpen && !isTemplateModalOpen
      ensures editingBoard == None && sharingBoard == None
      ensures this.storage == storage
    {
      boards := SeedBoards;
      viewMode := Grid;
      activeBoard := None;
      activeBoardColumns := [];
      isCreateModalOpen := false;
      isEditModalOpen := false;
      isShareModalOpen := false;
      isTemplateModalOpen := false;
      editingBoard := None;
      sharingBoard := None;
      this.storage := storage;
      if storage.Saved? {
        boards := storage.boards;
      }
    }

    /** `saveToStorage`: the slot holds exactly the given list, stamped `now`. */
    method SaveToStorage(boardsData: seq<Board>, now: string)
      modifies this`storage
      ensures storage == Saved(boardsData, now)
    {
      storage := Saved(boardsData, now);
    }

    /**
     * `handleBoardAction`. An unknown id changes nothing. 'view' opens the
     * board on the canvas with no columns; 'edit' and 'share' open their
     * dialog on it; 'toggle-active' flips it, saves, and refreshes the active
     * board if it is this one; a confirmed 'delete' removes it, saves, and
     * returns to the grid if it was the active one.
     */
    method BoardAction(boardId: string, action: Action, confirmed: bool, now: string)
      modifies this
      ensures State() == AfterAction(old(State()), boardId, action, confirmed, now)
    {
      var board := FindBoard(boards, boardId);
      if board.None? {
        return;
      }
      match action
      case View => OpenBoard(board.value);
      case Edit =>
        editingBoard := board;
        isEditModalOpen := true;
      case Share =>
        sharingBoard := board;
        isShareModalOpen := true;
      case ToggleActive => ToggleBoard(boardId, now);
      case Delete =>
        if confirmed {
          RemoveBoard(boardId, now);
        }
      case Unrecognised =>
    }

    /** The 'view' branch. */
    method OpenBoard(board: Board)
      modifies this
      ensures State() == old(State()).(activeBoard := Some(board), activeBoardColumns := [], viewMode := Canvas)
    {
      activeBoard := Some(board);
      activeBoardColumns := [];
      viewMode := Canvas;
    }

    /** The 'toggle-active' branch. */
    method ToggleBoard(boardId: string, now: string)
      modifies this
      ensures var toggled := ToggleActiveIn(old(boards), boardId, now);
        State() == old(State()).(boards := toggled, storage := Saved(toggled, now),
                                 activeBoard := if IsActive(old(activeBoard), boardId) then FindBoard(toggled, boardId)
                                                else old(activeBoard))
    {
      var updatedBoards := ToggleActiveIn(boards, boardId, now);
      boards := updatedBoards;
      SaveToStorage(updatedBoards, now);
      if activeBoard.Some? && activeBoard.value.id == boardId {
        activeBoard := FindBoard(updatedBoards, boardId);
      }
    }

    /** The confirmed 'delete' branch. */
    method RemoveBoard(boardId: string, now: string)
      modifies this
      ensures var kept := WithoutBoard(old(boards), boardId);
        State() == old(State()).(boards := kept, storage := Saved(kept, now),
                                 activeBoard := if IsActive(old(activeBoard), boardId) then None else old(activeBoard),
                                 viewMode := if IsActive(old(activeBoard), boardId) then Grid else old(viewMode))
    {
      var filteredBoards := WithoutBoard(boards, boardId);
      boards := filteredBoards;
      SaveToStorage(filteredBoards, now);
      if activeBoard.Some? && activeBoard.value.id == boardId {
        activeBoard := None;
        viewMode := Grid;
      }
    }

    /** `handleCreateBoard`: one new board at the end, saved, and the create dialog closed. */
    method CreateBoard(draft: BoardDraft, freshId: string, now: string)
      modifies this
      ensures var updated := old(boards) + [NewBoard(draft, freshId, now)];
        State() == old(State()).(boards := updated, storage := Saved(updated, now), isCreateModalOpen := false)
    {
      var newBoard := NewBoard(draft, freshId, now);
      var updatedBoards := boards + [newBoard];
      boards := updatedBoards;
      SaveToStorage(updatedBoards, now);
      isCreateModalOpen := false;
    }

    /** `handleCreateBoardFromTemplate`: the template's board appended, saved, and opened on the canvas with its columns. */
    method CreateBoardFromTemplate(board: Board, columns: seq<BoardColumn>, now: string)
      modifies this
      ensures var updated := old(boards) + [board];
        State() == old(State()).(boards := updated, storage := Saved(updated, now), activeBoard := Some(board),
                                 activeBoardColumns := columns, viewMode := Canvas, isTemplateModalOpen := false)
    {
      var updatedBoards := boards + [board];
      boards := updatedBoards;
      SaveToStorage(updatedBoards, now);
      activeBoard := Some(board);
      activeBoardColumns := columns;
      viewMode := Canvas;
      isTemplateModalOpen := false;
    }

    /**
     * `handleUpdateBoard`: the matching boards replaced by the submission with
     * a fresh timestamp, saved; the active board, if it is this one, becomes the
     * submission as given (without the fresh timestamp); the edit dialog closes.
     */
    method UpdateBoard(updatedBoard: Board, now: string)
      modifies this
      ensures var updated := ReplaceBoard(old(boards), updatedBoard, now);
        State() == old(State()).(
          boards := updated, storage := Saved(updated, now),
          activeBoard := if old(activeBoard).Some? && old(activeBoard).value.id == updatedBoard.id
                         then Some(updatedBoard) else old(activeBoard),
          isEditModalOpen := false, editingBoard := None)
    {
      var updatedBoards := ReplaceBoard(boards, updatedBoard, now);
      boards := updatedBoards;
      SaveToStorage(updatedBoards, now);
      if activeBoard.Some? && activeBoard.value.id == updatedBoard.id {
        activeBoard := Some(updatedBoard);
      }
      isEditModalOpen := false;
      editingBoard := None;
    }

    /** `handleBackToGrid`: nothing open, no columns, the grid. */
    method BackToGrid()
      modifies this
      ensures State() == old(State()).(activeBoard := None, activeBoardColumns := [], viewMode := Grid)
    {
      activeBoard := None;
      activeBoardColumns := [];
      viewMode := Grid;
    }

    /** `showCreateBoardOptions`: the toolbar's create button opens the template dialog. */
    method ShowCreateBoardOptions()
      modifies this
      ensures State() == old(State()).(isTemplateModalOpen := true)
    {
      isTemplateModalOpen := true;
    }

    /** The toolbar's view switch sets the mode and nothing else. */
    method ViewModeChange(mode: ViewMode)
      modifies this
      ensures State() == old(State()).(viewMode := mode)
    {
      viewMode := mode;
    }

    /** Closing the edit dialog forgets the board being edited. */
    method CloseEditModal()
      modifies this
      ensures State() == old(State()).(isEditModalOpen := false, editingBoard := None)
    {
      isEditModalOpen := false;
      editingBoard := None;
    }

    /** Closing the create dialog. */
    method CloseCreateModal()
      modifies this
      ensures State() == old(State()).(isCreateModalOpen := false)
    {
      isCreateModalOpen := false;
    }

    /** Closing the template dialog. */
    method CloseTemplateModal()
      modifies this
      ensures State() == old(State()).(isTemplateModalOpen := false)
    {
      isTemplateModalOpen := false;
    }

    /** Closing the share dialog forgets the board being shared. */
    method CloseShareModal()
      modifies this
      ensures State() == old(State()).(isShareModalOpen := false, sharingBoard := None)
    {
      isShareModalOpen := false;
      sharingBoard := None;
    }
  }

  /** Opening a board and going back to the grid restores the view and leaves the list and storage alone. */
  method ViewThenBack(p: BoardPage, boardId: string, now: string)
    requires boardId in BoardIds(p.boards)
    modifies p
    ensures p.viewMode == Grid && p.activeBoard == None && p.activeBoardColumns == []
    ensures p.boards == old(p.boards) && p.storage == old(p.storage)
  {
    p.BoardAction(boardId, View, false, now);
    assert p.viewMode == Canvas && p.activeBoard == FindBoard(old(p.boards), boardId);
    p.BackToGrid();
  }

  /** Whatever a handler saves, a page mounted afterwards on the same storage loads the same boards. */
  method ReloadAfterCreate(p: BoardPage, draft: BoardDraft, freshId: string, now: string) returns (q: BoardPage)
    requires freshId !in BoardIds(p.boards)
    modifies p
    ensures q.boards == p.boards == old(p.boards) + [NewBoard(draft, freshId, now)]
    ensures FindBoard(q.boards, freshId) == Some(NewBoard(draft, freshId, now))
  {
    p.CreateBoard(draft, freshId, now);
    q := new BoardPage(p.storage);
    FindAppended(old(p.boards), NewBoard(draft, freshId, now), freshId);
  }
}

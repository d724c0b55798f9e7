/** The state of the app's single screen and the handlers that change it: the
    task list, the create form, the edit buffer, the view selector, the
    delete-confirmation overlay and the copy last handed to host storage. */
module App {
  import opened TodoList

  /** The three panels of the view selector ("main", "add", "edit"). */
  datatype Panel = Main | Add | Edit

  /** The modal overlay: none (null) or the delete confirmation ("delete"). */
  datatype Modal = NoModal | DeleteModal

  class TodoApp {
    var todos: seq<Todo>
    /** The create form. */
    var currentTodo: Todo
    var activePanel: Panel
    var activeModal: Modal
    var todoToDelete: string
    /** The edit form: a copy of the record being edited. */
    var todoToEdit: Todo
    /** The list most recently written to host storage under the key "todos". */
    var stored: seq<Todo>

    /** The initial state; `now` stands for the clock read that stamps the
        initial create form, `persisted` for what host storage holds. */
    constructor (now: string, persisted: seq<Todo>)
      ensures todos == [] && stored == persisted
      ensures currentTodo == Todo("", "", "", now) && todoToEdit == BLANK && todoToDelete == ""
      ensures activePanel == Main && activeModal == NoModal
    {
      todos := [];
      currentTodo := Todo("", "", "", now);
      activePanel := Main;
      activeModal := NoModal;
      todoToDelete := "";
      todoToEdit := BLANK;
      stored := persisted;
    }

    /** Submit the create form: `freshId` stands for the generated uuid and
        `now` for the current instant. */
    method AddTodo(freshId: string, now: string)
      modifies this`todos, this`currentTodo, this`stored, this`activePanel
      ensures todos == Append(old(todos), Todo(freshId, old(currentTodo).title, old(currentTodo).text, now))
      ensures stored == todos
      ensures currentTodo == BLANK && activePanel == Main
      ensures UniqueIds(old(todos)) && !HasId(old(todos), freshId) ==> UniqueIds(todos)
      ensures CountId(todos, freshId) == CountId(old(todos), freshId) + 1
    {
      var record := Todo(freshId, currentTodo.title, currentTodo.text, now);
      var todosToSave := Append(todos, record);
      if UniqueIds(todos) && !HasId(todos, freshId) {
        AppendKeepsUnique(todos, record);
      }
      AppendCount(todos, record, freshId);
      todos := todosToSave;
      currentTodo := BLANK;
      stored := todosToSave;
      activePanel := Main;
    }

    /** Ask for confirmation before deleting the record with `id`. */
    method DeleteConfirmation(id: string)
      modifies this`activeModal, this`todoToDelete
      ensures activeModal == DeleteModal && todoToDelete == id
    {
      activeModal := DeleteModal;
      todoToDelete := id;
    }

    /** Close the confirmation overlay without deleting. */
    method CloseModal()
      modifies this`activeModal
      ensures activeModal == NoModal
    {
      activeModal := NoModal;
    }

    /** Confirm the deletion of the record chosen by DeleteConfirmation. */
    method DeleteTodo()
      modifies this`todos, this`stored, this`activeModal
      ensures todos == RemoveById(old(todos), todoToDelete)
      ensures !HasId(todos, todoToDelete)
      ensures |todos| == |old(todos)| - CountId(old(todos), todoToDelete)
      ensures !HasId(old(todos), todoToDelete) ==> todos == old(todos)
      ensures UniqueIds(old(todos)) ==> UniqueIds(todos)
      ensures stored == todos && activeModal == NoModal
    {
      var filteredTodos := RemoveById(todos, todoToDelete);
      RemoveByIdLength(todos, todoToDelete);
      if !HasId(todos, todoToDelete) {
        RemoveByIdAbsent(todos, todoToDelete);
      }
      if UniqueIds(todos) {
        RemoveByIdKeepsUnique(todos, todoToDelete);
      }
      todos := filteredTodos;
      stored := filteredTodos;
      activeModal := NoModal;
    }

    /** Open the edit panel on the record at position `i` of the list. */
    method StartEdit(i: nat)
      requires i < |todos|
      modifies this`todoToEdit, this`activePanel
      ensures todoToEdit == todos[i] && activePanel == Edit
    {
      todoToEdit := todos[i];
      activePanel := Edit;
    }

    /** Submit the edit form. */
    method EditTodo()
      modifies this`todos, this`stored, this`activePanel
      ensures todos == UpdateById(old(todos), todoToEdit)
      ensures !HasId(old(todos), todoToEdit.id) ==> todos == old(todos)
      ensures UniqueIds(old(todos)) ==> UniqueIds(todos)
      ensures stored == todos && activePanel == Main
    {
      var arr := UpdateById(todos, todoToEdit);
      if !HasId(todos, todoToEdit.id) {
        UpdateByIdAbsent(todos, todoToEdit);
      }
      if UniqueIds(todos) {
        UpdateByIdKeepsUnique(todos, todoToEdit);
      }
      todos := arr;
      stored := arr;
      activePanel := Main;
    }

    /** The "add task" button. */
    method OpenAddPanel()
      modifies this`activePanel
      ensures activePanel == Add
    {
      activePanel := Add;
    }

    /** The back button of the create and edit panels. */
    method Back()
      modifies this`activePanel
      ensures activePanel == Main
    {
      activePanel := Main;
    }

    /** Typing into the title field of the create form. */
    method SetCurrentTitle(value: string)
      modifies this`currentTodo
      ensures currentTodo == old(currentTodo).(title := value)
    {
      currentTodo := currentTodo.(title := value);
    }

    /** Typing into the text field of the create form. */
    method SetCurrentText(value: string)
      modifies this`currentTodo
      ensures currentTodo == old(currentTodo).(text := value)
    {
      currentTodo := currentTodo.(text := value);
    }

    /** Typing into the title field of the edit form. */
    method SetEditTitle(value: string)
      modifies this`todoToEdit
      ensures todoToEdit == old(todoToEdit).(title := value)
    {
      todoToEdit := todoToEdit.(title := value);
    }

    /** Typing into the text field of the edit form. */
    method SetEditText(value: string)
      modifies this`todoToEdit
      ensures todoToEdit == old(todoToEdit).(text := value)
    {
      todoToEdit := todoToEdit.(text := value);
    }
  }

  /** A session that creates a task, edits its text and deletes it, driven
      through the handlers alone; returns the list after each step. */
  method CreateEditDelete(id: string, now: string, persisted: seq<Todo>)
    returns (afterAdd: seq<Todo>, afterEdit: seq<Todo>, afterDelete: seq<Todo>)
    ensures afterAdd == [Todo(id, "Buy milk", "2% milk", now)]
    ensures afterEdit == [Todo(id, "Buy milk", "skim milk", now)]
    ensures afterDelete == []
  {
    var app := new TodoApp(now, persisted);
    app.OpenAddPanel();
    app.SetCurrentTitle("Buy milk");
    app.SetCurrentText("2% milk");
    app.AddTodo(id, now);
    afterAdd := app.todos;
    var record := Todo(id, "Buy milk", "2% milk", now);
    assert afterAdd == [] + [record];

    app.StartEdit(0);
    app.SetEditText("skim milk");
    app.EditTodo();
    afterEdit := app.todos;
    assert app.todoToEdit == record.(text := "skim milk");
    assert afterEdit[0] == record.(text := "skim milk");

    app.DeleteConfirmation(app.todos[0].id);
    app.DeleteTodo();
    afterDelete := app.todos;
  }
}

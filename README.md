# To-do list mini-app: the task list and its handlers

A model of the state of the single-screen to-do list in `src/App.tsx`: an
ordered list of task records (`Todo`: id, title, text, creation timestamp),
three mutations on it (add, delete, edit), the view selector ("main", "add",
"edit"), the delete-confirmation overlay, the create form `currentTodo`, the
edit buffer `todoToEdit`, the id awaiting deletion `todoToDelete`, and the
write-through of the whole list to host storage after every mutation.

Two modules:

- `TodoList` (`todo_list.dfy`): the record and the three list
  transformations as functions — `Append` (the spread-append of `addTodo`),
  `RemoveById` (the `filter` of `deleteTodo`) and `UpdateById` (the `map` of
  `editTodo`) — with lemmas on lengths, counts, order, multiplicities, absent
  ids, idempotence, uniqueness of ids and how the operations combine.
- `App` (`app.dfy`): the React component's state as the class `TodoApp`,
  one field per `useState` plus `stored`, the list last handed to
  `storeTodo`; each handler is a method whose `modifies` names exactly the
  fields the handler sets and whose `ensures` gives their new values in terms
  of the list functions. `CreateEditDelete` drives a create, edit and delete
  session through the handlers.

The source's `filter` at `src/App.tsx:96` removes every record with the
matching id, not only the first one; the model follows the code. With unique
ids the two agree, and `RemoveByIdExactlyOne` proves that exactly one record
goes.

## Model

| member | source | states |
|---|---|---|
| `TodoList.Append` | src/App.tsx:74-82 | the new list is one longer, its prefix is the old list unchanged and in order, and its last record is the new one |
| `TodoList.RemoveById` | src/App.tsx:96 | the result is no longer than the input, no record with the id remains, and a record is in the result exactly when it was in the input with a different id |
| `TodoList.UpdateById` | src/App.tsx:105-111 | length is kept; every record keeps its id and createdAt; records with the edited id get its title and text; all other records are identical |
| `TodoList.AppendKeepsUnique` | src/App.tsx:74-82 | appending a record whose id no record has keeps the ids unique |
| `TodoList.AppendCount` | src/App.tsx:74-82 | appending adds one to the count of the new record's id and changes no other id's count |
| `TodoList.RemoveByIdLength` | src/App.tsx:96 | the list shrinks by exactly the number of records carrying the id |
| `TodoList.RemoveByIdAbsent` | src/App.tsx:96 | deleting an id no record carries leaves the list unchanged |
| `TodoList.RemoveByIdExactlyOne` | src/App.tsx:96 | with unique ids, deleting a present id removes exactly one record |
| `TodoList.RemoveByIdConcat` | src/App.tsx:96 | deletion distributes over concatenation, so the kept records stay in their relative order |
| `TodoList.RemoveByIdMultiset` | src/App.tsx:96 | every record with another id is kept as many times as it occurred; records with the id occur zero times |
| `TodoList.RemoveByIdKeepsUnique` | src/App.tsx:96 | deletion keeps the ids unique |
| `TodoList.UpdateByIdAbsent` | src/App.tsx:105-111 | editing with an id no record carries, such as the initial blank edit buffer, leaves the list unchanged |
| `TodoList.UpdateByIdIdempotent` | src/App.tsx:105-111 | editing twice with the same buffer equals editing once |
| `TodoList.UpdateByIdConcat` | src/App.tsx:105-111 | editing distributes over concatenation, so order is kept |
| `TodoList.UpdateByIdKeepsUnique` | src/App.tsx:105-111 | editing keeps the ids unique |
| `TodoList.RemoveUpdateCommute` | src/App.tsx:95-111 | deleting after editing equals editing after deleting |
| `TodoList.AddEditDelete` | src/App.tsx:73-116 | adding a record with a fresh id, editing it and deleting it gives back the list before the add |
| `App.TodoApp.constructor` | src/App.tsx:35-51 | initial state: empty list, create form with empty strings and the current instant, blank edit buffer, empty id to delete, "main" panel, no modal |
| `App.TodoApp.AddTodo` | src/App.tsx:73-88 | the list becomes the old list with one record appended, taking title and text from the form and the given id and instant; the form is reset to blank; the stored list equals the new list; the panel is "main"; a fresh id keeps ids unique and its count grows by one |
| `App.TodoApp.DeleteConfirmation` | src/App.tsx:90-93 | opens the "delete" modal and records the id; the list and storage are untouched |
| `App.TodoApp.CloseModal` | src/App.tsx:316 | closes the modal; the list and storage are untouched |
| `App.TodoApp.DeleteTodo` | src/App.tsx:95-102 | the list becomes the filtered list; no record with the id remains; its length drops by the number of matching records; an absent id leaves it unchanged; unique ids stay unique; the stored list equals the new list; the modal closes |
| `App.TodoApp.StartEdit` | src/App.tsx:178-181 | the edit buffer becomes the chosen record and the panel is "edit" |
| `App.TodoApp.EditTodo` | src/App.tsx:104-116 | the list becomes the updated list; an id not in the list leaves it unchanged; unique ids stay unique; the stored list equals the new list; the panel is "main" |
| `App.TodoApp.OpenAddPanel` | src/App.tsx:137-139 | the panel becomes "add" |
| `App.TodoApp.Back` | src/App.tsx:214-217 | the panel becomes "main" (the back buttons of both the create and the edit panels, lines 216 and 267) |
| `App.TodoApp.SetCurrentTitle` | src/App.tsx:231-236 | only the create form's title changes |
| `App.TodoApp.SetCurrentText` | src/App.tsx:244-245 | only the create form's text changes |
| `App.TodoApp.SetEditTitle` | src/App.tsx:282-283 | only the edit buffer's title changes |
| `App.TodoApp.SetEditText` | src/App.tsx:293-294 | only the edit buffer's text changes |
| `App.CreateEditDelete` | src/App.tsx:73-116 | creating "Buy milk"/"2% milk", editing its text to "skim milk" and deleting it yields a one-record list, the edited record with title and createdAt kept, then the empty list |

## Left out

- The host bridge: `VKWebAppGetUserInfo`, `VKWebAppStorageGet` and `VKWebAppStorageSet` (src/App.tsx:53-71). Storage is the field `stored`, the last list handed to `storeTodo`. Whether the asynchronous write completes is not modelled.
- The startup `useEffect` that loads the profile and the saved list (src/App.tsx:53-64). It is host I/O and promises. The source does not handle a missing key or malformed value there. The constructor takes what storage holds as `persisted` but does not load it into `todos`.
- `JSON.stringify` and `JSON.parse` (src/App.tsx:59, 69). They are library serialisation, so there is no round-trip proof; `stored` holds the list itself.
- `uuidv4()` and `new Date().toISOString()` (src/App.tsx:41, 77, 80). They become the `freshId` and `now` parameters. Unique ids are proved only when the caller's `freshId` is not already in the list.
- React's batching of `set*` calls. Each handler reads the state it was rendered with and sets fields once, so running its assignments in order gives the same result.
- `App.TodoApp.StartEdit`: the edit button hands over the rendered record itself. The model names it by its position in `todos`, which is where every rendered record comes from.
- All JSX rendering and layout (src/App.tsx:118-336). This includes the newline-to-`<br/>` display replace (line 161), `toLocaleDateString` (line 171) and the greeting built from `fetchedUser`.
- `src/components/UserAvatar.tsx`: a presentational component with no state logic.

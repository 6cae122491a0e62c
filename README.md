# Todo list: a verified model

This project models the logic of a single-page todo application written in
JavaScript (`script.js`):

- the `Todo` model object, which owns the list of todo records and mirrors it
  to a persisted slot on every assignment;
- the form validator `validateTodoForm`;
- the handlers that route a submit to create or update, depending on the
  `editId` edit state, together with the Edit, Done, Delete, reset and filter
  handlers;
- the structure that `renderTodoList` builds.

The Dafny modules follow that structure:

- `wrappers.dfy`, module `Wrappers`: `Option`. It stands for a JavaScript
  value that may be absent.
- `seqs.dfy`, module `Seqs`: an order-preserving `Filter`, which is what
  `Array.prototype.filter` does. It comes with a subsequence predicate and
  lemmas about order, membership, multiplicity and extensionality.
- `text.dfy`, module `Text`: JavaScript's `.length` (`Utf16Length`, counted
  in UTF-16 code units, so a character outside the Basic Multilingual Plane
  counts twice), lower-casing (`Lower`) and the substring scan (`Contains`).
  `Contains` is proved to agree with "occurs at some index".
- `todo.dfy`, module `TodoModel`:
  - the records and patches;
  - the pure list functions that the model's methods compute: `Find`,
    append, `Updated`, `Removed` and `Search`;
  - lemmas relating lookups to each operation;
  - the class `Todo`. Its fields are `list` and the ghost `stored`, which
    stands for the persisted copy. `Valid()` says the two are equal.
- `validation.dfy`, module `Validation`: `Validate` is the verdict as a
  function, with the per-field meaning as its postcondition.
  `ValidateTodoForm` fills the error map field by field, in the source's
  order, and is proved to return exactly `Validate`'s result.
- `render.dfy`, module `Render`: the display structure. It is a placeholder or
  one entry per todo, with Done/Edit/Delete buttons. `RenderTodoList` builds it
  with a loop that is proved against the function `Rendered`. This module also
  holds the create/search/delete walk-through for "Buy milk".
- `form.dfy`, module `Form`: the class `TodoForm`. It holds the model, the
  `editId : Option<Id>` state and the current `view`. Each handler is a method
  whose postcondition states the new list, edit state and view.

Modelling choices:

- Ids are a parameter: `Submit` receives the fresh id that the source draws
  with `Math.random()`. Ids are compared for equality only. Uniqueness is not
  assumed. `FindAfterAppend` states that a colliding id is shadowed by the
  older record.
- Form inputs are plain strings. `Submit` takes the title and description.
  `Edit` returns the pair it would load into the inputs.
- Patches never carry an `id`, because neither caller passes one. So a merge
  keeps the record's id.
- The source tests `if (editId)`, so an id of `0` would count as "not
  editing". The model uses `Option` and does not reproduce that case.
- `setFormValues` assigns `editId` before it looks the todo up. If the id is
  absent, the destructuring afterwards throws. `Edit` models this: `editId` is
  set and `None` is returned.

## Model

| member | source | states |
|---|---|---|
| `Seqs.Filter` | script.js:37-41 | the result is no longer than the input, holds only input elements that satisfy the predicate, and holds every input element that does |
| `Seqs.FilterIsSubsequence` | script.js:37-41 | a filter result is a subsequence of the input, so original order is kept |
| `Seqs.FilterConcat` | script.js:37-41 | filtering a concatenation gives the concatenation of the filtered parts |
| `Seqs.FilterCount` | script.js:33-35 | each kept element occurs as often as in the input; a dropped element does not occur |
| `Seqs.FilterCounts` | script.js:37-41 | the multiplicity statement of `FilterCount`, for every element at once |
| `Seqs.FilterAll` | script.js:37-41 | a predicate true of every element returns the input unchanged |
| `Seqs.FilterExtensional` | script.js:37-41 | predicates that agree on the input's elements give the same result |
| `Text.Utf16Length` | script.js:67-80 | `.length` is at least the number of characters and at most twice it, and is 0 exactly for the empty string |
| `Text.Utf16LengthIsLength` | script.js:67-80 | `.length` equals the number of characters iff every character lies in the Basic Multilingual Plane |
| `Text.Lower` | script.js:39 | lower-casing keeps the length and maps each character to its lower-case form |
| `Text.LowerIdempotent` | script.js:39 | lower-casing twice equals lower-casing once |
| `Text.Contains` | script.js:39 | the left-to-right substring scan (`includes`): true when the needle is a prefix, and only when the needle is no longer than the haystack |
| `Text.ContainsIffOccurs` | script.js:39 | the left-to-right scan is true exactly when the needle occurs at some index of the haystack |
| `Text.ContainsEmpty` | script.js:39 | the empty string is contained in every string |
| `TodoModel.NewRecord` | script.js:24 | the appended record carries the given id, title and description, and is not completed |
| `TodoModel.Merge` | script.js:29 | the shallow merge never changes the record's id |
| `TodoModel.MergeEmpty` | script.js:29 | an empty patch leaves a record unchanged |
| `TodoModel.MergeIdempotent` | script.js:29 | merging the same patch twice equals merging it once |
| `TodoModel.MergeTwice` | script.js:29 | two successive merges equal one merge with the later patch overlaid on the earlier |
| `TodoModel.Find` | script.js:20 | the result is absent iff no record has the id; otherwise it is the record at the first index with that id |
| `TodoModel.Updated` | script.js:28-30 | the length is kept; each record with the id becomes its merge with the patch; every other record is unchanged |
| `TodoModel.Removed` | script.js:34 | the result is a subsequence of the input; no kept record has the id; every record with another id is kept |
| `TodoModel.Search` | script.js:38-40 | the result is a subsequence of the list; it holds exactly the records whose lower-cased title contains the lower-cased query, each matching record as often as in the list and no other record |
| `TodoModel.FindAfterAppend` | script.js:19-25 | after an append, looking up the new id finds the new record unless an older record has that id; other lookups are unaffected |
| `TodoModel.FindAfterUpdate` | script.js:19-31 | after an update, looking up the id finds the merged record, or nothing if absent; lookups of other ids are unaffected |
| `TodoModel.UpdateAbsentIsIdentity` | script.js:27-31 | updating an absent id leaves the list identical |
| `TodoModel.FindAfterRemove` | script.js:19-35 | after a delete, looking up the id finds nothing; lookups of other ids are unaffected |
| `TodoModel.RemoveCount` | script.js:33-35 | a delete keeps each non-matching record with its multiplicity and drops every matching record |
| `TodoModel.RemoveAbsentIsIdentity` | script.js:33-35 | deleting an absent id leaves the list identical |
| `TodoModel.SearchEmpty` | script.js:37-41 | searching for the empty string returns the whole list in order |
| `TodoModel.SearchIgnoresCase` | script.js:39 | queries that lower-case alike give the same result |
| `TodoModel.SearchLowered` | script.js:39 | a query and its lower-cased form give the same result |
| `TodoModel.SearchConcat` | script.js:37-41 | the search of a concatenation is the concatenation of the searches |
| `TodoModel.Todo.constructor` | script.js:6-8 | the list is the saved list if there is one, else the initial list; the persisted copy equals it |
| `TodoModel.Todo.SetList` | script.js:14-17 | assigning the list also writes the persisted copy, so the two are equal |
| `TodoModel.Todo.GetById` | script.js:19-21 | absent iff no record has the id; otherwise the record at the first index whose id matches |
| `TodoModel.Todo.CreateTodo` | script.js:23-25 | the new list is the old list plus one record at the end (given id, title, description, no completed flag); the persisted copy equals it |
| `TodoModel.Todo.UpdateTodo` | script.js:27-31 | the new list is the old list updated by id with the patch; the persisted copy equals it |
| `TodoModel.Todo.DeleteTodo` | script.js:33-35 | the new list is the old list without the records of that id; the persisted copy equals it |
| `TodoModel.Todo.SearchByTitle` | script.js:37-41 | the result is a subsequence of the list holding exactly the records whose title contains the query, ignoring case, each with its multiplicity in the list; the list is not modified |
| `Validation.FieldError` | script.js:67-81 | a field has no error iff its UTF-16 length is between 1 and its maximum; an empty field gets "Required"; a too-long field gets its "max length" message |
| `Validation.Validate` | script.js:63-84 | the result is null iff the title's UTF-16 length is 1..32 and the description's 1..100 (absent counts as ""); otherwise each failing field has its own message ("Required" if empty, "max length 32"/"max length 100" if too long), and only failing fields have one |
| `Validation.WideTitleIsTooLong` | script.js:75-77 | a title of 32 characters outside the Basic Multilingual Plane (64 code units) is reported as "max length 32" |
| `Validation.ValidateTodoForm` | script.js:63-84 | the field-by-field filling returns exactly `Validate`'s verdict: null iff both fields pass, otherwise one message per failing field |
| `Render.Actions` | script.js:167-200 | Delete is always present and last; Done and Edit are present iff the todo is not completed; every button targets the todo's id |
| `Render.EntryFor` | script.js:151-165 | an entry shows the todo's title and description, the completed marker exactly when `completed` is truthy, always a Delete button, and a Done button exactly when not completed |
| `Render.Rendered` | script.js:202-223 | the placeholder for the empty list, otherwise one `EntryFor` per todo, in order |
| `Render.RenderedShape` | script.js:202-223 | the placeholder is shown iff the list is empty; otherwise there is one entry per todo, in order |
| `Render.RenderTodoList` | script.js:202-223 | the loop builds exactly the display `Rendered` specifies; the placeholder is shown iff the list is empty |
| `Render.DoneLeavesOnlyDelete` | script.js:171-188 | after Done, the todo's entry is marked completed and has only its Delete button |
| `Render.MilkMatches` | script.js:37-41 | "milk" matches the title "Buy milk", ignoring case |
| `Render.BreadDoesNotMatch` | script.js:37-41 | "bread" does not match the title "Buy milk" |
| `Render.BuyMilkScenario` | script.js:23-41 | create "Buy milk" on an empty list, then: one entry; search "milk" finds it; search "bread" finds nothing; delete empties the list; the placeholder is shown |
| `Form.TodoForm.constructor` | script.js:225 | at start-up no edit is active and the whole list is rendered |
| `Form.TodoForm.Submit` | script.js:108-140 | the errors are `Validate`'s verdict on the two fields, so null iff both are valid. If invalid, the list, `editId` and view are unchanged. If valid: while editing it updates that id with the form's title and description, otherwise it appends a new record with the fresh id; then `editId` is none and the full list is rendered. The persisted copy equals the list throughout |
| `Form.TodoForm.ClearFormValues` | script.js:86-98 | the edit state becomes none |
| `Form.TodoForm.Reset` | script.js:142-145 | the edit state becomes none |
| `Form.TodoForm.Edit` | script.js:100-106 | the edit state becomes the chosen id; the loaded title and description are the todo's own, or nothing if no todo has that id |
| `Form.TodoForm.Done` | script.js:175-178 | the todo is updated with `completed: true` and the full list is re-rendered |
| `Form.TodoForm.Delete` | script.js:193-196 | the todo is deleted and the full list is re-rendered |
| `Form.TodoForm.FilterByTitle` | script.js:50-52 | the view shows the title search for the query; the list is untouched |

## Left out

- DOM access and event wiring, CSS classes, HTML strings, and the marking or clearing of error spans (script.js:48-59, 92-97, 128-138, 152-163). Only the abstract display structure is kept.
- The values of the title, description and filter inputs are not state in the model. `Submit` takes them as parameters. `Edit` returns what it would load. The clearing of those inputs by `clearFormValues` is not modelled.
- `localStorage` and `JSON.parse`/`JSON.stringify`, which are foreign calls. The persisted slot is the ghost field `stored`. Start-up takes the already-parsed saved list as an `Option`. A failing parse of a corrupted slot is not modelled.
- `Math.random()` id generation, which is nondeterministic and uses floats. The id is a parameter, and its uniqueness is neither assumed nor claimed.
- Text.Lower: it folds ASCII letters only, not full Unicode `toLowerCase`.
- Text.Contains: it matches on characters, not on UTF-16 code units. A JavaScript string can hold a lone surrogate, which a Dafny string cannot, so such strings are outside the model.
- Form.TodoForm.Submit: it models `editId` as an `Option`, so the source's falsy-id case (an id of `0` routes to create) is not captured.
- Form.TodoForm.Edit: the exception thrown for an absent id is modelled only as a `None` result with `editId` already set.

/**
 * The form controller: the module-level `editId` state and the handlers
 * that route user actions (submit, reset, Edit, Done, Delete, filter input)
 * to the todo model and re-render. Form inputs are plain strings passed in
 * by the caller; the displayed list is the `view` field.
 */
module Form {
  import opened Wrappers
  import opened TodoModel
  import opened Validation
  import opened Render

  class TodoForm {
    const model: Todo
    /** The id of the todo loaded into the form for editing, if any. */
    var editId: Option<Id>
    /** What the list container currently shows. */
    var view: Display

    ghost predicate Valid()
      reads this, model
    {
      model.Valid()
    }

    /** Start-up: no edit in progress, and the whole list rendered once. */
    constructor (model: Todo)
      requires model.Valid()
      ensures this.model == model && Valid()
      ensures editId == None && view == Rendered(model.list)
    {
      var initial := RenderTodoList(model.list);
      this.model := model;
      editId := None;
      view := initial;
    }

    /**
     * The submit handler. An invalid form changes nothing here. A valid one
     * updates the todo being edited, or creates a new one with `freshId`,
     * then clears the edit state and re-renders the full list.
     */
    method Submit(title: string, description: string, freshId: Id) returns (errors: Option<Errors>)
      requires Valid()
      modifies this, model
      ensures Valid()
      ensures errors == Validate(FormValues(Some(title), Some(description)))
      ensures errors.None? <==> IsValid(title, description)
      ensures errors.Some? ==> model.list == old(model.list) && editId == old(editId) && view == old(view)
      ensures errors.None? ==> editId == None && view == Rendered(model.list)
      ensures errors.None? && old(editId).Some? ==>
        model.list == Updated(old(model.list), old(editId).value, FormPatch(title, description))
      ensures errors.None? && old(editId).None? ==>
        model.list == old(model.list) + [NewRecord(freshId, title, description)]
    {
      errors := ValidateTodoForm(FormValues(Some(title), Some(description)));
      if errors.None? {
        if editId.Some? {
          model.UpdateTodo(editId.value, FormPatch(title, description));
        } else {
          model.CreateTodo(freshId, title, description);
        }
        ClearFormValues();
        view := RenderTodoList(model.list);
      }
    }

    /** `clearFormValues`, as far as the edit state goes. */
    method ClearFormValues()
      modifies this`editId
      ensures editId == None
    {
      editId := None;
    }

    /** The reset handler. */
    method Reset()
      modifies this`editId
      ensures editId == None
    {
      ClearFormValues();
    }

    /**
     * The Edit button (`setFormValues`): enters edit mode for `id` and
     * returns the title and description to load into the form. The id is
     * recorded before the lookup, so it stays set when no todo has it.
     */
    method Edit(id: Id) returns (loaded: Option<(string, string)>)
      modifies this`editId
      ensures editId == Some(id)
      ensures loaded.None? <==> model.GetById(id).None?
      ensures loaded.Some? ==> loaded.value == (model.GetById(id).value.title, model.GetById(id).value.description)
    {
      editId := Some(id);
      var found := model.GetById(id);
      if found.Some? {
        loaded := Some((found.value.title, found.value.description));
      } else {
        loaded := None;
      }
    }

    /** The Done button: marks the todo completed and re-renders the full list. */
    method Done(id: Id)
      requires Valid()
      modifies model, this`view
      ensures Valid()
      ensures model.list == Updated(old(model.list), id, DonePatch)
      ensures view == Rendered(model.list)
    {
      model.UpdateTodo(id, DonePatch);
      view := RenderTodoList(model.list);
    }

    /** The Delete button: removes the todo and re-renders the full list. */
    method Delete(id: Id)
      requires Valid()
      modifies model, this`view
      ensures Valid()
      ensures model.list == Removed(old(model.list), id)
      ensures view == Rendered(model.list)
    {
      model.DeleteTodo(id);
      view := RenderTodoList(model.list);
    }

    /** The filter input handler: shows the search result; the list is untouched. */
    method FilterByTitle(query: string)
      modifies this`view
      ensures view == Rendered(Search(model.list, query))
    {
      view := RenderTodoList(model.SearchByTitle(query));
    }
  }
}

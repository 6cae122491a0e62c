/**
 * `renderTodoList` and `createTodoActions`, reduced to the structure they
 * build: a placeholder for an empty list, otherwise one entry per todo with
 * its action buttons.
 */
module Render {
  import opened Wrappers
  import opened TodoModel
  import opened Text
  import opened Seqs

  /** A button of an entry, with the id its click handler acts on. */
  datatype Action = DoneButton(target: Id) | EditButton(target: Id) | DeleteButton(target: Id)

  /** One `li`: the content (title, description, completed marker) and the buttons. */
  datatype Entry = Entry(title: string, description: string, completed: bool, actions: seq<Action>)

  /** The list container: the "No tasks yet" heading, or the `ul` of entries. */
  datatype Display = NoTasks | TodoList(entries: seq<Entry>)

  /** The truthiness of `todo.completed`. */
  predicate IsCompleted(r: Record) {
    r.completed == Some(true)
  }

  /** `createTodoActions`: Done and Edit only while not completed, Delete always, last. */
  function Actions(r: Record): (a: seq<Action>)
    ensures DeleteButton(r.id) in a && a[|a| - 1] == DeleteButton(r.id)
    ensures DoneButton(r.id) in a <==> !IsCompleted(r)
    ensures EditButton(r.id) in a <==> !IsCompleted(r)
    ensures forall i :: 0 <= i < |a| ==> a[i].target == r.id
  {
    if IsCompleted(r) then [DeleteButton(r.id)]
    else [DoneButton(r.id), EditButton(r.id), DeleteButton(r.id)]
  }

  /** The `li` for one todo (`createTodoContent` followed by `createTodoActions`). */
  function EntryFor(r: Record): (e: Entry)
    ensures e.title == r.title && e.description == r.description
    ensures e.completed <==> r.completed == Some(true)
    ensures DeleteButton(r.id) in e.actions
    ensures DoneButton(r.id) in e.actions <==> r.completed != Some(true)
  {
    Entry(r.title, r.description, IsCompleted(r), Actions(r))
  }

  /** What the container shows for `todos`. */
  function Rendered(todos: seq<Record>): (d: Display)
    ensures d.NoTasks? <==> todos == []
    ensures d.TodoList? ==> |d.entries| == |todos| && forall i :: 0 <= i < |todos| ==> d.entries[i] == EntryFor(todos[i])
  {
    if |todos| == 0 then NoTasks
    else TodoList(seq(|todos|, i requires 0 <= i < |todos| => EntryFor(todos[i])))
  }

  /** The placeholder is shown exactly for the empty list; otherwise entries follow the list. */
  lemma RenderedShape(todos: seq<Record>)
    ensures Rendered(todos) == NoTasks <==> todos == []
    ensures Rendered(todos).TodoList? ==>
      |Rendered(todos).entries| == |todos| &&
      forall i :: 0 <= i < |todos| ==> Rendered(todos).entries[i] == EntryFor(todos[i])
  {
  }

  /** Builds the display by walking the list and appending one entry per todo. */
  method RenderTodoList(todos: seq<Record>) returns (d: Display)
    ensures d == Rendered(todos)
    ensures d.NoTasks? <==> todos == []
  {
    if |todos| == 0 {
      return NoTasks;
    }
    var entries: seq<Entry> := [];
    var i := 0;
    while i < |todos|
      invariant 0 <= i <= |todos|
      invariant |entries| == i
      invariant forall k :: 0 <= k < i ==> entries[k] == EntryFor(todos[k])
    {
      entries := entries + [EntryFor(todos[i])];
      i := i + 1;
    }
    d := TodoList(entries);
  }

  /** After "Done", the todo's entry is marked completed and keeps only its Delete button. */
  lemma DoneLeavesOnlyDelete(s: seq<Record>, id: Id, i: nat)
    requires i < |s| && s[i].id == id
    ensures Rendered(Updated(s, id, DonePatch)).TodoList?
    ensures Rendered(Updated(s, id, DonePatch)).entries[i].completed
    ensures Rendered(Updated(s, id, DonePatch)).entries[i].actions == [DeleteButton(id)]
  {
  }

  /** "milk" occurs in "Buy milk", ignoring case. */
  lemma MilkMatches()
    ensures Contains(Lower("Buy milk"), Lower("milk"))
  {
    var t := Lower("Buy milk");
    assert t == "buy milk" by { assert t[0] == 'b'; }
    assert OccursAt(t, "milk", 4) by { assert t[4..8] == "milk"; }
    ContainsIffOccurs(t, Lower("milk"));
  }

  /** "bread" does not occur in "Buy milk", ignoring case. */
  lemma BreadDoesNotMatch()
    ensures !Contains(Lower("Buy milk"), Lower("bread"))
  {
  }

  /**
   * The walk-through of the application: create "Buy milk", find it by
   * "milk" but not by "bread", delete it, and the placeholder is shown.
   */
  lemma BuyMilkScenario(id: Id)
    ensures var s := [] + [NewRecord(id, "Buy milk", "2% organic")];
      |s| == 1 &&
      Search(s, "milk") == s &&
      Search(s, "bread") == [] &&
      Removed(s, id) == [] &&
      Rendered(Removed(s, id)) == NoTasks
  {
    var r := NewRecord(id, "Buy milk", "2% organic");
    var s := [] + [r];
    assert s == [r];
    assert s[1..] == [];
    MilkMatches();
    assert TitleMatches("milk")(r);
    assert Search(s, "milk") == [r] + Filter([], TitleMatches("milk"));
    BreadDoesNotMatch();
    assert !TitleMatches("bread")(r);
    assert Search(s, "bread") == Filter([], TitleMatches("bread"));
    assert !HasOtherId(id)(r);
    assert Removed(s, id) == Filter([], HasOtherId(id));
  }
}

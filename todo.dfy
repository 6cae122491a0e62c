/**
 * The todo-list model: the records, the pure list transformations that the
 * operations of class `Todo` compute (first-match lookup, append, shallow
 * merge by id, removal by id, title search), and the class itself, whose
 * list is mirrored to a persisted slot on every assignment.
 */
module TodoModel {
  import opened Wrappers
  import opened Seqs
  import opened Text

  /** Identifiers are compared with `===`; nothing here depends on how they are drawn. */
  type Id = int

  /** A stored todo; `completed` is absent until the todo is marked done. */
  datatype Record = Record(id: Id, title: string, description: string, completed: Option<bool>)

  /** The fields an update supplies; an absent field is left as it was. */
  datatype Patch = Patch(title: Option<string>, description: Option<string>, completed: Option<bool>)

  /** The record `createTodo` appends: the fresh id, the caller's fields, no `completed`. */
  function NewRecord(id: Id, title: string, description: string): (r: Record)
    ensures r.id == id && r.title == title && r.description == description
    ensures !(r.completed == Some(true))
  {
    Record(id, title, description, None)
  }

  /** The patch the "Done" button applies. */
  const DonePatch := Patch(None, None, Some(true))

  /** The patch a valid form submit applies while editing. */
  function FormPatch(title: string, description: string): Patch {
    Patch(Some(title), Some(description), None)
  }

  /** Shallow merge `{...r, ...p}`: fields present in `p` win; the id is never touched. */
  function Merge(r: Record, p: Patch): (m: Record)
    ensures m.id == r.id
  {
    Record(r.id, p.title.GetOr(r.title), p.description.GetOr(r.description), if p.completed.Some? then p.completed else r.completed)
  }

  /** Overlaying patch `q` on patch `p`: what merging `p` and then `q` amounts to. */
  function Overlay(p: Patch, q: Patch): Patch {
    Patch(if q.title.Some? then q.title else p.title,
          if q.description.Some? then q.description else p.description,
          if q.completed.Some? then q.completed else p.completed)
  }

  /** A patch with no fields changes nothing. */
  lemma MergeEmpty(r: Record)
    ensures Merge(r, Patch(None, None, None)) == r
  {
  }

  /** Applying the same patch twice is the same as applying it once. */
  lemma MergeIdempotent(r: Record, p: Patch)
    ensures Merge(Merge(r, p), p) == Merge(r, p)
  {
  }

  /** Two successive merges are one merge with the later patch laid over the earlier. */
  lemma MergeTwice(r: Record, p: Patch, q: Patch)
    ensures Merge(Merge(r, p), q) == Merge(r, Overlay(p, q))
  {
  }

  /** `list.find(todo => todo.id === id)`: the first record with that id. */
  function Find(s: seq<Record>, id: Id): (r: Option<Record>)
    ensures r.None? <==> forall i :: 0 <= i < |s| ==> s[i].id != id
    ensures r.Some? ==> exists k :: 0 <= k < |s| && s[k] == r.value && r.value.id == id &&
                                    forall j :: 0 <= j < k ==> s[j].id != id
  {
    if s == [] then None
    else if s[0].id == id then Some(s[0])
    else
      var r := Find(s[1..], id);
      assert r.Some? ==> exists k :: 1 <= k < |s| && s[k] == r.value && forall j :: 0 <= j < k ==> s[j].id != id by {
        if r.Some? {
          var k' :| 0 <= k' < |s| - 1 && s[1..][k'] == r.value && forall j :: 0 <= j < k' ==> s[1..][j].id != id;
          assert s[k' + 1] == r.value;
          assert forall j :: 0 <= j < k' + 1 ==> s[j].id != id by {
            forall j | 0 <= j < k' + 1 ensures s[j].id != id {
              if j > 0 { assert s[j] == s[1..][j - 1]; }
            }
          }
        }
      }
      r
  }

  /** `list.map(todo => todo.id === id ? {...todo, ...p} : todo)`. */
  function Updated(s: seq<Record>, id: Id, p: Patch): (r: seq<Record>)
    ensures |r| == |s|
    ensures forall i :: 0 <= i < |s| ==> r[i] == if s[i].id == id then Merge(s[i], p) else s[i]
  {
    if s == [] then []
    else [if s[0].id == id then Merge(s[0], p) else s[0]] + Updated(s[1..], id, p)
  }

  /** The predicate `todo.id !== id`. */
  function HasOtherId(id: Id): Record -> bool {
    (r: Record) => r.id != id
  }

  /** `list.filter(todo => todo.id !== id)`. */
  function Removed(s: seq<Record>, id: Id): (r: seq<Record>)
    ensures IsSubsequence(r, s)
    ensures forall i :: 0 <= i < |r| ==> r[i].id != id
    ensures forall i :: 0 <= i < |s| && s[i].id != id ==> s[i] in r
  {
    FilterIsSubsequence(s, HasOtherId(id));
    Filter(s, HasOtherId(id))
  }

  /** The predicate `todo.title.toLowerCase().includes(q.toLowerCase())`. */
  function TitleMatches(q: string): Record -> bool {
    (r: Record) => Contains(Lower(r.title), Lower(q))
  }

  /** `list.filter(...)` with `TitleMatches(q)`: the records whose title contains `q`, ignoring case. */
  function Search(s: seq<Record>, q: string): (r: seq<Record>)
    ensures IsSubsequence(r, s)
    ensures forall i :: 0 <= i < |r| ==> r[i] in s && Contains(Lower(r[i].title), Lower(q))
    ensures forall i :: 0 <= i < |s| && Contains(Lower(s[i].title), Lower(q)) ==> s[i] in r
    ensures forall x :: multiset(r)[x] == if Contains(Lower(x.title), Lower(q)) then multiset(s)[x] else 0
  {
    FilterIsSubsequence(s, TitleMatches(q));
    FilterCounts(s, TitleMatches(q));
    Filter(s, TitleMatches(q))
  }

  // ---------------------------------------------------------------- lookup after each operation

  /**
   * After an append, a lookup of the new id finds the new record unless an
   * older record already carries that id (ids are not checked for collisions),
   * and a lookup of any other id is unaffected.
   */
  lemma {:induction false} FindAfterAppend(s: seq<Record>, r: Record, id: Id)
    ensures Find(s + [r], id) == if Find(s, id).Some? then Find(s, id) else if r.id == id then Some(r) else None
  {
    if s == [] {
      assert s + [r] == [r];
    } else {
      assert (s + [r])[1..] == s[1..] + [r];
      FindAfterAppend(s[1..], r, id);
    }
  }

  /** After an update, a lookup of the updated id finds the merged record; other ids are unaffected. */
  lemma {:induction false} FindAfterUpdate(s: seq<Record>, id: Id, p: Patch, other: Id)
    ensures Find(Updated(s, id, p), id) == if Find(s, id).Some? then Some(Merge(Find(s, id).value, p)) else None
    ensures other != id ==> Find(Updated(s, id, p), other) == Find(s, other)
  {
    if s != [] {
      assert Updated(s, id, p)[1..] == Updated(s[1..], id, p);
      FindAfterUpdate(s[1..], id, p, other);
    }
  }

  /** An update whose id is absent leaves the list as it is. */
  lemma UpdateAbsentIsIdentity(s: seq<Record>, id: Id, p: Patch)
    requires Find(s, id).None?
    ensures Updated(s, id, p) == s
  {
  }

  /** After a removal the id is gone; lookups of other ids are unaffected. */
  lemma {:induction false} FindAfterRemove(s: seq<Record>, id: Id, other: Id)
    ensures Find(Removed(s, id), id).None?
    ensures other != id ==> Find(Removed(s, id), other) == Find(s, other)
  {
    if s != [] {
      FindAfterRemove(s[1..], id, other);
      if s[0].id != id {
        assert Removed(s, id) == [s[0]] + Removed(s[1..], id);
        assert (Removed(s, id))[1..] == Removed(s[1..], id);
      } else {
        assert Removed(s, id) == Removed(s[1..], id);
      }
    }
  }

  /** Removal keeps exactly the non-matching records, each as often as before. */
  lemma RemoveCount(s: seq<Record>, id: Id, x: Record)
    ensures multiset(Removed(s, id))[x] == if x.id != id then multiset(s)[x] else 0
  {
    FilterCount(s, HasOtherId(id), x);
  }

  /** Removal of an absent id leaves the list as it is. */
  lemma RemoveAbsentIsIdentity(s: seq<Record>, id: Id)
    requires Find(s, id).None?
    ensures Removed(s, id) == s
  {
    FilterAll(s, HasOtherId(id));
  }

  /** Searching for the empty string returns the whole list. */
  lemma SearchEmpty(s: seq<Record>)
    ensures Search(s, "") == s
  {
    forall x | x in s ensures TitleMatches("")(x) {
      ContainsEmpty(Lower(x.title));
    }
    FilterAll(s, TitleMatches(""));
  }

  /** The search ignores case: two queries that lower-case alike give the same result. */
  lemma SearchIgnoresCase(s: seq<Record>, q: string, q': string)
    requires Lower(q) == Lower(q')
    ensures Search(s, q) == Search(s, q')
  {
    FilterExtensional(s, TitleMatches(q), TitleMatches(q'));
  }

  /** In particular, a query and its lower-cased form give the same result. */
  lemma SearchLowered(s: seq<Record>, q: string)
    ensures Search(s, Lower(q)) == Search(s, q)
  {
    LowerIdempotent(q);
    SearchIgnoresCase(s, Lower(q), q);
  }

  /** Search results of a concatenation are the concatenation of the results. */
  lemma SearchConcat(a: seq<Record>, b: seq<Record>, q: string)
    ensures Search(a + b, q) == Search(a, q) + Search(b, q)
  {
    FilterConcat(a, b, TitleMatches(q));
  }

  // ---------------------------------------------------------------- the model object

  /**
   * The todo model object. `list` is the private field behind the `list`
   * accessor; `stored` is the persisted copy that the setter writes on every
   * assignment.
   */
  class Todo {
    var list: seq<Record>
    ghost var stored: seq<Record>

    /** The persisted slot mirrors the in-memory list. */
    ghost predicate Valid()
      reads this
    {
      stored == list
    }

    /** Starts from the parsed persisted list if there is one, else from `initialList`. */
    constructor (saved: Option<seq<Record>>, initialList: seq<Record>)
      ensures Valid()
      ensures list == saved.GetOr(initialList)
    {
      list := saved.GetOr(initialList);
      stored := saved.GetOr(initialList);
    }

    /** The `list` setter: assigns the field and persists the whole value. */
    method SetList(value: seq<Record>)
      modifies this
      ensures Valid() && list == value
    {
      list := value;
      stored := value;
    }

    /** `getById`: the first record with id `id`, if any. */
    function GetById(id: Id): (r: Option<Record>)
      reads this
      ensures r.None? <==> forall i :: 0 <= i < |list| ==> list[i].id != id
      ensures r.Some? ==> exists k :: 0 <= k < |list| && list[k] == r.value && r.value.id == id &&
                                      forall j :: 0 <= j < k ==> list[j].id != id
    {
      Find(list, id)
    }

    /** `createTodo`: appends one record with the given id and fields. */
    method CreateTodo(id: Id, title: string, description: string)
      modifies this
      ensures Valid()
      ensures list == old(list) + [NewRecord(id, title, description)]
    {
      SetList(list + [NewRecord(id, title, description)]);
    }

    /** `updateTodo`: merges `patch` into every record with id `id`. */
    method UpdateTodo(id: Id, patch: Patch)
      modifies this
      ensures Valid()
      ensures list == Updated(old(list), id, patch)
    {
      SetList(Updated(list, id, patch));
    }

    /** `deleteTodo`: drops every record with id `id`. */
    method DeleteTodo(id: Id)
      modifies this
      ensures Valid()
      ensures list == Removed(old(list), id)
    {
      SetList(Removed(list, id));
    }

    /** `searchByTitle`: the records whose title contains `q`, ignoring case, in list order. */
    function SearchByTitle(q: string): (r: seq<Record>)
      reads this
      ensures IsSubsequence(r, list)
      ensures forall i :: 0 <= i < |r| ==> r[i] in list && Contains(Lower(r[i].title), Lower(q))
      ensures forall i :: 0 <= i < |list| && Contains(Lower(list[i].title), Lower(q)) ==> list[i] in r
      ensures forall x :: multiset(r)[x] == if Contains(Lower(x.title), Lower(q)) then multiset(list)[x] else 0
    {
      Search(list, q)
    }
  }
}

/** The task list of the to-do mini-app as values: the task record and the
    three transformations the app applies to its ordered list of records
    (append, remove by id, update by id), with what each keeps and changes. */
module TodoList {

  /** One task record. All four fields are strings in the app: the id is a
      uuid chosen at creation, the timestamp an ISO-8601 instant. */
  datatype Todo = Todo(id: string, title: string, text: string, createdAt: string)

  /** The record the app uses for an empty form. */
  const BLANK: Todo := Todo("", "", "", "")

  /** Some record of `s` carries `id`. */
  predicate HasId(s: seq<Todo>, id: string) {
    exists i :: 0 <= i < |s| && s[i].id == id
  }

  /** No two records of `s` share an id. */
  predicate UniqueIds(s: seq<Todo>) {
    forall i, j :: 0 <= i < j < |s| ==> s[i].id != s[j].id
  }

  /** How many records of `s` carry `id`. */
  function CountId(s: seq<Todo>, id: string): (n: nat)
    ensures n <= |s|
  {
    if s == [] then 0
    else (if s[0].id == id then 1 else 0) + CountId(s[1..], id)
  }

  /** The list with one more record at its end (the spread-append of addTodo). */
  function Append(s: seq<Todo>, t: Todo): (r: seq<Todo>)
    ensures |r| == |s| + 1
    ensures r[..|s|] == s && r[|s|] == t
  {
    s + [t]
  }

  /** The records of `s` whose id is not `id`, in their order (the filter of
      deleteTodo). */
  function RemoveById(s: seq<Todo>, id: string): (r: seq<Todo>)
    ensures |r| <= |s|
    ensures forall i :: 0 <= i < |r| ==> r[i].id != id
    ensures forall x :: x in r <==> x in s && x.id != id
  {
    if s == [] then []
    else if s[0].id == id then RemoveById(s[1..], id)
    else [s[0]] + RemoveById(s[1..], id)
  }

  /** `s` with the title and text of `e` written into every record whose id is
      `e.id` (the map of editTodo). */
  function UpdateById(s: seq<Todo>, e: Todo): (r: seq<Todo>)
    ensures |r| == |s|
    ensures forall i :: 0 <= i < |s| ==> r[i].id == s[i].id && r[i].createdAt == s[i].createdAt
    ensures forall i :: 0 <= i < |s| && s[i].id == e.id ==> r[i].title == e.title && r[i].text == e.text
    ensures forall i :: 0 <= i < |s| && s[i].id != e.id ==> r[i] == s[i]
  {
    if s == [] then []
    else [if s[0].id == e.id then s[0].(text := e.text, title := e.title) else s[0]]
         + UpdateById(s[1..], e)
  }

  // ---------------------------------------------------------------------
  // Counting and presence

  /** Some record carries `id` exactly when its count is positive. */
  lemma {:induction false} CountIdPositive(s: seq<Todo>, id: string)
    ensures CountId(s, id) > 0 <==> HasId(s, id)
  {
    if s != [] {
      CountIdPositive(s[1..], id);
      if s[0].id != id && HasId(s, id) {
        var i :| 0 <= i < |s| && s[i].id == id;
        assert s[1..][i - 1].id == id;
      }
    }
  }

  /** With unique ids, no id is carried more than once. */
  lemma {:induction false} CountIdUnique(s: seq<Todo>, id: string)
    requires UniqueIds(s)
    ensures CountId(s, id) <= 1
  {
    if s != [] {
      assert UniqueIds(s[1..]) by {
        forall i, j | 0 <= i < j < |s[1..]| ensures s[1..][i].id != s[1..][j].id {
          assert s[1..][i] == s[i + 1] && s[1..][j] == s[j + 1];
        }
      }
      CountIdUnique(s[1..], id);
      if s[0].id == id {
        CountIdPositive(s[1..], id);
      }
    }
  }

  // ---------------------------------------------------------------------
  // Append

  /** Appending a record whose id is new keeps the ids unique. */
  lemma AppendKeepsUnique(s: seq<Todo>, t: Todo)
    requires UniqueIds(s) && !HasId(s, t.id)
    ensures UniqueIds(Append(s, t))
  {
  }

  /** After an append, the id of the new record is carried once more. */
  lemma {:induction false} AppendCount(s: seq<Todo>, t: Todo, id: string)
    ensures CountId(Append(s, t), id) == CountId(s, id) + (if t.id == id then 1 else 0)
  {
    if s == [] {
      assert Append(s, t) == [t];
    } else {
      assert Append(s, t)[1..] == Append(s[1..], t);
      AppendCount(s[1..], t, id);
    }
  }

  // ---------------------------------------------------------------------
  // RemoveById

  /** Removal shrinks the list by exactly the number of matching records. */
  lemma {:induction false} RemoveByIdLength(s: seq<Todo>, id: string)
    ensures |RemoveById(s, id)| == |s| - CountId(s, id)
  {
    if s != [] {
      RemoveByIdLength(s[1..], id);
    }
  }

  /** Removing an id that no record carries leaves the list as it was. */
  lemma {:induction false} RemoveByIdAbsent(s: seq<Todo>, id: string)
    requires !HasId(s, id)
    ensures RemoveById(s, id) == s
  {
    if s != [] {
      assert s[0].id != id;
      assert !HasId(s[1..], id);
      RemoveByIdAbsent(s[1..], id);
      assert s == [s[0]] + s[1..];
    }
  }

  /** With unique ids, removing an id that is present removes exactly one record. */
  lemma RemoveByIdExactlyOne(s: seq<Todo>, id: string)
    requires UniqueIds(s) && HasId(s, id)
    ensures |RemoveById(s, id)| == |s| - 1
  {
    RemoveByIdLength(s, id);
    CountIdPositive(s, id);
    CountIdUnique(s, id);
  }

  /** Removal keeps relative order: it distributes over concatenation, so a
      record that came before another still does. */
  lemma {:induction false} RemoveByIdConcat(a: seq<Todo>, b: seq<Todo>, id: string)
    ensures RemoveById(a + b, id) == RemoveById(a, id) + RemoveById(b, id)
  {
    if a != [] {
      assert (a + b)[1..] == a[1..] + b;
      RemoveByIdConcat(a[1..], b, id);
    } else {
      assert a + b == b;
    }
  }

  /** Removal keeps every other record as often as it occurred and drops every
      occurrence of the matching ones. */
  lemma {:induction false} RemoveByIdMultiset(s: seq<Todo>, id: string, x: Todo)
    ensures multiset(RemoveById(s, id))[x] == if x.id == id then 0 else multiset(s)[x]
  {
    if s != [] {
      RemoveByIdMultiset(s[1..], id, x);
      assert s == [s[0]] + s[1..];
    }
  }

  /** Removal keeps the ids unique. */
  lemma {:induction false} RemoveByIdKeepsUnique(s: seq<Todo>, id: string)
    requires UniqueIds(s)
    ensures UniqueIds(RemoveById(s, id))
  {
    if s != [] {
      var tail := s[1..];
      assert UniqueIds(tail) by {
        forall i, j | 0 <= i < j < |tail| ensures tail[i].id != tail[j].id {
          assert tail[i] == s[i + 1] && tail[j] == s[j + 1];
        }
      }
      RemoveByIdKeepsUnique(tail, id);
      if s[0].id != id {
        var rest := RemoveById(tail, id);
        var r := [s[0]] + rest;
        forall i, j | 0 <= i < j < |r| ensures r[i].id != r[j].id {
          if i == 0 {
            assert r[j] == rest[j - 1] && rest[j - 1] in tail;
            var k :| 0 <= k < |tail| && tail[k] == rest[j - 1];
            assert s[k + 1] == tail[k];
          } else {
            assert r[i] == rest[i - 1] && r[j] == rest[j - 1];
          }
        }
      }
    }
  }

  // ---------------------------------------------------------------------
  // UpdateById

  /** Editing an id that no record carries leaves the list as it was. */
  lemma UpdateByIdAbsent(s: seq<Todo>, e: Todo)
    requires !HasId(s, e.id)
    ensures UpdateById(s, e) == s
  {
  }

  /** Editing twice with the same values is editing once. */
  lemma UpdateByIdIdempotent(s: seq<Todo>, e: Todo)
    ensures UpdateById(UpdateById(s, e), e) == UpdateById(s, e)
  {
  }

  /** Editing keeps relative order: it distributes over concatenation. */
  lemma UpdateByIdConcat(a: seq<Todo>, b: seq<Todo>, e: Todo)
    ensures UpdateById(a + b, e) == UpdateById(a, e) + UpdateById(b, e)
  {
  }

  /** Editing never changes an id, so it keeps the ids unique. */
  lemma UpdateByIdKeepsUnique(s: seq<Todo>, e: Todo)
    requires UniqueIds(s)
    ensures UniqueIds(UpdateById(s, e))
  {
  }

  /** Removing and editing commute, and removing the edited id undoes the edit. */
  lemma {:induction false} RemoveUpdateCommute(s: seq<Todo>, id: string, e: Todo)
    ensures RemoveById(UpdateById(s, e), id) == UpdateById(RemoveById(s, id), e)
  {
    if s != [] {
      RemoveUpdateCommute(s[1..], id, e);
      assert UpdateById(s, e)[1..] == UpdateById(s[1..], e);
      var h := UpdateById(s, e)[0];
      assert h.id == s[0].id;
      if s[0].id != id {
        assert RemoveById(s, id)[0] == s[0];
        assert RemoveById(s, id)[1..] == RemoveById(s[1..], id);
      }
    }
  }

  /** Adding a record with a fresh id, editing it and then deleting it gives
      back the list that was there before the add. */
  lemma AddEditDelete(s: seq<Todo>, t: Todo, e: Todo)
    requires !HasId(s, t.id) && e.id == t.id
    ensures RemoveById(UpdateById(Append(s, t), e), t.id) == s
  {
    RemoveUpdateCommute(Append(s, t), t.id, e);
    RemoveByIdConcat(s, [t], t.id);
    RemoveByIdAbsent(s, t.id);
    assert RemoveById([t], t.id) == [];
    assert RemoveById(Append(s, t), t.id) == s;
    UpdateByIdAbsent(s, e);
  }
}

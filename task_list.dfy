/** The local task list and the three change-feed updaters that reconcile it
    with the remote `tasks` table: INSERT appends, UPDATE replaces by id,
    DELETE filters by id. Each updater is a pure function from the previous
    list to the next one. */
module TaskList {
  import opened Wrappers

  /** One row of the `tasks` table as the client sees it. Only `id` is ever
      inspected by the reconciliation; the other fields are carried along. */
  datatype Task = Task(
    id: int,
    title: string,
    description: string,
    email: string,
    image_url: Option<string>,
    created_at: string
  )

  /** Number of entries of `s` whose id is `id`. */
  function IdCount(s: seq<Task>, id: int): (n: nat)
    ensures n <= |s|
    ensures n == 0 <==> forall i :: 0 <= i < |s| ==> s[i].id != id
  {
    if s == [] then 0
    else (if s[0].id == id then 1 else 0) + IdCount(s[1..], id)
  }

  /** INSERT handler: `[...prev, payload.new]`. There is no check whether an
      entry with the same id is already present. */
  function Insert(prev: seq<Task>, t: Task): (r: seq<Task>)
    ensures |r| == |prev| + 1
    ensures r[..|prev|] == prev
    ensures r[|prev|] == t
  {
    prev + [t]
  }

  /** UPDATE handler: `prev.map(task => task.id === p.id ? p : task)`. */
  function Update(prev: seq<Task>, p: Task): (r: seq<Task>)
  {
    if prev == [] then []
    else [if prev[0].id == p.id then p else prev[0]] + Update(prev[1..], p)
  }

  /** DELETE handler: `prev.filter(task => task.id !== id)`. */
  function Delete(prev: seq<Task>, id: int): (r: seq<Task>)
  {
    if prev == [] then []
    else (if prev[0].id == id then [] else [prev[0]]) + Delete(prev[1..], id)
  }

  // ---------------------------------------------------------------------
  // Counting ids

  lemma {:induction false} IdCountAppend(a: seq<Task>, b: seq<Task>, id: int)
    ensures IdCount(a + b, id) == IdCount(a, id) + IdCount(b, id)
  {
    if a != [] {
      assert (a + b)[1..] == a[1..] + b;
      IdCountAppend(a[1..], b, id);
    } else {
      assert a + b == b;
    }
  }

  // ---------------------------------------------------------------------
  // INSERT

  /** Inserting adds exactly one entry carrying the new record's id and
      leaves the count of every other id alone. */
  lemma InsertCount(prev: seq<Task>, t: Task, id: int)
    ensures IdCount(Insert(prev, t), id) == IdCount(prev, id) + (if t.id == id then 1 else 0)
  {
    IdCountAppend(prev, [t], id);
    assert [t][1..] == [];
  }

  /** The insert handler is not idempotent: delivering the same INSERT
      payload twice leaves two entries with its id. */
  lemma InsertTwiceDuplicates(prev: seq<Task>, t: Task)
    ensures IdCount(Insert(Insert(prev, t), t), t.id) == IdCount(prev, t.id) + 2
    ensures Insert(Insert(prev, t), t) != Insert(prev, t)
  {
    InsertCount(prev, t, t.id);
    InsertCount(Insert(prev, t), t, t.id);
  }

  // ---------------------------------------------------------------------
  // UPDATE

  /** Position-wise meaning of the update handler: the shape is kept, every
      entry whose id matches now holds the payload, every other entry keeps
      its original value at its original index. */
  lemma {:induction false} UpdateAt(prev: seq<Task>, p: Task)
    ensures |Update(prev, p)| == |prev|
    ensures forall i :: 0 <= i < |prev| ==>
      Update(prev, p)[i] == (if prev[i].id == p.id then p else prev[i])
  {
    if prev != [] {
      UpdateAt(prev[1..], p);
      forall i | 0 <= i < |prev|
        ensures Update(prev, p)[i] == (if prev[i].id == p.id then p else prev[i])
      {
        if i > 0 {
          assert Update(prev, p)[i] == Update(prev[1..], p)[i - 1];
        }
      }
    }
  }

  /** An update whose id is not in the list changes nothing. */
  lemma {:induction false} UpdateAbsent(prev: seq<Task>, p: Task)
    requires IdCount(prev, p.id) == 0
    ensures Update(prev, p) == prev
  {
    UpdateAt(prev, p);
  }

  /** Delivering the same UPDATE payload twice equals delivering it once. */
  lemma {:induction false} UpdateIdempotent(prev: seq<Task>, p: Task)
    ensures Update(Update(prev, p), p) == Update(prev, p)
  {
    UpdateAt(prev, p);
    UpdateAt(Update(prev, p), p);
  }

  /** An update never changes which ids the list holds, nor how often. */
  lemma {:induction false} UpdateKeepsIds(prev: seq<Task>, p: Task, id: int)
    ensures IdCount(Update(prev, p), id) == IdCount(prev, id)
  {
    if prev != [] {
      UpdateKeepsIds(prev[1..], p, id);
      var head := if prev[0].id == p.id then p else prev[0];
      assert Update(prev, p) == [head] + Update(prev[1..], p);
      IdCountAppend([head], Update(prev[1..], p), id);
      assert [head][1..] == [];
    }
  }

  // ---------------------------------------------------------------------
  // DELETE

  /** The delete handler keeps exactly the entries with another id: nothing
      with the deleted id survives, and nothing else is lost. */
  lemma {:induction false} DeleteMembers(prev: seq<Task>, id: int, t: Task)
    ensures t in Delete(prev, id) <==> t in prev && t.id != id
  {
    if prev != [] {
      DeleteMembers(prev[1..], id, t);
      assert prev == [prev[0]] + prev[1..];
    }
  }

  /** The length drops by exactly the number of matching entries, so a
      delete never lengthens the list. */
  lemma {:induction false} DeleteLength(prev: seq<Task>, id: int)
    ensures |Delete(prev, id)| == |prev| - IdCount(prev, id)
    ensures |Delete(prev, id)| <= |prev|
  {
    if prev != [] {
      DeleteLength(prev[1..], id);
    }
  }

  /** Deleting distributes over concatenation: the survivors of `a` come
      before the survivors of `b`, so relative order is kept. */
  lemma {:induction false} DeleteAppend(a: seq<Task>, b: seq<Task>, id: int)
    ensures Delete(a + b, id) == Delete(a, id) + Delete(b, id)
  {
    if a == [] {
      assert a + b == b;
    } else {
      assert (a + b)[1..] == a[1..] + b;
      DeleteAppend(a[1..], b, id);
    }
  }

  /** Deleting an id that is not in the list changes nothing. */
  lemma {:induction false} DeleteAbsent(prev: seq<Task>, id: int)
    requires IdCount(prev, id) == 0
    ensures Delete(prev, id) == prev
  {
    if prev != [] {
      DeleteAbsent(prev[1..], id);
      assert prev == [prev[0]] + prev[1..];
    }
  }

  /** Delivering the same DELETE payload twice equals delivering it once. */
  lemma DeleteIdempotent(prev: seq<Task>, id: int)
    ensures Delete(Delete(prev, id), id) == Delete(prev, id)
  {
    var r := Delete(prev, id);
    forall i | 0 <= i < |r| ensures r[i].id != id {
      DeleteMembers(prev, id, r[i]);
    }
    DeleteAbsent(r, id);
  }

  // ---------------------------------------------------------------------
  // Interplay

  /** A DELETE of the inserted id removes the inserted entry and every
      earlier entry with that id, duplicates included. */
  lemma DeleteAfterInsert(prev: seq<Task>, t: Task)
    ensures Delete(Insert(prev, t), t.id) == Delete(prev, t.id)
  {
    DeleteAppend(prev, [t], t.id);
    assert Delete([t], t.id) == [];
  }

  /** A DELETE of the updated id erases every trace of the update. */
  lemma {:induction false} DeleteAfterUpdate(prev: seq<Task>, p: Task)
    ensures Delete(Update(prev, p), p.id) == Delete(prev, p.id)
  {
    if prev != [] {
      DeleteAfterUpdate(prev[1..], p);
      var head := if prev[0].id == p.id then p else prev[0];
      assert Update(prev, p) == [head] + Update(prev[1..], p);
      DeleteAppend([head], Update(prev[1..], p), p.id);
      assert [head][1..] == [];
    }
  }
}

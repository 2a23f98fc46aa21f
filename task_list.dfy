/** The ordered task list and the two pure list transitions the handlers apply to it:
    rewriting the text of the tasks with a given id (`tasks.map`) and removing the
    tasks with a given id (`tasks.filter`). */
module TaskList {

  /** Ids are the millisecond clock readings taken when a task is created; nothing
      makes them unique, so every transition below is stated for duplicate ids too. */
  type TaskId = int

  datatype Task = Task(id: TaskId, text: string)

  predicate HasId(ts: seq<Task>, id: TaskId) {
    exists i :: 0 <= i < |ts| && ts[i].id == id
  }

  /** No two tasks share an id. */
  predicate UniqueIds(ts: seq<Task>) {
    forall i, j :: 0 <= i < |ts| && 0 <= j < |ts| && ts[i].id == ts[j].id ==> i == j
  }

  /** `a` is `b` with some elements deleted, the rest kept in their order. */
  predicate IsSubsequence(a: seq<Task>, b: seq<Task>)
    decreases |b|
  {
    a == [] || (b != [] && ((a[0] == b[0] && IsSubsequence(a[1..], b[1..])) || IsSubsequence(a, b[1..])))
  }

  /** `tasks.map(task => task.id === id ? { ...task, text } : task)`. */
  function WithText(ts: seq<Task>, id: TaskId, text: string): (r: seq<Task>)
    ensures |r| == |ts|
    ensures forall i :: 0 <= i < |ts| ==> r[i].id == ts[i].id
    ensures forall i :: 0 <= i < |ts| ==> r[i].text == if ts[i].id == id then text else ts[i].text
  {
    if ts == [] then []
    else [if ts[0].id == id then ts[0].(text := text) else ts[0]] + WithText(ts[1..], id, text)
  }

  /** `tasks.filter(task => task.id !== id)`: every task with that id is gone, every
      other task keeps its multiplicity, and the survivors keep their order. */
  function Without(ts: seq<Task>, id: TaskId): (r: seq<Task>)
    ensures forall t :: multiset(r)[t] == if t.id == id then 0 else multiset(ts)[t]
    ensures IsSubsequence(r, ts)
  {
    if ts == [] then []
    else
      assert ts == [ts[0]] + ts[1..];
      if ts[0].id == id then Without(ts[1..], id)
      else [ts[0]] + Without(ts[1..], id)
  }

  /** Rewriting the text of an id that no task has changes nothing. */
  lemma WithTextAbsent(ts: seq<Task>, id: TaskId, text: string)
    requires !HasId(ts, id)
    ensures WithText(ts, id, text) == ts
  {
    var r := WithText(ts, id, text);
    forall i | 0 <= i < |ts| ensures r[i] == ts[i] {
      assert ts[i].id != id;
    }
  }

  /** The rewrite keeps the set of ids: an id is present after it exactly when it was before. */
  lemma WithTextKeepsIds(ts: seq<Task>, id: TaskId, text: string, j: TaskId)
    ensures HasId(WithText(ts, id, text), j) <==> HasId(ts, j)
  {
    var r := WithText(ts, id, text);
    if HasId(ts, j) {
      var i :| 0 <= i < |ts| && ts[i].id == j;
      assert r[i].id == j;
    }
    if HasId(r, j) {
      var i :| 0 <= i < |r| && r[i].id == j;
      assert ts[i].id == j;
    }
  }

  /** A second rewrite of the same id overrides the first. */
  lemma WithTextTwice(ts: seq<Task>, id: TaskId, first: string, second: string)
    ensures WithText(WithText(ts, id, first), id, second) == WithText(ts, id, second)
  {
    var a := WithText(WithText(ts, id, first), id, second);
    var b := WithText(ts, id, second);
    forall i | 0 <= i < |ts| ensures a[i] == b[i] {
    }
  }

  /** With unique ids, writing a listed task's own text back into it changes nothing. */
  lemma WithTextOwnText(ts: seq<Task>, t: Task)
    requires UniqueIds(ts) && t in ts
    ensures WithText(ts, t.id, t.text) == ts
  {
    var k :| 0 <= k < |ts| && ts[k] == t;
    var r := WithText(ts, t.id, t.text);
    forall i | 0 <= i < |ts| ensures r[i] == ts[i] {
      if ts[i].id == t.id {
        assert i == k;
      }
    }
  }

  /** A task of the list is found again after the filter whenever its id is not the one removed. */
  lemma WithoutKeepsOthers(ts: seq<Task>, id: TaskId, t: Task)
    requires t in ts && t.id != id
    ensures t in Without(ts, id)
  {
    assert multiset(ts)[t] > 0;
    assert multiset(Without(ts, id))[t] > 0;
  }

  /** No task with the removed id survives the filter. */
  lemma WithoutRemovesId(ts: seq<Task>, id: TaskId)
    ensures !HasId(Without(ts, id), id)
  {
    var r := Without(ts, id);
    forall i | 0 <= i < |r| ensures r[i].id != id {
      assert r[i] in multiset(r);
    }
  }

  /** Filtering out an id that no task has leaves the list as it was. */
  lemma {:induction false} WithoutAbsent(ts: seq<Task>, id: TaskId)
    requires !HasId(ts, id)
    ensures Without(ts, id) == ts
  {
    if ts != [] {
      assert ts[0].id != id;
      assert !HasId(ts[1..], id) by {
        forall i | 0 <= i < |ts[1..]| ensures ts[1..][i].id != id {
          assert ts[1..][i] == ts[i + 1];
        }
      }
      WithoutAbsent(ts[1..], id);
      assert ts == [ts[0]] + ts[1..];
    }
  }

  /** Removing the same id twice is the same as removing it once. */
  lemma WithoutIdempotent(ts: seq<Task>, id: TaskId)
    ensures Without(Without(ts, id), id) == Without(ts, id)
  {
    WithoutRemovesId(ts, id);
    WithoutAbsent(Without(ts, id), id);
  }

  /** The filter works element by element, so it splits over a concatenation. */
  lemma {:induction false} WithoutAppend(a: seq<Task>, b: seq<Task>, id: TaskId)
    ensures Without(a + b, id) == Without(a, id) + Without(b, id)
  {
    if a != [] {
      assert (a + b)[0] == a[0] && (a + b)[1..] == a[1..] + b;
      WithoutAppend(a[1..], b, id);
    } else {
      assert a + b == b;
    }
  }
}

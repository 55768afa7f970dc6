/**
  The task record the store keeps, and the list operation `deleteTask` builds
  its new list with: `tasks.filter((task) => task.id !== taskId)`.
 */
module Tasks {

  /** The id is `Date.now().toString()` at creation; nothing makes it unique. */
  type TaskId = string

  /** A task has exactly the two fields `addTask` sets. */
  datatype Task = Task(id: TaskId, name: string)

  /** No task of `ts` carries `id`. */
  predicate NoneWithId(ts: seq<Task>, id: TaskId) {
    forall i :: 0 <= i < |ts| ==> ts[i].id != id
  }

  /** How many tasks of `ts` carry `id`. */
  function CountWithId(ts: seq<Task>, id: TaskId): (n: nat)
    ensures n <= |ts|
    ensures n == 0 <==> NoneWithId(ts, id)
  {
    if ts == [] then 0
    else (if ts[0].id == id then 1 else 0) + CountWithId(ts[1..], id)
  }

  /** The tasks of `ts` whose id differs from `id`, in their original order. */
  function Without(ts: seq<Task>, id: TaskId): (r: seq<Task>)
    ensures |r| == |ts| - CountWithId(ts, id)
    ensures forall t :: t in r <==> t in ts && t.id != id
  {
    if ts == [] then []
    else if ts[0].id != id then [ts[0]] + Without(ts[1..], id)
    else Without(ts[1..], id)
  }

  /** `xs` is `ys` with some elements left out and the rest in their order. */
  predicate IsSubsequence(xs: seq<Task>, ys: seq<Task>)
    decreases |ys|
  {
    xs == []
    || (ys != [] && ((xs[0] == ys[0] && IsSubsequence(xs[1..], ys[1..])) || IsSubsequence(xs, ys[1..])))
  }

  /** Filtering keeps the survivors in their original relative order. */
  lemma {:induction false} WithoutIsSubsequence(ts: seq<Task>, id: TaskId)
    ensures IsSubsequence(Without(ts, id), ts)
  {
    if ts != [] {
      WithoutIsSubsequence(ts[1..], id);
    }
  }

  /** Filtering distributes over concatenation: each part is filtered in place. */
  lemma {:induction false} WithoutAppend(a: seq<Task>, b: seq<Task>, id: TaskId)
    ensures Without(a + b, id) == Without(a, id) + Without(b, id)
  {
    if a != [] {
      assert (a + b)[0] == a[0];
      assert (a + b)[1..] == a[1..] + b;
      WithoutAppend(a[1..], b, id);
      if a[0].id != id {
        calc {
          Without(a + b, id);
          [a[0]] + Without(a[1..] + b, id);
          [a[0]] + (Without(a[1..], id) + Without(b, id));
          ([a[0]] + Without(a[1..], id)) + Without(b, id);
        }
      }
    } else {
      assert a + b == b;
    }
  }

  /** When no task carries `id`, the filtered list is the same list. */
  lemma {:induction false} WithoutAbsent(ts: seq<Task>, id: TaskId)
    requires NoneWithId(ts, id)
    ensures Without(ts, id) == ts
  {
    if ts != [] {
      WithoutAbsent(ts[1..], id);
    }
  }

  /** Removing `id` a second time changes nothing. */
  lemma WithoutIdempotent(ts: seq<Task>, id: TaskId)
    ensures Without(Without(ts, id), id) == Without(ts, id)
  {
    var r := Without(ts, id);
    forall i | 0 <= i < |r| ensures r[i].id != id {
      assert r[i] in r;
    }
    WithoutAbsent(r, id);
  }
}

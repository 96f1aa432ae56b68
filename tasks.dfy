/**
 * The Task record shared by every layer of the application, and the pure
 * list operations the layers are built from: first match by id
 * (`Array.prototype.find`), removal by id (`filter`), and the count of
 * completed tasks (`filter(...).length`).
 */
module Tasks {

  datatype Option<T> = None | Some(value: T)

  /**
   * A to-do item. The stores and src/pages call the description `title`;
   * src/components/home.tsx calls the same field `text`.
   */
  datatype Task = Task(id: string, title: string, completed: bool)

  /** The task with its `completed` flag negated (`{ ...task, completed: !task.completed }`). */
  function Flip(t: Task): (r: Task)
    ensures r.id == t.id && r.title == t.title
    ensures r.completed != t.completed
  {
    t.(completed := !t.completed)
  }

  // ---------------------------------------------------------------------------
  // Task ids: `task-${Date.now()}`
  // ---------------------------------------------------------------------------

  function DigitChar(d: nat): (c: char)
    requires d < 10
    ensures '0' <= c <= '9'
  {
    ('0' as int + d) as char
  }

  /** The decimal notation JavaScript prints for a non-negative integer. */
  function Decimal(n: nat): (r: string)
    ensures |r| >= 1
    ensures forall i :: 0 <= i < |r| ==> '0' <= r[i] <= '9'
    ensures |r| == 1 <==> n < 10
  {
    if n < 10 then [DigitChar(n)] else Decimal(n / 10) + [DigitChar(n % 10)]
  }

  /** The number a string of decimal digits spells, most significant digit first. */
  function DigitsValue(s: string): nat
    requires forall i :: 0 <= i < |s| ==> '0' <= s[i] <= '9'
  {
    if |s| == 0 then 0
    else 10 * DigitsValue(s[..|s| - 1]) + (s[|s| - 1] as int - '0' as int)
  }

  /** `Decimal(n)` reads back as `n`, and has no leading zero unless it is "0". */
  lemma {:induction false} DecimalValue(n: nat)
    ensures DigitsValue(Decimal(n)) == n
    ensures |Decimal(n)| > 1 ==> Decimal(n)[0] != '0'
  {
    if n >= 10 {
      DecimalValue(n / 10);
      assert Decimal(n)[..|Decimal(n)| - 1] == Decimal(n / 10);
    }
  }

  /** The id a store or the local page gives a task created at millisecond `now`. */
  function TaskId(now: nat): (id: string)
    ensures |id| > 5 && id[..5] == "task-"
    ensures forall i :: 5 <= i < |id| ==> '0' <= id[i] <= '9'
    ensures DigitsValue(id[5..]) == now && (|id| > 6 ==> id[5] != '0')
  {
    DecimalValue(now);
    assert ("task-" + Decimal(now))[5..] == Decimal(now);
    "task-" + Decimal(now)
  }

  /** Distinct numbers print differently. */
  lemma {:induction false} DecimalInjective(a: nat, b: nat)
    requires Decimal(a) == Decimal(b)
    ensures a == b
  {
    if a >= 10 {
      var da, db := Decimal(a), Decimal(b);
      assert b >= 10;
      assert da[..|da| - 1] == Decimal(a / 10);
      assert db[..|db| - 1] == Decimal(b / 10);
      DecimalInjective(a / 10, b / 10);
      assert da[|da| - 1] == DigitChar(a % 10);
      assert db[|db| - 1] == DigitChar(b % 10);
    }
  }

  /**
   * Tasks created at different milliseconds get different ids; tasks created
   * in the same millisecond get the same one, and nothing checks for that.
   */
  lemma TaskIdInjective(a: nat, b: nat)
    ensures TaskId(a) == TaskId(b) <==> a == b
  {
    if TaskId(a) == TaskId(b) {
      assert Decimal(a) == TaskId(a)[5..];
      assert Decimal(b) == TaskId(b)[5..];
      DecimalInjective(a, b);
    }
  }

  // ---------------------------------------------------------------------------
  // Lookup by id
  // ---------------------------------------------------------------------------

  predicate HasId(s: seq<Task>, id: string)
  {
    exists t :: t in s && t.id == id
  }

  /** No two tasks of `s` share an id. */
  predicate UniqueIds(s: seq<Task>)
  {
    forall i, j :: 0 <= i < j < |s| ==> s[i].id != s[j].id
  }

  /** The position of the first task of `s` whose id is `id`. */
  function FirstIndex(s: seq<Task>, id: string): (r: Option<nat>)
    ensures r.Some? ==> r.value < |s| && s[r.value].id == id
    ensures r.Some? ==> forall j :: 0 <= j < r.value ==> s[j].id != id
    ensures r.None? <==> !HasId(s, id)
  {
    if |s| == 0 then None
    else if s[0].id == id then Some(0)
    else
      match FirstIndex(s[1..], id)
      case None =>
        assert forall t :: t in s ==> t == s[0] || t in s[1..];
        None
      case Some(k) => Some(k + 1)
  }

  /** Two positions that are both "the first with this id" are the same position. */
  lemma FirstIndexUnique(s: seq<Task>, id: string, k: nat)
    requires k < |s| && s[k].id == id
    requires forall j :: 0 <= j < k ==> s[j].id != id
    ensures FirstIndex(s, id) == Some(k)
  {
    assert s[k] in s;
  }

  /** `tasks.find((task) => task.id === id)`: the first task with that id, if any. */
  function Find(s: seq<Task>, id: string): (r: Option<Task>)
    ensures r.None? <==> !HasId(s, id)
    ensures r.Some? ==> exists k :: 0 <= k < |s| && s[k] == r.value && r.value.id == id &&
                                    forall j :: 0 <= j < k ==> s[j].id != id
  {
    match FirstIndex(s, id)
    case None => None
    case Some(k) => Some(s[k])
  }

  /** Only the ids matter to the lookup: lists with the same ids in the same places agree on FirstIndex. */
  lemma {:induction false} FirstIndexSameIds(s: seq<Task>, s': seq<Task>, id: string)
    requires |s| == |s'|
    requires forall j :: 0 <= j < |s| ==> s[j].id == s'[j].id
    ensures FirstIndex(s, id) == FirstIndex(s', id)
  {
    if |s| > 0 && s[0].id != id {
      FirstIndexSameIds(s[1..], s'[1..], id);
    }
  }

  /** Appending a task whose id is already present does not change what the lookup finds. */
  lemma FindAfterAppend(s: seq<Task>, t: Task)
    ensures HasId(s, t.id) ==> Find(s + [t], t.id) == Find(s, t.id)
    ensures !HasId(s, t.id) ==> Find(s + [t], t.id) == Some(t)
  {
    var s' := s + [t];
    match FirstIndex(s, t.id)
    case Some(k) =>
      FirstIndexUnique(s', t.id, k);
    case None =>
      assert forall j :: 0 <= j < |s| ==> s[j] in s;
      FirstIndexUnique(s', t.id, |s|);
  }

  // ---------------------------------------------------------------------------
  // Removal by id: `tasks.filter((task) => task.id !== id)`
  // ---------------------------------------------------------------------------

  function RemoveId(s: seq<Task>, id: string): (r: seq<Task>)
    ensures forall t :: t in r <==> t in s && t.id != id
    ensures |r| <= |s|
    ensures |r| == |s| <==> !HasId(s, id)
  {
    if |s| == 0 then []
    else
      assert forall t :: t in s <==> t == s[0] || t in s[1..];
      if s[0].id == id then RemoveId(s[1..], id)
      else [s[0]] + RemoveId(s[1..], id)
  }

  /** `a` is `b` with some elements left out, the rest kept in their order. */
  ghost predicate IsSubsequence(a: seq<Task>, b: seq<Task>)
  {
    if |a| == 0 then true
    else if |b| == 0 then false
    else if a[0] == b[0] then IsSubsequence(a[1..], b[1..])
    else IsSubsequence(a, b[1..])
  }

  /** Removal keeps the remaining tasks in their original relative order. */
  lemma {:induction false} RemoveIdKeepsOrder(s: seq<Task>, id: string)
    ensures IsSubsequence(RemoveId(s, id), s)
  {
    if |s| > 0 {
      RemoveIdKeepsOrder(s[1..], id);
      var r := RemoveId(s, id);
      if s[0].id != id {
        assert r[0] == s[0] && r[1..] == RemoveId(s[1..], id);
      } else if |r| > 0 {
        assert r[0] != s[0];
      }
    }
  }

  /** Removal drops every occurrence of a task with that id and keeps every other occurrence. */
  lemma {:induction false} RemoveIdCounts(s: seq<Task>, id: string)
    ensures forall t :: multiset(RemoveId(s, id))[t] == if t.id == id then 0 else multiset(s)[t]
  {
    if |s| > 0 {
      RemoveIdCounts(s[1..], id);
      assert s == [s[0]] + s[1..];
      assert multiset(s) == multiset{s[0]} + multiset(s[1..]);
    }
  }

  /** Removing an id that is not there changes nothing. */
  lemma {:induction false} RemoveAbsentId(s: seq<Task>, id: string)
    requires !HasId(s, id)
    ensures RemoveId(s, id) == s
  {
    if |s| > 0 {
      assert s[0] in s;
      assert forall t :: t in s[1..] ==> t in s;
      RemoveAbsentId(s[1..], id);
    }
  }

  /** Removal is idempotent, and afterwards no task carries the id. */
  lemma RemoveIdTwice(s: seq<Task>, id: string)
    ensures !HasId(RemoveId(s, id), id)
    ensures RemoveId(RemoveId(s, id), id) == RemoveId(s, id)
  {
    RemoveAbsentId(RemoveId(s, id), id);
  }

  // ---------------------------------------------------------------------------
  // `tasks.filter((task) => task.completed).length`
  // ---------------------------------------------------------------------------

  function CountCompleted(s: seq<Task>): (n: nat)
    ensures n <= |s|
    ensures n == 0 <==> forall j :: 0 <= j < |s| ==> !s[j].completed
    ensures n == |s| <==> forall j :: 0 <= j < |s| ==> s[j].completed
  {
    if |s| == 0 then 0
    else
      assert forall j :: 1 <= j < |s| ==> s[j] == s[1..][j - 1];
      Bit(s[0]) + CountCompleted(s[1..])
  }

  /** The count of a concatenation is the sum of the counts. */
  lemma {:induction false} CountCompletedAppend(a: seq<Task>, b: seq<Task>)
    ensures CountCompleted(a + b) == CountCompleted(a) + CountCompleted(b)
  {
    if |a| == 0 {
      assert a + b == b;
    } else {
      assert (a + b)[1..] == a[1..] + b;
      CountCompletedAppend(a[1..], b);
    }
  }

  /** What one task adds to the completed count. */
  function Bit(t: Task): nat
  {
    if t.completed then 1 else 0
  }

  /** Replacing one task changes the count by the difference of the two flags. */
  lemma CountCompletedUpdate(s: seq<Task>, k: nat, t: Task)
    requires k < |s|
    ensures CountCompleted(s[k := t]) + Bit(s[k]) == CountCompleted(s) + Bit(t)
  {
    assert s == s[..k] + [s[k]] + s[k + 1..];
    assert s[k := t] == s[..k] + [t] + s[k + 1..];
    CountCompletedAppend(s[..k] + [s[k]], s[k + 1..]);
    CountCompletedAppend(s[..k], [s[k]]);
    CountCompletedAppend(s[..k] + [t], s[k + 1..]);
    CountCompletedAppend(s[..k], [t]);
  }

  /** Removing an id never raises the completed count, and removing an absent id leaves it as it was. */
  lemma {:induction false} CountCompletedRemove(s: seq<Task>, id: string)
    ensures CountCompleted(RemoveId(s, id)) <= CountCompleted(s)
    ensures !HasId(s, id) ==> CountCompleted(RemoveId(s, id)) == CountCompleted(s)
  {
    if |s| > 0 {
      assert forall t :: t in s <==> t == s[0] || t in s[1..];
      CountCompletedRemove(s[1..], id);
    }
  }

  // ---------------------------------------------------------------------------
  // The five tasks both the in-memory store and the local page start with
  // ---------------------------------------------------------------------------

  /** Five tasks, two of them completed, all ids distinct. */
  function Seed(): (s: seq<Task>)
    ensures |s| == 5 && CountCompleted(s) == 2 && UniqueIds(s)
  {
    var s := [
      Task("task-1", "Complete project documentation", false),
      Task("task-2", "Review pull requests", true),
      Task("task-3", "Fix UI bugs in dashboard", false),
      Task("task-4", "Prepare for team meeting", false),
      Task("task-5", "Update dependencies", true)
    ];
    assert s[1..][1..][1..][1..][1..] == [];
    s
  }
}

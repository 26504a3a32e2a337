/** Task distribution over the members of a matrix. */
module Sharding {
  import opened Arithmetic

  datatype Task = Task(id: string, payload: string, key: string)

  datatype Assignment = Assignment(member: string, task: Task)

  /** The counter is an unsigned 64-bit number. */
  const WRAP: nat := 0x1_0000_0000_0000_0000

  // ---- Round robin ----

  /** A number as the counter holds it. */
  function Wrapped(x: nat): (w: nat)
    ensures w < WRAP
  {
    x % WRAP
  }

  /** The member that a counter value leads to, of m. */
  function IndexOf(value: nat, m: nat): (index: nat)
    requires m > 0
    ensures index < m
  {
    value % m
  }

  /** The assignments of one undisturbed call that starts with the counter at `start`. */
  function RoundRobin(start: nat, tasks: seq<Task>, members: seq<string>): (r: seq<Assignment>)
    requires members != []
    ensures |r| == |tasks|
  {
    seq(|tasks|, i requires 0 <= i < |tasks| => Assignment(members[IndexOf(Wrapped(start + i), |members|)], tasks[i]))
  }

  /** How many counter values other calls take in the first `i` gaps; gap k is just before task k. */
  function Taken(others: nat -> nat, i: nat): nat {
    if i == 0 then 0 else Taken(others, i - 1) + others(i - 1)
  }

  /** The assignments of a call between whose steps others take counter values. */
  function Interrupted(start: nat, tasks: seq<Task>, members: seq<string>, others: nat -> nat): (r: seq<Assignment>)
    requires members != []
    ensures |r| == |tasks|
  {
    seq(|tasks|, i requires 0 <= i < |tasks| =>
      Assignment(members[IndexOf(Wrapped(start + i + Taken(others, i + 1)), |members|)], tasks[i]))
  }

  lemma InterruptedNext(start: nat, tasks: seq<Task>, members: seq<string>, others: nat -> nat, i: nat)
    requires members != [] && i < |tasks|
    ensures var value := Wrapped(start + i + Taken(others, i + 1));
            Interrupted(start, tasks, members, others)[..i + 1] ==
            Interrupted(start, tasks, members, others)[..i] + [Assignment(members[IndexOf(value, |members|)], tasks[i])]
  {
    hide Wrapped, IndexOf, Taken;
  }

  class RoundRobinStrategy {
    var counter: nat

    ghost predicate Valid()
      reads this
    {
      counter < WRAP
    }

    constructor ()
      ensures Valid() && counter == 0
    {
      counter := 0;
    }

    /** The atomic increment. */
    method Next() returns (idx: nat)
      requires Valid()
      modifies this
      ensures Valid() && idx == old(counter) && counter == Wrapped(old(counter) + 1)
    {
      idx := counter;
      counter := (counter + 1) % WRAP;
    }

    /** Other calls take `k` counter values. */
    method Skip(k: nat)
      requires Valid()
      modifies this
      ensures Valid() && counter == Wrapped(old(counter) + k)
    {
      hide Wrapped;
      CounterIsWrapped(counter);
      var i := 0;
      while i < k
        invariant 0 <= i <= k && Valid() && counter == Wrapped(old(counter) + i)
      {
        NextCounter(old(counter) + i);
        var _ := Next();
        i := i + 1;
      }
    }

    /** One call; before task `i` other calls on the same strategy take `others(i)` counter values. */
    method Distribute(tasks: seq<Task>, members: seq<string>, others: nat -> nat) returns (r: seq<Assignment>)
      requires Valid()
      modifies this
      ensures Valid()
      ensures members == [] ==> r == [] && counter == old(counter)
      ensures members != [] ==> r == Interrupted(old(counter), tasks, members, others)
      ensures members != [] ==> counter == Wrapped(old(counter) + |tasks| + Taken(others, |tasks|))
    {
      hide Wrapped, IndexOf, Interrupted;
      r := [];
      if |members| == 0 {
        return;
      }
      CounterIsWrapped(counter);
      var i := 0;
      while i < |tasks|
        invariant 0 <= i <= |tasks| && Valid()
        invariant counter == Wrapped(old(counter) + i + Taken(others, i))
        invariant r == Interrupted(old(counter), tasks, members, others)[..i]
      {
        ghost var before := old(counter) + i + Taken(others, i);
        AddCounter(before, others(i));
        NextCounter(before + others(i));
        InterruptedNext(old(counter), tasks, members, others, i);
        Skip(others(i));
        var idx := Next();
        r := r + [Assignment(members[IndexOf(idx, |members|)], tasks[i])];
        i := i + 1;
      }
    }
  }

  lemma CounterIsWrapped(x: nat)
    requires x < WRAP
    ensures Wrapped(x) == x
  {
    DivModUnique(x, WRAP, 0, x);
  }

  lemma AddCounter(x: nat, k: nat)
    ensures Wrapped(Wrapped(x) + k) == Wrapped(x + k)
  {
    var q, r := x / WRAP, x % WRAP;
    var q', r' := (r + k) / WRAP, (r + k) % WRAP;
    assert x + k == (q + q') * WRAP + r';
    DivModUnique(x + k, WRAP, q + q', r');
  }

  lemma {:induction false} NothingTaken(others: nat -> nat, i: nat)
    requires forall k: nat :: others(k) == 0
    ensures Taken(others, i) == 0
  {
    if i > 0 {
      NothingTaken(others, i - 1);
    }
  }

  /** Task number i goes to the member at the i-th counter value after the start, in 64 bits. */
  lemma RoundRobinAt(start: nat, tasks: seq<Task>, members: seq<string>, i: nat)
    requires members != [] && i < |tasks|
    ensures RoundRobin(start, tasks, members)[i] ==
            Assignment(members[(start + i) % 0x1_0000_0000_0000_0000 % |members|], tasks[i])
  {
    hide Wrapped, IndexOf;
    IndexOfValue(start + i, |members|);
  }

  lemma IndexOfValue(x: nat, m: nat)
    requires m > 0
    ensures IndexOf(Wrapped(x), m) == x % 0x1_0000_0000_0000_0000 % m
  {
  }

  /** With others taking values in between, it is the next value after theirs. */
  lemma InterruptedAt(start: nat, tasks: seq<Task>, members: seq<string>, others: nat -> nat, i: nat, value: nat)
    requires members != [] && i < |tasks| && value == start + i + Taken(others, i) + others(i)
    ensures Interrupted(start, tasks, members, others)[i] ==
            Assignment(members[value % 0x1_0000_0000_0000_0000 % |members|], tasks[i])
  {
    hide Wrapped, IndexOf, Taken, Interrupted;
    TakenNext(others, i);
    InterruptedEntry(start, tasks, members, others, i, value);
    IndexOfValue(value, |members|);
  }

  lemma TakenNext(others: nat -> nat, i: nat)
    ensures Taken(others, i + 1) == Taken(others, i) + others(i)
  {
  }

  lemma InterruptedEntry(start: nat, tasks: seq<Task>, members: seq<string>, others: nat -> nat, i: nat, value: nat)
    requires members != [] && i < |tasks| && value == start + i + Taken(others, i + 1)
    ensures Interrupted(start, tasks, members, others)[i] == Assignment(members[IndexOf(Wrapped(value), |members|)], tasks[i])
  {
    hide Wrapped, IndexOf, Taken;
  }

  /** A call that nobody interrupts goes round the members from the counter on. */
  lemma UninterruptedCall(start: nat, tasks: seq<Task>, members: seq<string>, others: nat -> nat)
    requires members != [] && forall k: nat :: others(k) == 0
    ensures Interrupted(start, tasks, members, others) == RoundRobin(start, tasks, members)
  {
    forall i: nat
      ensures Taken(others, i) == 0
    {
      NothingTaken(others, i);
    }
    hide Wrapped, IndexOf, Taken;
  }

  lemma NextCounter(x: nat)
    ensures Wrapped(Wrapped(x) + 1) == Wrapped(x + 1)
  {
    AddCounter(x, 1);
  }

  /** The member index that counter value number i leads to, when m members share the work. */
  function Slot(i: nat, m: nat): nat
    requires m > 0
  {
    IndexOf(Wrapped(i), m)
  }

  /** How many of the first n counter values go to index j of m. */
  function Load(n: nat, m: nat, j: nat): nat
    requires m > 0
  {
    if n == 0 then 0 else Load(n - 1, m, j) + if Slot(n - 1, m) == j then 1 else 0
  }

  /** The same, if the counter never wrapped. */
  function PlainLoad(n: nat, m: nat, j: nat): nat
    requires m > 0
  {
    if n == 0 then 0 else PlainLoad(n - 1, m, j) + if (n - 1) % m == j then 1 else 0
  }

  lemma {:induction false} PlainLoadClosedForm(n: nat, m: nat, j: nat)
    requires j < m
    ensures PlainLoad(n, m, j) == n / m + if j < n % m then 1 else 0
    decreases n
  {
    if n == 0 {
      DivModUnique(0, m, 0, 0);
    } else {
      PlainLoadClosedForm(n - 1, m, j);
      DivModNext(n - 1, m);
    }
  }

  lemma SlotBeforeWrap(i: nat, m: nat)
    requires m > 0 && i < WRAP
    ensures Slot(i, m) == i % m
    ensures Slot(WRAP + i, m) == i % m
  {
    DivModUnique(i, WRAP, 0, i);
    DivModUnique(WRAP + i, WRAP, 1, i);
  }

  lemma {:induction false} LoadIsPlain(n: nat, m: nat, j: nat)
    requires m > 0 && n <= WRAP
    ensures Load(n, m, j) == PlainLoad(n, m, j)
    decreases n
  {
    hide Slot;
    if n > 0 {
      LoadIsPlain(n - 1, m, j);
      SlotBeforeWrap(n - 1, m);
    }
  }

  lemma LoadIsFair(n: nat, m: nat, j: nat, k: nat)
    requires j < m && k < m && n <= WRAP
    ensures -1 <= Load(n, m, j) - Load(n, m, k) <= 1
  {
    LoadIsPlain(n, m, j);
    LoadIsPlain(n, m, k);
    PlainLoadClosedForm(n, m, j);
    PlainLoadClosedForm(n, m, k);
  }

  lemma {:induction false} LoadAfterWrap(n: nat, m: nat, j: nat)
    requires m > 0 && n <= WRAP
    ensures Load(WRAP + n, m, j) == Load(WRAP, m, j) + PlainLoad(n, m, j)
    decreases n
  {
    hide Slot;
    if n > 0 {
      LoadAfterWrap(n - 1, m, j);
      SlotBeforeWrap(n - 1, m);
      assert Load(WRAP + n, m, j) == Load(WRAP + n - 1, m, j) + if Slot(WRAP + n - 1, m) == j then 1 else 0;
    }
  }

  lemma SlotWhenDivides(i: nat, m: nat)
    requires m > 0 && WRAP % m == 0
    ensures Slot(i, m) == i % m
  {
    var q, r, c := i / WRAP, i % WRAP, WRAP / m;
    var a, b := r / m, r % m;
    assert i == q * WRAP + r && WRAP == c * m && r == a * m + b;
    assert q * (c * m) == (q * c) * m;
    assert i == (q * c + a) * m + b;
    DivModUnique(i, m, q * c + a, b);
  }

  lemma {:induction false} LoadWhenDivides(n: nat, m: nat, j: nat)
    requires m > 0 && WRAP % m == 0
    ensures Load(n, m, j) == PlainLoad(n, m, j)
    decreases n
  {
    hide Slot;
    if n > 0 {
      LoadWhenDivides(n - 1, m, j);
      SlotWhenDivides(n - 1, m);
    }
  }

  lemma UnfairWhenNotDivides(m: nat)
    requires m > 0 && WRAP % m != 0
    ensures Load(WRAP + WRAP, m, 0) - Load(WRAP + WRAP, m, m - 1) == 2
  {
    hide Load, PlainLoad;
    LoadAfterWrap(WRAP, m, 0);
    LoadAfterWrap(WRAP, m, m - 1);
    LoadIsPlain(WRAP, m, 0);
    LoadIsPlain(WRAP, m, m - 1);
    PlainLoadClosedForm(WRAP, m, 0);
    PlainLoadClosedForm(WRAP, m, m - 1);
  }

  lemma LoadIsFairWhenDivides(n: nat, m: nat, j: nat, k: nat)
    requires j < m && k < m && WRAP % m == 0
    ensures -1 <= Load(n, m, j) - Load(n, m, k) <= 1
  {
    LoadWhenDivides(n, m, j);
    LoadWhenDivides(n, m, k);
    PlainLoadClosedForm(n, m, j);
    PlainLoadClosedForm(n, m, k);
  }

  // ---- Balanced ----

  /** The different names, in the order of their first occurrence. */
  function Dedup(names: seq<string>): (d: seq<string>)
    ensures |d| <= |names| && (names != [] ==> d != [])
    ensures forall x :: x in d <==> x in names
    ensures forall i, j :: 0 <= i < j < |d| ==> d[i] != d[j]
  {
    if names == [] then []
    else
      var init, last := names[..|names| - 1], names[|names| - 1];
      var d := Dedup(init);
      assert names == init + [last];
      if last in d then d else d + [last]
  }

  /** Names that occur within the first k come first. */
  lemma {:induction false} DedupPrefix(names: seq<string>, k: nat)
    requires k <= |names|
    ensures Dedup(names[..k]) <= Dedup(names)
    decreases |names|
  {
    if k < |names| {
      var init := names[..|names| - 1];
      assert init[..k] == names[..k];
      DedupPrefix(init, k);
    } else {
      assert names[..k] == names;
    }
  }

  /** The assignments of a balanced distribution: round robin over the different names. */
  function Balanced(tasks: seq<Task>, members: seq<string>): (r: seq<Assignment>)
    requires members != []
    ensures |r| == |tasks|
  {
    var d := Dedup(members);
    seq(|tasks|, i requires 0 <= i < |tasks| => Assignment(d[IndexOf(i, |d|)], tasks[i]))
  }

  /** After t tasks the first t % |d| names have one task more than the others. */
  ghost predicate Even(counts: map<string, int>, d: seq<string>, t: nat)
    requires d != []
  {
    forall i :: 0 <= i < |d| ==> d[i] in counts && counts[d[i]] == t / |d| + if i < t % |d| then 1 else 0
  }

  lemma EvenNext(counts: map<string, int>, d: seq<string>, t: nat)
    requires d != [] && Even(counts, d, t) && forall i, j :: 0 <= i < j < |d| ==> d[i] != d[j]
    ensures var name := d[t % |d|]; Even(counts[name := counts[name] + 1], d, t + 1)
  {
    DivModNext(t, |d|);
  }

  /** The scan for the member with the fewest tasks. */
  method FewestTasks(counts: map<string, int>, members: seq<string>, ghost t: nat) returns (minName: string)
    requires members != [] && Even(counts, Dedup(members), t)
    ensures minName == Dedup(members)[t % |Dedup(members)|]
  {
    ghost var d := Dedup(members);
    ghost var r := t % |d|;
    FirstSeen(members, 0, r);
    minName := members[0];
    var minCount := counts[minName];
    var k := 1;
    while k < |members|
      invariant 1 <= k <= |members|
      invariant minName in counts && minCount == counts[minName]
      invariant d[r] in members[..k] ==> minName == d[r]
      invariant d[r] !in members[..k] ==> minName in d[..r]
    {
      FirstSeen(members, k, r);
      assert members[k] in d;
      assert members[..k + 1] == members[..k] + [members[k]];
      if counts[members[k]] < minCount {
        minName := members[k];
        minCount := counts[minName];
      }
      k := k + 1;
    }
    assert members[..k] == members && d[r] in d;
  }

  /** A name at position k that is neither d[r] nor preceded by it is one of the earlier names. */
  lemma FirstSeen(members: seq<string>, k: nat, r: nat)
    requires k < |members| && r < |Dedup(members)|
    ensures members[k] in Dedup(members)
    ensures Dedup(members)[r] !in members[..k + 1] ==> members[k] in Dedup(members)[..r]
  {
    var d, seen := Dedup(members), Dedup(members[..k + 1]);
    DedupPrefix(members, k + 1);
    assert members[..k + 1][k] == members[k];
    assert members[k] in seen;
    assert |seen| > r ==> seen[r] == d[r] && seen[r] in members[..k + 1];
    assert seen == d[..|seen|];
  }

  method BalancedDistribute(tasks: seq<Task>, members: seq<string>) returns (r: seq<Assignment>)
    ensures members == [] ==> r == []
    ensures members != [] ==> r == Balanced(tasks, members)
  {
    r := [];
    if |members| == 0 {
      return;
    }
    ghost var d := Dedup(members);
    var counts := map[];
    var k := 0;
    while k < |members|
      invariant 0 <= k <= |members|
      invariant forall i :: 0 <= i < k ==> members[i] in counts
      invariant forall x :: x in counts ==> counts[x] == 0
    {
      counts := counts[members[k] := 0];
      k := k + 1;
    }
    DivModUnique(0, |d|, 0, 0);
    assert Even(counts, d, 0) by {
      forall i | 0 <= i < |d|
        ensures d[i] in counts
      {
        assert d[i] in members;
      }
    }
    var t := 0;
    while t < |tasks|
      invariant 0 <= t <= |tasks| && Even(counts, d, t)
      invariant r == Balanced(tasks, members)[..t]
    {
      var minName := FewestTasks(counts, members, t);
      EvenNext(counts, d, t);
      counts := counts[minName := counts[minName] + 1];
      r := r + [Assignment(minName, tasks[t])];
      t := t + 1;
    }
  }

  lemma {:induction false} DedupDistinct(names: seq<string>)
    requires forall i, j :: 0 <= i < j < |names| ==> names[i] != names[j]
    ensures Dedup(names) == names
    decreases |names|
  {
    if names != [] {
      var init := names[..|names| - 1];
      DedupDistinct(init);
      assert names == init + [names[|names| - 1]];
    }
  }

  /** Balanced is a fresh round robin over the different names; over the member list itself if no name repeats. */
  lemma BalancedIsRoundRobin(tasks: seq<Task>, members: seq<string>)
    requires members != [] && |tasks| <= WRAP
    ensures Balanced(tasks, members) == RoundRobin(0, tasks, Dedup(members))
    ensures (forall i, j :: 0 <= i < j < |members| ==> members[i] != members[j]) ==>
              Balanced(tasks, members) == RoundRobin(0, tasks, members)
  {
    hide Wrapped, IndexOf, Dedup;
    forall i: nat | i < |tasks|
      ensures Wrapped(i) == i
    {
      CounterIsWrapped(i);
    }
    if forall i, j :: 0 <= i < j < |members| ==> members[i] != members[j] {
      DedupDistinct(members);
    }
  }

  // ---- Hash ----

  function HashKey(t: Task): string {
    if t.key == "" then t.id else t.key
  }

  /** `hash` is the 32-bit hash of the key. */
  function Hashed(hash: string -> nat, tasks: seq<Task>, members: seq<string>): (r: seq<Assignment>)
    requires members != []
    ensures |r| == |tasks|
  {
    seq(|tasks|, i requires 0 <= i < |tasks| => Assignment(members[hash(HashKey(tasks[i])) % |members|], tasks[i]))
  }

  method HashDistribute(hash: string -> nat, tasks: seq<Task>, members: seq<string>) returns (r: seq<Assignment>)
    ensures members == [] ==> r == []
    ensures members != [] ==> r == Hashed(hash, tasks, members)
    ensures members != [] ==> |r| == |tasks| && forall i :: 0 <= i < |tasks| ==>
              var key := if tasks[i].key == "" then tasks[i].id else tasks[i].key;
              r[i] == Assignment(members[hash(key) % |members|], tasks[i])
  {
    r := [];
    if |members| == 0 {
      return;
    }
    var i := 0;
    while i < |tasks|
      invariant 0 <= i <= |tasks| && r == Hashed(hash, tasks, members)[..i]
    {
      var key := if tasks[i].key != "" then tasks[i].key else tasks[i].id;
      assert key == HashKey(tasks[i]);
      assert Hashed(hash, tasks, members)[i] == Assignment(members[hash(HashKey(tasks[i])) % |members|], tasks[i]);
      r := r + [Assignment(members[hash(key) % |members|], tasks[i])];
      i := i + 1;
    }
    forall j | 0 <= j < |tasks|
      ensures r[j] == Assignment(members[hash(HashKey(tasks[j])) % |members|], tasks[j])
    {
      assert r[j] == Hashed(hash, tasks, members)[j];
    }
  }

  /** Splitting the tasks into batches does not move any task. */
  lemma HashedAppend(hash: string -> nat, a: seq<Task>, b: seq<Task>, members: seq<string>)
    requires members != []
    ensures Hashed(hash, a + b, members) == Hashed(hash, a, members) + Hashed(hash, b, members)
  {
    var whole, parts := Hashed(hash, a + b, members), Hashed(hash, a, members) + Hashed(hash, b, members);
    forall i | 0 <= i < |whole|
      ensures whole[i] == parts[i]
    {
      assert (a + b)[i] == if i < |a| then a[i] else b[i - |a|];
    }
  }
}

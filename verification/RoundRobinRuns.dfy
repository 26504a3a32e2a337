/** Overlapping round-robin calls on one strategy: each step of a call takes the next counter value. */
module RoundRobinRuns {
  import opened Sharding

  /** A task that was given to the member at an index. */
  datatype Pick = Pick(index: nat, task: Task)

  /** The shared counter, and what each call has given out so far. */
  datatype Board = Board(counter: nat, picks: seq<seq<Pick>>)

  function Start(work: seq<seq<Task>>): Board {
    Board(0, seq(|work|, _ => []))
  }

  /** Call number `c`, whose tasks are `work[c]`, has a task left. */
  predicate CanStep(work: seq<seq<Task>>, b: Board, c: nat) {
    |b.picks| == |work| && c < |work| && |b.picks[c]| < |work[c]|
  }

  /** The call takes the next counter value for its next task. */
  function Step(work: seq<seq<Task>>, m: nat, b: Board, c: nat): Board
    requires CanStep(work, b, c) && m > 0
  {
    var pick := Pick(IndexOf(b.counter, m), work[c][|b.picks[c]|]);
    Board(Wrapped(b.counter + 1), b.picks[c := b.picks[c] + [pick]])
  }

  /** Any interleaving of the calls, from a new strategy, with `m` members. */
  ghost predicate IsRun(work: seq<seq<Task>>, m: nat, schedule: seq<nat>, boards: seq<Board>) {
    && m > 0 && |boards| == |schedule| + 1 && boards[0] == Start(work)
    && forall i :: 0 <= i < |schedule| ==>
         CanStep(work, boards[i], schedule[i]) && boards[i + 1] == Step(work, m, boards[i], schedule[i])
  }

  /** How many of these tasks went to index j. */
  function Count(picks: seq<Pick>, j: nat): nat {
    if picks == [] then 0
    else Count(picks[..|picks| - 1], j) + if picks[|picks| - 1].index == j then 1 else 0
  }

  /** How many tasks of all calls went to index j. */
  function Total(all: seq<seq<Pick>>, j: nat): nat {
    if all == [] then 0 else Total(all[..|all| - 1], j) + Count(all[|all| - 1], j)
  }

  lemma {:induction false} TotalOfNothing(all: seq<seq<Pick>>, j: nat)
    requires forall c :: 0 <= c < |all| ==> all[c] == []
    ensures Total(all, j) == 0
  {
    if all != [] {
      TotalOfNothing(all[..|all| - 1], j);
    }
  }

  lemma {:induction false} TotalStep(all: seq<seq<Pick>>, c: nat, p: Pick, j: nat)
    requires c < |all|
    ensures Total(all[c := all[c] + [p]], j) == Total(all, j) + if p.index == j then 1 else 0
    decreases |all|
  {
    var all', last := all[c := all[c] + [p]], |all| - 1;
    if c == last {
      assert all'[..last] == all[..last];
      assert (all[c] + [p])[..|all[c]|] == all[c];
    } else {
      assert all'[..last] == all[..last][c := all[c] + [p]];
      TotalStep(all[..last], c, p, j);
    }
  }

  lemma LoadNext(i: nat, m: nat, j: nat)
    requires m > 0
    ensures Load(i + 1, m, j) == Load(i, m, j) + if IndexOf(Wrapped(i), m) == j then 1 else 0
  {
  }

  /** After any i steps of any calls, index j has got the tasks of exactly its share of the counter values. */
  lemma {:induction false} RunLoads(work: seq<seq<Task>>, m: nat, schedule: seq<nat>, boards: seq<Board>, i: nat, j: nat)
    requires IsRun(work, m, schedule, boards) && i < |boards|
    ensures boards[i].counter == Wrapped(i) && Total(boards[i].picks, j) == Load(i, m, j)
  {
    hide Wrapped, IndexOf, Slot, Count;
    if i == 0 {
      TotalOfNothing(boards[0].picks, j);
      CounterIsWrapped(0);
    } else {
      RunLoads(work, m, schedule, boards, i - 1, j);
      var b, c := boards[i - 1], schedule[i - 1];
      TotalStep(b.picks, c, Pick(IndexOf(b.counter, m), work[c][|b.picks[c]|]), j);
      LoadNext(i - 1, m, j);
      NextCounter(i - 1);
    }
  }

  /** Every call has dealt with its own tasks, in order, up to where it stands, and only with members there are. */
  ghost predicate InOrder(work: seq<seq<Task>>, m: nat, b: Board) {
    && |b.picks| == |work|
    && forall c :: 0 <= c < |work| ==> OwnTasks(work[c], m, b.picks[c])
  }

  ghost predicate OwnTasks(tasks: seq<Task>, m: nat, picks: seq<Pick>) {
    |picks| <= |tasks| && forall k :: 0 <= k < |picks| ==> picks[k].task == tasks[k] && picks[k].index < m
  }

  lemma StepKeepsOrder(work: seq<seq<Task>>, m: nat, b: Board, c: nat)
    requires InOrder(work, m, b) && CanStep(work, b, c) && m > 0
    ensures InOrder(work, m, Step(work, m, b, c))
  {
    var p := Pick(IndexOf(b.counter, m), work[c][|b.picks[c]|]);
    assert OwnTasks(work[c], m, b.picks[c] + [p]);
    hide OwnTasks;
  }

  /** Whatever the interleaving, the result of each call keeps the order of its tasks. */
  lemma {:induction false} RunKeepsOrder(work: seq<seq<Task>>, m: nat, schedule: seq<nat>, boards: seq<Board>, i: nat)
    requires IsRun(work, m, schedule, boards) && i < |boards|
    ensures InOrder(work, m, boards[i])
  {
    if i > 0 {
      RunKeepsOrder(work, m, schedule, boards, i - 1);
      StepKeepsOrder(work, m, boards[i - 1], schedule[i - 1]);
    }
  }

  /** What a call returns for these picks. */
  function Assigned(members: seq<string>, picks: seq<Pick>): seq<Assignment>
    requires forall p :: p in picks ==> p.index < |members|
  {
    seq(|picks|, k requires 0 <= k < |picks| => assert picks[k] in picks; Assignment(members[picks[k].index], picks[k].task))
  }

  /** The steps from i on are all made by call `c`. */
  predicate Alone(schedule: seq<nat>, i: nat, k: nat, c: nat) {
    i + k <= |schedule| && forall x :: i <= x < i + k ==> schedule[x] == c
  }

  lemma RoundRobinNext(start: nat, tasks: seq<Task>, members: seq<string>, k: nat)
    requires members != [] && k < |tasks|
    ensures RoundRobin(start, tasks, members)[..k + 1] ==
            RoundRobin(start, tasks, members)[..k]
            + [Assignment(members[IndexOf(Wrapped(start + k), |members|)], tasks[k])]
  {
    hide Wrapped, IndexOf;
  }

  lemma AssignedNext(members: seq<string>, picks: seq<Pick>, p: Pick)
    requires p.index < |members| && forall q :: q in picks ==> q.index < |members|
    ensures forall q :: q in picks + [p] ==> q.index < |members|
    ensures Assigned(members, picks + [p]) == Assigned(members, picks) + [Assignment(members[p.index], p.task)]
  {
  }

  /** What call `c` has returned at this point is what `start` promises for its first k tasks. */
  ghost predicate GoesRound(members: seq<string>, tasks: seq<Task>, picks: seq<Pick>, start: nat, k: nat) {
    && members != [] && k <= |tasks| && |picks| == k
    && (forall p :: p in picks ==> p.index < |members|)
    && Assigned(members, picks) == RoundRobin(start, tasks, members)[..k]
  }

  lemma GoesRoundNext(members: seq<string>, tasks: seq<Task>, picks: seq<Pick>, start: nat, k: nat)
    requires GoesRound(members, tasks, picks, start, k) && k < |tasks|
    ensures GoesRound(members, tasks, picks + [Pick(IndexOf(Wrapped(start + k), |members|), tasks[k])], start, k + 1)
  {
    hide Wrapped, IndexOf, Assigned, RoundRobin;
    RoundRobinNext(start, tasks, members, k);
    AssignedNext(members, picks, Pick(IndexOf(Wrapped(start + k), |members|), tasks[k]));
  }

  lemma CounterAfter(
    work: seq<seq<Task>>, m: nat, schedule: seq<nat>, boards: seq<Board>, i: nat, k: nat)
    requires IsRun(work, m, schedule, boards) && i + k < |boards|
    ensures boards[i + k].counter == Wrapped(boards[i].counter + k)
  {
    hide IsRun, Wrapped, Load, Total;
    RunLoads(work, m, schedule, boards, i + k, 0);
    RunLoads(work, m, schedule, boards, i, 0);
    AddCounter(i, k);
  }

  /** While a call has the counter for itself it gives out what an undisturbed call does. */
  lemma {:induction false} AloneIsRoundRobin(
    work: seq<seq<Task>>, members: seq<string>, schedule: seq<nat>, boards: seq<Board>, i: nat, k: nat, c: nat)
    requires members != [] && IsRun(work, |members|, schedule, boards) && Alone(schedule, i, k, c)
    requires c < |work| && i < |boards| && |boards[i].picks| == |work| && boards[i].picks[c] == [] && k <= |work[c]|
    ensures |boards[i + k].picks| == |work|
    ensures GoesRound(members, work[c], boards[i + k].picks[c], boards[i].counter, k)
  {
    hide Wrapped, IndexOf;
    if k == 0 {
      assert Assigned(members, []) == [];
    } else {
      AloneIsRoundRobin(work, members, schedule, boards, i, k - 1, c);
      CounterAfter(work, |members|, schedule, boards, i, k - 1);
      GoesRoundNext(members, work[c], boards[i + k - 1].picks[c], boards[i].counter, k - 1);
      assert schedule[i + k - 1] == c;
      assert boards[i + k] == Step(work, |members|, boards[i + k - 1], c);
      hide IsRun, Alone, Assigned, RoundRobin;
    }
  }

  // ---- Fairness over runs ----

  /** No index has two tasks more than another. */
  ghost predicate Fair(b: Board, m: nat) {
    forall j: nat, k: nat :: j < m && k < m ==> -1 <= Total(b.picks, j) - Total(b.picks, k) <= 1
  }

  /** Until the counter wraps, any interleaving of calls with one member list loads the members evenly. */
  lemma RoundRobinIsFair(work: seq<seq<Task>>, m: nat, schedule: seq<nat>, boards: seq<Board>, i: nat)
    requires IsRun(work, m, schedule, boards) && i < |boards| && i <= WRAP
    ensures Fair(boards[i], m)
  {
    hide IsRun, Load, Total;
    forall j: nat, k: nat | j < m && k < m
      ensures -1 <= Total(boards[i].picks, j) - Total(boards[i].picks, k) <= 1
    {
      RunLoads(work, m, schedule, boards, i, j);
      RunLoads(work, m, schedule, boards, i, k);
      LoadIsFair(i, m, j, k);
    }
  }

  /** However long the strategy is used, and by whichever calls. */
  ghost predicate FairForever(m: nat) {
    forall work: seq<seq<Task>>, schedule: seq<nat>, boards: seq<Board>, i: nat ::
      IsRun(work, m, schedule, boards) && i < |boards| ==> Fair(boards[i], m)
  }

  /** A single call with enough tasks. */
  lemma {:induction false} SoloRun(tasks: seq<Task>, m: nat, n: nat) returns (schedule: seq<nat>, boards: seq<Board>)
    requires n <= |tasks| && m > 0
    ensures IsRun([tasks], m, schedule, boards) && |schedule| == n
    ensures |boards[n].picks| == 1 && |boards[n].picks[0]| == n
  {
    if n == 0 {
      schedule, boards := [], [Start([tasks])];
    } else {
      schedule, boards := SoloRun(tasks, m, n - 1);
      schedule, boards := schedule + [0], boards + [Step([tasks], m, boards[n - 1], 0)];
    }
  }

  lemma UnfairRun(m: nat) returns (tasks: seq<Task>, schedule: seq<nat>, boards: seq<Board>)
    requires m > 0 && WRAP % m != 0
    ensures IsRun([tasks], m, schedule, boards) && |boards| == WRAP + WRAP + 1 && !Fair(boards[WRAP + WRAP], m)
  {
    hide Load;
    var n: nat := WRAP + WRAP;
    tasks := seq(n, _ => Task("", "", ""));
    schedule, boards := SoloRun(tasks, m, n);
    RunLoads([tasks], m, schedule, boards, n, 0);
    RunLoads([tasks], m, schedule, boards, n, m - 1);
    UnfairWhenNotDivides(m);
  }

  /** The exact condition: fairness survives the wrap of the counter in all runs if and only if the number of members
      divides 2^64. */
  lemma FairForeverIffDivides(m: nat)
    requires m > 0
    ensures FairForever(m) <==> WRAP % m == 0
  {
    hide IsRun, Load, Total;
    if WRAP % m == 0 {
      forall work: seq<seq<Task>>, schedule: seq<nat>, boards: seq<Board>, i: nat, j: nat, k: nat
        | IsRun(work, m, schedule, boards) && i < |boards| && j < m && k < m
        ensures -1 <= Total(boards[i].picks, j) - Total(boards[i].picks, k) <= 1
      {
        RunLoads(work, m, schedule, boards, i, j);
        RunLoads(work, m, schedule, boards, i, k);
        LoadIsFairWhenDivides(i, m, j, k);
      }
    } else {
      var tasks, schedule, boards := UnfairRun(m);
    }
  }

  // ---- By name ----

  /** How many of these assignments name the member. */
  function Given(assignments: seq<Assignment>, member: string): nat {
    if assignments == [] then 0
    else Given(assignments[..|assignments| - 1], member) + if assignments[|assignments| - 1].member == member then 1 else 0
  }

  predicate DistinctNames(members: seq<string>) {
    forall i, j :: 0 <= i < j < |members| ==> members[i] != members[j]
  }

  /** With different names, the tasks a call returns for a member are those it gave to the member's index. */
  lemma {:induction false} GivenIsCount(members: seq<string>, picks: seq<Pick>, j: nat)
    requires DistinctNames(members) && j < |members| && forall p :: p in picks ==> p.index < |members|
    ensures Given(Assigned(members, picks), members[j]) == Count(picks, j)
    decreases |picks|
  {
    if picks != [] {
      var init, last := picks[..|picks| - 1], picks[|picks| - 1];
      assert last in picks;
      GivenIsCount(members, init, j);
      assert Assigned(members, picks)[..|picks| - 1] == Assigned(members, init);
    }
  }

  /** The tasks that one undisturbed call gives to a member. */
  lemma {:induction false} GivenByRoundRobin(start: nat, tasks: seq<Task>, members: seq<string>, j: nat)
    requires DistinctNames(members) && j < |members|
    ensures Given(RoundRobin(start, tasks, members), members[j]) ==
            Load(start + |tasks|, |members|, j) - Load(start, |members|, j)
    decreases |tasks|
  {
    if tasks != [] {
      var n := |tasks| - 1;
      GivenByRoundRobin(start, tasks[..n], members, j);
      hide Wrapped, IndexOf;
      assert RoundRobin(start, tasks, members)[..n] == RoundRobin(start, tasks[..n], members);
      LoadNext(start + n, |members|, j);
    }
  }
}

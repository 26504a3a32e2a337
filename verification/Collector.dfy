/** The result collector: polls the coordinator's inbox for task results until its strategy is satisfied,
    while other agents keep sending. */
module CollectorSpec {
  import opened Wrappers
  import opened GatewaySpec

  const RESULT_KIND := "task-result"

  datatype TaskResult = TaskResult(member: string, taskId: string, status: string, output: string)

  /** JSON decoding of a payload, as a partial function. */
  type Decoder = string -> Option<TaskResult>

  predicate Matches(decode: Decoder, taskId: string, m: Message) {
    decode(m.payload).Some? && decode(m.payload).value.taskId == taskId
  }

  /** The decodable results of this task, in order. */
  function Results(decode: Decoder, taskId: string, msgs: seq<Message>): seq<TaskResult> {
    if msgs == [] then []
    else
      var rest := Results(decode, taskId, msgs[..|msgs| - 1]);
      var m := msgs[|msgs| - 1];
      if Matches(decode, taskId, m) then rest + [decode(m.payload).value] else rest
  }

  predicate Succeeded(r: TaskResult) {
    r.status == "success"
  }

  function Successes(results: seq<TaskResult>): (n: nat)
    ensures n <= |results|
  {
    if results == [] then 0
    else Successes(results[..|results| - 1]) + if Succeeded(results[|results| - 1]) then 1 else 0
  }

  /** Integer division by two as the language of the source has it: towards zero. */
  function Half(n: int): int {
    if n >= 0 then n / 2 else -((-n) / 2)
  }

  /** The strategy needs no more results. */
  predicate Complete(strategy: string, expected: int, results: seq<TaskResult>) {
    if strategy == "first-success" then exists i :: 0 <= i < |results| && Succeeded(results[i])
    else if strategy == "majority" then Successes(results) > Half(expected)
    else |results| >= expected
  }

  /** What happens between two polls: other agents send (each message with the id it is given if it has none)
      and the ticker fires; or the deadline passes; or the caller cancels. */
  datatype Event = Tick(sends: seq<(Message, string)>) | Deadline | Cancel

  function SendAll(g: Mail, sends: seq<(Message, string)>): Mail {
    if sends == [] then g
    else
      var last := sends[|sends| - 1];
      Send(SendAll(g, sends[..|sends| - 1]), last.0, last.1).0
  }

  /** The first `k` events are ticks. */
  predicate Ticks(events: seq<Event>, k: nat) {
    k <= |events| && forall i :: 0 <= i < k ==> events[i].Tick?
  }

  /** The gateway after the first `k` ticks and the poll that follows each of them, and all that was drained. */
  function Rounds(g: Mail, coordinator: string, events: seq<Event>, k: nat): (Mail, seq<Message>)
    requires Ticks(events, k)
  {
    if k == 0 then (g, [])
    else
      var (g1, drained) := Rounds(g, coordinator, events, k - 1);
      var g2 := SendAll(g1, events[k - 1].sends);
      var (g3, msgs) := ReceiveByType(g2, coordinator, RESULT_KIND);
      (g3, drained + msgs)
  }

  /** The results in hand after the first `k` ticks. */
  function InHand(g: Mail, coordinator: string, decode: Decoder, taskId: string, events: seq<Event>, k: nat)
    : seq<TaskResult>
    requires Ticks(events, k)
  {
    Results(decode, taskId, Rounds(g, coordinator, events, k).1)
  }

  lemma {:induction false} ResultsAppend(decode: Decoder, taskId: string, a: seq<Message>, b: seq<Message>)
    ensures Results(decode, taskId, a + b) == Results(decode, taskId, a) + Results(decode, taskId, b)
    decreases |b|
  {
    if b == [] {
      assert a + b == a;
    } else {
      assert (a + b)[..|a + b| - 1] == a + b[..|b| - 1];
      ResultsAppend(decode, taskId, a, b[..|b| - 1]);
    }
  }

  /** A majority is more than half of the expected results; only an expected count of -1 is off. */
  lemma MajorityIsMoreThanHalf(expected: int)
    ensures (forall succeeded: nat :: succeeded > Half(expected) <==> 2 * succeeded > expected) <==> expected != -1
  {
    if expected == -1 {
      var none: nat := 0;
      assert Half(-1) == 0 && !(none > Half(expected)) && 2 * none > expected;
    }
  }

  /** The positions of the successes. */
  function Good(results: seq<TaskResult>): set<int> {
    set i | 0 <= i < |results| && results[i].status == "success"
  }

  lemma GoodNext(results: seq<TaskResult>, r: TaskResult)
    ensures r.status == "success" ==> Good(results + [r]) == Good(results) + {|results|} && |results| !in Good(results)
    ensures r.status != "success" ==> Good(results + [r]) == Good(results)
  {
  }

  lemma {:induction false} SuccessesAreCounted(results: seq<TaskResult>)
    ensures Successes(results) == |Good(results)|
  {
    if results == [] {
      assert Good(results) == {};
    } else {
      var init, last := results[..|results| - 1], results[|results| - 1];
      SuccessesAreCounted(init);
      GoodNext(init, last);
      assert init + [last] == results;
      hide Good;
    }
  }

  /** The strategies by name: some result is a success; more than half of the expected number are; or, for every other
      name, as many results as expected. */
  lemma StrategyMeans(strategy: string, expected: int, results: seq<TaskResult>)
    ensures strategy == "first-success" ==>
              (Complete(strategy, expected, results) <==> exists i :: 0 <= i < |results| && results[i].status == "success")
    ensures strategy == "majority" && expected >= 0 ==>
              (Complete(strategy, expected, results) <==> 2 * |Good(results)| > expected)
    ensures strategy != "first-success" && strategy != "majority" ==>
              (Complete(strategy, expected, results) <==> |results| >= expected)
  {
    SuccessesAreCounted(results);
    hide Good, Successes;
  }

  /** One message gives a result if and only if it decodes to one of this task. */
  lemma ResultOfOne(decode: Decoder, taskId: string, m: Message)
    ensures Results(decode, taskId, [m]) ==
            match decode(m.payload)
            case None => []
            case Some(r) => if r.taskId == taskId then [r] else []
  {
    assert [m][..0] == [];
  }

  // ---- What is drained ----

  /** From `g` to `g'` only sends took place: every inbox got exactly its share of the new messages. */
  ghost predicate OnlySends(g: Mail, g': Mail, arrived: seq<Message>) {
    && g'.accepted == g.accepted + arrived
    && forall name: string :: Inbox(g', name) == Inbox(g, name) + For(arrived, name)
  }

  lemma SendIsOnlySend(g: Mail, m: Message, newId: string) returns (arrived: seq<Message>)
    ensures OnlySends(g, Send(g, m, newId).0, arrived)
  {
    var (g', ok) := Send(g, m, newId);
    if ok {
      var m' := if m.id == "" then m.(id := newId) else m;
      arrived := [m'];
      forall name: string
        ensures Inbox(g', name) == Inbox(g, name) + For(arrived, name)
      {
        assert arrived[..0] == [];
        assert For(arrived, name) == if m'.to == name then [m'] else [];
      }
    } else {
      arrived := [];
    }
  }

  lemma SendsCompose(g: Mail, g1: Mail, g2: Mail, a: seq<Message>, b: seq<Message>)
    requires OnlySends(g, g1, a) && OnlySends(g1, g2, b)
    ensures OnlySends(g, g2, a + b)
  {
    forall name: string
      ensures Inbox(g2, name) == Inbox(g, name) + For(a + b, name)
    {
      ForAppend(a, b, name);
    }
  }

  lemma {:induction false} SendAllIsOnlySends(g: Mail, sends: seq<(Message, string)>) returns (arrived: seq<Message>)
    ensures OnlySends(g, SendAll(g, sends), arrived)
    decreases |sends|
  {
    if sends == [] {
      arrived := [];
    } else {
      var init, last := sends[..|sends| - 1], sends[|sends| - 1];
      var a := SendAllIsOnlySends(g, init);
      var b := SendIsOnlySend(SendAll(g, init), last.0, last.1);
      hide OnlySends, Send;
      SendsCompose(g, SendAll(g, init), SendAll(g, sends), a, b);
      arrived := a + b;
    }
  }

  /** Of the task results that waited or arrived, `drained` was taken and the rest waits. */
  ghost predicate TakesResults(g: Mail, g': Mail, coordinator: string, arrived: seq<Message>, drained: seq<Message>) {
    drained + OfKind(Inbox(g', coordinator), RESULT_KIND)
    == OfKind(Inbox(g, coordinator), RESULT_KIND) + Pick(arrived, coordinator, RESULT_KIND)
  }

  /** All other messages wait where they were put. */
  ghost predicate LeavesOthers(g: Mail, g': Mail, coordinator: string, arrived: seq<Message>) {
    && NotOfKind(Inbox(g', coordinator), RESULT_KIND)
       == NotOfKind(Inbox(g, coordinator), RESULT_KIND) + NotOfKind(For(arrived, coordinator), RESULT_KIND)
    && forall name: string :: name != coordinator ==> Inbox(g', name) == Inbox(g, name) + For(arrived, name)
  }

  /** What the rounds did to the gateway, given the messages accepted meanwhile. */
  ghost predicate Drains(g: Mail, g': Mail, coordinator: string, arrived: seq<Message>, drained: seq<Message>) {
    && g'.accepted == g.accepted + arrived
    && TakesResults(g, g', coordinator, arrived, drained)
    && LeavesOthers(g, g', coordinator, arrived)
  }

  lemma Regroup(x: seq<Message>, y: seq<Message>, p: seq<Message>, q: seq<Message>, z: seq<Message>)
    requires x + y == p + q
    ensures x + (y + z) == p + (q + z)
  {
    assert x + (y + z) == (x + y) + z;
    assert p + (q + z) == (p + q) + z;
  }

  lemma TakesThenSends(
    g: Mail, g1: Mail, g2: Mail, coordinator: string, a: seq<Message>, drained: seq<Message>, b: seq<Message>)
    requires TakesResults(g, g1, coordinator, a, drained) && OnlySends(g1, g2, b)
    ensures TakesResults(g, g2, coordinator, a + b, drained)
  {
    hide OfKind, For, Inbox;
    var was, mine := Inbox(g1, coordinator), For(b, coordinator);
    PickAppend(a, b, coordinator, RESULT_KIND);
    OfKindAppend(was, mine, RESULT_KIND);
    Regroup(drained, OfKind(was, RESULT_KIND),
            OfKind(Inbox(g, coordinator), RESULT_KIND), Pick(a, coordinator, RESULT_KIND), OfKind(mine, RESULT_KIND));
  }

  lemma LeavesThenSends(g: Mail, g1: Mail, g2: Mail, coordinator: string, a: seq<Message>, b: seq<Message>)
    requires LeavesOthers(g, g1, coordinator, a) && OnlySends(g1, g2, b)
    ensures LeavesOthers(g, g2, coordinator, a + b)
  {
    hide NotOfKind, For, Inbox;
    ForAppend(a, b, coordinator);
    OfKindAppend(Inbox(g1, coordinator), For(b, coordinator), RESULT_KIND);
    OfKindAppend(For(a, coordinator), For(b, coordinator), RESULT_KIND);
    forall name: string | name != coordinator
      ensures Inbox(g2, name) == Inbox(g, name) + For(a + b, name)
    {
      ForAppend(a, b, name);
    }
  }

  lemma DrainsThenSends(
    g: Mail, g1: Mail, g2: Mail, coordinator: string, a: seq<Message>, drained: seq<Message>, b: seq<Message>)
    requires Drains(g, g1, coordinator, a, drained) && OnlySends(g1, g2, b)
    ensures Drains(g, g2, coordinator, a + b, drained)
  {
    hide TakesResults, LeavesOthers, OfKind, NotOfKind, For, Pick, Inbox;
    TakesThenSends(g, g1, g2, coordinator, a, drained, b);
    LeavesThenSends(g, g1, g2, coordinator, a, b);
    assert g.accepted + a + b == g.accepted + (a + b);
  }

  lemma DrainsThenPolls(g: Mail, g1: Mail, coordinator: string, arrived: seq<Message>, drained: seq<Message>)
    requires Drains(g, g1, coordinator, arrived, drained)
    ensures var (g2, msgs) := ReceiveByType(g1, coordinator, RESULT_KIND);
            Drains(g, g2, coordinator, arrived, drained + msgs) && OfKind(Inbox(g2, coordinator), RESULT_KIND) == []
  {
    var (g2, msgs) := ReceiveByType(g1, coordinator, RESULT_KIND);
    var was := Inbox(g1, coordinator);
    forall name: string
      ensures Inbox(g2, name) == if name == coordinator then NotOfKind(was, RESULT_KIND) else Inbox(g1, name)
    {
      ReceiveByTypeEffect(g1, coordinator, RESULT_KIND, name);
    }
    assert msgs == OfKind(was, RESULT_KIND);
    OfKindSplit(was, RESULT_KIND, RESULT_KIND);
    NotOfKindTwice(was, RESULT_KIND);
    hide OfKind, NotOfKind, For, ReceiveByType, Inbox;
  }

  lemma {:induction false} NotOfKindTwice(msgs: seq<Message>, kind: string)
    ensures NotOfKind(NotOfKind(msgs, kind), kind) == NotOfKind(msgs, kind)
    decreases |msgs|
  {
    if msgs != [] {
      var init, last := msgs[..|msgs| - 1], [msgs[|msgs| - 1]];
      NotOfKindTwice(init, kind);
      OfKindAppend(NotOfKind(init, kind), last, kind);
      assert last[..0] == [];
    }
  }

  /** As the only consumer, the collector has drained, after any ticks, exactly the task results that
      waited or arrived, each once and in order; every other message is still where it was put. */
  lemma {:induction false} RoundsDrainAll(g: Mail, coordinator: string, events: seq<Event>, k: nat)
    returns (arrived: seq<Message>)
    requires Ticks(events, k)
    ensures var (g', drained) := Rounds(g, coordinator, events, k);
            && Drains(g, g', coordinator, arrived, drained)
            && (k > 0 ==> OfKind(Inbox(g', coordinator), RESULT_KIND) == [])
  {
    if k == 0 {
      arrived := [];
    } else {
      var a := RoundsDrainAll(g, coordinator, events, k - 1);
      var (g1, drained) := Rounds(g, coordinator, events, k - 1);
      var sends := events[k - 1].sends;
      var b := SendAllIsOnlySends(g1, sends);
      arrived := a + b;
      DrainsThenSends(g, g1, SendAll(g1, sends), coordinator, a, drained, b);
      DrainsThenPolls(g, SendAll(g1, sends), coordinator, arrived, drained);
      hide Drains, OnlySends, ReceiveByType, OfKind, Inbox;
    }
  }

  /** So the results in hand are the decodable results of this task among the messages that waited at the
      start, followed by those among the accepted messages since, and none is missing or repeated. */
  lemma ResultsInHand(g: Mail, coordinator: string, decode: Decoder, taskId: string, events: seq<Event>, k: nat)
    returns (arrived: seq<Message>)
    requires k > 0 && Ticks(events, k)
    ensures Rounds(g, coordinator, events, k).0.accepted == g.accepted + arrived
    ensures InHand(g, coordinator, decode, taskId, events, k) ==
            Results(decode, taskId, OfKind(Inbox(g, coordinator), RESULT_KIND))
            + Results(decode, taskId, Pick(arrived, coordinator, RESULT_KIND))
  {
    arrived := RoundsDrainAll(g, coordinator, events, k);
    hide Rounds, OfKind, Results, For, Inbox;
    var (g', drained) := Rounds(g, coordinator, events, k);
    assert drained == drained + [];
    ResultsAppend(decode, taskId, OfKind(Inbox(g, coordinator), RESULT_KIND), Pick(arrived, coordinator, RESULT_KIND));
  }
}

/** The collector as an object on top of the gateway object. */
module CollectorObject {
  import opened CollectorSpec
  import S = GatewaySpec
  import opened GatewayObject

  datatype Ending = Finished | TimedOut | Cancelled

  datatype AggregatedResult = AggregatedResult(
    taskId: string, strategy: string, results: seq<TaskResult>, total: nat, succeeded: nat, failed: nat)

  method BuildResult(taskId: string, strategy: string, results: seq<TaskResult>) returns (r: AggregatedResult)
    ensures r.taskId == taskId && r.strategy == strategy && r.results == results
    ensures r.total == |results| == r.succeeded + r.failed && r.succeeded == Successes(results)
  {
    var succeeded, failed := CountSuccesses(results);
    r := AggregatedResult(taskId, strategy, results, |results|, succeeded, failed);
  }

  method CountSuccesses(results: seq<TaskResult>) returns (succeeded: nat, failed: nat)
    ensures succeeded == Successes(results) && succeeded + failed == |results|
  {
    succeeded, failed := 0, 0;
    var i := 0;
    while i < |results|
      invariant 0 <= i <= |results|
      invariant succeeded == Successes(results[..i]) && succeeded + failed == i
    {
      assert results[..i + 1][..i] == results[..i];
      if results[i].status == "success" {
        succeeded := succeeded + 1;
      } else {
        failed := failed + 1;
      }
      i := i + 1;
    }
    assert results[..i] == results;
  }

  /** The switch over the strategies. */
  method IsComplete(strategy: string, expected: int, results: seq<TaskResult>) returns (complete: bool)
    ensures complete == Complete(strategy, expected, results)
  {
    if strategy == "first-success" {
      var i := 0;
      while i < |results|
        invariant 0 <= i <= |results|
        invariant forall j :: 0 <= j < i ==> !Succeeded(results[j])
      {
        if results[i].status == "success" {
          return true;
        }
        i := i + 1;
      }
      complete := false;
    } else if strategy == "majority" {
      var succeeded, _ := CountSuccesses(results);
      complete := succeeded > Half(expected);
    } else {
      complete := |results| >= expected;
    }
  }

  /** One poll: drains the inbox and keeps the results of this task. */
  method Poll(g: Gateway, coordinator: string, decode: Decoder, taskId: string, results: seq<TaskResult>)
    returns (results': seq<TaskResult>)
    modifies g
    ensures var (mail, msgs) := S.ReceiveByType(old(g.View()), coordinator, RESULT_KIND);
            g.View() == mail && results' == results + Results(decode, taskId, msgs)
  {
    var msgs := g.ReceiveByType(coordinator, RESULT_KIND);
    results' := results;
    var i := 0;
    while i < |msgs|
      invariant 0 <= i <= |msgs|
      invariant results' == results + Results(decode, taskId, msgs[..i])
    {
      assert msgs[..i + 1][..i] == msgs[..i];
      var tr := decode(msgs[i].payload);
      if tr.Some? && tr.value.taskId == taskId {
        results' := results' + [tr.value];
      }
      i := i + 1;
    }
    assert msgs[..i] == msgs;
  }

  /** The other agents' sends between two polls. */
  method Interleave(g: Gateway, sends: seq<(S.Message, string)>)
    modifies g
    ensures g.View() == SendAll(old(g.View()), sends)
  {
    var i := 0;
    while i < |sends|
      invariant 0 <= i <= |sends|
      invariant g.View() == SendAll(old(g.View()), sends[..i])
    {
      assert sends[..i + 1][..i] == sends[..i];
      var _ := g.Send(sends[i].0, sends[i].1);
      i := i + 1;
    }
    assert sends[..i] == sends;
  }

  /** The results in hand after one more tick. */
  lemma NextInHand(g: S.Mail, coordinator: string, decode: Decoder, taskId: string, events: seq<Event>, k: nat)
    requires k < |events| && Ticks(events, k + 1)
    ensures var mail := SendAll(Rounds(g, coordinator, events, k).0, events[k].sends);
            var (mail', msgs) := S.ReceiveByType(mail, coordinator, RESULT_KIND);
            && Rounds(g, coordinator, events, k + 1).0 == mail'
            && InHand(g, coordinator, decode, taskId, events, k + 1) ==
               InHand(g, coordinator, decode, taskId, events, k) + Results(decode, taskId, msgs)
  {
    hide S.ReceiveByType, SendAll, Results;
    var (mail, drained) := Rounds(g, coordinator, events, k);
    ResultsAppend(decode, taskId, drained, S.ReceiveByType(SendAll(mail, events[k].sends), coordinator, RESULT_KIND).1);
  }

  /** At none of the polls 1 to `k` was the strategy complete. */
  ghost predicate NeverComplete(
    g: S.Mail, coordinator: string, decode: Decoder, taskId: string, expected: int, strategy: string, events: seq<Event>, k: nat)
    requires Ticks(events, k)
  {
    forall j: nat :: 0 < j <= k ==> !Complete(strategy, expected, InHand(g, coordinator, decode, taskId, events, j))
  }

  /** Collect against any sequence of events; running out of events is the deadline. It ends at the first
      poll at which the strategy is complete, and otherwise at the deadline or the cancellation. */
  method Collect(
    g: Gateway, coordinator: string, decode: Decoder, taskId: string, expected: int, strategy: string, events: seq<Event>)
    returns (r: AggregatedResult, ending: Ending, polls: nat)
    modifies g
    ensures Ticks(events, polls)
    ensures g.View() == Rounds(old(g.View()), coordinator, events, polls).0
    ensures r.results == InHand(old(g.View()), coordinator, decode, taskId, events, polls)
    ensures r.total == |r.results| == r.succeeded + r.failed && r.succeeded == Successes(r.results)
    ensures ending == Finished ==>
              && polls > 0 && Complete(strategy, expected, r.results)
              && NeverComplete(old(g.View()), coordinator, decode, taskId, expected, strategy, events, polls - 1)
    ensures ending != Finished ==>
              && NeverComplete(old(g.View()), coordinator, decode, taskId, expected, strategy, events, polls)
              && (polls < |events| ==> events[polls] == if ending == TimedOut then Deadline else Cancel)
              && (polls == |events| ==> ending == TimedOut)
  {
    hide Complete, S.ReceiveByType, SendAll, Results, Rounds, InHand, Successes;
    polls := 0;
    ending := TimedOut;
    var results := [];
    ghost var start := g.View();
    NothingInHand(start, coordinator, decode, taskId, events);
    while polls < |events|
      invariant Ticks(events, polls) && ending == TimedOut
      invariant g.View() == Rounds(start, coordinator, events, polls).0
      invariant results == InHand(start, coordinator, decode, taskId, events, polls)
      invariant NeverComplete(start, coordinator, decode, taskId, expected, strategy, events, polls)
    {
      match events[polls] {
        case Cancel =>
          ending := Cancelled;
          break;
        case Deadline =>
          break;
        case Tick(sends) =>
          NextInHand(start, coordinator, decode, taskId, events, polls);
          Interleave(g, sends);
          results := Poll(g, coordinator, decode, taskId, results);
          polls := polls + 1;
          var complete := IsComplete(strategy, expected, results);
          if complete {
            ending := Finished;
            break;
          }
      }
    }
    r := BuildResult(taskId, strategy, results);
  }

  lemma NothingInHand(g: S.Mail, coordinator: string, decode: Decoder, taskId: string, events: seq<Event>)
    ensures Rounds(g, coordinator, events, 0).0 == g && InHand(g, coordinator, decode, taskId, events, 0) == []
  {
  }
}

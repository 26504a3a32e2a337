/** The agent-to-agent gateway: bounded inboxes, drained whole or by message type. */
module GatewaySpec {
  const MAX_INBOX: nat := 10000

  datatype Message = Message(id: string, from: string, to: string, kind: string, payload: string)

  /** `accepted` and `delivered` record, in order, every message a Send put into an inbox and every
      message a Receive or ReceiveByType gave out. */
  datatype Mail = Mail(inboxes: map<string, seq<Message>>, accepted: seq<Message>, delivered: seq<Message>)

  function Inbox(g: Mail, name: string): seq<Message> {
    if name in g.inboxes then g.inboxes[name] else []
  }

  predicate WellFormed(m: Message) {
    m.from != "" && m.to != "" && m.kind != ""
  }

  /** `newId` is the id that is assigned when the sender left it empty. */
  function Send(g: Mail, m: Message, newId: string): (Mail, bool) {
    if !WellFormed(m) || |Inbox(g, m.to)| >= MAX_INBOX then (g, false)
    else
      var m' := if m.id == "" then m.(id := newId) else m;
      (g.(inboxes := g.inboxes[m.to := Inbox(g, m.to) + [m']], accepted := g.accepted + [m']), true)
  }

  function Receive(g: Mail, name: string): (Mail, seq<Message>) {
    var msgs := Inbox(g, name);
    if msgs == [] then (g, [])
    else (g.(inboxes := g.inboxes - {name}, delivered := g.delivered + msgs), msgs)
  }

  /** The messages of one kind, in order. */
  function OfKind(msgs: seq<Message>, kind: string): seq<Message> {
    if msgs == [] then []
    else
      var rest := OfKind(msgs[..|msgs| - 1], kind);
      if msgs[|msgs| - 1].kind == kind then rest + [msgs[|msgs| - 1]] else rest
  }

  /** The messages of the other kinds, in order. */
  function NotOfKind(msgs: seq<Message>, kind: string): seq<Message> {
    if msgs == [] then []
    else
      var rest := NotOfKind(msgs[..|msgs| - 1], kind);
      if msgs[|msgs| - 1].kind == kind then rest else rest + [msgs[|msgs| - 1]]
  }

  function ReceiveByType(g: Mail, name: string, kind: string): (Mail, seq<Message>) {
    var msgs := Inbox(g, name);
    if msgs == [] then (g, [])
    else
      var matched, remaining := OfKind(msgs, kind), NotOfKind(msgs, kind);
      var inboxes := if remaining == [] then g.inboxes - {name} else g.inboxes[name := remaining];
      (g.(inboxes := inboxes, delivered := g.delivered + matched), matched)
  }

  /** The calls that run under the lock as a whole. */
  datatype Call =
    | OnSend(message: Message, newId: string)
    | OnReceive(name: string)
    | OnReceiveByType(name: string, kind: string)

  function Apply(g: Mail, c: Call): Mail {
    match c
    case OnSend(m, newId) => Send(g, m, newId).0
    case OnReceive(name) => Receive(g, name).0
    case OnReceiveByType(name, kind) => ReceiveByType(g, name, kind).0
  }

  function Run(g: Mail, calls: seq<Call>): Mail
    decreases |calls|
  {
    if calls == [] then g else Run(Apply(g, calls[0]), calls[1..])
  }

  /** The arguments of a broadcast; `newIds` are the ids its messages will get. */
  datatype Announcement = Announcement(
    from: string, targets: seq<string>, kind: string, payload: string, newIds: nat -> string)

  function MessageTo(a: Announcement, i: nat): Message
    requires i < |a.targets|
  {
    Message("", a.from, a.targets[i], a.kind, a.payload)
  }

  /** Sends to targets[i..] until one Send fails; the number is the index of that target. A broadcast holds no lock
      between its sends: before the one to target k, others get their calls `others(k)` through. */
  function BroadcastFrom(g: Mail, a: Announcement, others: nat -> seq<Call>, i: nat): (Mail, nat)
    requires i <= |a.targets|
    decreases |a.targets| - i
  {
    if i == |a.targets| then (g, i)
    else
      var g1 := Run(g, others(i));
      var (g2, ok) := Send(g1, MessageTo(a, i), a.newIds(i));
      if !ok then (g1, i) else BroadcastFrom(g2, a, others, i + 1)
  }

  /** The flag is whether the broadcast reports success, the number how many targets got the message. */
  function Broadcast(g: Mail, a: Announcement, others: nat -> seq<Call>): (Mail, bool, nat) {
    if a.from == "" || a.targets == [] || a.kind == "" then (g, false, 0)
    else
      var (g1, sent) := BroadcastFrom(g, a, others, 0);
      (g1, sent == |a.targets|, sent)
  }

  // ---- Exactly once, in order, per recipient and kind ----

  /** The messages for one recipient, in order. */
  function For(msgs: seq<Message>, name: string): seq<Message> {
    if msgs == [] then []
    else
      var rest := For(msgs[..|msgs| - 1], name);
      if msgs[|msgs| - 1].to == name then rest + [msgs[|msgs| - 1]] else rest
  }

  function Pick(msgs: seq<Message>, name: string, kind: string): seq<Message> {
    OfKind(For(msgs, name), kind)
  }

  /** What was delivered of this kind to this recipient, followed by what still waits in its inbox, is
      what was accepted, in the order in which it was accepted. */
  predicate Balanced(g: Mail, name: string, kind: string) {
    Pick(g.delivered, name, kind) + OfKind(Inbox(g, name), kind) == Pick(g.accepted, name, kind)
  }

  ghost predicate Ledger(g: Mail) {
    forall name: string, kind: string :: Balanced(g, name, kind)
  }

  /** Inboxes hold only their owner's messages and never more than the maximum. */
  ghost predicate InboxesOk(g: Mail) {
    forall name :: name in g.inboxes ==>
      |g.inboxes[name]| <= MAX_INBOX && forall m :: m in g.inboxes[name] ==> m.to == name
  }

  ghost predicate Inv(g: Mail) {
    Ledger(g) && InboxesOk(g)
  }

  lemma {:induction false} OfKindAppend(a: seq<Message>, b: seq<Message>, kind: string)
    ensures OfKind(a + b, kind) == OfKind(a, kind) + OfKind(b, kind)
    ensures NotOfKind(a + b, kind) == NotOfKind(a, kind) + NotOfKind(b, kind)
    decreases |b|
  {
    if b == [] {
      assert a + b == a;
    } else {
      assert (a + b)[..|a + b| - 1] == a + b[..|b| - 1];
      OfKindAppend(a, b[..|b| - 1], kind);
    }
  }

  lemma {:induction false} ForAppend(a: seq<Message>, b: seq<Message>, name: string)
    ensures For(a + b, name) == For(a, name) + For(b, name)
    decreases |b|
  {
    if b == [] {
      assert a + b == a;
    } else {
      assert (a + b)[..|a + b| - 1] == a + b[..|b| - 1];
      ForAppend(a, b[..|b| - 1], name);
    }
  }

  lemma PickAppend(a: seq<Message>, b: seq<Message>, name: string, kind: string)
    ensures Pick(a + b, name, kind) == Pick(a, name, kind) + Pick(b, name, kind)
  {
    ForAppend(a, b, name);
    OfKindAppend(For(a, name), For(b, name), kind);
  }

  /** Messages that all go to one recipient. */
  lemma {:induction false} ForOwner(msgs: seq<Message>, owner: string, name: string)
    requires forall m :: m in msgs ==> m.to == owner
    ensures For(msgs, name) == if name == owner then msgs else []
    decreases |msgs|
  {
    if msgs != [] {
      var init := msgs[..|msgs| - 1];
      assert forall m :: m in init ==> m in msgs;
      assert msgs[|msgs| - 1] in msgs;
      ForOwner(init, owner, name);
      assert msgs == init + [msgs[|msgs| - 1]];
    }
  }

  lemma {:induction false} OfKindMembers(msgs: seq<Message>, kind: string)
    ensures forall m :: m in OfKind(msgs, kind) ==> m in msgs && m.kind == kind
    ensures forall m :: m in NotOfKind(msgs, kind) ==> m in msgs && m.kind != kind
    ensures |OfKind(msgs, kind)| + |NotOfKind(msgs, kind)| == |msgs|
    decreases |msgs|
  {
    if msgs != [] {
      OfKindMembers(msgs[..|msgs| - 1], kind);
      assert msgs[|msgs| - 1] in msgs;
      assert forall m :: m in msgs[..|msgs| - 1] ==> m in msgs;
    }
  }

  /** Drawing one kind out of a sequence leaves the others as they were. */
  lemma {:induction false} OfKindSplit(msgs: seq<Message>, drawn: string, kind: string)
    ensures OfKind(OfKind(msgs, drawn), kind) == if kind == drawn then OfKind(msgs, kind) else []
    ensures OfKind(NotOfKind(msgs, drawn), kind) == if kind == drawn then [] else OfKind(msgs, kind)
    decreases |msgs|
  {
    if msgs != [] {
      var init, last := msgs[..|msgs| - 1], [msgs[|msgs| - 1]];
      OfKindSplit(init, drawn, kind);
      OfKindAppend(OfKind(init, drawn), last, kind);
      OfKindAppend(NotOfKind(init, drawn), last, kind);
      assert last[..0] == [];
    }
  }

  lemma PickOne(m: Message, name: string, kind: string)
    ensures Pick([m], name, kind) == (if m.to == name && m.kind == kind then [m] else [])
    ensures OfKind([m], kind) == if m.kind == kind then [m] else []
  {
    assert [m][..0] == [];
    assert For([m], name) == if m.to == name then [m] else [];
    assert OfKind([m], kind) == if m.kind == kind then [m] else [];
  }

  lemma SendBalanced(g: Mail, m: Message, newId: string, name: string, kind: string)
    requires Balanced(g, name, kind)
    ensures Balanced(Send(g, m, newId).0, name, kind)
  {
    var m' := if m.id == "" then m.(id := newId) else m;
    PickAppend(g.accepted, [m'], name, kind);
    PickOne(m', name, kind);
    OfKindAppend(Inbox(g, m.to), [m'], kind);
    hide OfKind, Pick;
  }

  lemma SendKeeps(g: Mail, m: Message, newId: string)
    requires Inv(g)
    ensures Inv(Send(g, m, newId).0)
  {
    hide Balanced;
    forall name: string, kind: string
      ensures Balanced(Send(g, m, newId).0, name, kind)
    {
      SendBalanced(g, m, newId, name, kind);
    }
  }

  lemma ReceiveEffect(g: Mail, name: string, other: string)
    ensures var g' := Receive(g, name).0;
            && g'.delivered == g.delivered + Inbox(g, name) && g'.accepted == g.accepted
            && Inbox(g', other) == if other == name then [] else Inbox(g, other)
  {
  }

  lemma InboxIsOwn(g: Mail, name: string)
    requires InboxesOk(g)
    ensures forall m :: m in Inbox(g, name) ==> m.to == name
  {
  }

  lemma ReceiveBalanced(g: Mail, name: string, other: string, kind: string)
    requires InboxesOk(g) && Balanced(g, other, kind)
    ensures Balanced(Receive(g, name).0, other, kind)
  {
    assert OfKind([], kind) == [];
    hide OfKind, For, InboxesOk, Inbox, Receive;
    ReceiveEffect(g, name, other);
    InboxIsOwn(g, name);
    PickAppend(g.delivered, Inbox(g, name), other, kind);
    ForOwner(Inbox(g, name), name, other);
  }

  lemma ReceiveKeeps(g: Mail, name: string)
    requires Inv(g)
    ensures Inv(Receive(g, name).0)
  {
    hide Balanced;
    forall other: string, kind: string
      ensures Balanced(Receive(g, name).0, other, kind)
    {
      ReceiveBalanced(g, name, other, kind);
    }
  }

  lemma ReceiveByTypeEffect(g: Mail, name: string, drawn: string, other: string)
    ensures var g' := ReceiveByType(g, name, drawn).0;
            && g'.delivered == g.delivered + OfKind(Inbox(g, name), drawn) && g'.accepted == g.accepted
            && Inbox(g', other) == if other == name then NotOfKind(Inbox(g, name), drawn) else Inbox(g, other)
  {
  }

  /** Of one kind, what the draw takes out and what it leaves. */
  lemma DrawnThenLeft(msgs: seq<Message>, name: string, drawn: string, other: string, kind: string)
    requires forall m :: m in msgs ==> m.to == name
    ensures Pick(OfKind(msgs, drawn), other, kind) == if other == name && kind == drawn then OfKind(msgs, kind) else []
    ensures OfKind(NotOfKind(msgs, drawn), kind) == if kind == drawn then [] else OfKind(msgs, kind)
  {
    OfKindMembers(msgs, drawn);
    ForOwner(OfKind(msgs, drawn), name, other);
    OfKindSplit(msgs, drawn, kind);
    assert OfKind([], kind) == [];
  }

  lemma ReceiveByTypeBalanced(g: Mail, name: string, drawn: string, other: string, kind: string)
    requires InboxesOk(g) && Balanced(g, other, kind)
    ensures Balanced(ReceiveByType(g, name, drawn).0, other, kind)
  {
    var msgs := Inbox(g, name);
    ReceiveByTypeEffect(g, name, drawn, other);
    PickAppend(g.delivered, OfKind(msgs, drawn), other, kind);
    DrawnThenLeft(msgs, name, drawn, other, kind);
    hide OfKind, NotOfKind, Pick, InboxesOk, ReceiveByType, Inbox;
  }

  lemma ReceiveByTypeKeeps(g: Mail, name: string, drawn: string)
    requires Inv(g)
    ensures Inv(ReceiveByType(g, name, drawn).0)
  {
    hide Balanced;
    OfKindMembers(Inbox(g, name), drawn);
    forall other: string, kind: string
      ensures Balanced(ReceiveByType(g, name, drawn).0, other, kind)
    {
      ReceiveByTypeBalanced(g, name, drawn, other, kind);
    }
  }

  // ---- What each call answers ----

  /** A message is accepted if and only if sender, recipient and kind are given and the recipient has fewer than 10000
      messages; it is then the last in that inbox, with an id, and no other inbox changes. */
  lemma SendAcceptedIff(g: Mail, m: Message, newId: string, name: string)
    ensures var (g', ok) := Send(g, m, newId);
            && (ok <==> m.from != "" && m.to != "" && m.kind != "" && |Inbox(g, m.to)| < 10000)
            && (!ok ==> g' == g)
            && (ok ==>
                  && var sent := Message(if m.id == "" then newId else m.id, m.from, m.to, m.kind, m.payload);
                  && Inbox(g', name) == Inbox(g, name) + (if name == m.to then [sent] else [])
                  && g'.accepted == g.accepted + [sent] && g'.delivered == g.delivered)
  {
  }

  /** A receive answers with all that waits, and that is what counts as delivered. */
  lemma ReceiveAnswers(g: Mail, name: string)
    ensures var (g', msgs) := Receive(g, name);
            && msgs == Inbox(g, name) && g'.delivered == g.delivered + msgs
            && Inbox(g', name) == [] && forall other :: other != name ==> Inbox(g', other) == Inbox(g, other)
  {
  }

  /** A receive by type answers with the messages of that kind that wait, and that is what counts as delivered; the
      others go on waiting. */
  lemma ReceiveByTypeAnswers(g: Mail, name: string, kind: string)
    ensures var (g', msgs) := ReceiveByType(g, name, kind);
            && msgs == OfKind(Inbox(g, name), kind) && g'.delivered == g.delivered + msgs
            && Inbox(g', name) == NotOfKind(Inbox(g, name), kind)
            && forall other :: other != name ==> Inbox(g', other) == Inbox(g, other)
  {
    hide OfKind, NotOfKind;
    if Inbox(g, name) == [] {
      NothingOfKind(kind);
    }
  }

  lemma NothingOfKind(kind: string)
    ensures OfKind([], kind) == [] && NotOfKind([], kind) == []
  {
  }

  /** A broadcast reports success if and only if it has a sender, a kind and at least one target, and reached them all;
      without those it does nothing. */
  lemma BroadcastAnswers(g: Mail, a: Announcement, others: nat -> seq<Call>)
    ensures var (g', ok, sent) := Broadcast(g, a, others);
            var proper := a.from != "" && a.kind != "" && a.targets != [];
            && (!proper ==> g' == g && !ok && sent == 0)
            && (proper ==> (g', sent) == BroadcastFrom(g, a, others, 0) && (ok <==> sent == |a.targets|))
  {
  }

  // ---- Broadcasts ----

  /** The messages a broadcast sends to targets[lo..hi]. */
  function Copies(a: Announcement, lo: nat, hi: nat): (copies: seq<Message>)
    requires lo <= hi <= |a.targets|
    ensures |copies| == hi - lo
    decreases hi - lo
  {
    if lo == hi then [] else [MessageTo(a, lo).(id := a.newIds(lo))] + Copies(a, lo + 1, hi)
  }

  /** The copies in order, with a gap before each and after the last. */
  function Weave(gaps: seq<seq<Message>>, copies: seq<Message>): seq<Message>
    requires |gaps| == |copies| + 1
    decreases |copies|
  {
    gaps[0] + if copies == [] then [] else [copies[0]] + Weave(gaps[1..], copies[1..])
  }

  /** These messages are what some gateway accepted during the calls. */
  ghost predicate AcceptedDuring(msgs: seq<Message>, calls: seq<Call>) {
    exists g: Mail :: Run(g, calls).accepted == g.accepted + msgs
  }

  lemma {:induction false} RunOnlyAccepts(g: Mail, calls: seq<Call>) returns (msgs: seq<Message>)
    ensures Run(g, calls).accepted == g.accepted + msgs
    decreases |calls|
  {
    if calls == [] {
      msgs := [];
    } else {
      var g1 := Apply(g, calls[0]);
      var first := if |g1.accepted| > |g.accepted| then [g1.accepted[|g.accepted|]] else [];
      assert g1.accepted == g.accepted + first;
      var rest := RunOnlyAccepts(g1, calls[1..]);
      msgs := first + rest;
    }
  }

  /** Each gap before a target is what others sent just before. */
  ghost predicate GapsOfOthers(gaps: seq<seq<Message>>, a: Announcement, others: nat -> seq<Call>, i: nat) {
    forall x :: 0 <= x < |gaps| && i + x < |a.targets| ==> AcceptedDuring(gaps[x], others(i + x))
  }

  lemma GapsNext(gap: seq<Message>, rest: seq<seq<Message>>, a: Announcement, others: nat -> seq<Call>, i: nat)
    requires AcceptedDuring(gap, others(i)) && GapsOfOthers(rest, a, others, i + 1)
    ensures GapsOfOthers([gap] + rest, a, others, i)
  {
    hide AcceptedDuring;
    var gaps := [gap] + rest;
    forall x | 0 <= x < |gaps| && i + x < |a.targets|
      ensures AcceptedDuring(gaps[x], others(i + x))
    {
      assert x > 0 ==> AcceptedDuring(rest[x - 1], others(i + 1 + (x - 1)));
    }
  }

  lemma WeaveNext(gap: seq<Message>, rest: seq<seq<Message>>, a: Announcement, i: nat, sent: nat)
    requires i < sent <= |a.targets| && |rest| == sent - i
    ensures Weave([gap] + rest, Copies(a, i, sent)) ==
            gap + [MessageTo(a, i).(id := a.newIds(i))] + Weave(rest, Copies(a, i + 1, sent))
  {
    assert ([gap] + rest)[1..] == rest;
    assert Copies(a, i, sent)[1..] == Copies(a, i + 1, sent);
  }

  lemma SendToTarget(g: Mail, a: Announcement, i: nat)
    requires i < |a.targets| && a.from != "" && a.kind != ""
    ensures var (g', ok) := Send(g, MessageTo(a, i), a.newIds(i));
            && (ok ==> g'.accepted == g.accepted + [MessageTo(a, i).(id := a.newIds(i))])
            && (!ok ==> a.targets[i] == "" || |Inbox(g, a.targets[i])| >= MAX_INBOX)
  {
  }

  /** What the gateway accepts during a broadcast: its copies for exactly a prefix of its targets, each once and in
      order, among what others send. The target at which it stops had a full inbox or no name. */
  lemma {:induction false} BroadcastReachesPrefix(g: Mail, a: Announcement, others: nat -> seq<Call>, i: nat)
    returns (gaps: seq<seq<Message>>)
    requires i <= |a.targets| && a.from != "" && a.kind != ""
    ensures var (g', sent) := BroadcastFrom(g, a, others, i);
            && i <= sent <= |a.targets| && |gaps| == sent - i + 1 && GapsOfOthers(gaps, a, others, i)
            && g'.accepted == g.accepted + Weave(gaps, Copies(a, i, sent))
            && (sent == |a.targets| ==> gaps[sent - i] == [])
            && (sent < |a.targets| ==> a.targets[sent] == "" || |Inbox(g', a.targets[sent])| >= MAX_INBOX)
    decreases |a.targets| - i
  {
    hide Run, Send, Inbox, AcceptedDuring, GapsOfOthers, Copies, Weave;
    if i == |a.targets| {
      gaps := LastGap(a, others, []);
    } else {
      var gap := RunOnlyAccepts(g, others(i));
      assert AcceptedDuring(gap, others(i)) by { GapIsAccepted(g, gap, others(i)); }
      var g1 := Run(g, others(i));
      SendToTarget(g1, a, i);
      var (g2, ok) := Send(g1, MessageTo(a, i), a.newIds(i));
      if !ok {
        gaps := [gap];
        OneGap(gap, a, others, i);
      } else {
        var rest := BroadcastReachesPrefix(g2, a, others, i + 1);
        gaps := [gap] + rest;
        GapsNext(gap, rest, a, others, i);
        WeaveNext(gap, rest, a, i, BroadcastFrom(g2, a, others, i + 1).1);
      }
    }
  }

  lemma GapIsAccepted(g: Mail, gap: seq<Message>, calls: seq<Call>)
    requires Run(g, calls).accepted == g.accepted + gap
    ensures AcceptedDuring(gap, calls)
  {
  }

  lemma OneGap(gap: seq<Message>, a: Announcement, others: nat -> seq<Call>, i: nat)
    requires i < |a.targets| && AcceptedDuring(gap, others(i))
    ensures GapsOfOthers([gap], a, others, i) && Weave([gap], Copies(a, i, i)) == gap
  {
    hide AcceptedDuring;
  }

  lemma LastGap(a: Announcement, others: nat -> seq<Call>, gap: seq<Message>) returns (gaps: seq<seq<Message>>)
    ensures gaps == [gap] && GapsOfOthers(gaps, a, others, |a.targets|)
    ensures Weave(gaps, Copies(a, |a.targets|, |a.targets|)) == gap
  {
    gaps := [gap];
  }

  /** A broadcast that nobody interrupts. */
  lemma {:induction false} UninterruptedReachesPrefix(g: Mail, a: Announcement, others: nat -> seq<Call>, i: nat)
    requires i <= |a.targets| && a.from != "" && a.kind != "" && forall k: nat :: others(k) == []
    ensures var (g', sent) := BroadcastFrom(g, a, others, i);
            && i <= sent <= |a.targets| && g'.delivered == g.delivered
            && g'.accepted == g.accepted + Copies(a, i, sent)
    decreases |a.targets| - i
  {
    if i < |a.targets| {
      var (g1, ok) := Send(g, MessageTo(a, i), a.newIds(i));
      assert Run(g, others(i)) == g;
      if ok {
        UninterruptedReachesPrefix(g1, a, others, i + 1);
      }
    }
  }

  lemma {:induction false} RunAppend(g: Mail, a: seq<Call>, b: seq<Call>)
    ensures Run(g, a + b) == Run(Run(g, a), b)
    decreases |a|
  {
    if a == [] {
      assert a + b == b;
    } else {
      assert (a + b)[1..] == a[1..] + b;
      RunAppend(Apply(g, a[0]), a[1..], b);
    }
  }

  /** Whatever is interleaved with it, a broadcast is a run of the calls under the lock. */
  lemma {:induction false} BroadcastIsRun(g: Mail, a: Announcement, others: nat -> seq<Call>, i: nat)
    returns (calls: seq<Call>)
    requires i <= |a.targets|
    ensures BroadcastFrom(g, a, others, i).0 == Run(g, calls)
    decreases |a.targets| - i
  {
    if i == |a.targets| {
      calls := [];
    } else {
      var g1 := Run(g, others(i));
      var (g2, ok) := Send(g1, MessageTo(a, i), a.newIds(i));
      if !ok {
        calls := others(i);
      } else {
        var send := [OnSend(MessageTo(a, i), a.newIds(i))];
        assert send[1..] == [];
        assert Run(g1, send) == Run(g2, []);
        var rest := BroadcastIsRun(g2, a, others, i + 1);
        calls := others(i) + send + rest;
        hide Send;
        RunAppend(g, others(i) + send, rest);
        RunAppend(g, others(i), send);
      }
    }
  }

  /** So it keeps what every run keeps. */
  lemma BroadcastKeeps(g: Mail, a: Announcement, others: nat -> seq<Call>)
    requires Inv(g)
    ensures Inv(Broadcast(g, a, others).0)
  {
    hide Inv;
    if a.from != "" && a.targets != [] && a.kind != "" {
      var calls := BroadcastIsRun(g, a, others, 0);
      RunKeeps(g, calls);
    }
  }

  const EMPTY := Mail(map[], [], [])

  /** Over every run of calls: exactly once, in order, per recipient and kind; and bounded inboxes. */
  lemma {:induction false} RunKeeps(g: Mail, calls: seq<Call>)
    requires Inv(g)
    ensures Inv(Run(g, calls))
    decreases |calls|
  {
    if calls != [] {
      match calls[0] {
        case OnSend(m, newId) => SendKeeps(g, m, newId);
        case OnReceive(name) => ReceiveKeeps(g, name);
        case OnReceiveByType(name, kind) => ReceiveByTypeKeeps(g, name, kind);
      }
      hide Inv, Send, Receive, ReceiveByType, BroadcastFrom;
      RunKeeps(Apply(g, calls[0]), calls[1..]);
    }
  }

  lemma StartsEmpty()
    ensures Inv(EMPTY)
  {
  }
}

/** The gateway as an object with its inbox map. */
module GatewayObject {
  import S = GatewaySpec

  class Gateway {
    var inboxes: map<string, seq<S.Message>>
    ghost var accepted: seq<S.Message>
    ghost var delivered: seq<S.Message>

    ghost function View(): S.Mail
      reads this
    {
      S.Mail(inboxes, accepted, delivered)
    }

    /** Everything accepted was delivered once or still waits, in order, and no inbox is too full. */
    ghost predicate Valid()
      reads this
    {
      S.Inv(View())
    }

    constructor ()
      ensures View() == S.EMPTY && Valid()
    {
      inboxes, accepted, delivered := map[], [], [];
      new;
      S.StartsEmpty();
    }

    method Send(m: S.Message, newId: string) returns (ok: bool)
      modifies this
      ensures (View(), ok) == S.Send(old(View()), m, newId)
      ensures old(Valid()) ==> Valid()
    {
      hide S.Inv;
      if S.Inv(View()) {
        S.SendKeeps(View(), m, newId);
      }
      if m.from == "" || m.to == "" || m.kind == "" {
        return false;
      }
      var m' := if m.id == "" then m.(id := newId) else m;
      var pending := if m.to in inboxes then inboxes[m.to] else [];
      if |pending| >= S.MAX_INBOX {
        return false;
      }
      inboxes := inboxes[m.to := pending + [m']];
      accepted := accepted + [m'];
      ok := true;
    }

    method Receive(name: string) returns (msgs: seq<S.Message>)
      modifies this
      ensures msgs == S.Inbox(old(View()), name) && delivered == old(delivered) + msgs
      ensures (View(), msgs) == S.Receive(old(View()), name)
      ensures old(Valid()) ==> Valid()
    {
      hide S.Inv;
      if S.Inv(View()) {
        S.ReceiveKeeps(View(), name);
      }
      msgs := if name in inboxes then inboxes[name] else [];
      if |msgs| > 0 {
        inboxes := inboxes - {name};
        delivered := delivered + msgs;
      }
    }

    method ReceiveByType(name: string, kind: string) returns (matched: seq<S.Message>)
      modifies this
      ensures delivered == old(delivered) + matched
      ensures (View(), matched) == S.ReceiveByType(old(View()), name, kind)
      ensures old(Valid()) ==> Valid()
    {
      hide S.Inv;
      if S.Inv(View()) {
        S.ReceiveByTypeKeeps(View(), name, kind);
      }
      matched := [];
      var msgs := if name in inboxes then inboxes[name] else [];
      if |msgs| == 0 {
        return;
      }
      var remaining := [];
      var i := 0;
      while i < |msgs|
        invariant 0 <= i <= |msgs|
        invariant matched == S.OfKind(msgs[..i], kind) && remaining == S.NotOfKind(msgs[..i], kind)
      {
        assert msgs[..i + 1][..i] == msgs[..i];
        if msgs[i].kind == kind {
          matched := matched + [msgs[i]];
        } else {
          remaining := remaining + [msgs[i]];
        }
        i := i + 1;
      }
      assert msgs[..i] == msgs;
      if |remaining| == 0 {
        inboxes := inboxes - {name};
      } else {
        inboxes := inboxes[name := remaining];
      }
      delivered := delivered + matched;
    }

    /** Calls of others. */
    method Perform(calls: seq<S.Call>)
      modifies this
      ensures View() == S.Run(old(View()), calls)
    {
      hide S.Send, S.Receive, S.ReceiveByType;
      var i := 0;
      while i < |calls|
        invariant 0 <= i <= |calls|
        invariant S.Run(View(), calls[i..]) == S.Run(old(View()), calls)
      {
        assert calls[i..][1..] == calls[i + 1..];
        match calls[i] {
          case OnSend(m, newId) => var _ := Send(m, newId);
          case OnReceive(name) => var _ := Receive(name);
          case OnReceiveByType(name, kind) => var _ := ReceiveByType(name, kind);
        }
        i := i + 1;
      }
    }

    /** The lock is free between the sends: others may call in. */
    method Broadcast(a: S.Announcement, others: nat -> seq<S.Call>) returns (ok: bool, sent: nat)
      modifies this
      ensures (View(), ok, sent) == S.Broadcast(old(View()), a, others)
      ensures old(Valid()) ==> Valid()
    {
      hide S.Inv;
      if S.Inv(View()) {
        S.BroadcastKeeps(View(), a, others);
      }
      if a.from == "" || |a.targets| == 0 || a.kind == "" {
        return false, 0;
      }
      hide S.Send, S.Run;
      sent := 0;
      while sent < |a.targets|
        invariant 0 <= sent <= |a.targets|
        invariant S.BroadcastFrom(View(), a, others, sent) == S.BroadcastFrom(old(View()), a, others, 0)
      {
        Perform(others(sent));
        ghost var before := View();
        ok := Send(S.MessageTo(a, sent), a.newIds(sent));
        if !ok {
          SendRefused(before, S.MessageTo(a, sent), a.newIds(sent));
          return;
        }
        sent := sent + 1;
      }
      ok := true;
    }

    static lemma SendRefused(g: S.Mail, m: S.Message, newId: string)
      requires !S.Send(g, m, newId).1
      ensures S.Send(g, m, newId).0 == g
    {
    }
  }
}

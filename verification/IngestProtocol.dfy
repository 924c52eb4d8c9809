/**
 Ingest as an acknowledgement protocol between the broker's session and the writer:
 queue, batch, commit, and only then acknowledge, with redelivery at any time and a
 crash between any two steps. Section numbers are those of MQTT 3.1.1.
*/
module IngestProtocol {
  import opened Basics

  const QUEUE_MAX: nat := 50000
  const BATCH_MAX_ROWS: nat := 500

  /**
   A published message, with what validation makes of its payload: nothing when it
   cannot become a row. The serial number tells equal messages apart.
  */
  datatype Message = Message(serial: nat, isRead: bool, row: Option<string>)

  /** One delivery of a message, under the packet identifier it came with. */
  datatype Copy = Copy(mid: nat, msg: Message)

  datatype World = World(
    waiting: seq<Message>,          // at the broker, not yet sent
    inflight: map<nat, Message>,    // sent and not acknowledged, by packet identifier
    acked: set<Message>,            // acknowledged: the broker has let go of them
    deliveries: seq<Message>,       // everything that ever reached the client
    queue: seq<Copy>,               // at the client, waiting for the writer
    batch: seq<Copy>,               // taken by the writer, not committed
    acks: seq<nat>,                 // committed, still to be acknowledged
    readRows: seq<Message>,         // committed rows, in the two tables
    gateRows: seq<Message>,
    rejected: seq<Message>)         // logged as not valid

  const QUIET_START := World([], map[], {}, [], [], [], [], [], [], [])

  // ----- one batch -----

  function RowsIn(batch: seq<Copy>, isRead: bool): seq<Message> {
    if batch == [] then []
    else
      var m := batch[|batch| - 1].msg;
      RowsIn(batch[..|batch| - 1], isRead) + if m.isRead == isRead && m.row.Some? then [m] else []
  }

  function RejectsIn(batch: seq<Copy>): seq<Message> {
    if batch == [] then []
    else
      var m := batch[|batch| - 1].msg;
      RejectsIn(batch[..|batch| - 1]) + if m.row.None? then [m] else []
  }

  function Mids(copies: seq<Copy>): (r: seq<nat>)
    ensures |r| == |copies|
  {
    seq(|copies|, (i: nat) requires i < |copies| => copies[i].mid)
  }

  function Messages(copies: seq<Copy>): (r: seq<Message>)
    ensures |r| == |copies|
  {
    seq(|copies|, (i: nat) requires i < |copies| => copies[i].msg)
  }

  // ----- steps -----

  datatype Event =
    | Publish(m: Message)
    | Send(mid: nat, arrives: bool)
    | Redeliver(mid: nat)
    | Collect
    | Commit
    | Ack(arrives: bool)
    | Crash

  ghost predicate Known(w: World, m: Message) {
    m in w.waiting || (exists mid :: mid in w.inflight && w.inflight[mid] == m) || m in w.acked
  }

  /**
   A packet identifier is free for a new message once its last one was acknowledged
   (section 2.3.1); an unacknowledged message goes out again under its own (section
   4.4). A full queue makes the network side wait.
  */
  ghost predicate Enabled(w: World, e: Event) {
    match e
    case Publish(m) => !Known(w, m)
    case Send(mid, arrives) => w.waiting != [] && mid !in w.inflight && (arrives ==> |w.queue| < QUEUE_MAX)
    case Redeliver(mid) => mid in w.inflight && |w.queue| < QUEUE_MAX
    case Collect => w.acks == [] && |w.batch| < BATCH_MAX_ROWS && w.queue != []
    case Commit => w.batch != [] && w.acks == []
    case Ack(arrives) => w.acks != []
    case Crash => true
  }

  function Step(w: World, e: Event): World {
    match e
    case Publish(m) => w.(waiting := w.waiting + [m])
    case Send(mid, arrives) =>
      if w.waiting == [] then w
      else
        var m := w.waiting[0];
        var sent := w.(waiting := w.waiting[1..], inflight := w.inflight[mid := m]);
        if arrives then Delivered(sent, Copy(mid, m)) else sent
    case Redeliver(mid) => if mid in w.inflight then Delivered(w, Copy(mid, w.inflight[mid])) else w
    case Collect => if w.queue == [] then w else w.(queue := w.queue[1..], batch := w.batch + [w.queue[0]])
    case Commit =>
      w.(batch := [], acks := Mids(w.batch),
         readRows := w.readRows + RowsIn(w.batch, true),
         gateRows := w.gateRows + RowsIn(w.batch, false),
         rejected := w.rejected + RejectsIn(w.batch))
    case Ack(arrives) =>
      if w.acks == [] then w
      else
        var left := w.(acks := w.acks[1..]);
        if arrives then Released(left, w.acks[0]) else left
    case Crash => w.(queue := [], batch := [], acks := [])
  }

  function Delivered(w: World, c: Copy): World {
    w.(queue := w.queue + [c], deliveries := w.deliveries + [c.msg])
  }

  /** What the broker does with an acknowledgement; one for an identifier it does not hold is ignored. */
  function Released(w: World, mid: nat): World {
    if mid in w.inflight then w.(inflight := w.inflight - {mid}, acked := w.acked + {w.inflight[mid]}) else w
  }

  function Run(w: World, events: seq<Event>): World {
    if events == [] then w else Step(Run(w, events[..|events| - 1]), events[|events| - 1])
  }

  ghost predicate Allowed(w: World, events: seq<Event>) {
    forall i :: 0 <= i < |events| ==> Enabled(Run(w, events[..i]), events[i])
  }

  lemma AllowedFront(w: World, events: seq<Event>)
    requires events != [] && Allowed(w, events)
    ensures var n := |events| - 1;
            Allowed(w, events[..n]) && Enabled(Run(w, events[..n]), events[n])
  {
    var n := |events| - 1;
    forall i | 0 <= i < n
      ensures Enabled(Run(w, events[..n][..i]), events[..n][i])
    {
      assert events[..n][..i] == events[..i];
    }
  }

  lemma {:induction false} RunConcat(w: World, a: seq<Event>, b: seq<Event>)
    ensures Run(w, a + b) == Run(Run(w, a), b)
  {
    if b == [] {
      assert a + b == a;
    } else {
      RunConcat(w, a, b[..|b| - 1]);
      assert (a + b)[..|a + b| - 1] == a + b[..|b| - 1];
    }
  }

  lemma AllowedConcat(w: World, a: seq<Event>, b: seq<Event>)
    requires Allowed(w, a) && Allowed(Run(w, a), b)
    ensures Allowed(w, a + b)
  {
    forall i | 0 <= i < |a + b|
      ensures Enabled(Run(w, (a + b)[..i]), (a + b)[i])
    {
      if i < |a| {
        assert (a + b)[..i] == a[..i];
      } else {
        assert (a + b)[..i] == a + b[..i - |a|];
        RunConcat(w, a, b[..i - |a|]);
      }
    }
  }

  // ----- never drop, at the broker's end -----

  /** The message became a row, or validation turned it down. */
  ghost predicate Settled(w: World, m: Message) {
    m in w.readRows || m in w.gateRows || m in w.rejected
  }

  ghost predicate NothingDropped(w: World) {
    forall m :: m in w.acked ==> Settled(w, m)
  }

  /** Every message ever published is waiting, in flight or acknowledged. */
  lemma {:induction false} HeldUntilAcknowledged(events: seq<Event>, m: Message)
    requires Allowed(QUIET_START, events) && Publish(m) in events
    ensures Known(Run(QUIET_START, events), m)
  {
    var n := |events| - 1;
    AllowedFront(QUIET_START, events);
    var w, e := Run(QUIET_START, events[..n]), events[n];
    if e == Publish(m) {
      assert m in Step(w, e).waiting;
    } else {
      assert Publish(m) in events[..n];
      HeldUntilAcknowledged(events[..n], m);
      StepKeepsKnown(w, e, m);
    }
  }

  lemma StepKeepsKnown(w: World, e: Event, m: Message)
    requires Enabled(w, e) && Known(w, m)
    ensures Known(Step(w, e), m)
  {
    var t := Step(w, e);
    if m in w.waiting {
      if e.Send? && m !in t.waiting {
        assert m == w.waiting[0] && t.inflight[e.mid] == m;
      }
    } else if m !in w.acked {
      var mid :| mid in w.inflight && w.inflight[mid] == m;
      assert (mid in t.inflight && t.inflight[mid] == m) || m in t.acked;
    }
  }

  /** The client never holds more than fifty thousand messages for its writer: a full queue makes the network wait. */
  lemma {:induction false} QueueIsBounded(events: seq<Event>)
    requires Allowed(QUIET_START, events)
    ensures |Run(QUIET_START, events).queue| <= 50000
  {
    if events != [] {
      AllowedFront(QUIET_START, events);
      QueueIsBounded(events[..|events| - 1]);
    }
  }

  // ----- copies -----

  lemma CountConcat(a: seq<Message>, b: seq<Message>, m: Message)
    ensures multiset(a + b)[m] == multiset(a)[m] + multiset(b)[m]
  {
  }

  lemma BatchLonger(front: seq<Copy>, c: Copy, m: Message)
    ensures multiset(RowsIn(front + [c], c.msg.isRead))[m] ==
            multiset(RowsIn(front, c.msg.isRead))[m] + if c.msg == m && m.row.Some? then 1 else 0
    ensures RowsIn(front + [c], !c.msg.isRead) == RowsIn(front, !c.msg.isRead)
    ensures multiset(RejectsIn(front + [c]))[m] ==
            multiset(RejectsIn(front))[m] + if c.msg == m && m.row.None? then 1 else 0
    ensures multiset(Messages(front + [c]))[m] == multiset(Messages(front))[m] + if c.msg == m then 1 else 0
  {
    assert (front + [c])[..|front|] == front;
    assert Messages(front + [c]) == Messages(front) + [c.msg];
    assert RowsIn(front, !c.msg.isRead) + [] == RowsIn(front, !c.msg.isRead);
  }

  function SortedOut(batch: seq<Copy>, m: Message): nat {
    multiset(RowsIn(batch, true))[m] + multiset(RowsIn(batch, false))[m] + multiset(RejectsIn(batch))[m]
  }

  lemma SortedOutLonger(front: seq<Copy>, c: Copy, m: Message)
    ensures SortedOut(front + [c], m) == SortedOut(front, m) + if c.msg == m then 1 else 0
  {
    BatchLonger(front, c, m);
  }

  /** Every copy in a batch becomes a row of one table or a reject, once. */
  lemma {:induction false} BatchIsSorted(batch: seq<Copy>, m: Message)
    ensures SortedOut(batch, m) == multiset(Messages(batch))[m]
  {
    if batch == [] {
      assert Messages(batch) == [];
    } else {
      var front, last := batch[..|batch| - 1], batch[|batch| - 1];
      BatchIsSorted(front, m);
      assert batch == front + [last];
      SortedOutLonger(front, last, m);
      BatchLonger(front, last, m);
    }
  }

  lemma MessagesConcat(a: seq<Copy>, b: seq<Copy>, m: Message)
    ensures multiset(Messages(a + b))[m] == multiset(Messages(a))[m] + multiset(Messages(b))[m]
  {
    assert Messages(a + b) == Messages(a) + Messages(b);
  }

  function Stored(w: World, m: Message): nat {
    multiset(w.readRows)[m] + multiset(w.gateRows)[m] + multiset(w.rejected)[m]
  }

  function AtClient(w: World, m: Message): nat {
    multiset(Messages(w.batch))[m] + multiset(Messages(w.queue))[m]
  }

  /** Whatever came of the deliveries of a message, or is still at the client. */
  ghost predicate CopiesCounted(w: World, m: Message) {
    Stored(w, m) + AtClient(w, m) <= multiset(w.deliveries)[m]
  }

  lemma DeliveryCounts(w: World, c: Copy, m: Message)
    requires CopiesCounted(w, m)
    ensures CopiesCounted(Delivered(w, c), m)
  {
    MessagesConcat(w.queue, [c], m);
    assert Messages([c]) == [c.msg];
    CountConcat(w.deliveries, [c.msg], m);
  }

  lemma CommitCounts(w: World, m: Message)
    requires CopiesCounted(w, m)
    ensures CopiesCounted(Step(w, Commit), m)
  {
    var t, batch := Step(w, Commit), w.batch;
    assert Stored(t, m) == Stored(w, m) + multiset(Messages(batch))[m] by {
      BatchIsSorted(batch, m);
      CountConcat(w.readRows, RowsIn(batch, true), m);
      CountConcat(w.gateRows, RowsIn(batch, false), m);
      CountConcat(w.rejected, RejectsIn(batch), m);
    }
    assert Messages(t.batch) == [];
  }

  lemma StepCountsCopies(w: World, e: Event, m: Message)
    requires Enabled(w, e) && CopiesCounted(w, m)
    ensures CopiesCounted(Step(w, e), m)
  {
    match e
    case Publish(_) =>
    case Send(mid, arrives) =>
      if arrives {
        var sent := w.(waiting := w.waiting[1..], inflight := w.inflight[mid := w.waiting[0]]);
        DeliveryCounts(sent, Copy(mid, w.waiting[0]), m);
      }
    case Redeliver(mid) => DeliveryCounts(w, Copy(mid, w.inflight[mid]), m);
    case Collect =>
      assert w.queue == [w.queue[0]] + w.queue[1..];
      MessagesConcat([w.queue[0]], w.queue[1..], m);
      MessagesConcat(w.batch, [w.queue[0]], m);
    case Commit => CommitCounts(w, m);
    case Ack(_) =>
    case Crash => assert Messages([]) == [];
  }

  /** A message never has more rows than it was delivered times, whatever crashes and redeliveries there are. */
  lemma {:induction false} RowsNeverExceedDeliveries(events: seq<Event>, m: Message)
    requires Allowed(QUIET_START, events)
    ensures Stored(Run(QUIET_START, events), m) + AtClient(Run(QUIET_START, events), m)
            <= multiset(Run(QUIET_START, events).deliveries)[m]
  {
    if events != [] {
      var n := |events| - 1;
      AllowedFront(QUIET_START, events);
      RowsNeverExceedDeliveries(events[..n], m);
      StepCountsCopies(Run(QUIET_START, events[..n]), events[n], m);
    }
  }

  // ----- without a crash, everything in order -----

  datatype Fate = ToReads | ToGateEvents | ToRejects

  /** Where validation sends a message. */
  function FateOf(m: Message): Fate {
    if m.row.None? then ToRejects else if m.isRead then ToReads else ToGateEvents
  }

  /** The messages of one fate, in order. */
  function Having(ms: seq<Message>, fate: Fate): seq<Message> {
    if ms == [] then []
    else Having(ms[..|ms| - 1], fate) + if FateOf(ms[|ms| - 1]) == fate then [ms[|ms| - 1]] else []
  }

  /** The order within one fate is that of the messages. */
  lemma {:induction false} HavingConcat(a: seq<Message>, b: seq<Message>, fate: Fate)
    ensures Having(a + b, fate) == Having(a, fate) + Having(b, fate)
  {
    if b == [] {
      assert a + b == a;
    } else {
      HavingConcat(a, b[..|b| - 1], fate);
      assert (a + b)[..|a + b| - 1] == a + b[..|b| - 1];
    }
  }

  /** A batch is sorted out in its order. */
  lemma {:induction false} BatchHas(batch: seq<Copy>)
    ensures RowsIn(batch, true) == Having(Messages(batch), ToReads)
    ensures RowsIn(batch, false) == Having(Messages(batch), ToGateEvents)
    ensures RejectsIn(batch) == Having(Messages(batch), ToRejects)
  {
    if batch != [] {
      BatchHas(batch[..|batch| - 1]);
      assert Messages(batch)[..|batch| - 1] == Messages(batch[..|batch| - 1]);
    }
  }

  /** What has come of the messages of one fate. */
  function Written(w: World, fate: Fate): seq<Message> {
    match fate
    case ToReads => w.readRows
    case ToGateEvents => w.gateRows
    case ToRejects => w.rejected
  }

  /** All that was delivered is written, or in the batch, or in the queue, in the order it came in. */
  ghost predicate InOrder(w: World) {
    forall fate :: Having(w.deliveries, fate) ==
                   Written(w, fate) + Having(Messages(w.batch) + Messages(w.queue), fate)
  }

  lemma DeliveryAdds(w: World, c: Copy, fate: Fate)
    ensures var t := Delivered(w, c);
            && t.deliveries == w.deliveries + [c.msg] && Written(t, fate) == Written(w, fate)
            && Messages(t.batch) + Messages(t.queue) == (Messages(w.batch) + Messages(w.queue)) + [c.msg]
  {
    assert Messages(w.queue + [c]) == Messages(w.queue) + [c.msg];
  }

  lemma DeliveryKeepsOrder(w: World, c: Copy)
    requires InOrder(w)
    ensures InOrder(Delivered(w, c))
  {
    hide Having, Written, Delivered, Messages;
    var t := Delivered(w, c);
    forall fate
      ensures Having(t.deliveries, fate) == Written(t, fate) + Having(Messages(t.batch) + Messages(t.queue), fate)
    {
      DeliveryAdds(w, c, fate);
      HavingConcat(w.deliveries, [c.msg], fate);
      HavingConcat(Messages(w.batch) + Messages(w.queue), [c.msg], fate);
    }
  }

  lemma CommitWrites(w: World, fate: Fate)
    ensures var t := Step(w, Commit);
            && Written(t, fate) == Written(w, fate) + Having(Messages(w.batch), fate)
            && Messages(t.batch) + Messages(t.queue) == Messages(w.queue) && t.deliveries == w.deliveries
  {
    hide Having;
    BatchHas(w.batch);
  }

  lemma CommitKeepsOrder(w: World)
    requires InOrder(w)
    ensures InOrder(Step(w, Commit))
  {
    hide Having, Written, Step, Messages;
    var t := Step(w, Commit);
    forall fate
      ensures Having(t.deliveries, fate) == Written(t, fate) + Having(Messages(t.batch) + Messages(t.queue), fate)
    {
      HavingConcat(Messages(w.batch), Messages(w.queue), fate);
      CommitWrites(w, fate);
    }
  }

  lemma StepKeepsOrder(w: World, e: Event)
    requires Enabled(w, e) && e != Crash && InOrder(w)
    ensures InOrder(Step(w, e))
  {
    hide Having;
    match e
    case Send(mid, arrives) =>
      var sent := w.(waiting := w.waiting[1..], inflight := w.inflight[mid := w.waiting[0]]);
      assert InOrder(sent);
      DeliveryKeepsOrder(sent, Copy(mid, w.waiting[0]));
    case Redeliver(mid) => DeliveryKeepsOrder(w, Copy(mid, w.inflight[mid]));
    case Collect =>
      var t := Step(w, e);
      assert Messages(t.batch) + Messages(t.queue) == Messages(w.batch) + Messages(w.queue);
    case Commit => CommitKeepsOrder(w);
    case Publish(_) =>
    case Ack(_) =>
  }

  /**
   As long as the client does not crash, each table is exactly what was delivered for
   it, in the order of delivery, but for what is still in the batch or in the queue.
  */
  lemma {:induction false} WrittenInOrder(events: seq<Event>)
    requires Allowed(QUIET_START, events) && Crash !in events
    ensures InOrder(Run(QUIET_START, events))
  {
    if events == [] {
      assert Messages([]) + Messages([]) == [];
    } else {
      var n := |events| - 1;
      AllowedFront(QUIET_START, events);
      WrittenInOrder(events[..n]);
      assert events[n] in events;
      StepKeepsOrder(Run(QUIET_START, events[..n]), events[n]);
    }
  }

  /** Crash or no crash, a table holds rows of its own kind, and nothing valid is logged as invalid. */
  lemma {:induction false} TablesHoldTheirKind(events: seq<Event>)
    ensures var w := Run(QUIET_START, events);
            && (forall m :: m in w.readRows ==> m.isRead && m.row.Some?)
            && (forall m :: m in w.gateRows ==> !m.isRead && m.row.Some?)
            && (forall m :: m in w.rejected ==> m.row.None?)
  {
    if events != [] {
      var w := Run(QUIET_START, events[..|events| - 1]);
      TablesHoldTheirKind(events[..|events| - 1]);
      BatchIsOfItsKind(w.batch);
    }
  }

  lemma {:induction false} BatchIsOfItsKind(batch: seq<Copy>)
    ensures forall m :: m in RowsIn(batch, true) ==> m.isRead && m.row.Some?
    ensures forall m :: m in RowsIn(batch, false) ==> !m.isRead && m.row.Some?
    ensures forall m :: m in RejectsIn(batch) ==> m.row.None?
  {
    if batch != [] {
      BatchIsOfItsKind(batch[..|batch| - 1]);
    }
  }

  // ----- never drop, when packet identifiers are not reused too early -----

  /** Nothing at the client stands for this packet identifier any more. */
  ghost predicate Unused(w: World, mid: nat) {
    && (forall c :: c in w.queue || c in w.batch ==> c.mid != mid)
    && mid !in w.acks
  }

  /** A step is careful if a new message goes out only under an unused identifier. */
  ghost predicate Careful(w: World, e: Event) {
    Enabled(w, e) && (e.Send? ==> Unused(w, e.mid))
  }

  ghost predicate CarefulRun(w: World, events: seq<Event>) {
    forall i :: 0 <= i < |events| ==> Careful(Run(w, events[..i]), events[i])
  }

  lemma CarefulFront(w: World, events: seq<Event>)
    requires events != [] && CarefulRun(w, events)
    ensures var n := |events| - 1;
            CarefulRun(w, events[..n]) && Careful(Run(w, events[..n]), events[n])
  {
    var n := |events| - 1;
    forall i | 0 <= i < n
      ensures Careful(Run(w, events[..n][..i]), events[..n][i])
    {
      assert events[..n][..i] == events[..i];
    }
  }

  /** A copy at the client and the broker agree on what its packet identifier stands for. */
  ghost predicate Agrees(w: World, c: Copy) {
    c.mid in w.inflight ==> w.inflight[c.mid] == c.msg
  }

  ghost predicate Inv(w: World) {
    && NothingDropped(w)
    && (forall c :: c in w.queue || c in w.batch ==> Agrees(w, c))
    && (forall mid :: mid in w.acks && mid in w.inflight ==> Settled(w, w.inflight[mid]))
  }

  lemma {:induction false} BatchSettles(batch: seq<Copy>, c: Copy)
    requires c in batch
    ensures c.msg in RowsIn(batch, true) || c.msg in RowsIn(batch, false) || c.msg in RejectsIn(batch)
  {
    var front, last := batch[..|batch| - 1], batch[|batch| - 1];
    if c != last {
      BatchSettles(front, c);
    }
  }

  lemma CommitKeeps(w: World)
    requires Inv(w) && Enabled(w, Commit)
    ensures Inv(Step(w, Commit))
  {
    var t := Step(w, Commit);
    forall mid | mid in t.acks && mid in t.inflight
      ensures Settled(t, t.inflight[mid])
    {
      var i :| 0 <= i < |t.acks| && t.acks[i] == mid;
      var c := w.batch[i];
      assert c in w.batch && Agrees(w, c);
      BatchSettles(w.batch, c);
    }
    forall m | m in t.acked
      ensures Settled(t, m)
    {
      assert Settled(w, m);
    }
  }

  lemma StepKeeps(w: World, e: Event)
    requires Inv(w) && Careful(w, e)
    ensures Inv(Step(w, e))
  {
    var t := Step(w, e);
    if e.Commit? {
      CommitKeeps(w);
    } else {
      assert forall m :: Settled(w, m) ==> Settled(t, m);
      assert forall mid :: mid in t.acks ==> mid in w.acks;
      forall c | c in t.queue || c in t.batch
        ensures Agrees(t, c)
      {
        assert c in w.queue || c in w.batch || (c.mid in t.inflight && t.inflight[c.mid] == c.msg);
      }
      if e.Ack? {
        assert w.acks[0] in w.acks;
      }
    }
  }

  lemma {:induction false} CarefulRunKeeps(w: World, events: seq<Event>)
    requires Inv(w) && CarefulRun(w, events)
    ensures Inv(Run(w, events))
  {
    if events != [] {
      CarefulFront(w, events);
      CarefulRunKeeps(w, events[..|events| - 1]);
      StepKeeps(Run(w, events[..|events| - 1]), events[|events| - 1]);
    }
  }

  /**
   Never drop: whatever is lost, redelivered or crashes, an acknowledged message is a
   committed row or was turned down by validation, as long as no new message goes
   out under an identifier that a copy at the client still carries.
  */
  lemma {:induction false} NeverDrop(events: seq<Event>, m: Message)
    requires CarefulRun(QUIET_START, events) && m in Run(QUIET_START, events).acked
    ensures Settled(Run(QUIET_START, events), m)
  {
    CarefulRunKeeps(QUIET_START, events);
  }

  // ----- after a crash -----

  /** From here on: the steps, and where they lead. */
  ghost predicate Goes(w: World, events: seq<Event>, t: World) {
    Allowed(w, events) && Run(w, events) == t
  }

  lemma GoesOn(w: World, events: seq<Event>, t: World, e: Event)
    requires Goes(w, events, t) && Enabled(t, e)
    ensures Goes(w, events + [e], Step(t, e))
  {
    hide Step, Enabled;
    assert (events + [e])[..|events|] == events;
    forall i | 0 <= i < |events + [e]|
      ensures Enabled(Run(w, (events + [e])[..i]), (events + [e])[i])
    {
      if i < |events| {
        assert (events + [e])[..i] == events[..i];
      }
    }
  }

  /** A client that crashed has nothing left of what it had received, and that is all that is lost. */
  lemma CrashesAndGetsAgain(w: World, mid: nat)
    requires mid in w.inflight
    ensures var m, r := w.inflight[mid], Step(Step(w, Crash), Redeliver(mid));
            && Enabled(w, Crash) && Enabled(Step(w, Crash), Redeliver(mid))
            && r == w.(queue := [Copy(mid, m)], batch := [], acks := [], deliveries := w.deliveries + [m])
  {
  }

  lemma TakesAndCommitsOne(w: World, c: Copy)
    requires w.queue == [c] && w.batch == [] && w.acks == []
    ensures Enabled(w, Collect) && Enabled(Step(w, Collect), Commit)
    ensures var t := Step(Step(w, Collect), Commit);
            && t.queue == [] && t.batch == [] && t.acks == [c.mid]
            && t.inflight == w.inflight && Settled(t, c.msg)
            && w.readRows <= t.readRows && w.gateRows <= t.gateRows && w.rejected <= t.rejected
  {
    assert [] + [c] == [c] && [c][..0] == [];
    assert Mids([c]) == [c.mid];
    BatchSettles([c], c);
  }

  /**
   Whatever state the client crashes in, and whether or not it had written the message,
   any message the broker still holds for it is settled by the next delivery, and can be
   acknowledged then; nothing that was committed is taken back.
  */
  lemma CrashIsRecovered(w: World, mid: nat) returns (events: seq<Event>)
    requires mid in w.inflight
    ensures Allowed(w, [Crash] + events) && forall e :: e in events ==> !e.Send? && !e.Publish?
    ensures var t, m := Run(w, [Crash] + events), w.inflight[mid];
            && Settled(t, m) && m in t.acked && mid !in t.inflight
            && t.queue == [] && t.batch == [] && t.acks == []
            && w.readRows <= t.readRows && w.gateRows <= t.gateRows && w.rejected <= t.rejected
  {
    hide Step, Enabled, Settled, Goes;
    CrashesAndGetsAgain(w, mid);
    NowhereYet(w);
    GoesOn(w, [], w, Crash);
    GoesOn(w, [] + [Crash], Step(w, Crash), Redeliver(mid));
    var r := Step(Step(w, Crash), Redeliver(mid));
    TakesAndCommitsOne(r, Copy(mid, w.inflight[mid]));
    GoesOn(w, [] + [Crash] + [Redeliver(mid)], r, Collect);
    GoesOn(w, [] + [Crash] + [Redeliver(mid)] + [Collect], Step(r, Collect), Commit);
    var t := Step(Step(r, Collect), Commit);
    AcknowledgesOne(t, mid, w.inflight[mid]);
    GoesOn(w, [] + [Crash] + [Redeliver(mid)] + [Collect] + [Commit], t, Ack(true));
    events := [Redeliver(mid), Collect, Commit, Ack(true)];
    assert [Crash] + events == [] + [Crash] + [Redeliver(mid)] + [Collect] + [Commit] + [Ack(true)];
    assert Goes(w, [Crash] + events, Step(t, Ack(true)));
    Arrived(w, [Crash] + events, Step(t, Ack(true)));
  }

  lemma NowhereYet(w: World)
    ensures Goes(w, [], w)
  {
  }

  lemma Arrived(w: World, events: seq<Event>, t: World)
    requires Goes(w, events, t)
    ensures Allowed(w, events) && Run(w, events) == t
  {
  }

  lemma AcknowledgesOne(w: World, mid: nat, m: Message)
    requires w.acks == [mid] && mid in w.inflight && w.inflight[mid] == m && Settled(w, m)
    ensures Enabled(w, Ack(true))
    ensures var t := Step(w, Ack(true));
            && Settled(t, m) && m in t.acked && mid !in t.inflight && t.acks == []
            && t.queue == w.queue && t.batch == w.batch
            && t.readRows == w.readRows && t.gateRows == w.gateRows && t.rejected == w.rejected
  {
  }

  // ----- that condition is exact -----

  /** A copy of something else still carries this identifier, and no copy of the message comes before it. */
  ghost predicate Doomed(w: World, mid: nat, m: Message) {
    && mid in w.inflight && w.inflight[mid] == m && !Settled(w, m)
    && (forall c :: c in w.batch ==> c.msg != m)
    && (|| mid in w.acks
        || (exists c :: c in w.batch && c.mid == mid)
        || (exists i :: CarriedAt(w, mid, m, i)))
  }

  ghost predicate CarriedAt(w: World, mid: nat, m: Message, i: int) {
    && 0 <= i < |w.queue| && w.queue[i].mid == mid
    && forall j :: 0 <= j <= i ==> w.queue[j].msg != m
  }

  /** What the writer does next, taking one message at a time. */
  function NextByWriter(w: World): Event {
    if w.acks != [] then Ack(true) else if w.batch != [] then Commit else Collect
  }

  lemma {:induction false} NotFromBatch(batch: seq<Copy>, m: Message)
    requires forall c :: c in batch ==> c.msg != m
    ensures m !in RowsIn(batch, true) && m !in RowsIn(batch, false) && m !in RejectsIn(batch)
  {
    if batch != [] {
      NotFromBatch(batch[..|batch| - 1], m);
      assert batch[|batch| - 1] in batch;
    }
  }

  lemma AckKeepsDoom(w: World, mid: nat, m: Message)
    requires Doomed(w, mid, m) && w.acks != [] && w.acks[0] != mid
    ensures Doomed(Step(w, Ack(true)), mid, m)
  {
    var t := Step(w, Ack(true));
    if mid in w.acks {
      assert w.acks == [w.acks[0]] + w.acks[1..];
    } else if exists i :: CarriedAt(w, mid, m, i) {
      var i :| CarriedAt(w, mid, m, i);
      assert CarriedAt(t, mid, m, i);
    }
  }

  lemma CommitKeepsDoom(w: World, mid: nat, m: Message)
    requires Doomed(w, mid, m) && w.acks == [] && w.batch != []
    ensures Doomed(Step(w, Commit), mid, m)
  {
    var t := Step(w, Commit);
    NotFromBatch(w.batch, m);
    if c :| c in w.batch && c.mid == mid {
      var k :| 0 <= k < |w.batch| && w.batch[k] == c;
      assert t.acks[k] == mid;
    } else {
      var i :| CarriedAt(w, mid, m, i);
      assert CarriedAt(t, mid, m, i);
    }
  }

  lemma CollectKeepsDoom(w: World, mid: nat, m: Message)
    requires Doomed(w, mid, m) && w.acks == [] && w.batch == []
    ensures w.queue != [] && Doomed(Step(w, Collect), mid, m)
  {
    var t := Step(w, Collect);
    var i :| CarriedAt(w, mid, m, i);
    if i == 0 {
      assert w.queue[0] in t.batch;
    } else {
      assert forall j :: 0 <= j < |t.queue| ==> t.queue[j] == w.queue[j + 1];
      assert CarriedAt(t, mid, m, i - 1);
    }
  }

  lemma WriterStepKeepsDoom(w: World, mid: nat, m: Message)
    requires Doomed(w, mid, m)
    requires w.acks != [] ==> w.acks[0] != mid
    ensures Careful(w, NextByWriter(w)) && Doomed(Step(w, NextByWriter(w)), mid, m)
  {
    hide Doomed, Step;
    if w.acks != [] {
      AckKeepsDoom(w, mid, m);
    } else if w.batch != [] {
      CommitKeepsDoom(w, mid, m);
    } else {
      CollectKeepsDoom(w, mid, m);
    }
  }

  lemma CarefulConcat(w: World, a: seq<Event>, b: seq<Event>)
    requires CarefulRun(w, a) && CarefulRun(Run(w, a), b)
    ensures CarefulRun(w, a + b)
  {
    forall i | 0 <= i < |a + b|
      ensures Careful(Run(w, (a + b)[..i]), (a + b)[i])
    {
      if i < |a| {
        assert (a + b)[..i] == a[..i];
      } else {
        assert (a + b)[..i] == a + b[..i - |a|];
        RunConcat(w, a, b[..i - |a|]);
      }
    }
  }

  lemma OneStep(w: World, e: Event)
    ensures Run(w, [e]) == Step(w, e)
    ensures Careful(w, e) ==> CarefulRun(w, [e])
    ensures Enabled(w, e) ==> Allowed(w, [e])
  {
    assert [e][..0] == [];
  }

  /** The writer, doing nothing but its work, acknowledges the message before it was committed. */
  lemma {:induction false} DoomedIsDropped(w: World, mid: nat, m: Message) returns (events: seq<Event>)
    requires Doomed(w, mid, m)
    ensures CarefulRun(w, events) && !NothingDropped(Run(w, events))
    decreases |w.queue|, |w.batch|, |w.acks|
  {
    var e := NextByWriter(w);
    if w.acks != [] && w.acks[0] == mid {
      events := [e];
      assert events[..0] == [];
      assert m in Run(w, events).acked && !Settled(Run(w, events), m);
    } else {
      WriterStepKeepsDoom(w, mid, m);
      var rest := DoomedIsDropped(Step(w, e), mid, m);
      events := [e] + rest;
      OneStep(w, e);
      CarefulConcat(w, [e], rest);
      RunConcat(w, [e], rest);
    }
  }

  /** Whatever may follow, as long as it is careful, drops nothing. */
  ghost predicate SafeFrom(w: World) {
    forall events :: CarefulRun(w, events) ==> NothingDropped(Run(w, events))
  }

  /** What waits at the broker never went out: it waits once, and nobody else knows it. */
  ghost predicate WaitingIsNew(w: World) {
    && NoDuplicates(w.waiting)
    && (forall m :: m in w.deliveries ==> m in w.acked || m in w.inflight.Values)
    && (forall m :: m in w.waiting ==> m !in w.acked && m !in w.inflight.Values)
  }

  lemma StepKeepsNew(w: World, e: Event)
    requires WaitingIsNew(w) && Enabled(w, e)
    ensures WaitingIsNew(Step(w, e))
  {
    var t := Step(w, e);
    match e
    case Publish(m) =>
    case Send(mid, arrives) =>
      var m := w.waiting[0];
      assert t.inflight[mid] == m;
      forall x | x in w.inflight.Values
        ensures x in t.inflight.Values
      {
        var k :| k in w.inflight && w.inflight[k] == x;
        assert t.inflight[k] == x;
      }
      assert forall x :: x in t.inflight.Values ==> x in w.inflight.Values || x == m;
      assert w.waiting == [m] + t.waiting;
    case Redeliver(mid) =>
    case Collect =>
    case Commit =>
    case Ack(arrives) =>
      forall x | x in w.inflight.Values
        ensures x in t.inflight.Values || x in t.acked
      {
        var k :| k in w.inflight && w.inflight[k] == x;
        assert k in t.inflight ==> t.inflight[k] == x;
      }
    case Crash =>
  }

  lemma {:induction false} RunKeepsNew(events: seq<Event>)
    requires Allowed(QUIET_START, events)
    ensures WaitingIsNew(Run(QUIET_START, events))
  {
    if events != [] {
      AllowedFront(QUIET_START, events);
      RunKeepsNew(events[..|events| - 1]);
      StepKeepsNew(Run(QUIET_START, events[..|events| - 1]), events[|events| - 1]);
    }
  }

  /** Neither a row nor at the client. */
  ghost predicate Untouched(w: World, m: Message) {
    !Settled(w, m) && forall c :: c in w.queue || c in w.batch ==> c.msg != m
  }

  lemma UndeliveredIsUntouched(w: World, m: Message)
    requires CopiesCounted(w, m) && m !in w.deliveries
    ensures Untouched(w, m)
  {
    assert multiset(w.deliveries)[m] == 0;
    assert m !in multiset(w.readRows) && m !in multiset(w.gateRows) && m !in multiset(w.rejected);
    forall c | c in w.queue || c in w.batch
      ensures c.msg != m
    {
      if c in w.queue {
        var i :| 0 <= i < |w.queue| && w.queue[i] == c;
        assert Messages(w.queue)[i] == c.msg && c.msg in multiset(Messages(w.queue));
      } else {
        var i :| 0 <= i < |w.batch| && w.batch[i] == c;
        assert Messages(w.batch)[i] == c.msg && c.msg in multiset(Messages(w.batch));
      }
    }
  }

  lemma SentUnderUsedIdIsDoomed(w: World, mid: nat, arrives: bool)
    requires Enabled(w, Send(mid, arrives)) && Untouched(w, w.waiting[0]) && !Unused(w, mid)
    ensures Doomed(Step(w, Send(mid, arrives)), mid, w.waiting[0])
  {
    var t, m := Step(w, Send(mid, arrives)), w.waiting[0];
    assert !Settled(t, m);
    if c :| c in w.queue && c.mid == mid {
      var i :| 0 <= i < |w.queue| && w.queue[i] == c;
      assert forall j :: 0 <= j <= i ==> w.queue[j] in w.queue;
      assert CarriedAt(t, mid, m, i);
    }
  }

  lemma CarefulIsAllowed(w: World, events: seq<Event>)
    requires CarefulRun(w, events)
    ensures Allowed(w, events)
  {
    forall i | 0 <= i < |events|
      ensures Enabled(Run(w, events[..i]), events[i])
    {
      assert Careful(Run(w, events[..i]), events[i]);
    }
  }

  /**
   However a careful run got here, sending the next message under an identifier is
   safe for everything that may follow if and only if no copy at the client still
   carries that identifier.
  */
  lemma {:induction false} SendIsSafeIff(before: seq<Event>, mid: nat, arrives: bool)
    requires CarefulRun(QUIET_START, before) && Enabled(Run(QUIET_START, before), Send(mid, arrives))
    ensures var w := Run(QUIET_START, before);
            SafeFrom(Step(w, Send(mid, arrives))) <==> Unused(w, mid)
  {
    var w, e := Run(QUIET_START, before), Send(mid, arrives);
    var t := Step(w, e);
    CarefulRunKeeps(QUIET_START, before);
    if Unused(w, mid) {
      StepKeeps(w, e);
      forall events | CarefulRun(t, events)
        ensures NothingDropped(Run(t, events))
      {
        CarefulRunKeeps(t, events);
      }
    } else {
      CarefulIsAllowed(QUIET_START, before);
      RunKeepsNew(before);
      RowsNeverExceedDeliveries(before, w.waiting[0]);
      UndeliveredIsUntouched(w, w.waiting[0]);
      SentUnderUsedIdIsDoomed(w, mid, arrives);
      var events := DoomedIsDropped(t, mid, w.waiting[0]);
    }
  }

  // ----- when every run is careful -----

  /** The identifiers at the client, those to be acknowledged first. */
  function HeldIds(w: World): seq<nat> {
    w.acks + Mids(w.batch) + Mids(w.queue)
  }

  lemma UnusedIsNotHeld(w: World, mid: nat)
    ensures Unused(w, mid) <==> mid !in HeldIds(w)
  {
    forall i | 0 <= i < |w.batch|
      ensures w.batch[i] in w.batch && Mids(w.batch)[i] == w.batch[i].mid
    {
    }
    forall i | 0 <= i < |w.queue|
      ensures w.queue[i] in w.queue && Mids(w.queue)[i] == w.queue[i].mid
    {
    }
  }

  ghost predicate OneCopyEach(w: World) {
    NoDuplicates(HeldIds(w)) && forall mid :: mid in HeldIds(w) ==> mid in w.inflight
  }

  /** Redelivery goes to a client that holds no copy: one that has just started. */
  ghost predicate RedeliversToFreshClient(w: World, e: Event) {
    e.Redeliver? ==> Unused(w, e.mid)
  }

  lemma MidsLonger(copies: seq<Copy>, c: Copy)
    ensures Mids(copies + [c]) == Mids(copies) + [c.mid]
  {
  }

  lemma MidsTail(copies: seq<Copy>)
    requires copies != []
    ensures Mids(copies) == [copies[0].mid] + Mids(copies[1..])
  {
  }

  lemma DeliveredIsHeld(w: World, c: Copy)
    ensures HeldIds(Delivered(w, c)) == HeldIds(w) + [c.mid]
  {
    hide Mids;
    MidsLonger(w.queue, c);
  }

  lemma CollectedIsHeld(w: World)
    requires w.queue != []
    ensures HeldIds(Step(w, Collect)) == HeldIds(w)
  {
    hide Mids;
    MidsTail(w.queue);
    MidsLonger(w.batch, w.queue[0]);
    assert w.acks + (Mids(w.batch) + [w.queue[0].mid]) + Mids(w.queue[1..]) ==
           w.acks + Mids(w.batch) + ([w.queue[0].mid] + Mids(w.queue[1..]));
  }

  lemma AcknowledgedIsFirst(w: World, arrives: bool)
    requires w.acks != []
    ensures HeldIds(w) == [w.acks[0]] + HeldIds(Step(w, Ack(arrives)))
  {
    hide Mids;
    assert w.acks == [w.acks[0]] + w.acks[1..];
    var rest := Mids(w.batch) + Mids(w.queue);
    assert ([w.acks[0]] + w.acks[1..]) + rest == [w.acks[0]] + (w.acks[1..] + rest);
    assert HeldIds(w) == w.acks + rest && HeldIds(Step(w, Ack(arrives))) == w.acks[1..] + rest;
  }

  lemma HeldIdsStep(w: World, e: Event)
    requires Enabled(w, e)
    ensures var t := Step(w, e);
            match e
            case Send(mid, arrives) => HeldIds(t) == if arrives then HeldIds(w) + [mid] else HeldIds(w)
            case Redeliver(mid) => HeldIds(t) == HeldIds(w) + [mid]
            case Ack(_) => HeldIds(w) == [w.acks[0]] + HeldIds(t)
            case Crash => HeldIds(t) == []
            case _ => HeldIds(t) == HeldIds(w)
  {
    match e
    case Publish(_) =>
    case Send(mid, arrives) =>
      if arrives {
        var sent := w.(waiting := w.waiting[1..], inflight := w.inflight[mid := w.waiting[0]]);
        DeliveredIsHeld(sent, Copy(mid, w.waiting[0]));
      }
    case Redeliver(mid) => DeliveredIsHeld(w, Copy(mid, w.inflight[mid]));
    case Collect => CollectedIsHeld(w);
    case Commit => assert w.acks + Mids(w.batch) == Mids(w.batch) && Mids([]) == [];
    case Ack(arrives) => AcknowledgedIsFirst(w, arrives);
    case Crash => assert Mids([]) == [];
  }

  lemma NoDuplicatesTail(x: nat, rest: seq<nat>)
    requires NoDuplicates([x] + rest)
    ensures NoDuplicates(rest) && x !in rest
  {
    var all := [x] + rest;
    forall i | 0 <= i < |rest|
      ensures rest[i] == all[i + 1] && rest[i] != x
    {
      assert all[0] != all[i + 1];
    }
  }

  lemma StepKeepsOneCopy(w: World, e: Event)
    requires OneCopyEach(w) && Enabled(w, e) && RedeliversToFreshClient(w, e)
    ensures Careful(w, e) && OneCopyEach(Step(w, e))
  {
    HeldIdsStep(w, e);
    if e.Send? || e.Redeliver? {
      UnusedIsNotHeld(w, e.mid);
    } else if e.Ack? {
      NoDuplicatesTail(w.acks[0], HeldIds(Step(w, e)));
    }
  }

  ghost predicate OnlyRestartsRedeliver(events: seq<Event>) {
    forall i :: 0 <= i < |events| ==> RedeliversToFreshClient(Run(QUIET_START, events[..i]), events[i])
  }

  lemma OnlyRestartsFront(events: seq<Event>)
    requires events != [] && OnlyRestartsRedeliver(events)
    ensures OnlyRestartsRedeliver(events[..|events| - 1])
  {
    var front := events[..|events| - 1];
    forall i | 0 <= i < |front|
      ensures RedeliversToFreshClient(Run(QUIET_START, front[..i]), front[i])
    {
      assert front[..i] == events[..i];
    }
  }

  lemma {:induction false} RunKeepsOneCopy(events: seq<Event>)
    requires Allowed(QUIET_START, events) && OnlyRestartsRedeliver(events)
    ensures CarefulRun(QUIET_START, events) && OneCopyEach(Run(QUIET_START, events))
  {
    if events == [] {
      assert HeldIds(QUIET_START) == [];
    } else {
      var front, last := events[..|events| - 1], events[|events| - 1];
      AllowedFront(QUIET_START, events);
      OnlyRestartsFront(events);
      RunKeepsOneCopy(front);
      StepKeepsOneCopy(Run(QUIET_START, front), last);
      OneStep(Run(QUIET_START, front), last);
      CarefulConcat(QUIET_START, front, [last]);
      assert events == front + [last];
    }
  }

  /** When only a restarted client gets redeliveries, nothing acknowledged is ever lost. */
  lemma {:induction false} RestartsDropNothing(events: seq<Event>)
    requires Allowed(QUIET_START, events) && OnlyRestartsRedeliver(events)
    ensures NothingDropped(Run(QUIET_START, events))
  {
    RunKeepsOneCopy(events);
    CarefulRunKeeps(QUIET_START, events);
  }

  // ----- a drop -----

  /** One more step of a run that leads to this world. */
  lemma Then(events: seq<Event>, w: World, e: Event) returns (longer: seq<Event>)
    requires Allowed(QUIET_START, events) && Run(QUIET_START, events) == w && Enabled(w, e)
    ensures longer == events + [e]
    ensures Allowed(QUIET_START, longer) && Run(QUIET_START, longer) == Step(w, e)
  {
    longer := events + [e];
    OneStep(w, e);
    AllowedConcat(QUIET_START, events, [e]);
    RunConcat(QUIET_START, events, [e]);
  }

  /** A message comes again, over a new connection, while its first copy still waits in the queue. */
  lemma ComesAgain(m: Message) returns (events: seq<Event>)
    ensures Allowed(QUIET_START, events) && Crash !in events
    ensures Run(QUIET_START, events) == World([], map[7 := m], {}, [m, m], [Copy(7, m), Copy(7, m)], [], [], [], [], [])
  {
    assert Allowed(QUIET_START, []) && Run(QUIET_START, []) == QUIET_START;
    events := Then([], QUIET_START, Publish(m));
    events := Then(events, World([m], map[], {}, [], [], [], [], [], [], []), Send(7, true));
    events := Then(events, World([], map[7 := m], {}, [m], [Copy(7, m)], [], [], [], [], []), Redeliver(7));
  }

  lemma OneRead(m: Message)
    requires m.isRead && m.row.Some?
    ensures var b := [Copy(7, m)];
            RowsIn(b, true) == [m] && RowsIn(b, false) == [] && RejectsIn(b) == [] && Mids(b) == [7]
  {
    assert [Copy(7, m)][..0] == [];
  }

  lemma CollectsOne(w: World, c: Copy)
    requires w.queue != [] && w.queue[0] == c && w.batch == [] && w.acks == []
    ensures Enabled(w, Collect) && Step(w, Collect) == w.(queue := w.queue[1..], batch := [c])
  {
    assert [] + [c] == [c];
  }

  lemma CommitsOne(w: World, m: Message)
    requires w.batch == [Copy(7, m)] && w.acks == [] && m.isRead && m.row.Some?
    ensures Enabled(w, Commit)
    ensures Step(w, Commit) == w.(batch := [], acks := [7], readRows := w.readRows + [m])
  {
    hide RowsIn, RejectsIn, Mids;
    OneRead(m);
    assert w.gateRows + [] == w.gateRows && w.rejected + [] == w.rejected;
  }

  /** The writer takes one read and commits it. */
  lemma TakesOne(before: seq<Event>, w: World, m: Message) returns (events: seq<Event>)
    requires Allowed(QUIET_START, before) && Run(QUIET_START, before) == w && Crash !in before
    requires w.queue != [] && w.queue[0] == Copy(7, m) && w.batch == [] && w.acks == []
    requires m.isRead && m.row.Some?
    ensures Allowed(QUIET_START, events) && Crash !in events
    ensures Run(QUIET_START, events) == w.(queue := w.queue[1..], acks := [7], readRows := w.readRows + [m])
  {
    hide Run, Allowed, Step, Enabled;
    var v := w.(queue := w.queue[1..], batch := [Copy(7, m)]);
    CollectsOne(w, Copy(7, m));
    CommitsOne(v, m);
    events := Then(before, w, Collect);
    events := Then(events, v, Commit);
  }

  /** The first copy becomes a row, and the broker lets go of the message; the second copy stays. */
  lemma ReleasedWithACopyLeft(m: Message) returns (events: seq<Event>)
    requires m.isRead && m.row.Some?
    ensures Allowed(QUIET_START, events) && Crash !in events
    ensures Run(QUIET_START, events) == World([], map[], {m}, [m, m], [Copy(7, m)], [], [], [m], [], [])
  {
    hide Run, Allowed;
    events := ComesAgain(m);
    events := TakesOne(events, World([], map[7 := m], {}, [m, m], [Copy(7, m), Copy(7, m)], [], [], [], [], []), m);
    events := Then(events, World([], map[7 := m], {}, [m, m], [Copy(7, m)], [], [7], [m], [], []), Ack(true));
  }

  /** The broker gives the same identifier to the next message. */
  lemma SentUnderTheSameId(m: Message, m2: Message) returns (events: seq<Event>)
    requires m.isRead && m.row.Some? && m2 != m
    ensures Allowed(QUIET_START, events) && Crash !in events
    ensures Run(QUIET_START, events) ==
            World([], map[7 := m2], {m}, [m, m, m2], [Copy(7, m), Copy(7, m2)], [], [], [m], [], [])
  {
    hide Run, Allowed;
    events := ReleasedWithACopyLeft(m);
    var w := World([], map[], {m}, [m, m], [Copy(7, m)], [], [], [m], [], []);
    assert !Known(w, m2);
    events := Then(events, w, Publish(m2));
    var v := w.(waiting := [m2]);
    assert Step(w, Publish(m2)) == v && v.waiting[1..] == [];
    events := Then(events, v, Send(7, true));
  }

  /**
   A message is delivered again over a new connection while its first copy waits, is
   committed and released, and the broker gives its identifier to the next message.
   The acknowledgement for the second copy then releases that one, before it was
   committed.
  */
  lemma {:induction false} ReusedIdentifierDrops() returns (events: seq<Event>)
    ensures Allowed(QUIET_START, events) && Crash !in events
    ensures !NothingDropped(Run(QUIET_START, events))
  {
    hide Run, Allowed;
    var m, m2 := Message(1, true, Some("a")), Message(2, true, Some("b"));
    events := SentUnderTheSameId(m, m2);
    var w := World([], map[7 := m2], {m}, [m, m, m2], [Copy(7, m), Copy(7, m2)], [], [], [m], [], []);
    events := TakesOne(events, w, m);
    var t := w.(queue := w.queue[1..], acks := [7], readRows := w.readRows + [m]);
    events := Then(events, t, Ack(true));
    assert m2 in Step(t, Ack(true)).acked && !Settled(Step(t, Ack(true)), m2);
  }
}

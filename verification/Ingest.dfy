/**
 The ingest service as it runs: a network side that only fills the queue, and a
 writer that batches, validates, writes and then acknowledges, in that order, while
 the network side goes on. Every method is a run of the steps of IngestProtocol.
*/
module IngestService {
  import opened Basics
  import opened IngestProtocol

  const SHUTDOWN_DB_GRACE_S: Time := 20.0

  /** How one attempt to write ends, and what the writer sees when it failed. */
  datatype Attempt = Success | Failure(stopping: bool, at: Time)

  datatype Outcome = Written | GaveUp | StillTrying

  function Acks(arrivals: seq<bool>): seq<Event> {
    seq(|arrivals|, (i: nat) requires i < |arrivals| => Ack(arrivals[i]))
  }

  // ----- the network side meanwhile -----

  /** What publishers and the broker do. */
  predicate OfNetwork(e: Event) {
    e.Publish? || e.Send? || e.Redeliver?
  }

  /** What they do at each moment of a round of the writer, as things stand then. */
  type Network = (nat, World) -> seq<Event>

  ghost predicate OnlyNetwork(network: Network) {
    forall k, w :: Allowed(w, network(k, w)) && forall e :: e in network(k, w) ==> OfNetwork(e)
  }

  /** The broker gives no identifier to a new message that a copy at the client still carries. */
  ghost predicate CarefulNetwork(network: Network) {
    forall k, w :: CarefulRun(w, network(k, w))
  }

  /** The steps of a run that are the writer's own. */
  function OwnSteps(events: seq<Event>): seq<Event> {
    if events == [] then []
    else
      var e := events[|events| - 1];
      OwnSteps(events[..|events| - 1]) + if OfNetwork(e) then [] else [e]
  }

  function Collects(n: nat): (r: seq<Event>)
    ensures |r| == n
  {
    seq(n, i => Collect)
  }

  lemma {:induction false} NetworkIsNotOwn(events: seq<Event>)
    requires forall e :: e in events ==> OfNetwork(e)
    ensures OwnSteps(events) == []
  {
    if events != [] {
      var n := |events| - 1;
      assert events[n] in events && forall e :: e in events[..n] ==> e in events;
      NetworkIsNotOwn(events[..n]);
    }
  }

  lemma {:induction false} OwnStepsConcat(a: seq<Event>, b: seq<Event>)
    ensures OwnSteps(a + b) == OwnSteps(a) + OwnSteps(b)
  {
    if b == [] {
      assert a + b == a;
    } else {
      OwnStepsConcat(a, b[..|b| - 1]);
      assert (a + b)[..|a + b| - 1] == a + b[..|b| - 1];
    }
  }

  /** A run from one world to another, which is careful if the network was. */
  ghost predicate Leads(start: World, events: seq<Event>, network: Network, here: World) {
    && Allowed(start, events) && Run(start, events) == here
    && (CarefulNetwork(network) ==> CarefulRun(start, events))
  }

  lemma LeadsNowhere(start: World, network: Network)
    ensures Leads(start, [], network, start) && OwnSteps([]) == []
  {
  }

  lemma LeadsOn(start: World, events: seq<Event>, network: Network, here: World, more: seq<Event>)
    requires Leads(start, events, network, here) && Allowed(here, more)
    requires CarefulNetwork(network) ==> CarefulRun(here, more)
    ensures Leads(start, events + more, network, Run(here, more))
    ensures OwnSteps(events + more) == OwnSteps(events) + OwnSteps(more)
  {
    AllowedConcat(start, events, more);
    RunConcat(start, events, more);
    OwnStepsConcat(events, more);
    if CarefulNetwork(network) {
      CarefulConcat(start, events, more);
    }
  }

  /** One step of the writer. */
  lemma OneMore(start: World, events: seq<Event>, network: Network, here: World, e: Event)
    requires Leads(start, events, network, here) && Enabled(here, e) && !OfNetwork(e)
    ensures Leads(start, events + [e], network, Step(here, e))
    ensures OwnSteps(events + [e]) == OwnSteps(events) + [e]
  {
    OneStep(here, e);
    LeadsOn(start, events, network, here, [e]);
    assert [e][..0] == [];
    assert OwnSteps([e]) == [e];
  }

  /** The persistent session of the ingest client at the broker; the last two fields are a record that nobody reads. */
  class BrokerSession {
    var waiting: seq<Message>
    var inflight: map<nat, Message>
    var acked: set<Message>
    var deliveries: seq<Message>

    constructor ()
      ensures waiting == [] && inflight == map[] && acked == {} && deliveries == []
    {
      waiting, inflight, acked, deliveries := [], map[], {}, [];
    }

    /** An acknowledgement reaches the broker, or is lost on the way. */
    method Puback(mid: nat, arrives: bool)
      modifies this`inflight, this`acked
      ensures arrives && mid in old(inflight) ==>
                inflight == old(inflight) - {mid} && acked == old(acked) + {old(inflight)[mid]}
      ensures !arrives || mid !in old(inflight) ==> inflight == old(inflight) && acked == old(acked)
    {
      if arrives && mid in inflight {
        acked := acked + {inflight[mid]};
        inflight := inflight - {mid};
      }
    }
  }

  class Database {
    var readRows: seq<Message>
    var gateRows: seq<Message>

    constructor ()
      ensures readRows == [] && gateRows == []
    {
      readRows, gateRows := [], [];
    }

    /** Reads and gate events in one transaction. */
    method Insert(rows: seq<Message>, gateEvents: seq<Message>)
      modifies this
      ensures readRows == old(readRows) + rows && gateRows == old(gateRows) + gateEvents
    {
      readRows, gateRows := readRows + rows, gateRows + gateEvents;
    }
  }

  class Ingest {
    const session: BrokerSession
    const db: Database
    var pending: seq<Copy>
    /** What the writer has in hand: a batch not yet committed, then identifiers not yet acknowledged. */
    var batch: seq<Copy>
    var acks: seq<nat>
    /** What was logged as not valid. */
    var rejected: seq<Message>

    constructor (session: BrokerSession, db: Database)
      ensures this.session == session && this.db == db
      ensures pending == [] && batch == [] && acks == [] && rejected == []
    {
      this.session, this.db := session, db;
      pending, batch, acks, rejected := [], [], [], [];
    }

    function View(): World
      reads this, session, db
    {
      World(session.waiting, session.inflight, session.acked, session.deliveries,
            pending, batch, acks, db.readRows, db.gateRows, rejected)
    }

    /** The callback: queue the payload and return. It waits while the queue is full. */
    method OnMessage(c: Copy)
      requires |pending| < 50000
      modifies this`pending, session`deliveries
      ensures View() == Delivered(old(View()), c)
    {
      pending := pending + [c];
      session.deliveries := session.deliveries + [c.msg];
    }

    /** One step of the network side. */
    method NetworkStep(e: Event)
      requires OfNetwork(e) && Enabled(View(), e)
      modifies this`pending, session`waiting, session`inflight, session`deliveries
      ensures View() == Step(old(View()), e)
    {
      match e
      case Publish(m) => session.waiting := session.waiting + [m];
      case Send(mid, arrives) =>
        var m := session.waiting[0];
        session.waiting, session.inflight := session.waiting[1..], session.inflight[mid := m];
        if arrives {
          OnMessage(Copy(mid, m));
        }
      case Redeliver(mid) => OnMessage(Copy(mid, session.inflight[mid]));
    }

    /** Whatever the network side does at this moment. */
    method LetNetwork(network: Network, k: nat, ghost start: World, ghost events: seq<Event>)
      returns (ghost longer: seq<Event>)
      requires OnlyNetwork(network) && Leads(start, events, network, View())
      modifies this`pending, session`waiting, session`inflight, session`deliveries
      ensures Leads(start, longer, network, View()) && OwnSteps(longer) == OwnSteps(events)
      ensures View() == Run(old(View()), network(k, old(View())))
    {
      hide Step, Enabled;
      ghost var here := View();
      var steps := network(k, View());
      assert Allowed(here, steps) && steps[..0] == [];
      for i := 0 to |steps|
        invariant View() == Run(here, steps[..i])
      {
        assert steps[..i + 1][..i] == steps[..i] && steps[i] in steps;
        NetworkStep(steps[i]);
      }
      assert steps[..|steps|] == steps;
      LeadsOn(start, events, network, here, steps);
      NetworkIsNotOwn(steps);
      longer := events + steps;
    }

    /** Up to BATCH_MAX_ROWS messages, as many as come before the deadline; more may come while it waits. */
    method CollectBatch(inTime: nat, network: Network, ghost start: World) returns (ghost events: seq<Event>)
      requires batch == [] && acks == [] && View() == start && OnlyNetwork(network)
      modifies this`pending, this`batch, session`waiting, session`inflight, session`deliveries
      ensures |batch| <= 500 && |batch| <= inTime
      ensures |batch| == 500 || |batch| == inTime || pending == []
      ensures Leads(start, events, network, View()) && OwnSteps(events) == Collects(|batch|)
    {
      hide Leads, OwnSteps, Run;
      LeadsNowhere(start, network);
      events := [];
      while |batch| < BATCH_MAX_ROWS && |batch| < inTime
        invariant |batch| <= BATCH_MAX_ROWS && |batch| <= inTime && acks == []
        invariant Leads(start, events, network, View()) && OwnSteps(events) == Collects(|batch|)
        decreases inTime - |batch|
      {
        ghost var n := |batch|;
        events := LetNetwork(network, |batch|, start, events);
        if pending == [] {
          return;
        }
        OneMore(start, events, network, View(), Collect);
        events := events + [Collect];
        batch, pending := batch + [pending[0]], pending[1..];
        assert Collects(n + 1) == Collects(n) + [Collect];
      }
    }

    /** Sort a batch into reads, gate events and rejects; every message is to be acknowledged. */
    method ValidateBatch()
      returns (rows: seq<Message>, gateEvents: seq<Message>, mids: seq<nat>, bad: seq<Message>)
      ensures rows == RowsIn(batch, true) && gateEvents == RowsIn(batch, false)
      ensures mids == Mids(batch) && bad == RejectsIn(batch)
    {
      rows, gateEvents, mids, bad := [], [], [], [];
      for i := 0 to |batch|
        invariant rows == RowsIn(batch[..i], true) && gateEvents == RowsIn(batch[..i], false)
        invariant mids == Mids(batch[..i]) && bad == RejectsIn(batch[..i])
      {
        var c := batch[i];
        assert batch[..i + 1][..i] == batch[..i];
        mids := mids + [c.mid];
        if c.msg.row.None? {
          bad := bad + [c.msg];
        } else if c.msg.isRead {
          rows := rows + [c.msg];
        } else {
          gateEvents := gateEvents + [c.msg];
        }
      }
      assert batch[..|batch|] == batch;
    }

    /**
     Insert and commit, trying again until it succeeds. Only while stopping, and only
     after failing for the grace period, does it give up; then nothing was written.
    */
    method WriteBatch(rows: seq<Message>, gateEvents: seq<Message>, attempts: seq<Attempt>) returns (outcome: Outcome)
      modifies db
      ensures outcome.Written? ==>
                db.readRows == old(db.readRows) + rows && db.gateRows == old(db.gateRows) + gateEvents
      ensures !outcome.Written? ==> db.readRows == old(db.readRows) && db.gateRows == old(db.gateRows)
      ensures outcome.Written? ==> Success in attempts
      ensures outcome.GaveUp? ==>
                exists i, j :: 0 <= i < j < |attempts| && attempts[i].Failure? && attempts[j].Failure?
                               && attempts[i].stopping && attempts[j].stopping
                               && attempts[j].at - attempts[i].at >= 20.0
      ensures outcome.StillTrying? ==> Success !in attempts
    {
      var giveUpAt: Option<Time> := None;
      ghost var since := 0;
      for k := 0 to |attempts|
        invariant db.readRows == old(db.readRows) && db.gateRows == old(db.gateRows)
        invariant Success !in attempts[..k]
        invariant giveUpAt.Some? ==>
                    0 <= since < k && attempts[since].Failure? && attempts[since].stopping
                    && giveUpAt.value == attempts[since].at + SHUTDOWN_DB_GRACE_S
      {
        match attempts[k]
        case Success =>
          db.Insert(rows, gateEvents);
          return Written;
        case Failure(stopping, at) =>
          if stopping {
            if giveUpAt.None? {
              giveUpAt, since := Some(at + SHUTDOWN_DB_GRACE_S), k;
            }
            if at >= giveUpAt.value {
              return GaveUp;
            }
          }
      }
      assert attempts[..|attempts|] == attempts;
      outcome := StillTrying;
    }

    method AcknowledgeOne(arrives: bool)
      requires acks != []
      modifies this`acks, session`inflight, session`acked
      ensures acks == old(acks)[1..]
      ensures View() == Step(old(View()), Ack(arrives))
    {
      session.Puback(acks[0], arrives);
      acks := acks[1..];
    }

    /** Acknowledge what was committed; each acknowledgement may or may not arrive. */
    method AcknowledgeAll(arrivals: seq<bool>, network: Network, ghost start: World, ghost before: seq<Event>)
      returns (ghost events: seq<Event>)
      requires |arrivals| == |acks| && OnlyNetwork(network)
      requires Leads(start, before, network, View())
      modifies this`pending, this`acks, session
      ensures acks == [] && batch == old(batch)
      ensures Leads(start, events, network, View()) && OwnSteps(events) == OwnSteps(before) + Acks(arrivals)
    {
      hide Leads, OwnSteps, Run;
      events := before;
      assert OwnSteps(before) + Acks(arrivals[..0]) == OwnSteps(before);
      for i := 0 to |arrivals|
        invariant |acks| == |arrivals| - i
        invariant Leads(start, events, network, View())
        invariant OwnSteps(events) == OwnSteps(before) + Acks(arrivals[..i])
      {
        events := LetNetwork(network, BATCH_MAX_ROWS + 1 + i, start, events);
        OneMore(start, events, network, View(), Ack(arrivals[i]));
        AcknowledgeOne(arrivals[i]);
        AcksLonger(OwnSteps(before), arrivals, i);
        events := events + [Ack(arrivals[i])];
      }
      assert arrivals[..|arrivals|] == arrivals;
    }

    /** The commit of the batch in hand, if there is anything to write; what is acknowledged was committed. */
    method CommitBatch(attempts: seq<Attempt>) returns (done: bool)
      requires batch != [] && acks == []
      modifies this`batch, this`acks, this`rejected, db
      ensures View() == if done then Step(old(View()), Commit) else old(View())
      ensures !done ==> Success !in attempts || exists a :: a in attempts && a.Failure? && a.stopping
    {
      var rows, gateEvents, mids, bad;
      rows, gateEvents, mids, bad := ValidateBatch();
      if rows != [] || gateEvents != [] {
        var outcome := WriteBatch(rows, gateEvents, attempts);
        if !outcome.Written? {
          return false;
        }
      } else {
        assert db.readRows + rows == db.readRows && db.gateRows + gateEvents == db.gateRows;
      }
      batch, acks := [], mids;
      rejected := rejected + bad;
      done := true;
    }

    /**
     Once round the writer's loop: it collects, commits and acknowledges, or keeps the
     batch unacknowledged when it could not write, while the network side goes on
     before each of its steps. If the network side was careful, so was the run.
    */
    method WriterRound(inTime: nat, attempts: seq<Attempt>, arrivals: seq<bool>, network: Network)
      returns (ghost events: seq<Event>, ghost taken: nat, done: bool)
      requires batch == [] && acks == [] && |arrivals| >= BATCH_MAX_ROWS && OnlyNetwork(network)
      modifies this, session, db
      ensures Leads(old(View()), events, network, View())
      ensures acks == [] && |batch| == (if done then 0 else taken) && taken <= |arrivals|
      ensures OwnSteps(events) == Collects(taken) + if done then [Commit] + Acks(arrivals[..taken]) else []
      ensures !done && taken > 0 ==> Success !in attempts || exists a :: a in attempts && a.Failure? && a.stopping
    {
      hide Leads, OwnSteps, Run;
      ghost var start := View();
      events := CollectBatch(inTime, network, start);
      taken, done := |batch|, false;
      assert OwnSteps(events) == Collects(taken) + [];
      if batch == [] {
        return;
      }
      events := LetNetwork(network, BATCH_MAX_ROWS, start, events);
      ghost var here := View();
      done := CommitBatch(attempts);
      if !done {
        return;
      }
      OneMore(start, events, network, here, Commit);
      events := events + [Commit];
      ghost var arriving := arrivals[..|acks|];
      events := AcknowledgeAll(arrivals[..|acks|], network, start, events);
      assert OwnSteps(events) == Collects(taken) + ([Commit] + Acks(arriving));
    }
  }

  lemma AcksLonger(before: seq<Event>, arrivals: seq<bool>, i: nat)
    requires i < |arrivals|
    ensures before + Acks(arrivals[..i + 1]) == (before + Acks(arrivals[..i])) + [Ack(arrivals[i])]
  {
  }
}

/**
 The movement log: what it says about each container, and about stock.

 containers.status is a fast form of this log. Everything here is a function of
 the log alone; WarehouseRuns shows that the status column agrees with it.
*/
module MovementLog {
  import opened Basics
  import opened Transitions
  import opened Warehouse

  /** The status a container has after the movements in the log. */
  function LogStatus(log: seq<Movement>, c: nat): Status {
    if log == [] then Registered
    else if log[|log| - 1].container == c then log[|log| - 1].to
    else LogStatus(log[..|log| - 1], c)
  }

  /** Every movement leaves the status the log gave its container, for a different one. */
  ghost predicate Chained(log: seq<Movement>) {
    forall i :: 0 <= i < |log| ==>
      log[i].from == LogStatus(log[..i], log[i].container) && log[i].from != log[i].to
  }

  /** The movements of one container, in order. */
  function History(log: seq<Movement>, c: nat): (h: seq<Movement>)
    ensures forall i :: 0 <= i < |h| ==> h[i].container == c
  {
    if log == [] then []
    else
      var front := History(log[..|log| - 1], c);
      if log[|log| - 1].container == c then front + [log[|log| - 1]] else front
  }

  /** A container's own chain: from REGISTERED, link to link, never standing still. */
  ghost predicate IsChain(h: seq<Movement>) {
    && (h != [] ==> h[0].from == Registered)
    && (forall i :: 0 < i < |h| ==> h[i].from == h[i - 1].to)
    && (forall i :: 0 <= i < |h| ==> h[i].from != h[i].to)
  }

  function EndOf(h: seq<Movement>): Status {
    if h == [] then Registered else h[|h| - 1].to
  }

  lemma Appended(log: seq<Movement>, m: Movement, c: nat)
    ensures LogStatus(log + [m], c) == if m.container == c then m.to else LogStatus(log, c)
    ensures History(log + [m], c) == if m.container == c then History(log, c) + [m] else History(log, c)
  {
    assert (log + [m])[..|log|] == log;
  }

  lemma AppendChained(log: seq<Movement>, m: Movement)
    requires Chained(log) && m.from == LogStatus(log, m.container) && m.from != m.to
    ensures Chained(log + [m])
  {
    var longer := log + [m];
    forall i | 0 <= i < |longer|
      ensures longer[i].from == LogStatus(longer[..i], longer[i].container) && longer[i].from != longer[i].to
    {
      if i < |log| {
        assert longer[..i] == log[..i];
      } else {
        assert longer[..i] == log;
      }
    }
  }

  lemma ChainedFront(log: seq<Movement>)
    requires Chained(log) && log != []
    ensures Chained(log[..|log| - 1])
    ensures var m := log[|log| - 1];
            m.from == LogStatus(log[..|log| - 1], m.container) && m.from != m.to
  {
    var front := log[..|log| - 1];
    forall i | 0 <= i < |front|
      ensures front[i].from == LogStatus(front[..i], front[i].container) && front[i].from != front[i].to
    {
      assert front[..i] == log[..i];
      assert front[i] == log[i];
    }
  }

  /**
   In a chained log each container's movements form a chain of their own,
   ending at the status the log gives it.
  */
  lemma {:induction false} HistoryIsChain(log: seq<Movement>, c: nat)
    requires Chained(log)
    ensures IsChain(History(log, c))
    ensures EndOf(History(log, c)) == LogStatus(log, c)
  {
    if log != [] {
      ChainedFront(log);
      HistoryIsChain(log[..|log| - 1], c);
    }
  }

  lemma {:induction false} UnmentionedIsRegistered(log: seq<Movement>, c: nat)
    requires forall i :: 0 <= i < |log| ==> log[i].container != c
    ensures LogStatus(log, c) == Registered && History(log, c) == []
  {
    if log != [] {
      UnmentionedIsRegistered(log[..|log| - 1], c);
    }
  }

  // ----- stock -----

  /** How many boxes of a SKU one container holds. */
  function Quantity(lines: seq<ContentLine>, c: nat, sku: string): int {
    if lines == [] then 0
    else
      var l := lines[|lines| - 1];
      Quantity(lines[..|lines| - 1], c, sku) + if l.container == c && l.sku == sku then l.quantity else 0
  }

  /** Stock on hand: each contents line of a container that is IN_STOCK, once. */
  function OnHand(cs: seq<Container>, lines: seq<ContentLine>, sku: string): int {
    if lines == [] then 0
    else
      var l := lines[|lines| - 1];
      OnHand(cs, lines[..|lines| - 1], sku) +
      if l.sku == sku && l.container < |cs| && cs[l.container].status == InStock then l.quantity else 0
  }

  /** Total quantity over the movements into, respectively out of, IN_STOCK. */
  function FlowIn(log: seq<Movement>, lines: seq<ContentLine>, sku: string): int {
    if log == [] then 0
    else
      var m := log[|log| - 1];
      FlowIn(log[..|log| - 1], lines, sku) +
      if m.to == InStock then Quantity(lines, m.container, sku) else 0
  }

  function FlowOut(log: seq<Movement>, lines: seq<ContentLine>, sku: string): int {
    if log == [] then 0
    else
      var m := log[|log| - 1];
      FlowOut(log[..|log| - 1], lines, sku) +
      if m.from == InStock then Quantity(lines, m.container, sku) else 0
  }

  /** Stock on hand if every container had the status the log gives it. */
  ghost function LoggedStock(log: seq<Movement>, lines: seq<ContentLine>, sku: string): int {
    if lines == [] then 0
    else
      var l := lines[|lines| - 1];
      LoggedStock(log, lines[..|lines| - 1], sku) +
      if l.sku == sku && LogStatus(log, l.container) == InStock then l.quantity else 0
  }

  function Held(status: Status, quantity: int): int {
    if status == InStock then quantity else 0
  }

  lemma {:induction false} OneMoreMovement(log: seq<Movement>, m: Movement, lines: seq<ContentLine>, sku: string)
    ensures LoggedStock(log + [m], lines, sku) ==
            LoggedStock(log, lines, sku)
            - Held(LogStatus(log, m.container), Quantity(lines, m.container, sku))
            + Held(m.to, Quantity(lines, m.container, sku))
  {
    if lines != [] {
      OneMoreMovement(log, m, lines[..|lines| - 1], sku);
      Appended(log, m, lines[|lines| - 1].container);
    }
  }

  lemma {:induction false} NothingMovedNothingInStock(lines: seq<ContentLine>, sku: string)
    ensures LoggedStock([], lines, sku) == 0
  {
    if lines != [] {
      NothingMovedNothingInStock(lines[..|lines| - 1], sku);
    }
  }

  lemma {:induction false} LoggedStockIsFlow(log: seq<Movement>, lines: seq<ContentLine>, sku: string)
    requires Chained(log)
    ensures LoggedStock(log, lines, sku) == FlowIn(log, lines, sku) - FlowOut(log, lines, sku)
  {
    if log == [] {
      NothingMovedNothingInStock(lines, sku);
    } else {
      var front, m := log[..|log| - 1], log[|log| - 1];
      ChainedFront(log);
      LoggedStockIsFlow(front, lines, sku);
      OneMoreMovement(front, m, lines, sku);
      assert front + [m] == log;
    }
  }

  lemma {:induction false} OnHandIsLogged(cs: seq<Container>, log: seq<Movement>, lines: seq<ContentLine>, sku: string)
    requires forall c :: 0 <= c < |cs| ==> cs[c].status == LogStatus(log, c)
    requires forall i :: 0 <= i < |lines| ==> lines[i].container < |cs|
    ensures OnHand(cs, lines, sku) == LoggedStock(log, lines, sku)
  {
    if lines != [] {
      OnHandIsLogged(cs, log, lines[..|lines| - 1], sku);
    }
  }

  /** Stock depends on which containers are IN_STOCK and on nothing else about them. */
  lemma {:induction false} OnHandBySelection(cs: seq<Container>, ds: seq<Container>, lines: seq<ContentLine>,
                                             sku: string)
    requires |cs| == |ds|
    requires forall c :: 0 <= c < |cs| ==> (cs[c].status == InStock <==> ds[c].status == InStock)
    ensures OnHand(cs, lines, sku) == OnHand(ds, lines, sku)
  {
    if lines != [] {
      OnHandBySelection(cs, ds, lines[..|lines| - 1], sku);
    }
  }

  // ----- one container moving by itself -----

  /** Every movement of c is one the transition table lets a read make. */
  ghost predicate OwnEdges(log: seq<Movement>, c: nat, reusable: bool) {
    forall i :: 0 <= i < |log| && log[i].container == c ==> LegalEdge(log[i].from, log[i].to, reusable)
  }

  function CountInto(h: seq<Movement>, to: Status): nat {
    if h == [] then 0 else CountInto(h[..|h| - 1], to) + if h[|h| - 1].to == to then 1 else 0
  }

  /**
   A container that moves only by itself goes round one cycle: arrivals,
   dispatches and returns take turns, and one that is not reusable stops after
   at most two movements.
  */
  lemma {:induction false} OwnMovesTakeTurns(h: seq<Movement>, reusable: bool)
    requires IsChain(h)
    requires forall i :: 0 <= i < |h| ==> LegalEdge(h[i].from, h[i].to, reusable)
    ensures var arrivals := CountInto(h, InStock);
            var dispatches := CountInto(h, Dispatched);
            var homecomings := CountInto(h, Registered);
            && |h| == arrivals + dispatches + homecomings
            && arrivals >= dispatches >= homecomings >= arrivals - 1
            && (!reusable ==> homecomings == 0 && |h| <= 2)
            && EndOf(h) == (if arrivals > dispatches then InStock
                            else if dispatches > homecomings then Dispatched else Registered)
  {
    if h != [] {
      var front := h[..|h| - 1];
      OwnMovesTakeTurns(front, reusable);
      assert h[|h| - 1].from == EndOf(front);
      assert LegalEdge(h[|h| - 1].from, h[|h| - 1].to, reusable);
    }
  }
}

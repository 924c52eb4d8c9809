/**
 What a read at a portal does to a container: the transition table.
 Pure decisions, no state.
*/
module Transitions {
  import opened Basics

  datatype Status = Registered | InStock | Dispatched | Unrecognised(text: string)

  datatype Portal = Entrance | Exit

  datatype Direction = In | Out | Unknown

  datatype AnomalyKind = UnknownTid | IllegalTransition | NoDirection | NoSession | ShortPallet

  /** The outcome for a container that was read: a new status, an anomaly, or neither. */
  datatype Decision = Decision(toStatus: Option<Status>, anomaly: Option<AnomalyKind>, detachChildren: bool) {
    predicate IsNoOp() {
      toStatus.None? && anomaly.None?
    }
  }

  function MoveTo(to: Status): Decision {
    Decision(Some(to), None, false)
  }

  function Raise(kind: AnomalyKind): Decision {
    Decision(None, Some(kind), false)
  }

  /** Coming in, by either door. */
  function Inbound(status: Status, reusable: bool): Decision {
    match status
    case Registered => MoveTo(InStock)
    case InStock => Decision(None, None, false)
    case Dispatched =>
      if reusable then Decision(Some(Registered), None, true) else Raise(IllegalTransition)
    case Unrecognised(_) => Raise(IllegalTransition)
  }

  /** Going out. */
  function Outbound(status: Status): Decision {
    match status
    case InStock => MoveTo(Dispatched)
    case Dispatched => Raise(IllegalTransition)
    case Registered => Raise(IllegalTransition)
    case Unrecognised(_) => Raise(IllegalTransition)
  }

  /** The direction column is NULL at the entrance, which has no gate. */
  function Decide(portal: Portal, direction: Option<Direction>, status: Status, reusable: bool): Decision {
    if portal == Exit then
      if direction == Some(Out) then Outbound(status)
      else if direction == Some(In) then Inbound(status, reusable)
      else Raise(NoDirection)
    else Inbound(status, reusable)
  }

  // ----- what the table promises -----

  /** A step a portal read may make a container take, of its own accord. */
  predicate LegalEdge(from: Status, to: Status, reusable: bool) {
    || (from == Registered && to == InStock)
    || (from == InStock && to == Dispatched)
    || (from == Dispatched && to == Registered && reusable)
  }

  predicate Arriving(portal: Portal, direction: Option<Direction>) {
    portal == Entrance || direction == Some(In)
  }

  predicate Leaving(portal: Portal, direction: Option<Direction>) {
    portal == Exit && direction == Some(Out)
  }

  /** Sorted by outcome: exactly which reads move, do nothing, or are for a person to judge. */
  lemma DecisionByOutcome(portal: Portal, direction: Option<Direction>, status: Status, reusable: bool)
    ensures var d := Decide(portal, direction, status, reusable);
            && (d.toStatus == Some(InStock) <==> Arriving(portal, direction) && status == Registered)
            && (d.toStatus == Some(Dispatched) <==> Leaving(portal, direction) && status == InStock)
            && (d.toStatus == Some(Registered) <==> Arriving(portal, direction) && status == Dispatched && reusable)
            && (d.toStatus.Some? ==> LegalEdge(status, d.toStatus.value, reusable))
            && (d.IsNoOp() <==> Arriving(portal, direction) && status == InStock)
            && (d.anomaly == Some(NoDirection) <==> !Arriving(portal, direction) && !Leaving(portal, direction))
            && (d.anomaly.Some? ==> d.anomaly.value in {NoDirection, IllegalTransition})
            && !(d.toStatus.Some? && d.anomaly.Some?)
            && (d.detachChildren <==> d.toStatus == Some(Registered))
  {
  }

  /**
   Reading a container again in the state the first read left it in moves
   nothing, with one exception: a reusable container that has just come back
   empty. The second inbound read of that one books it into stock.
  */
  lemma RereadMovesNothingIff(portal: Portal, direction: Option<Direction>, status: Status, reusable: bool)
    requires Decide(portal, direction, status, reusable).toStatus.Some?
    ensures var after := Decide(portal, direction, status, reusable).toStatus.value;
            Decide(portal, direction, after, reusable).toStatus.None? <==> !(status == Dispatched && reusable)
  {
  }

  lemma RereadOfReturnedPalletMovesAgain()
    ensures Decide(Entrance, None, Dispatched, true).toStatus == Some(Registered)
    ensures Decide(Entrance, None, Registered, true).toStatus == Some(InStock)
  {
  }
}

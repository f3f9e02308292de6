/** The transition table of a votable's lifecycle: four events over five
    states, and what follows from the table for any sequence of events. */
module Lifecycle {

  import opened Optional

  datatype State = InProgress | Accepted | Denied | Disputed | Archived

  datatype Event = Accept | Deny | Dispute | Archive

  /** The event's name, as it appears in notification and activity keys. */
  function EventName(e: Event): string
  {
    match e
    case Accept => "accept"
    case Deny => "deny"
    case Dispute => "dispute"
    case Archive => "archive"
  }

  /** The state an event leads to when it fires. */
  function Target(e: Event): State
  {
    match e
    case Accept => Accepted
    case Deny => Denied
    case Dispute => Disputed
    case Archive => Archived
  }

  /** The transition table: `accept`, `deny` and `dispute` fire from
      `in_progress` only, `archive` from `accepted` only; None is a guard
      violation. */
  function Transition(s: State, e: Event): (r: Option<State>)
    ensures r.Some? <==> (s == InProgress && e != Archive) || (s == Accepted && e == Archive)
    ensures r.Some? ==> r.value == Target(e) && r.value != InProgress
  {
    match (s, e)
    case (InProgress, Accept) => Some(Accepted)
    case (InProgress, Deny) => Some(Denied)
    case (InProgress, Dispute) => Some(Disputed)
    case (Accepted, Archive) => Some(Archived)
    case _ => None
  }

  /** Fires the events in order; None as soon as one is refused. */
  function Run(s: State, es: seq<Event>): Option<State>
    decreases |es|
  {
    if es == [] then Some(s)
    else match Transition(s, es[0])
      case None => None
      case Some(t) => Run(t, es[1..])
  }

  /** Once a vote has left `in_progress` it never returns there. */
  lemma {:induction false} NeverReopens(s: State, es: seq<Event>)
    requires s != InProgress
    ensures Run(s, es) != Some(InProgress)
    decreases |es|
  {
    if es != [] {
      match Transition(s, es[0])
      case None =>
      case Some(t) => NeverReopens(t, es[1..]);
    }
  }

  /** A lifecycle takes at most two transitions (accept, then archive);
      from a concluded state at most one more, and `denied`, `disputed` and
      `archived` admit none. */
  lemma {:induction false} RunIsShort(s: State, es: seq<Event>)
    requires Run(s, es).Some?
    ensures |es| <= 2
    ensures s != InProgress ==> |es| <= 1
    ensures s != InProgress && s != Accepted ==> es == []
    decreases |es|
  {
    if es != [] {
      var t := Transition(s, es[0]).value;
      RunIsShort(t, es[1..]);
    }
  }

  /** The lifecycle example the shared examples walk through: accept, then
      archive. */
  lemma AcceptThenArchive()
    ensures Run(InProgress, [Accept, Archive]) == Some(Archived)
    ensures Run(InProgress, [Archive]) == None
  {
    assert [Accept, Archive][1..] == [Archive];
  }
}

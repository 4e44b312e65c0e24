/** The status state machine of the cancel and expire operations: ACTIVE ->
    CANCELED by cancel, ACTIVE or CANCELED -> EXPIRED by expire. Under these two
    operations EXPIRED is terminal and nothing returns to ACTIVE; an upsert that
    matches an existing record is not one of them and may rewrite its status
    (see Service.UpsertRevivesExpired). */
module Lifecycle {
  import opened Wrappers
  import opened Entity

  /** The two status-changing service operations. */
  datatype Transition = Cancel | Expire

  /** The status each operation moves a subscription to. */
  function Target(t: Transition): Status {
    match t
    case Cancel => CANCELED
    case Expire => EXPIRED
  }

  /** Which source statuses each operation accepts: cancel only from ACTIVE,
      expire from anything but EXPIRED. */
  predicate Allowed(t: Transition, from: Status) {
    match t
    case Cancel => from == ACTIVE
    case Expire => from != EXPIRED
  }

  /** Position of a status along the lifecycle. */
  function Rank(s: Status): nat {
    match s
    case ACTIVE => 0
    case CANCELED => 1
    case EXPIRED => 2
  }

  /** The status after applying `t` to `from`, or None when the operation is refused. */
  function Step(t: Transition, from: Status): (r: Option<Status>)
    ensures r.Some? <==> Allowed(t, from)
    ensures r.Some? ==> r.value == Target(t) && r.value != ACTIVE && Rank(r.value) > Rank(from)
  {
    if Allowed(t, from) then Some(Target(t)) else None
  }

  /** Exactly the status pairs the step relation connects. */
  lemma StepTable(t: Transition, from: Status, to: Status)
    ensures Step(t, from) == Some(to) <==>
      (t == Cancel && from == ACTIVE && to == CANCELED)
      || (t == Expire && from == ACTIVE && to == EXPIRED)
      || (t == Expire && from == CANCELED && to == EXPIRED)
  {
  }

  /** The status after a sequence of operations, refused ones leaving it unchanged. */
  function Run(from: Status, ts: seq<Transition>): Status
    decreases |ts|
  {
    if ts == [] then from
    else
      var next := match Step(ts[0], from) case Some(s) => s case None => from;
      Run(next, ts[1..])
  }

  /** How many operations of the sequence are accepted. */
  function Accepted(from: Status, ts: seq<Transition>): nat
    decreases |ts|
  {
    if ts == [] then 0
    else
      match Step(ts[0], from)
      case Some(s) => 1 + Accepted(s, ts[1..])
      case None => Accepted(from, ts[1..])
  }

  /** Every accepted cancel or expire moves the status strictly forward, so the final
      rank is the initial rank plus at least the number of accepted operations. */
  lemma {:induction false} RunAdvances(from: Status, ts: seq<Transition>)
    ensures Rank(Run(from, ts)) >= Rank(from) + Accepted(from, ts)
    decreases |ts|
  {
    if ts != [] {
      match Step(ts[0], from)
      case Some(s) => RunAdvances(s, ts[1..]);
      case None => RunAdvances(from, ts[1..]);
    }
  }

  /** Once a subscription has left ACTIVE, no sequence of cancel and expire
      operations brings it back. */
  lemma {:induction false} NeverBackToActive(from: Status, ts: seq<Transition>)
    requires from != ACTIVE
    ensures Run(from, ts) != ACTIVE
  {
    RunAdvances(from, ts);
  }

  /** EXPIRED is terminal for cancel and expire: every further one is refused. */
  lemma {:induction false} ExpiredIsTerminal(ts: seq<Transition>)
    ensures Run(EXPIRED, ts) == EXPIRED
    ensures Accepted(EXPIRED, ts) == 0
  {
    RunAdvances(EXPIRED, ts);
  }

  /** Starting ACTIVE, cancel and expire change the status at most twice. */
  lemma {:induction false} AtMostTwoChanges(ts: seq<Transition>)
    ensures Accepted(ACTIVE, ts) <= 2
  {
    RunAdvances(ACTIVE, ts);
  }
}

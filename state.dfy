/** State.kt: the task lifecycle and its transition function. */
module States {
  import opened Outcomes

  /** What can happen to a task. */
  datatype Event = Activate | Start | Preempt | Terminate | Wait | Release

  /** A lifecycle state. The first three belong to basic and extended tasks
      alike and carry the task's kind; Waiting is an extended task's only. */
  datatype State =
    | Suspended(isBasic: bool)
    | Ready(isBasic: bool)
    | Running(isBasic: bool)
    | Waiting
  {
    /** The isBasic property of every state; Waiting's is always false. */
    function Basic(): bool
    {
      if Waiting? then false else isBasic
    }
  }

  /** succeededBy: the state after an event, or IllegalTransition for an
      event the state does not accept. */
  function SucceededBy(s: State, e: Event): (r: Result<State>)
    ensures r.Err? ==> r.error == IllegalTransition
    ensures r.Ok? ==> r.value.Basic() == s.Basic()
    ensures r.Ok? && r.value.Waiting? ==> !s.Basic()
    ensures r.Ok? ==> r.value != s
  {
    match s
    case Suspended(b) =>
      if e == Activate then Ok(Ready(b)) else Err(IllegalTransition)
    case Ready(b) =>
      if e == Start then Ok(Running(b)) else Err(IllegalTransition)
    case Running(b) =>
      if e == Preempt then Ok(Ready(b))
      else if e == Terminate then Ok(Suspended(b))
      else if !b && e == Wait then Ok(Waiting)
      else Err(IllegalTransition)
    case Waiting =>
      if e == Release then Ok(Ready(false)) else Err(IllegalTransition)
  }

  /** The state kinds, without the task's kind. */
  datatype Kind = SuspendedKind | ReadyKind | RunningKind | WaitingKind

  function KindOf(s: State): Kind
  {
    match s
    case Suspended(_) => SuspendedKind
    case Ready(_) => ReadyKind
    case Running(_) => RunningKind
    case Waiting => WaitingKind
  }

  /** The lifecycle table as data: (from, event, to) rows on kinds. */
  const Table: set<(Kind, Event, Kind)> := {
    (SuspendedKind, Activate, ReadyKind),
    (ReadyKind, Start, RunningKind),
    (RunningKind, Preempt, ReadyKind),
    (RunningKind, Terminate, SuspendedKind),
    (RunningKind, Wait, WaitingKind),
    (WaitingKind, Release, ReadyKind)
  }

  /** A step the table allows: a row of the table that keeps the task's kind
      (so the Wait row is open to extended tasks only). */
  predicate TableStep(s: State, e: Event, t: State)
  {
    (KindOf(s), e, KindOf(t)) in Table && t.Basic() == s.Basic()
  }

  /** succeededBy follows the table exactly: it succeeds with t iff the
      table has the step, and fails iff the table has no step at all. */
  lemma SucceededByFollowsTable(s: State, e: Event, t: State)
    ensures SucceededBy(s, e) == Ok(t) <==> TableStep(s, e, t)
    ensures SucceededBy(s, e).Err? <==> forall u: State :: !TableStep(s, e, u)
  {
    if SucceededBy(s, e).Err? {
      forall u: State ensures !TableStep(s, e, u) {
      }
    } else {
      assert TableStep(s, e, SucceededBy(s, e).value);
    }
  }

  /** The equals overrides: same kind and same isBasic; Waiting is a
      singleton object, equal to itself only. */
  predicate SameState(s: State, other: State)
  {
    match s
    case Suspended(b) => other.Suspended? && b == other.isBasic
    case Ready(b) => other.Ready? && b == other.isBasic
    case Running(b) => other.Running? && b == other.isBasic
    case Waiting => other.Waiting?
  }

  /** The overridden equality is value equality: same kind, same isBasic. */
  lemma SameStateIsEquality(s: State, t: State)
    ensures SameState(s, t) <==> s == t
    ensures SameState(s, t) <==> KindOf(s) == KindOf(t) && s.Basic() == t.Basic()
  {
  }

  /** Applies events in order, stopping at the first illegal one. */
  function Run(s: State, events: seq<Event>): Result<State>
    decreases |events|
  {
    if events == [] then Ok(s)
    else match SucceededBy(s, events[0])
      case Err(err) => Err(err)
      case Ok(t) => Run(t, events[1..])
  }

  /** Along any legal run the task's kind never changes, so a basic task
      never reaches Waiting. */
  lemma {:induction false} RunKeepsKind(s: State, events: seq<Event>)
    requires Run(s, events).Ok?
    ensures Run(s, events).value.Basic() == s.Basic()
    ensures s.Basic() ==> !Run(s, events).value.Waiting?
    decreases |events|
  {
    if events != [] {
      RunKeepsKind(SucceededBy(s, events[0]).value, events[1..]);
    }
  }
}

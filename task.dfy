/** Task.kt: a task's identity and the bookkeeping of its lifecycle. The job
    body is abstracted to the one thing it can tell the task: whether a
    portion of it called needWaiting(). */
module Tasks {
  import opened Outcomes
  import opened Priorities
  import opened States

  const IntMin: int := -0x8000_0000
  const IntMax: int := 0x7fff_ffff
  const IntModulus: int := 0x1_0000_0000

  /** Kotlin's Int. */
  newtype int32 = x: int | IntMin <= x <= IntMax

  /** Int increment, wrapping from Int.MAX_VALUE to Int.MIN_VALUE. */
  function Inc(x: int32): int32
  {
    if x as int == IntMax then IntMin as int32 else x + 1
  }

  /** Reduction of an integer into Int's range, modulo 2^32. */
  function Wrap(n: int): (r: int32)
    ensures (r as int - n) % IntModulus == 0
  {
    ((n - IntMin) % IntModulus + IntMin) as int32
  }

  /** The counter after k calls of getAndIncrement starting from x. */
  function Advance(x: int32, k: nat): int32
    decreases k
  {
    if k == 0 then x else Inc(Advance(x, k - 1))
  }

  /** Increment is addition modulo 2^32. */
  lemma IncWraps(x: int32)
    ensures Inc(x) == Wrap(x as int + 1)
  {
  }

  /** k increments add k modulo 2^32. */
  lemma {:induction false} AdvanceWraps(x: int32, k: nat)
    ensures Advance(x, k) == Wrap(x as int + k)
    decreases k
  {
    if k > 0 {
      AdvanceWraps(x, k - 1);
      var n := x as int + k - 1;
      IncWraps(Advance(x, k - 1));
      WrapOfWrap(n);
    }
  }

  lemma WrapOfWrap(n: int)
    ensures Wrap(Wrap(n) as int + 1) == Wrap(n + 1)
  {
    var w := Wrap(n) as int;
    var q := (w - n) / IntModulus;
    assert w == n + q * IntModulus;
    WrapShift(n + 1, q);
  }

  lemma WrapShift(n: int, q: int)
    ensures Wrap(n + q * IntModulus) == Wrap(n)
  {
    var a := n - IntMin;
    assert (a + q * IntModulus) % IntModulus == a % IntModulus;
  }

  /** Ids issued while the counter does not pass Int.MAX_VALUE strictly
      increase. */
  lemma {:induction false} IdsIncrease(x: int32, i: nat, j: nat)
    requires i < j && x as int + j <= IntMax
    ensures Advance(x, i) < Advance(x, j)
    decreases j
  {
    AdvanceNoWrap(x, j);
    AdvanceNoWrap(x, i);
  }

  lemma {:induction false} AdvanceNoWrap(x: int32, k: nat)
    requires x as int + k <= IntMax
    ensures Advance(x, k) as int == x as int + k
    decreases k
  {
    if k > 0 {
      AdvanceNoWrap(x, k - 1);
    }
  }

  /** No id is issued twice within 2^32 consecutive allocations. */
  lemma IdsDistinct(x: int32, i: nat, j: nat)
    requires i < j < IntModulus
    ensures Advance(x, i) != Advance(x, j)
  {
    AdvanceWraps(x, i);
    AdvanceWraps(x, j);
  }

  /** A full cycle of the counter gives back the first id. */
  lemma IdsRepeatAfterFullCycle(x: int32)
    ensures Advance(x, IntModulus as nat) == x
  {
    AdvanceWraps(x, IntModulus as nat);
    WrapShift(x as int, 1);
  }

  /** The companion object's AtomicInteger id source, starting at 0. */
  class IdCounter {
    var next: int32

    constructor ()
      ensures next == 0
    {
      next := 0;
    }

    /** getAndIncrement. */
    method GetAndIncrement() returns (id: int32)
      modifies this
      ensures id == old(next)
      ensures next == Inc(old(next))
    {
      id := next;
      next := Inc(next);
    }
  }

  class Task {
    const id: int32
    const priority: Priority
    const isBasic: bool
    /** The task's current state; only OnEvent writes it. */
    var state: State
    /** Set when a job portion of an extended task asks to wait for an event. */
    var needWaiting: bool
    /** Whether the lateinit job field has been assigned, i.e. a job
        portion was ever launched. */
    var jobLaunched: bool

    /** The state belongs to this task's kind, and only an extended task
        can have asked to wait. */
    ghost predicate Valid()
      reads this
    {
      && state.Basic() == isBasic
      && (needWaiting ==> !isBasic)
    }

    /** Construction: takes the next id and starts Suspended, with no wait
        requested and no job launched. */
    constructor (ids: IdCounter, priority: Priority, isBasic: bool)
      modifies ids
      ensures Valid()
      ensures id == old(ids.next) && ids.next == Inc(old(ids.next))
      ensures this.priority == priority && this.isBasic == isBasic
      ensures state == Suspended(isBasic) && !needWaiting && !jobLaunched
    {
      var issued := ids.GetAndIncrement();
      id := issued;
      this.priority := priority;
      this.isBasic := isBasic;
      state := Suspended(isBasic);
      needWaiting := false;
      jobLaunched := false;
    }

    /** One portion of the job body. A portion that calls needWaiting() sets
        the flag on an extended task and fails on a basic one. */
    method RunPortion(requestsWait: bool) returns (completed: bool)
      requires Valid()
      modifies this
      ensures Valid()
      ensures completed == !(requestsWait && isBasic)
      ensures needWaiting == (old(needWaiting) || (requestsWait && !isBasic))
      ensures state == old(state) && jobLaunched
    {
      jobLaunched := true;
      if requestsWait {
        if isBasic {
          return false;
        }
        needWaiting := true;
      }
      return true;
    }

    /** onEvent: moves to the succeeding state, then acts on the event.
        `portion` says whether the job portion this call runs asks to wait;
        `followUp` says the same of the portion run by the Wait that a
        Start may trigger. */
    method OnEvent(e: Event, portion: bool, followUp: bool) returns (r: Result<State>)
      requires Valid()
      modifies this
      ensures Valid()
      ensures r.Ok? ==> r.value == state
      // an illegal event fails and changes nothing
      ensures SucceededBy(old(state), e).Err? ==>
        r == Err(IllegalTransition) && state == old(state)
        && needWaiting == old(needWaiting) && jobLaunched == old(jobLaunched)
      // Activate, Terminate and Release only change the state
      ensures SucceededBy(old(state), e).Ok? && e in {Activate, Terminate, Release} ==>
        r == SucceededBy(old(state), e)
        && needWaiting == old(needWaiting) && jobLaunched == old(jobLaunched)
      // Preempt readies the task and cancels its job, which must exist
      ensures SucceededBy(old(state), e).Ok? && e == Preempt ==>
        state == Ready(isBasic) && needWaiting == old(needWaiting)
        && jobLaunched == old(jobLaunched)
        && (r.Ok? <==> jobLaunched) && (r.Err? ==> r.error == InvalidOperation)
      // Wait parks an extended task and runs one more portion
      ensures SucceededBy(old(state), e).Ok? && e == Wait ==>
        !isBasic && r == Ok(Waiting) && jobLaunched
        && needWaiting == (old(needWaiting) || portion)
      // Start runs a portion, then waits or terminates, and clears the flag
      ensures SucceededBy(old(state), e).Ok? && e == Start ==>
        jobLaunched
        && if isBasic && portion then
             r == Err(InvalidOperation) && state == Running(isBasic) && needWaiting == old(needWaiting)
           else
             r.Ok? && !needWaiting
             && state == if old(needWaiting) || portion then Waiting else Suspended(isBasic)
      decreases if e == Start then 1 else 0
    {
      var next := SucceededBy(state, e);
      if next.Err? {
        return Err(next.error);
      }
      state := next.value;
      match e {
        case Wait =>
          // the source's require(this is ExtendedTask) cannot fail
          assert !isBasic;
          var completed := RunPortion(portion);
        case Preempt =>
          if !jobLaunched {
            return Err(InvalidOperation);
          }
        case Start =>
          var completed := RunPortion(portion);
          if !completed {
            return Err(InvalidOperation);
          }
          if needWaiting {
            var _ := OnEvent(Wait, followUp, false);
          } else {
            var _ := OnEvent(Terminate, false, false);
          }
          // the source's check that a basic task is never left Waiting
          assert !isBasic || !state.Waiting?;
          needWaiting := false;
        case _ =>
      }
      return Ok(state);
    }

    /** equals: same id, kind, priority and state. */
    predicate Equals(other: Task)
      reads this, other
    {
      && id == other.id
      && isBasic == other.isBasic
      && priority == other.priority
      && SameState(state, other.state)
    }
  }

  /** Task equality is an equivalence that tells apart tasks with different
      ids, kinds, priorities or states. */
  lemma EqualsIsEquivalence(a: Task, b: Task, c: Task)
    ensures a.Equals(a)
    ensures a.Equals(b) <==> b.Equals(a)
    ensures a.Equals(b) && b.Equals(c) ==> a.Equals(c)
    ensures a.Equals(b) ==> a.id == b.id && a.state == b.state
  {
    SameStateIsEquality(a.state, a.state);
    SameStateIsEquality(a.state, b.state);
    SameStateIsEquality(b.state, a.state);
    SameStateIsEquality(b.state, c.state);
    SameStateIsEquality(a.state, c.state);
  }

  /** An extended task whose first portion asks to wait and whose second
      does not: Ready, then Waiting after Start, Ready again after Release,
      and Suspended after the second Start. */
  method WaitReleaseCycle(ids: IdCounter, priority: Priority) returns (task: Task, seen: seq<State>)
    modifies ids
    ensures task.Valid() && !task.isBasic && !task.needWaiting
    ensures seen == [Ready(false), Waiting, Ready(false), Suspended(false)]
  {
    task := new Task(ids, priority, false);
    var activated := task.OnEvent(Activate, false, false);
    var waited := task.OnEvent(Start, true, false);
    var released := task.OnEvent(Release, false, false);
    var finished := task.OnEvent(Start, false, false);
    seen := [activated.value, waited.value, released.value, finished.value];
  }

  /** A basic task whose job body calls needWaiting() fails its Start and is
      left Running, never Waiting. */
  method BasicTaskCannotWait(ids: IdCounter, priority: Priority) returns (task: Task, started: Result<State>)
    modifies ids
    ensures task.Valid() && task.isBasic
    ensures started == Err(InvalidOperation) && task.state == Running(true)
  {
    task := new Task(ids, priority, true);
    var activated := task.OnEvent(Activate, false, false);
    started := task.OnEvent(Start, true, false);
  }
}

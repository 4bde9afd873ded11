/** Scheduler.kt, sequential part: a TasksQueue behind an admission bound.
    The bounded channel of slots is a counter; a send that would suspend
    (no free slot) and a receive that would suspend (no slot taken) are
    preconditions of offer and pop. */
module Schedule {
  import opened Outcomes
  import opened Priorities
  import opened States
  import opened Tasks
  import opened TasksQueues

  const DefaultQueueCapacity: nat := 10

  /** The states offer admits. */
  predicate Admissible(s: State)
  {
    s.Ready? || s.Suspended? || s.Waiting?
  }

  class Scheduler {
    const capacity: nat
    const queue: TasksQueue
    /** Slots taken in the bounded channel. */
    var slots: nat

    /** One slot per queued task, never more than the capacity, and every
        task in the bucket of its priority. */
    ghost predicate Valid()
      reads this, queue
    {
      && queue.Valid()
      && Consistent(queue.buckets)
      && slots == queue.Size()
      && slots <= capacity
    }

    /** Scheduler(capacity) with an empty queue and no slot taken. */
    constructor (capacity: nat)
      requires 1 <= capacity < IntMax
      ensures Valid() && fresh(queue)
      ensures this.capacity == capacity && slots == 0 && queue.Size() == 0
    {
      this.capacity := capacity;
      queue := new TasksQueue(map[]);
      slots := 0;
    }

    /** isFull: the queue holds at least capacity tasks; in a valid scheduler
        that is exactly when offer cannot take a slot. */
    function IsFull(): (full: bool)
      reads this, queue
      requires queue.Valid()
      ensures full <==> |PopOrder(queue.buckets)| >= capacity
      ensures Valid() ==> (full <==> slots == capacity)
    {
      queue.Size() as int - capacity as int >= 0
    }

    /** hasHigherPriorityTask(than): some queued task has a priority above
        `than`. */
    function HasHigherPriorityTask(than: Priority): (higher: bool)
      reads this, queue
      requires Valid()
      ensures higher <==> exists t :: t in PopOrder(queue.buckets) && t.priority > than
    {
      if queue.IsEmptyQueue() then false
      else CompareTo(queue.MaxPriority().value, than) > 0
    }

    /** offer(task): rejects a task outside Ready, Suspended and Waiting;
        otherwise takes a slot, brings the task to Ready (Activate for a
        Suspended one, Release for a Waiting one) and queues it. */
    method Offer(task: Task) returns (r: Result<()>)
      requires Valid() && task.Valid()
      requires Admissible(task.state) ==> slots < capacity
      modifies this, queue, task
      ensures Valid() && task.Valid()
      ensures !Admissible(old(task.state)) ==>
        r == Err(InvalidState) && unchanged(this, queue, task)
      ensures Admissible(old(task.state)) ==>
        && r == Ok(())
        && slots == old(slots) + 1
        && task.state == Ready(task.isBasic)
        && queue.buckets == Enqueue(old(queue.buckets), task)
        && task.needWaiting == old(task.needWaiting)
        && task.jobLaunched == old(task.jobLaunched)
    {
      if !Admissible(task.state) {
        return Err(InvalidState);
      }
      slots := slots + 1;
      match task.state {
        case Suspended(_) =>
          var _ := task.OnEvent(Activate, false, false);
        case Waiting =>
          var _ := task.OnEvent(Release, false, false);
        case _ =>
      }
      queue.Offer(task);
      return Ok(());
    }

    /** pop(): gives back a slot and removes the highest priority task,
        failing with Corrupted if that task is not Ready. */
    method Pop() returns (r: Result<Task>)
      requires Valid()
      requires slots > 0
      modifies this, queue
      ensures Valid()
      ensures slots == old(slots) - 1
      ensures PopOrder(queue.buckets) == old(PopOrder(queue.buckets))[1..]
      ensures var head := old(PopOrder(queue.buckets))[0];
        r == if head.state.Ready? then Ok(head) else Err(Corrupted)
    {
      slots := slots - 1;
      var popped := queue.Pop();
      assert popped.Ok?;
      var task := popped.value;
      if !task.state.Ready? {
        return Err(Corrupted);
      }
      return Ok(task);
    }
  }

  /** One task offered to a fresh scheduler: the queue reports a higher
      priority task exactly to priorities below the task's own, pop returns
      that same task, Ready, and the scheduler is empty again. */
  method OfferThenPop(ids: IdCounter, priority: Priority, isBasic: bool)
    returns (task: Task, popped: Result<Task>)
    modifies ids
    ensures popped == Ok(task) && task.state == Ready(isBasic)
  {
    var scheduler := new Scheduler(DefaultQueueCapacity);
    assert !scheduler.IsFull();
    task := new Task(ids, priority, isBasic);
    ghost var before := scheduler.queue.buckets;
    var offered := scheduler.Offer(task);
    SingleOffer(before, task);
    assert PopOrder(scheduler.queue.buckets) == [task];
    assert forall than: Priority :: scheduler.HasHigherPriorityTask(than) <==> than < priority;
    popped := scheduler.Pop();
    assert scheduler.queue.Size() == 0 && !scheduler.IsFull();
  }

  /** With capacity 1 one offer fills the scheduler, so a second offer
      cannot take a slot until a pop gives one back. */
  method FillToCapacity(ids: IdCounter) returns (scheduler: Scheduler)
    modifies ids
    ensures scheduler.Valid() && scheduler.IsFull() && scheduler.slots == scheduler.capacity
  {
    scheduler := new Scheduler(1);
    var task := new Task(ids, Default(), true);
    var offered := scheduler.Offer(task);
  }
}

/** TasksQueue.kt: ready tasks bucketed by priority, FIFO within a bucket.
    The pure functions over Buckets are the specification; the class is the
    queue that updates its map in place. */
module TasksQueues {
  import opened Outcomes
  import opened Priorities
  import opened Tasks

  /** The queue's map from each priority to its list of tasks. */
  type Buckets = map<Priority, seq<Task>>

  /** Every priority of the range has a (possibly empty) bucket. */
  predicate HasAllLevels(b: Buckets)
  {
    forall p: Priority :: p in b
  }

  /** Every task sits in the bucket of its own priority. */
  predicate Consistent(b: Buckets)
    requires HasAllLevels(b)
  {
    forall p: Priority, i | 0 <= i < |b[p]| :: b[p][i].priority == p
  }

  /** Number of tasks in the buckets of priorities lo..hi. */
  function CountLevels(b: Buckets, hi: int, lo: int): nat
    requires HasAllLevels(b) && MinPriority <= lo && hi <= MaxPriority
    decreases hi - lo
  {
    if hi < lo then 0 else |b[hi as Priority]| + CountLevels(b, hi - 1, lo)
  }

  /** size: the sum of the bucket lengths. */
  function TotalSize(b: Buckets): nat
    requires HasAllLevels(b)
  {
    CountLevels(b, MaxPriority, MinPriority)
  }

  /** The tasks of the buckets hi down to lo, highest bucket first, each
      bucket in its own order. */
  function Levels(b: Buckets, hi: int, lo: int): seq<Task>
    requires HasAllLevels(b) && MinPriority <= lo && hi <= MaxPriority
    decreases hi - lo
  {
    if hi < lo then [] else b[hi as Priority] + Levels(b, hi - 1, lo)
  }

  /** The order in which successive pops hand out the queued tasks. */
  function PopOrder(b: Buckets): seq<Task>
    requires HasAllLevels(b)
  {
    Levels(b, MaxPriority, MinPriority)
  }

  /** The highest priority at or below hi whose bucket is non-empty. */
  function HotFrom(b: Buckets, hi: int): (r: Option<Priority>)
    requires HasAllLevels(b) && MinPriority - 1 <= hi <= MaxPriority
    ensures r.Some? ==> r.value as int <= hi && b[r.value] != []
    ensures r.Some? ==> forall q: Priority :: r.value < q && q as int <= hi ==> b[q] == []
    ensures r.None? ==> forall q: Priority :: q as int <= hi ==> b[q] == []
    decreases hi
  {
    if hi < MinPriority then None
    else if b[hi as Priority] != [] then Some(hi as Priority)
    else HotFrom(b, hi - 1)
  }

  /** hotTasks' priority: the greatest priority with a non-empty bucket, or
      None when every bucket is empty. */
  function HotLevel(b: Buckets): (r: Option<Priority>)
    requires HasAllLevels(b)
    ensures r.Some? ==> b[r.value] != [] && forall q: Priority :: r.value < q ==> b[q] == []
    ensures r.None? <==> forall q: Priority :: b[q] == []
  {
    HotFrom(b, MaxPriority)
  }

  /** isEmpty: every bucket is empty. */
  function IsEmpty(b: Buckets): bool
    requires HasAllLevels(b)
  {
    forall p: Priority :: b[p] == []
  }

  /** maxPriority: the priority of the first task of the hot bucket. */
  function MaxPriorityOf(b: Buckets): Result<Priority>
    requires HasAllLevels(b)
  {
    match HotLevel(b)
    case None => Err(Empty)
    case Some(p) => Ok(b[p][0].priority)
  }

  /** offer: the task appended to its own priority's bucket. */
  function Enqueue(b: Buckets, t: Task): (r: Buckets)
    requires HasAllLevels(b)
    ensures HasAllLevels(r)
    ensures Consistent(b) ==> Consistent(r)
  {
    b[t.priority := b[t.priority] + [t]]
  }

  /** pop: the head of the hot bucket and the buckets without it; Empty when
      there is no hot bucket. */
  function Dequeue(b: Buckets): (r: Result<(Task, Buckets)>)
    requires HasAllLevels(b)
    ensures r.Ok? ==> HasAllLevels(r.value.1)
    ensures r.Ok? && Consistent(b) ==> Consistent(r.value.1)
  {
    match HotLevel(b)
    case None => Err(Empty)
    case Some(p) => Ok((b[p][0], b[p := b[p][1..]]))
  }

  // ---- lemmas about the specification ----

  /** The pop order holds exactly the counted tasks. */
  lemma {:induction false} LevelsLength(b: Buckets, hi: int, lo: int)
    requires HasAllLevels(b) && MinPriority <= lo && hi <= MaxPriority
    ensures |Levels(b, hi, lo)| == CountLevels(b, hi, lo)
    decreases hi - lo
  {
    if hi >= lo {
      LevelsLength(b, hi - 1, lo);
    }
  }

  /** size counts the tasks pop would hand out; it is 0 iff isEmpty holds. */
  lemma SizeIsPopOrderLength(b: Buckets)
    requires HasAllLevels(b)
    ensures TotalSize(b) == |PopOrder(b)|
    ensures IsEmpty(b) <==> TotalSize(b) == 0
    ensures IsEmpty(b) <==> HotLevel(b).None?
  {
    LevelsLength(b, MaxPriority, MinPriority);
    if !IsEmpty(b) {
      var p := HotLevel(b).value;
      LevelsSplit(b, MaxPriority, MinPriority, p as int);
    }
  }

  /** The tasks of buckets hi..lo are those above k, bucket k, those below. */
  lemma {:induction false} LevelsSplit(b: Buckets, hi: int, lo: int, k: int)
    requires HasAllLevels(b) && MinPriority <= lo <= k <= hi <= MaxPriority
    ensures Levels(b, hi, lo) == Levels(b, hi, k + 1) + b[k as Priority] + Levels(b, k - 1, lo)
    decreases hi - lo
  {
    if hi == k {
      assert Levels(b, hi, k + 1) == [];
    } else {
      LevelsSplit(b, hi - 1, lo, k);
      assert Levels(b, hi, k + 1) == b[hi as Priority] + Levels(b, hi - 1, k + 1);
    }
  }

  /** A range of buckets that does not include k is unaffected by a change
      of bucket k. */
  lemma {:induction false} LevelsFrame(b: Buckets, hi: int, lo: int, k: Priority, s: seq<Task>)
    requires HasAllLevels(b) && MinPriority <= lo && hi <= MaxPriority
    requires hi < k as int || k as int < lo
    ensures Levels(b[k := s], hi, lo) == Levels(b, hi, lo)
    decreases hi - lo
  {
    if hi >= lo {
      LevelsFrame(b, hi - 1, lo, k, s);
    }
  }

  /** Buckets that are all empty contribute nothing. */
  lemma {:induction false} LevelsOfEmpty(b: Buckets, hi: int, lo: int)
    requires HasAllLevels(b) && MinPriority <= lo && hi <= MaxPriority
    requires forall q: Priority :: lo <= q as int <= hi ==> b[q] == []
    ensures Levels(b, hi, lo) == []
    decreases hi - lo
  {
    if hi >= lo {
      LevelsOfEmpty(b, hi - 1, lo);
    }
  }

  /** Placement of an offered task: after every queued task of its own or a
      higher priority, before every task of a lower one. Hence equal
      priorities pop in offer order and higher priorities pop first. */
  lemma EnqueuePlacement(b: Buckets, t: Task)
    requires HasAllLevels(b)
    ensures var p := t.priority as int;
      && PopOrder(b) == Levels(b, MaxPriority, p + 1) + b[t.priority] + Levels(b, p - 1, MinPriority)
      && PopOrder(Enqueue(b, t)) ==
           Levels(b, MaxPriority, p + 1) + b[t.priority] + [t] + Levels(b, p - 1, MinPriority)
  {
    var p := t.priority;
    var b' := Enqueue(b, t);
    LevelsSplit(b, MaxPriority, MinPriority, p as int);
    LevelsSplit(b', MaxPriority, MinPriority, p as int);
    LevelsFrame(b, MaxPriority, p as int + 1, p, b[p] + [t]);
    LevelsFrame(b, p as int - 1, MinPriority, p, b[p] + [t]);
  }

  /** offer grows the queue by one. */
  lemma EnqueueSize(b: Buckets, t: Task)
    requires HasAllLevels(b)
    ensures TotalSize(Enqueue(b, t)) == TotalSize(b) + 1
  {
    EnqueuePlacement(b, t);
    SizeIsPopOrderLength(b);
    SizeIsPopOrderLength(Enqueue(b, t));
  }

  /** pop fails exactly on an empty queue; otherwise it hands out the first
      task of the pop order and leaves the rest in order. */
  lemma DequeueTakesHead(b: Buckets)
    requires HasAllLevels(b)
    ensures Dequeue(b).Err? <==> PopOrder(b) == []
    ensures Dequeue(b).Err? ==> Dequeue(b).error == Empty
    ensures Dequeue(b).Ok? ==>
      && Dequeue(b).value.0 == PopOrder(b)[0]
      && PopOrder(Dequeue(b).value.1) == PopOrder(b)[1..]
      && TotalSize(Dequeue(b).value.1) == TotalSize(b) - 1
  {
    SizeIsPopOrderLength(b);
    if Dequeue(b).Ok? {
      var p := HotLevel(b).value;
      var b' := b[p := b[p][1..]];
      LevelsSplit(b, MaxPriority, MinPriority, p as int);
      LevelsSplit(b', MaxPriority, MinPriority, p as int);
      LevelsOfEmpty(b, MaxPriority, p as int + 1);
      LevelsOfEmpty(b', MaxPriority, p as int + 1);
      LevelsFrame(b, p as int - 1, MinPriority, p, b[p][1..]);
      assert PopOrder(b) == b[p] + Levels(b, p as int - 1, MinPriority);
      assert PopOrder(b') == b[p][1..] + Levels(b, p as int - 1, MinPriority);
      SizeIsPopOrderLength(b');
    }
  }

  /** In a consistent queue the pop order never rises in priority: a higher
      priority task always pops before a lower one. */
  lemma {:induction false} LevelsSorted(b: Buckets, hi: int, lo: int)
    requires HasAllLevels(b) && Consistent(b) && MinPriority <= lo && hi <= MaxPriority
    ensures forall i | 0 <= i < |Levels(b, hi, lo)| :: lo <= Levels(b, hi, lo)[i].priority as int <= hi
    ensures forall i, j | 0 <= i < j < |Levels(b, hi, lo)| ::
      Levels(b, hi, lo)[i].priority >= Levels(b, hi, lo)[j].priority
    decreases hi - lo
  {
    if hi >= lo {
      LevelsSorted(b, hi - 1, lo);
    }
  }

  /** maxPriority fails on an empty queue; otherwise it is the greatest
      queued priority and the priority of the task pop returns. */
  lemma MaxPriorityIsGreatest(b: Buckets)
    requires HasAllLevels(b) && Consistent(b)
    ensures MaxPriorityOf(b).Err? <==> PopOrder(b) == []
    ensures MaxPriorityOf(b).Ok? ==>
      && MaxPriorityOf(b).value == PopOrder(b)[0].priority
      && forall t | t in PopOrder(b) :: t.priority <= MaxPriorityOf(b).value
  {
    DequeueTakesHead(b);
    LevelsSorted(b, MaxPriority, MinPriority);
  }

  /** Buckets with every priority present and no task queued. */
  function EmptyBuckets(): (b: Buckets)
    ensures HasAllLevels(b) && IsEmpty(b) && Consistent(b)
  {
    map[0 := [], 1 := [], 2 := [], 3 := []]
  }

  /** The tests' two scenarios at once: two tasks offered to an empty queue
      pop highest priority first, and in offer order when equal. */
  lemma TwoOffers(x: Task, y: Task)
    ensures PopOrder(Enqueue(Enqueue(EmptyBuckets(), x), y))
      == if x.priority >= y.priority then [x, y] else [y, x]
  {
    var empty := EmptyBuckets();
    var b1 := Enqueue(empty, x);
    EnqueuePlacement(b1, y);
    var p, q := y.priority as int, x.priority as int;
    if q > p {
      LevelsSplit(b1, MaxPriority, p + 1, q);
      LevelsOfEmpty(b1, MaxPriority, q + 1);
      LevelsOfEmpty(b1, q - 1, p + 1);
      LevelsOfEmpty(b1, p - 1, MinPriority);
    } else if q < p {
      LevelsOfEmpty(b1, MaxPriority, p + 1);
      LevelsSplit(b1, p - 1, MinPriority, q);
      LevelsOfEmpty(b1, p - 1, q + 1);
      LevelsOfEmpty(b1, q - 1, MinPriority);
    } else {
      LevelsOfEmpty(b1, MaxPriority, p + 1);
      LevelsOfEmpty(b1, p - 1, MinPriority);
    }
  }

  /** A task offered to an empty queue is the only one pop can return. */
  lemma SingleOffer(b: Buckets, t: Task)
    requires HasAllLevels(b) && IsEmpty(b)
    ensures PopOrder(Enqueue(b, t)) == [t]
  {
    EnqueuePlacement(b, t);
    LevelsOfEmpty(b, MaxPriority, t.priority as int + 1);
    LevelsOfEmpty(b, t.priority as int - 1, MinPriority);
  }

  /** The queue object: its map is replaced on every change. */
  class TasksQueue {
    var buckets: Buckets

    ghost predicate Valid()
      reads this
    {
      HasAllLevels(buckets)
    }

    /** The internal constructor: keeps the given buckets and adds an empty
        one for every priority that has none (getOrPut in the init loop). */
    constructor (initial: Buckets)
      ensures Valid()
      ensures forall p: Priority :: buckets[p] == if p in initial then initial[p] else []
    {
      var m := initial;
      for i := MinPriority to Priorities.MaxPriority + 1
        invariant forall p: Priority :: p as int < i ==> p in m
        invariant forall p: Priority :: p in m ==> m[p] == if p in initial then initial[p] else []
        invariant forall p: Priority :: p in initial ==> p in m
      {
        var p := i as Priority;
        if p !in m {
          m := m[p := []];
        }
      }
      buckets := m;
    }

    /** size. */
    function Size(): (n: nat)
      reads this
      requires Valid()
      ensures n == |PopOrder(buckets)|
    {
      SizeIsPopOrderLength(buckets);
      TotalSize(buckets)
    }

    /** isEmpty(). */
    function IsEmptyQueue(): (e: bool)
      reads this
      requires Valid()
      ensures e <==> PopOrder(buckets) == []
    {
      SizeIsPopOrderLength(buckets);
      IsEmpty(buckets)
    }

    /** maxPriority. */
    function MaxPriority(): (r: Result<Priority>)
      reads this
      requires Valid()
      ensures r.Err? <==> PopOrder(buckets) == []
      ensures r.Err? ==> r.error == Empty
      ensures r.Ok? ==> r.value == PopOrder(buckets)[0].priority
      ensures r.Ok? && Consistent(buckets) ==>
        forall t | t in PopOrder(buckets) :: t.priority <= r.value
    {
      DequeueTakesHead(buckets);
      if Consistent(buckets) then
        MaxPriorityIsGreatest(buckets);
        MaxPriorityOf(buckets)
      else
        MaxPriorityOf(buckets)
    }

    /** offer(task). */
    method Offer(task: Task)
      requires Valid()
      modifies this
      ensures Valid()
      ensures buckets == Enqueue(old(buckets), task)
      ensures Size() == old(Size()) + 1
      ensures Consistent(old(buckets)) ==> Consistent(buckets)
    {
      EnqueueSize(buckets, task);
      buckets := buckets[task.priority := buckets[task.priority] + [task]];
    }

    /** pop(): removes and returns the head of the hot bucket. */
    method Pop() returns (r: Result<Task>)
      requires Valid()
      modifies this
      ensures Valid()
      ensures old(Dequeue(buckets)).Err? ==> r == Err(Empty) && buckets == old(buckets)
      ensures old(Dequeue(buckets)).Ok? ==>
        r == Ok(old(Dequeue(buckets)).value.0) && buckets == old(Dequeue(buckets)).value.1
      ensures old(PopOrder(buckets)) == [] ==> r == Err(Empty) && buckets == old(buckets)
      ensures old(PopOrder(buckets)) != [] ==>
        && r == Ok(old(PopOrder(buckets))[0])
        && PopOrder(buckets) == old(PopOrder(buckets))[1..]
        && Size() == old(Size()) - 1
      ensures Consistent(old(buckets)) ==> Consistent(buckets)
    {
      DequeueTakesHead(buckets);
      var hot := HotLevel(buckets);
      if hot.None? {
        return Err(Empty);
      }
      var p := hot.value;
      r := Ok(buckets[p][0]);
      buckets := buckets[p := buckets[p][1..]];
    }
  }
}

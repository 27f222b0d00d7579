/**
 * include/details/thread_pool.h: a bounded queue, a condition variable and a fixed number of
 * worker threads. Each region under mutex_ is one event, and so is each notification made
 * outside it; events of callers and workers interleave freely.
 */
module ThreadPools {

  /** What a worker has to record when it next holds the mutex. */
  datatype Last = Nothing | Done(id: nat, good: bool)

  /** Where a worker is in workMethod. A task is known by its place among all accepted ones. */
  datatype Worker =
    | Init                     // running the start-up function
    | WantLock(last: Last)     // about to lock mutex_
    | Waiting                  // parked in condition_.wait
    | Awake                    // woken, about to lock mutex_ again
    | Busy(id: nat)            // in handleTask
    | Exited

  datatype State<T> = State(
    threadsNumber: nat, queueLength: nat,
    started: bool, queue: seq<T>, busy: nat, good: nat, bad: nat,   // info_ and tasksQueue_
    launched: bool, workers: seq<Worker>,                           // threads_
    owed: nat,                                                      // callers between unlock and notify_one
    accepted: seq<T>,                                               // history: tasks pushed, in order
    recorded: map<nat, bool>)                                       // history: tasks counted good or bad

  datatype Event<T> =
    | Start
    | Stop
    | AddTask(task: T)
    | NotifyOne(w: nat)        // w is the parked worker that is woken, if there is one
    | InitDone(w: nat)
    | Enter(w: nat)            // a worker locks mutex_ and runs to its next blocking point
    | Finish(w: nat, good: bool)
    | Spurious(w: nat)

  function New<T>(threadsNumber: nat, queueLength: nat): State<T> {
    State(threadsNumber, queueLength, false, [], 0, 0, 0, false, [], 0, [], map[])
  }

  // ----- counting workers -----

  function Count(ws: seq<Worker>, p: Worker -> bool): nat {
    if ws == [] then 0 else (if p(ws[0]) then 1 else 0) + Count(ws[1..], p)
  }

  predicate IsParked(w: Worker) { w.Waiting? }

  predicate IsAwake(w: Worker) { w.Awake? }

  /** The worker holds a task that the counters do not show yet. */
  predicate Holds(w: Worker) { w.Busy? || (w.WantLock? && w.last.Done?) }

  function HeldId(w: Worker): nat
    requires Holds(w)
  {
    if w.Busy? then w.id else w.last.id
  }

  lemma {:induction false} CountUpdate(ws: seq<Worker>, i: nat, w: Worker, p: Worker -> bool)
    requires i < |ws|
    ensures Count(ws[i := w], p) == Count(ws, p) - (if p(ws[i]) then 1 else 0) + (if p(w) then 1 else 0)
  {
    if i == 0 {
      assert ws[i := w][1..] == ws[1..];
    } else {
      assert ws[i := w][1..] == ws[1..][i - 1 := w];
      CountUpdate(ws[1..], i - 1, w, p);
    }
  }

  lemma {:induction false} CountPositive(ws: seq<Worker>, p: Worker -> bool)
    ensures Count(ws, p) <= |ws|
    ensures Count(ws, p) == 0 <==> forall i | 0 <= i < |ws| :: !p(ws[i])
  {
    if ws != [] {
      CountPositive(ws[1..], p);
      assert forall i | 0 <= i < |ws| :: i == 0 || ws[i] == ws[1..][i - 1];
      assert forall i | 0 <= i < |ws| - 1 :: ws[1..][i] == ws[i + 1];
    }
  }

  // ----- events -----

  function Set<T>(s: State<T>, w: nat, worker: Worker): State<T>
    requires w < |s.workers|
  {
    s.(workers := s.workers[w := worker])
  }

  ghost predicate Legal<T(!new)>(s: State<T>, e: Event<T>) {
    match e
    case Start => !s.launched || s.started            // a stopped pool is not started again
    case Stop => true
    case AddTask(_) => true
    case NotifyOne(w) =>
      0 < s.owed && ((w < |s.workers| && s.workers[w].Waiting?) || forall v | 0 <= v < |s.workers| :: !s.workers[v].Waiting?)
    case InitDone(w) => w < |s.workers| && s.workers[w].Init?
    case Enter(w) => w < |s.workers| && (s.workers[w].WantLock? || s.workers[w].Awake?)
    case Finish(w, _) => w < |s.workers| && s.workers[w].Busy?
    case Spurious(w) => w < |s.workers| && s.workers[w].Waiting?
  }

  function DoStart<T>(s: State<T>): State<T> {
    if s.started then s
    else s.(started := true, launched := true, workers := seq(s.threadsNumber, i => Init))
  }

  /** stop: the flag falls and everybody is woken, under the mutex. */
  function DoStop<T>(s: State<T>): State<T> {
    s.(started := false, workers := seq(|s.workers|, i requires 0 <= i < |s.workers| =>
                                    if s.workers[i].Waiting? then Awake else s.workers[i]))
  }

  predicate Accepts<T>(s: State<T>) {
    s.started && |s.queue| < s.queueLength
  }

  /** addTask under the mutex. Whether it accepts or throws, notify_one comes after. */
  function DoAddTask<T>(s: State<T>, task: T): State<T> {
    if Accepts(s) then s.(queue := s.queue + [task], accepted := s.accepted + [task], owed := s.owed + 1)
    else s.(owed := s.owed + 1)
  }

  function DoNotify<T>(s: State<T>, w: nat): State<T>
    requires 0 < s.owed
  {
    var s' := s.(owed := s.owed - 1);
    if w < |s.workers| && s.workers[w].Waiting? then Set(s', w, Awake) else s'
  }

  /** The counters are brought up to date for the task the worker brings back. */
  function Record<T>(s: State<T>, last: Last): State<T> {
    match last
    case Nothing => s
    case Done(id, good) =>
      s.(good := if good then s.good + 1 else s.good, bad := if good then s.bad else s.bad + 1,
         busy := if s.busy > 0 then s.busy - 1 else 0, recorded := s.recorded[id := good])
  }

  /** The region a worker runs under the mutex: record, then leave, take a task, or park. */
  function DoEnter<T>(s: State<T>, w: nat): State<T>
    requires w < |s.workers| && (s.workers[w].WantLock? || s.workers[w].Awake?)
  {
    var s' := if s.workers[w].WantLock? then Record(s, s.workers[w].last) else s;
    if !s'.started then Set(s', w, Exited)
    else if s'.queue != [] then
      Set(s', w, Busy(if |s'.accepted| >= |s'.queue| then |s'.accepted| - |s'.queue| else 0)).(
        queue := s'.queue[1..], busy := s'.busy + 1)
    else Set(s', w, Waiting)
  }

  function After<T(!new)>(s: State<T>, e: Event<T>): State<T>
    requires Legal(s, e)
  {
    match e
    case Start => DoStart(s)
    case Stop => DoStop(s)
    case AddTask(task) => DoAddTask(s, task)
    case NotifyOne(w) => DoNotify(s, w)
    case InitDone(w) => Set(s, w, WantLock(Nothing))
    case Enter(w) => DoEnter(s, w)
    case Finish(w, good) => Set(s, w, WantLock(Done(s.workers[w].id, good)))
    case Spurious(w) => Set(s, w, Awake)
  }

  // ----- the invariant -----

  /** How many tasks have been taken from the queue. */
  function Taken<T>(s: State<T>): int {
    |s.accepted| - |s.queue|
  }

  /** Accepted tasks are those taken, in order, followed by the queue. */
  ghost predicate QueueOk<T>(s: State<T>) {
    && |s.queue| <= |s.accepted| && s.queue == s.accepted[Taken(s)..]
    && |s.queue| <= s.queueLength
    && (s.launched ==> |s.workers| == s.threadsNumber)
    && (!s.launched ==> s.workers == [] && !s.started && s.accepted == [])
  }

  /** Counters show where every accepted task is. */
  ghost predicate CountersOk<T>(s: State<T>) {
    && s.busy == Count(s.workers, Holds)
    && |s.accepted| == |s.queue| + s.busy + s.good + s.bad
    && s.good + s.bad == |s.recorded|
  }

  /** A task taken is either in the hands of one worker or recorded, never both. */
  ghost predicate HandsOk<T>(s: State<T>) {
    && (forall id | id in s.recorded :: id < Taken(s))
    && (forall v | 0 <= v < |s.workers| && Holds(s.workers[v]) ::
          HeldId(s.workers[v]) < Taken(s) && HeldId(s.workers[v]) !in s.recorded)
    && (forall v, w | 0 <= v < w < |s.workers| && Holds(s.workers[v]) && Holds(s.workers[w]) ::
          HeldId(s.workers[v]) != HeldId(s.workers[w]))
    && (forall id | 0 <= id < Taken(s) && id !in s.recorded :: InHands(s.workers, id))
  }

  ghost predicate InHands(ws: seq<Worker>, id: nat) {
    exists v | 0 <= v < |ws| :: Holds(ws[v]) && HeldId(ws[v]) == id
  }

  /** What one worker's change does to the tasks in hands. */
  lemma SetHands(ws: seq<Worker>, w: nat, worker: Worker)
    requires w < |ws|
    ensures forall id | InHands(ws, id) :: InHands(ws[w := worker], id) || (Holds(ws[w]) && HeldId(ws[w]) == id)
    ensures Holds(worker) ==> InHands(ws[w := worker], HeldId(worker))
  {
    var ws' := ws[w := worker];
    assert ws'[w] == worker;
    forall id | InHands(ws, id)
      ensures InHands(ws', id) || (Holds(ws[w]) && HeldId(ws[w]) == id)
    {
      var v :| 0 <= v < |ws| && Holds(ws[v]) && HeldId(ws[v]) == id;
      assert v != w ==> ws'[v] == ws[v];
    }
  }

  /** While a worker is parked, every queued task has a notification coming or a worker woken. */
  ghost predicate WakeupsOk<T>(s: State<T>) {
    && (Count(s.workers, IsParked) > 0 ==> |s.queue| <= s.owed + Count(s.workers, IsAwake))
    && (!s.started ==> Count(s.workers, IsParked) == 0)
  }

  ghost predicate Inv<T>(s: State<T>) {
    QueueOk(s) && CountersOk(s) && HandsOk(s) && WakeupsOk(s)
  }

  // ----- each event keeps it -----

  /** Changing one worker moves the three counts by at most one each. */
  lemma SetCounts<T>(s: State<T>, w: nat, worker: Worker)
    requires w < |s.workers|
    ensures var old_ := s.workers[w];
            && Count(Set(s, w, worker).workers, Holds) ==
               Count(s.workers, Holds) - (if Holds(old_) then 1 else 0) + (if Holds(worker) then 1 else 0)
            && Count(Set(s, w, worker).workers, IsParked) ==
               Count(s.workers, IsParked) - (if IsParked(old_) then 1 else 0) + (if IsParked(worker) then 1 else 0)
            && Count(Set(s, w, worker).workers, IsAwake) ==
               Count(s.workers, IsAwake) - (if IsAwake(old_) then 1 else 0) + (if IsAwake(worker) then 1 else 0)
  {
    CountUpdate(s.workers, w, worker, Holds);
    CountUpdate(s.workers, w, worker, IsParked);
    CountUpdate(s.workers, w, worker, IsAwake);
  }

  lemma {:induction false} CountAll(n: nat, worker: Worker, p: Worker -> bool)
    ensures Count(seq(n, i => worker), p) == if p(worker) then n else 0
  {
    if n > 0 {
      assert seq(n, i => worker)[1..] == seq(n - 1, i => worker);
      CountAll(n - 1, worker, p);
    }
  }

  lemma StartKeeps<T>(s: State<T>)
    requires Inv(s) && (!s.launched || s.started)
    ensures Inv(DoStart(s))
  {
    if !s.started {
      CountAll(s.threadsNumber, Init, Holds);
      CountAll(s.threadsNumber, Init, IsParked);
    }
  }

  lemma {:induction false} CountWoken(ws: seq<Worker>, woken: seq<Worker>)
    requires |woken| == |ws| && forall i | 0 <= i < |ws| :: woken[i] == if ws[i].Waiting? then Awake else ws[i]
    ensures Count(woken, Holds) == Count(ws, Holds) && Count(woken, IsParked) == 0
  {
    if ws != [] {
      CountWoken(ws[1..], woken[1..]);
    }
  }

  lemma StopKeeps<T>(s: State<T>)
    requires Inv(s)
    ensures Inv(DoStop(s))
  {
    CountWoken(s.workers, DoStop(s).workers);
  }

  lemma AddTaskKeeps<T>(s: State<T>, task: T)
    requires Inv(s)
    ensures Inv(DoAddTask(s, task))
  {
    hide Count;
  }

  lemma NotifyKeeps<T(!new)>(s: State<T>, w: nat)
    requires Inv(s) && Legal(s, NotifyOne(w))
    ensures Inv(DoNotify(s, w))
  {
    hide Count;
    if w < |s.workers| && s.workers[w].Waiting? {
      SetCounts(s, w, Awake);
      SetHands(s.workers, w, Awake);
    } else {
      CountPositive(s.workers, IsParked);
    }
  }

  lemma InitDoneKeeps<T(!new)>(s: State<T>, w: nat)
    requires Inv(s) && Legal(s, InitDone(w))
    ensures Inv(Set(s, w, WantLock(Nothing)))
  {
    hide Count;
    SetCounts(s, w, WantLock(Nothing));
    SetHands(s.workers, w, WantLock(Nothing));
  }

  lemma FinishKeeps<T(!new)>(s: State<T>, w: nat, good: bool)
    requires Inv(s) && Legal(s, Finish(w, good))
    ensures Inv(Set(s, w, WantLock(Done(s.workers[w].id, good))))
  {
    hide Count;
    SetCounts(s, w, WantLock(Done(s.workers[w].id, good)));
    SetHands(s.workers, w, WantLock(Done(s.workers[w].id, good)));
  }

  lemma SpuriousKeeps<T(!new)>(s: State<T>, w: nat)
    requires Inv(s) && Legal(s, Spurious(w))
    ensures Inv(Set(s, w, Awake))
  {
    hide Count;
    SetCounts(s, w, Awake);
    SetHands(s.workers, w, Awake);
  }

  /** Recording moves one task from a worker's hands to the counters. */
  lemma RecordKeeps<T>(s: State<T>, w: nat)
    requires Inv(s) && w < |s.workers| && s.workers[w].WantLock?
    ensures Inv(Set(Record(s, s.workers[w].last), w, WantLock(Nothing)))
  {
    hide Count;
    SetCounts(s, w, WantLock(Nothing));
    SetHands(s.workers, w, WantLock(Nothing));
  }

  lemma TakeCounts<T>(s: State<T>, w: nat)
    requires QueueOk(s) && CountersOk(s) && WakeupsOk(s)
    requires w < |s.workers| && (s.workers[w] == WantLock(Nothing) || s.workers[w].Awake?)
    ensures QueueOk(DoEnter(s, w)) && CountersOk(DoEnter(s, w)) && WakeupsOk(DoEnter(s, w))
  {
    hide Count;
    if !s.started {
      SetCounts(s, w, Exited);
    } else if s.queue != [] {
      SetCounts(s, w, Busy(Taken(s)));
    } else {
      SetCounts(s, w, Waiting);
    }
  }

  lemma TakeHands<T>(s: State<T>, w: nat)
    requires QueueOk(s) && HandsOk(s)
    requires w < |s.workers| && (s.workers[w] == WantLock(Nothing) || s.workers[w].Awake?)
    ensures HandsOk(DoEnter(s, w))
  {
    hide InHands;
    if !s.started {
      SetHands(s.workers, w, Exited);
    } else if s.queue != [] {
      SetHands(s.workers, w, Busy(Taken(s)));
    } else {
      SetHands(s.workers, w, Waiting);
    }
  }

  /** A worker with nothing to record leaves, takes the oldest task, or parks. */
  lemma TakeKeeps<T>(s: State<T>, w: nat)
    requires Inv(s) && w < |s.workers| && (s.workers[w] == WantLock(Nothing) || s.workers[w].Awake?)
    ensures Inv(DoEnter(s, w))
  {
    hide QueueOk, CountersOk, HandsOk, WakeupsOk, DoEnter;
    TakeCounts(s, w);
    TakeHands(s, w);
  }

  lemma EnterKeeps<T>(s: State<T>, w: nat)
    requires Inv(s) && w < |s.workers| && (s.workers[w].WantLock? || s.workers[w].Awake?)
    ensures Inv(DoEnter(s, w))
  {
    hide Inv;
    if s.workers[w].WantLock? {
      var r := Set(Record(s, s.workers[w].last), w, WantLock(Nothing));
      RecordKeeps(s, w);
      TakeKeeps(r, w);
      assert DoEnter(r, w) == DoEnter(s, w);
    } else {
      TakeKeeps(s, w);
    }
  }

  lemma EventKeeps<T(!new)>(s: State<T>, e: Event<T>)
    requires Inv(s) && Legal(s, e)
    ensures Inv(After(s, e))
  {
    hide Inv, DoEnter, DoStop, DoAddTask;
    match e
    case Start => StartKeeps(s);
    case Stop => StopKeeps(s);
    case AddTask(task) => AddTaskKeeps(s, task);
    case NotifyOne(w) => NotifyKeeps(s, w);
    case InitDone(w) => InitDoneKeeps(s, w);
    case Enter(w) => EnterKeeps(s, w);
    case Finish(w, good) => FinishKeeps(s, w, good);
    case Spurious(w) => SpuriousKeeps(s, w);
  }

  // ----- every run -----

  ghost predicate Runs<T(!new)>(s: State<T>, events: seq<Event<T>>)
    decreases |events|
  {
    events == [] || (Legal(s, events[0]) && Runs(After(s, events[0]), events[1..]))
  }

  ghost function End<T(!new)>(s: State<T>, events: seq<Event<T>>): State<T>
    requires Runs(s, events)
    decreases |events|
  {
    if events == [] then s else End(After(s, events[0]), events[1..])
  }

  lemma {:induction false} RunKeeps<T(!new)>(s: State<T>, events: seq<Event<T>>)
    requires Inv(s) && Runs(s, events)
    ensures Inv(End(s, events))
    decreases |events|
  {
    hide Inv, After, Legal;
    if events != [] {
      EventKeeps(s, events[0]);
      RunKeeps(After(s, events[0]), events[1..]);
    }
  }

  lemma NewIsOk<T(!new)>(threadsNumber: nat, queueLength: nat)
    ensures Inv(New<T>(threadsNumber, queueLength))
  {
  }

  /** s can be reached by a pool of that size. */
  ghost predicate Reachable<T(!new)>(s: State<T>, threadsNumber: nat, queueLength: nat, events: seq<Event<T>>) {
    Runs(New(threadsNumber, queueLength), events) && s == End(New(threadsNumber, queueLength), events)
  }

  lemma {:induction false} SizesStay<T(!new)>(s: State<T>, events: seq<Event<T>>)
    requires Runs(s, events)
    ensures End(s, events).threadsNumber == s.threadsNumber && End(s, events).queueLength == s.queueLength
    decreases |events|
  {
    if events != [] {
      SizesStay(After(s, events[0]), events[1..]);
    }
  }

  /** The task with this number is at exactly one place: queued, in one worker's hands, or counted. */
  ghost predicate AtOnePlace<T>(s: State<T>, id: nat) {
    || (id >= Taken(s) && id < |s.accepted| && s.queue[id - Taken(s)] == s.accepted[id]
        && !InHands(s.workers, id) && id !in s.recorded)
    || (id < Taken(s) && id !in s.recorded && InHands(s.workers, id)
        && forall v, w | 0 <= v < w < |s.workers| && Holds(s.workers[v]) && Holds(s.workers[w]) ::
             !(HeldId(s.workers[v]) == id == HeldId(s.workers[w])))
    || (id < Taken(s) && id in s.recorded && !InHands(s.workers, id))
  }

  /** The task that an addTask call pushes: it comes when the pool is started and its queue has room. */
  function PushedBy<T>(s: State<T>, e: Event<T>): seq<T> {
    if e.AddTask? && s.started && |s.queue| < s.queueLength then [e.task] else []
  }

  /** The tasks that a run's addTask calls push. */
  ghost function Pushed<T(!new)>(s: State<T>, events: seq<Event<T>>): seq<T>
    requires Runs(s, events)
    decreases |events|
  {
    if events == [] then [] else PushedBy(s, events[0]) + Pushed(After(s, events[0]), events[1..])
  }

  lemma {:induction false} AcceptedArePushed<T(!new)>(s: State<T>, events: seq<Event<T>>)
    requires Runs(s, events)
    ensures End(s, events).accepted == s.accepted + Pushed(s, events)
    decreases |events|
  {
    hide After, Legal, PushedBy;
    if events == [] {
      assert s.accepted + [] == s.accepted;
    } else {
      var s' := After(s, events[0]);
      AcceptedArePushed(s', events[1..]);
      AcceptedStep(s, events[0]);
      InOrder(s.accepted, PushedBy(s, events[0]), Pushed(s', events[1..]));
    }
  }

  lemma InOrder<T>(a: seq<T>, b: seq<T>, c: seq<T>)
    ensures (a + b) + c == a + (b + c)
  {
  }

  lemma AcceptedStep<T(!new)>(s: State<T>, e: Event<T>)
    requires Legal(s, e)
    ensures After(s, e).accepted == s.accepted + PushedBy(s, e)
  {
    assert s.accepted + [] == s.accepted;
  }

  /** How many tasks handleTask has ended with this outcome. */
  function Finishes<T>(events: seq<Event<T>>, good: bool): nat {
    if events == [] then 0
    else (if events[0].Finish? && events[0].good == good then 1 else 0) + Finishes(events[1..], good)
  }

  predicate HasGood(w: Worker) { w.WantLock? && w.last.Done? && w.last.good }

  predicate HasBad(w: Worker) { w.WantLock? && w.last.Done? && !w.last.good }

  /** What the counters show, and what workers bring back but have not counted yet. */
  function Goods<T>(s: State<T>): nat {
    s.good + Count(s.workers, HasGood)
  }

  function Bads<T>(s: State<T>): nat {
    s.bad + Count(s.workers, HasBad)
  }

  lemma OutcomeSet<T>(s: State<T>, w: nat, worker: Worker)
    requires w < |s.workers|
    ensures Goods(Set(s, w, worker)) == Goods(s) - (if HasGood(s.workers[w]) then 1 else 0) + (if HasGood(worker) then 1 else 0)
    ensures Bads(Set(s, w, worker)) == Bads(s) - (if HasBad(s.workers[w]) then 1 else 0) + (if HasBad(worker) then 1 else 0)
  {
    hide Count;
    CountUpdate(s.workers, w, worker, HasGood);
    CountUpdate(s.workers, w, worker, HasBad);
  }

  lemma SameOutcomes<T>(s: State<T>, s': State<T>)
    requires s'.good == s.good && s'.bad == s.bad && s'.workers == s.workers
    ensures Goods(s') == Goods(s) && Bads(s') == Bads(s)
  {
    hide Count;
  }

  lemma {:induction false} WokenOutcomes(ws: seq<Worker>, woken: seq<Worker>)
    requires |woken| == |ws| && forall i | 0 <= i < |ws| :: woken[i] == if ws[i].Waiting? then Awake else ws[i]
    ensures Count(woken, HasGood) == Count(ws, HasGood) && Count(woken, HasBad) == Count(ws, HasBad)
  {
    if ws != [] {
      WokenOutcomes(ws[1..], woken[1..]);
    }
  }

  lemma StopOutcomes<T>(s: State<T>)
    ensures Goods(DoStop(s)) == Goods(s) && Bads(DoStop(s)) == Bads(s)
  {
    hide Count;
    WokenOutcomes(s.workers, DoStop(s).workers);
  }

  /** Recording moves an outcome from the worker to its counter, and nothing else does. */
  lemma EnterOutcomes<T>(s: State<T>, w: nat)
    requires w < |s.workers| && (s.workers[w].WantLock? || s.workers[w].Awake?)
    ensures Goods(DoEnter(s, w)) == Goods(s) && Bads(DoEnter(s, w)) == Bads(s)
  {
    hide Count, Goods, Bads;
    var s', old_ := DoEnter(s, w), s.workers[w];
    OutcomeSet(s, w, s'.workers[w]);
    Counted(Set(s, w, s'.workers[w]), s', HasGood(old_), HasBad(old_));
  }

  lemma Counted<T>(s: State<T>, s': State<T>, good: bool, bad: bool)
    requires s'.workers == s.workers
    requires s'.good == s.good + (if good then 1 else 0) && s'.bad == s.bad + (if bad then 1 else 0)
    ensures Goods(s') == Goods(s) + (if good then 1 else 0) && Bads(s') == Bads(s) + (if bad then 1 else 0)
  {
    hide Count;
  }

  lemma StartOutcomes<T>(s: State<T>)
    requires QueueOk(s) && (!s.launched || s.started)
    ensures Goods(DoStart(s)) == Goods(s) && Bads(DoStart(s)) == Bads(s)
  {
    CountAll(s.threadsNumber, Init, HasGood);
    CountAll(s.threadsNumber, Init, HasBad);
  }

  lemma OutcomeStep<T(!new)>(s: State<T>, e: Event<T>)
    requires QueueOk(s) && Legal(s, e)
    ensures Goods(After(s, e)) == Goods(s) + (if e.Finish? && e.good then 1 else 0)
    ensures Bads(After(s, e)) == Bads(s) + (if e.Finish? && !e.good then 1 else 0)
  {
    hide Count, DoEnter, DoStart, DoStop, Goods, Bads, QueueOk;
    match e
    case Start => StartOutcomes(s);
    case Stop => StopOutcomes(s);
    case AddTask(task) => SameOutcomes(s, DoAddTask(s, task));
    case NotifyOne(w) =>
      var s' := s.(owed := s.owed - 1);
      SameOutcomes(s, s');
      if w < |s.workers| {
        OutcomeSet(s', w, Awake);
      }
    case InitDone(w) => OutcomeSet(s, w, WantLock(Nothing));
    case Enter(w) => EnterOutcomes(s, w);
    case Finish(w, good) => OutcomeSet(s, w, WantLock(Done(s.workers[w].id, good)));
    case Spurious(w) => OutcomeSet(s, w, Awake);
  }

  lemma {:induction false} OutcomesCounted<T(!new)>(s: State<T>, events: seq<Event<T>>)
    requires Inv(s) && Runs(s, events)
    ensures Goods(End(s, events)) == Goods(s) + Finishes(events, true)
    ensures Bads(End(s, events)) == Bads(s) + Finishes(events, false)
    decreases |events|
  {
    hide After, Legal, Inv, Goods, Bads;
    if events != [] {
      InvQueue(s);
      OutcomeStep(s, events[0]);
      EventKeeps(s, events[0]);
      OutcomesCounted(After(s, events[0]), events[1..]);
    }
  }

  lemma InvQueue<T>(s: State<T>)
    requires Inv(s)
    ensures QueueOk(s)
  {
    hide QueueOk, CountersOk, HandsOk, WakeupsOk;
  }

  /** Conservation, in every interleaving: no accepted task is lost, doubled or out of order. */
  lemma PoolConservation<T(!new)>(s: State<T>, threadsNumber: nat, queueLength: nat, events: seq<Event<T>>)
    requires Reachable(s, threadsNumber, queueLength, events)
    ensures Inv(s)
    // the tasks accepted are those of the calls that found the pool started and room in its queue
    ensures s.accepted == Pushed(New(threadsNumber, queueLength), events)
    ensures |s.queue| <= |s.accepted| && s.accepted == s.accepted[..Taken(s)] + s.queue
    // each counter is the tasks that ended so, less those not brought back yet
    ensures Goods(s) == Finishes(events, true) && Bads(s) == Finishes(events, false)
    ensures |s.accepted| == |s.queue| + s.busy + s.good + s.bad
    ensures s.busy == Count(s.workers, Holds) <= threadsNumber && |s.queue| <= queueLength
    ensures forall id | 0 <= id < |s.accepted| :: AtOnePlace(s, id)
  {
    hide Inv, Goods, Bads, Pushed, Finishes, New;
    var s0: State<T> := New(threadsNumber, queueLength);
    NewIsOk<T>(threadsNumber, queueLength);
    NoOutcomes<T>(threadsNumber, queueLength);
    RunKeeps(s0, events);
    SizesStay(s0, events);
    AcceptedArePushed(s0, events);
    assert [] + Pushed(s0, events) == Pushed(s0, events);
    OutcomesCounted(s0, events);
    InvConserves(s);
  }

  lemma InvConserves<T>(s: State<T>)
    requires Inv(s)
    ensures |s.queue| <= |s.accepted| && s.accepted == s.accepted[..Taken(s)] + s.queue
    ensures |s.accepted| == |s.queue| + s.busy + s.good + s.bad
    ensures s.busy == Count(s.workers, Holds) <= |s.workers| && |s.queue| <= s.queueLength
    ensures |s.workers| <= s.threadsNumber
    ensures forall id | 0 <= id < |s.accepted| :: AtOnePlace(s, id)
  {
    hide Count;
    CountPositive(s.workers, Holds);
    forall id | 0 <= id < |s.accepted|
      ensures AtOnePlace(s, id)
    {
    }
  }

  lemma NoOutcomes<T>(threadsNumber: nat, queueLength: nat)
    ensures var s: State<T> := New(threadsNumber, queueLength);
            Goods(s) == 0 && Bads(s) == 0 && s.accepted == [] && s.threadsNumber == threadsNumber && s.queueLength == queueLength
  {
  }

  /** A worker that takes a task takes the oldest, and no task is ever taken again. */
  lemma TakesTheOldest<T>(s: State<T>, w: nat)
    requires QueueOk(s) && HandsOk(s)
    requires w < |s.workers| && (s.workers[w].WantLock? || s.workers[w].Awake?)
    requires DoEnter(s, w).workers[w].Busy?
    ensures DoEnter(s, w).workers[w].id == Taken(s)
    ensures s.queue != [] && s.queue[0] == s.accepted[Taken(s)]
    ensures !InHands(s.workers, Taken(s)) && Taken(s) !in s.recorded
  {
    assert s.queue != [];
    assert s.accepted[Taken(s)..][0] == s.accepted[Taken(s)];
  }

  /** A worker is about to run on its own account. */
  predicate Running(w: Worker) {
    w.Init? || w.WantLock? || w.Awake? || w.Busy?
  }

  /**
   * No lost wakeup, in every interleaving and with spurious wakeups: while some worker is parked,
   * the queue is no longer than the notifications still owed plus the workers woken. So a queued
   * task of a running pool never sits with all workers parked and nothing pending.
   */
  lemma NoLostWakeup<T(!new)>(s: State<T>, threadsNumber: nat, queueLength: nat, events: seq<Event<T>>)
    requires Reachable(s, threadsNumber, queueLength, events)
    ensures (exists v | 0 <= v < |s.workers| :: s.workers[v].Waiting?) ==>
              |s.queue| <= s.owed + Count(s.workers, IsAwake)
    ensures s.started && s.queue != [] && 0 < threadsNumber && s.owed == 0 ==>
              exists v | 0 <= v < |s.workers| :: Running(s.workers[v])
  {
    hide Count;
    NewIsOk<T>(threadsNumber, queueLength);
    RunKeeps(New(threadsNumber, queueLength), events);
    SizesStay(New(threadsNumber, queueLength), events);
    CountPositive(s.workers, IsParked);
    CountPositive(s.workers, IsAwake);
    if s.started && s.queue != [] && 0 < threadsNumber && s.owed == 0 {
      NoneExitedWhileStarted(New(threadsNumber, queueLength), events);
      if v :| 0 <= v < |s.workers| && s.workers[v].Waiting? {
        var u :| 0 <= u < |s.workers| && IsAwake(s.workers[u]);
        assert Running(s.workers[u]);
      } else {
        assert Running(s.workers[0]);
      }
    }
  }

  ghost predicate NoneExited<T>(s: State<T>) {
    s.started || !s.launched ==> forall v | 0 <= v < |s.workers| :: !s.workers[v].Exited?
  }

  lemma NoneExitedStays<T(!new)>(s: State<T>, e: Event<T>)
    requires Inv(s) && NoneExited(s) && Legal(s, e)
    ensures NoneExited(After(s, e))
  {
    hide Count;
  }

  /** Workers leave only after stop. */
  lemma {:induction false} NoneExitedWhileStarted<T(!new)>(s: State<T>, events: seq<Event<T>>)
    requires Inv(s) && NoneExited(s) && Runs(s, events)
    ensures NoneExited(End(s, events))
    decreases |events|
  {
    hide Count, Inv;
    if events != [] {
      NoneExitedStays(s, events[0]);
      EventKeeps(s, events[0]);
      NoneExitedWhileStarted(After(s, events[0]), events[1..]);
    }
  }

  // ----- progress -----

  /** What a started pool still has to do. */
  function Weight(w: Worker): nat {
    match w
    case Init => 3
    case Busy(_) => 3
    case WantLock(_) => 2
    case Awake => 1
    case Waiting => 0
    case Exited => 0
  }

  function TotalWeight(ws: seq<Worker>): nat {
    if ws == [] then 0 else Weight(ws[0]) + TotalWeight(ws[1..])
  }

  lemma {:induction false} WeightUpdate(ws: seq<Worker>, i: nat, w: Worker)
    requires i < |ws|
    ensures TotalWeight(ws[i := w]) == TotalWeight(ws) - Weight(ws[i]) + Weight(w)
  {
    if i == 0 {
      assert ws[i := w][1..] == ws[1..];
    } else {
      assert ws[i := w][1..] == ws[1..][i - 1 := w];
      WeightUpdate(ws[1..], i - 1, w);
    }
  }

  function Work<T>(s: State<T>): nat {
    3 * |s.queue| + TotalWeight(s.workers) + 2 * s.owed
  }

  /** A step of a worker, or a notification that is owed. */
  predicate IsWork<T>(e: Event<T>) {
    e.InitDone? || e.Enter? || e.Finish? || e.NotifyOne?
  }

  lemma EnterWorks<T>(s: State<T>, w: nat)
    requires s.started && w < |s.workers| && (s.workers[w].WantLock? || s.workers[w].Awake?)
    ensures Work(DoEnter(s, w)) < Work(s) && DoEnter(s, w).started
  {
    WeightUpdate(s.workers, w, DoEnter(s, w).workers[w]);
  }

  /** Every such event of a started pool leaves less to do. */
  lemma WorkIsDone<T(!new)>(s: State<T>, e: Event<T>)
    requires s.started && IsWork(e) && Legal(s, e)
    ensures Work(After(s, e)) < Work(s) && After(s, e).started
  {
    hide DoEnter, TotalWeight;
    match e
    case InitDone(w) => WeightUpdate(s.workers, w, WantLock(Nothing));
    case Enter(w) => EnterWorks(s, w);
    case Finish(w, good) => WeightUpdate(s.workers, w, WantLock(Done(s.workers[w].id, good)));
    case NotifyOne(w) =>
      if w < |s.workers| && s.workers[w].Waiting? {
        WeightUpdate(s.workers, w, Awake);
      }
  }

  /** And while some task is not recorded, such an event is open: as long as threads get to run, every
      accepted task of a started pool is handled. */
  lemma WorkIsOpen<T(!new)>(s: State<T>)
    requires Inv(s) && NoneExited(s) && s.started && s.workers != [] && |s.recorded| < |s.accepted|
    ensures exists e: Event<T> :: IsWork(e) && Legal(s, e)
  {
    hide Count;
    CountPositive(s.workers, Holds);
    CountPositive(s.workers, IsParked);
    CountPositive(s.workers, IsAwake);
    if v :| 0 <= v < |s.workers| && !s.workers[v].Waiting? {
      var u: nat := v;
      var e: Event<T> :=
        if s.workers[u].Init? then InitDone(u) else if s.workers[u].Busy? then Finish(u, true) else Enter(u);
      assert IsWork(e) && Legal(s, e);
    } else {
      assert s.queue != [] && IsParked(s.workers[0]);
      var e: Event<T> := NotifyOne(0);
      assert IsWork(e) && Legal(s, e);
    }
  }

  /** So from every reachable state of a started pool with threads its tasks can all be handled. */
  lemma {:induction false} AllCanBeHandled<T(!new)>(s: State<T>) returns (events: seq<Event<T>>)
    requires Inv(s) && NoneExited(s) && s.started && s.workers != []
    ensures Runs(s, events) && (forall e | e in events :: IsWork(e))
    ensures End(s, events).accepted == s.accepted && |End(s, events).recorded| == |s.accepted|
    decreases Work(s)
  {
    hide Count, After, Legal, Inv, NoneExited, Work;
    if |s.recorded| >= |s.accepted| {
      events := [];
      RecordedAtMost(s);
    } else {
      WorkIsOpen(s);
      var e: Event<T> :| IsWork(e) && Legal(s, e);
      WorkIsDone(s, e);
      EventKeeps(s, e);
      NoneExitedStays(s, e);
      WorkKeeps(s, e);
      var rest := AllCanBeHandled(After(s, e));
      events := [e] + rest;
      assert events[1..] == rest;
    }
  }

  lemma RecordedAtMost<T>(s: State<T>)
    requires Inv(s)
    ensures |s.recorded| <= |s.accepted|
  {
    hide Count, HandsOk, QueueOk, WakeupsOk;
  }

  lemma WorkKeeps<T(!new)>(s: State<T>, e: Event<T>)
    requires IsWork(e) && Legal(s, e)
    ensures After(s, e).accepted == s.accepted && |After(s, e).workers| == |s.workers|
  {
  }

  // ----- shutdown -----

  /** Once stop has run: start is not called again, so the flag stays down. */
  predicate Stopped<T>(s: State<T>) {
    s.launched && !s.started
  }

  /** How many steps a worker is from leaving a stopped pool. */
  function Distance(w: Worker): nat {
    match w
    case Init => 2
    case Busy(_) => 2
    case WantLock(_) => 1
    case Awake => 1
    case Waiting => 0
    case Exited => 0
  }

  function TotalDistance(ws: seq<Worker>): nat {
    if ws == [] then 0 else Distance(ws[0]) + TotalDistance(ws[1..])
  }

  lemma {:induction false} DistanceUpdate(ws: seq<Worker>, i: nat, w: Worker)
    requires i < |ws|
    ensures TotalDistance(ws[i := w]) == TotalDistance(ws) - Distance(ws[i]) + Distance(w)
  {
    if i == 0 {
      assert ws[i := w][1..] == ws[1..];
    } else {
      assert ws[i := w][1..] == ws[1..][i - 1 := w];
      DistanceUpdate(ws[1..], i - 1, w);
    }
  }

  lemma {:induction false} DistanceBound(ws: seq<Worker>)
    ensures TotalDistance(ws) <= 2 * |ws|
    ensures TotalDistance(ws) == 0 ==> forall v | 0 <= v < |ws| :: ws[v].Waiting? || ws[v].Exited?
  {
    if ws != [] {
      DistanceBound(ws[1..]);
      assert forall v | 0 < v < |ws| :: ws[v] == ws[1..][v - 1];
    }
  }

  /** A step a worker takes by itself. */
  predicate IsStep<T>(e: Event<T>) {
    e.InitDone? || e.Enter? || e.Finish?
  }

  function Steps<T>(events: seq<Event<T>>): nat {
    if events == [] then 0 else (if IsStep(events[0]) then 1 else 0) + Steps(events[1..])
  }

  lemma StoppedStep<T(!new)>(s: State<T>, e: Event<T>)
    requires Inv(s) && Stopped(s) && Legal(s, e)
    ensures Stopped(After(s, e))
    ensures TotalDistance(After(s, e).workers) + (if IsStep(e) then 1 else 0) <= TotalDistance(s.workers)
  {
    hide Count, TotalDistance;
    CountPositive(s.workers, IsParked);
    assert forall v | 0 <= v < |s.workers| :: !IsParked(s.workers[v]);
    match e
    case Stop => assert DoStop(s).workers == s.workers;
    case InitDone(w) => DistanceUpdate(s.workers, w, WantLock(Nothing));
    case Enter(w) => DistanceUpdate(s.workers, w, Exited);
    case Finish(w, good) => DistanceUpdate(s.workers, w, WantLock(Done(s.workers[w].id, good)));
    case _ =>
  }

  /**
   * Shutdown: from the moment stop has run nobody is or becomes parked, whatever callers do, and
   * workers take at most two more steps each.
   */
  lemma {:induction false} ShutdownIsBounded<T(!new)>(s: State<T>, events: seq<Event<T>>)
    requires Inv(s) && Stopped(s) && Runs(s, events)
    ensures var end := End(s, events);
            && Stopped(end) && (forall v | 0 <= v < |end.workers| :: !end.workers[v].Waiting?)
            && Steps(events) + TotalDistance(end.workers) <= TotalDistance(s.workers) <= 2 * |s.workers|
    decreases |events|
  {
    hide Count, After, Legal, Inv;
    DistanceBound(s.workers);
    StoppedNobodyParked(s);
    if events != [] {
      EventKeeps(s, events[0]);
      StoppedStep(s, events[0]);
      ShutdownIsBounded(After(s, events[0]), events[1..]);
    }
  }

  lemma StoppedNobodyParked<T>(s: State<T>)
    requires Inv(s) && Stopped(s)
    ensures forall v | 0 <= v < |s.workers| :: !s.workers[v].Waiting?
  {
    hide Count;
    CountPositive(s.workers, IsParked);
    assert forall v | 0 <= v < |s.workers| :: !IsParked(s.workers[v]);
  }

  /** Until all have left, some worker can step; then join returns and nothing is in hand. */
  lemma ShutdownCompletes<T(!new)>(s: State<T>)
    requires Inv(s) && Stopped(s)
    ensures (forall v | 0 <= v < |s.workers| :: s.workers[v].Exited?) || exists e: Event<T> :: IsStep(e) && Legal(s, e)
    ensures (forall v | 0 <= v < |s.workers| :: s.workers[v].Exited?) ==>
              s.busy == 0 && s.good + s.bad + |s.queue| == |s.accepted|
  {
    hide Count;
    StoppedNobodyParked(s);
    CountPositive(s.workers, Holds);
    if v :| 0 <= v < |s.workers| && !s.workers[v].Exited? {
      var u: nat := v;
      var e: Event<T> :=
        if s.workers[u].Init? then InitDone(u) else if s.workers[u].Busy? then Finish(u, true) else Enter(u);
      assert IsStep(e) && Legal(s, e);
    }
  }

  // ----- the class -----

  /** What addTask reports. */
  datatype Added = Accepted | NotStarted | QueueFull

  /** ThreadPool<T>: every method is a region under mutex_, and one event of the protocol. */
  class ThreadPool<T(!new)> {
    const threadsNumber: nat
    const queueLength: nat
    var started: bool
    var tasksQueue: seq<T>
    var busyThreadsCounter: nat
    var goodTasksCounter: nat
    var badTasksCounter: nat
    var launched: bool
    var threads: seq<Worker>
    ghost var owed: nat
    var accepted: seq<T>             // history: numbers the tasks that workers hold
    ghost var recorded: map<nat, bool>

    ghost function View(): State<T>
      reads this
    {
      State(threadsNumber, queueLength, started, tasksQueue, busyThreadsCounter, goodTasksCounter, badTasksCounter,
            launched, threads, owed, accepted, recorded)
    }

    constructor (threadsNumber: nat, queueLength: nat)
      ensures View() == New(threadsNumber, queueLength)
    {
      this.threadsNumber, this.queueLength := threadsNumber, queueLength;
      started, tasksQueue, launched, threads := false, [], false, [];
      busyThreadsCounter, goodTasksCounter, badTasksCounter := 0, 0, 0;
      owed, accepted, recorded := 0, [], map[];
    }

    method Launch()
      requires Inv(View()) && Legal(View(), Event<T>.Start)
      modifies this
      ensures Inv(View()) && View() == After(old(View()), Event<T>.Start)
      ensures started && tasksQueue == old(tasksQueue)
      ensures if old(started) then threads == old(threads)
              else |threads| == threadsNumber && forall v | 0 <= v < threadsNumber :: threads[v].Init?
    {
      EventKeeps(View(), Event<T>.Start);
      if started {
        return;
      }
      threads := [];
      for i := 0 to threadsNumber
        invariant threads == seq(i, _ => Init)
        invariant View() == old(View()).(workers := threads)
      {
        threads := threads + [Init];
      }
      launched := true;
      started := true;
    }

    method Halt()
      requires Inv(View())
      modifies this
      ensures Inv(View()) && View() == After(old(View()), Event<T>.Stop)
      ensures !started && tasksQueue == old(tasksQueue) && |threads| == |old(threads)|
      ensures forall v | 0 <= v < |threads| :: threads[v] == if old(threads[v]).Waiting? then Awake else old(threads[v])
    {
      StopKeeps(View());
      started := false;
      // notify_all, still under the mutex
      var ts := threads;
      threads := seq(|ts|, i requires 0 <= i < |ts| => if ts[i].Waiting? then Awake else ts[i]);
      assert View() == DoStop(old(View()));
    }

    /** Both when it accepts and when it throws, the caller still owes a notification. */
    method AddTask(task: T) returns (r: Added)
      requires Inv(View())
      modifies this
      ensures Inv(View()) && View() == After(old(View()), Event.AddTask(task))
      ensures r == if !old(started) then NotStarted
                   else if |old(tasksQueue)| >= queueLength then QueueFull else Accepted
      ensures r.Accepted? ==> tasksQueue == old(tasksQueue) + [task] && accepted == old(accepted) + [task]
      ensures !r.Accepted? ==> tasksQueue == old(tasksQueue) && accepted == old(accepted)
      ensures owed == old(owed) + 1 && started == old(started) && threads == old(threads)
    {
      hide Inv, DoEnter, DoStop, DoStart, DoNotify;
      AddTaskKeeps(View(), task);
      owed := owed + 1;
      if !started {
        return NotStarted;
      }
      if |tasksQueue| >= queueLength {
        return QueueFull;
      }
      tasksQueue := tasksQueue + [task];
      accepted := accepted + [task];
      return Accepted;
    }

    /** The switch at the top of workMethod's loop. */
    method RecordLast(w: nat)
      requires w < |threads| && (Holds(threads[w]) ==> busyThreadsCounter > 0)
      modifies this`goodTasksCounter, this`badTasksCounter, this`busyThreadsCounter, this`recorded
      ensures View() == if threads[w].WantLock? then Record(old(View()), threads[w].last) else old(View())
      ensures var done := threads[w].WantLock? && threads[w].last.Done?;
              && goodTasksCounter == old(goodTasksCounter) + (if done && threads[w].last.good then 1 else 0)
              && badTasksCounter == old(badTasksCounter) + (if done && !threads[w].last.good then 1 else 0)
    {
      if threads[w].WantLock? {
        match threads[w].last
        case Nothing =>
        case Done(id, good) =>
          if good {
            goodTasksCounter := goodTasksCounter + 1;
          } else {
            badTasksCounter := badTasksCounter + 1;
          }
          busyThreadsCounter := busyThreadsCounter - 1;
          recorded := recorded[id := good];
      }
    }

    /** The region at the top of workMethod's loop, or after a wakeup. */
    method WorkRegion(w: nat)
      requires Inv(View()) && Legal(View(), Event<T>.Enter(w))
      modifies this
      ensures Inv(View()) && View() == After(old(View()), Event<T>.Enter(w))
      // first the task that was handled is counted
      ensures var done := old(threads[w]).WantLock? && old(threads[w]).last.Done?;
              && goodTasksCounter == old(goodTasksCounter) + (if done && old(threads[w]).last.good then 1 else 0)
              && badTasksCounter == old(badTasksCounter) + (if done && !old(threads[w]).last.good then 1 else 0)
      // then the worker leaves, takes the oldest task, or parks
      ensures if !started then threads[w].Exited? && tasksQueue == old(tasksQueue)
              else if old(tasksQueue) != [] then
                threads[w].Busy? && threads[w].id == |accepted| - |old(tasksQueue)| && tasksQueue == old(tasksQueue)[1..]
              else threads[w].Waiting? && tasksQueue == []
      ensures started == old(started) && accepted == old(accepted)
    {
      hide Inv;
      EnterKeeps(View(), w);
      HeldIsCounted(View(), w);
      RecordLast(w);
      if !started {
        threads := threads[w := Exited];
        return;
      }
      if tasksQueue == [] {
        threads := threads[w := Waiting];
        return;
      }
      threads := threads[w := Busy(|accepted| - |tasksQueue|)];
      tasksQueue := tasksQueue[1..];
      busyThreadsCounter := busyThreadsCounter + 1;
    }
  }

  /** A worker that brings a task back is counted busy, so the counter can be taken down. */
  lemma HeldIsCounted<T>(s: State<T>, w: nat)
    requires Inv(s) && w < |s.workers|
    ensures Holds(s.workers[w]) ==> s.busy > 0
    ensures |s.accepted| >= |s.queue|
  {
    hide Count;
    CountPositive(s.workers, Holds);
  }
}

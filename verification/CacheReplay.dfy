/**
 * What becomes of a request that request-cache/file_cache.cpp has saved: in every interleaving it
 * is on its way to waiting_, in it, with the handler, or has been replayed, once and as it was;
 * and it can always still be replayed.
 */
module CacheReplay {
  import opened Bytes
  import opened StoredImage
  import opened CacheProtocol

  // ----- where a saved request is -----

  /** Request j has linked k and is about to queue it. */
  predicate Carries(s: State, j: JobId, k: Key) {
    && j in s.jobs
    && match s.jobs[j].pc
       case Linked(_, _, link, _, _) => link == k
       case Unactivating(_, _, link, _) => link == k
       case Inserting(_, link, _) => link == k
       case _ => false
  }

  predicate InQueue(w: seq<Entry>, k: Key) {
    exists i | 0 <= i < |w| :: w[i].key == k
  }

  /** The request saved under k has not been replayed yet: its saver carries k to waiting_, or k is
      in waiting_, or the handler has taken it. */
  predicate Pending(s: State, k: Key) {
    && k in s.place
    && match s.place[k]
       case Spare(j) => Carries(s, j, k)
       case Queued => InQueue(s.waiting, k)
       case Taken => !s.handler.Idle? && s.handler.e.key == k
       case _ => false
  }

  /** Event e rebuilds request req from the entry of key k. */
  ghost predicate IsReplay(s: State, e: Event, k: Key, req: StoredRequest)
    requires Legal(s, e)
  {
    e.Rebuild? && s.handler.e.key == k && After(s, e).jobs[e.j].req == Some(req)
  }

  /** How often a run does so. */
  ghost function Replays(s: State, events: seq<Event>, k: Key, req: StoredRequest): nat
    requires Runs(s, events)
    decreases |events|
  {
    if events == [] then 0
    else (if IsReplay(s, events[0], k, req) then 1 else 0) + Replays(After(s, events[0]), events[1..], k, req)
  }

  // ----- one event -----

  /** A request's own event leaves the keys of others, of the queue and of the handler pending. */
  lemma OthersStayPending(s: State, s': State, touched: set<Key>, j: JobId, k: Key)
    requires Step(s, s', touched, j) && Pending(s, k) && !PlacedAt(s, k, Spare(j))
    ensures Pending(s', k)
  {
    hide InQueue;
    assert k !in touched;
    assert SameAt(s, s', k);
  }

  /** Only two events are open to a request that carries a link. */
  lemma CarrierPc(s: State, e: Event, k: Key)
    requires IsJobEvent(e) && Legal(s, e) && Pending(s, k) && PlacedAt(s, k, Spare(e.j))
    ensures Carries(s, e.j, k) && (e.SaveDropTemp? || e.EraseActive?)
  {
    hide InQueue, Rebuilt, Parse, Acceptable;
  }

  lemma DropTempCarries(s: State, j: JobId, k: Key)
    requires JobOk(s, j) && Carries(s, j, k) && s.jobs[j].pc.Linked? && PlacedAt(s, k, Spare(j))
    ensures PlacedAt(DoDropTemp(s, j), k, Spare(j)) && Carries(DoDropTemp(s, j), j, k)
  {
    hide Image, Acceptable, WholeOk, LinkOk, FoundOk;
  }

  lemma EraseCarries(s: State, j: JobId, k: Key)
    requires Carries(s, j, k) && s.jobs[j].pc.Unactivating? && PlacedAt(s, k, Spare(j))
    ensures PlacedAt(DoErase(s, j), k, Spare(j)) && Carries(DoErase(s, j), j, k)
  {
  }

  /** A request carries its link from step to step. */
  lemma CarrierMoves(s: State, e: Event, k: Key)
    requires Inv(s) && IsJobEvent(e) && Legal(s, e) && Pending(s, k) && PlacedAt(s, k, Spare(e.j))
    ensures Pending(After(s, e), k) && PlacedAt(After(s, e), k, Spare(e.j))
    ensures e.SaveDropTemp? || e.EraseActive?
  {
    hide Image, Acceptable, Rebuilt, Parse, Inv, Tables, WaitingOk, HandlerOk, JobOk, DoDropTemp, DoErase;
    InvJob(s, e.j);
    CarrierPc(s, e, k);
    if e.SaveDropTemp? {
      JobParts(s, e.j);
      DropTempCarries(s, e.j, k);
    } else {
      EraseCarries(s, e.j, k);
    }
  }

  lemma LinkOfInserting(s: State, j: JobId)
    requires JobOk(s, j) && j in s.jobs && s.jobs[j].pc.Inserting?
    ensures PlacedAt(s, s.jobs[j].pc.link, Spare(j))
  {
    hide Image, Acceptable;
  }

  lemma InsertQueues(s: State, j: JobId, k: Key)
    requires JobOk(s, j) && j in s.jobs && s.jobs[j].pc.Inserting? && Pending(s, k)
    ensures Pending(DoInsert(s, j), k)
    ensures s.place[k] == Spare(j) ==> DoInsert(s, j).place[k] == Queued
  {
    hide Enqueue, JobOk, InQueue;
    LinkOfInserting(s, j);
    var p := EnqueueAt(s.waiting, NewEntry(s, j));
    StaysInQueue(s.waiting, NewEntry(s, j), p, k);
  }

  lemma StaysInQueue(w: seq<Entry>, e: Entry, p: nat, k: Key)
    requires p <= |w|
    ensures InQueue(w, k) || e.key == k ==> InQueue(w[..p] + [e] + w[p..], k)
  {
    var q := w[..p] + [e] + w[p..];
    if e.key == k {
      assert q[p].key == k;
    } else if i :| 0 <= i < |w| && w[i].key == k {
      assert q[if i < p then i else i + 1].key == k;
    }
  }

  lemma QueueMovesUp(w: seq<Entry>, k: Key)
    requires InQueue(w, k) && w[0].key != k
    ensures InQueue(w[1..], k)
  {
    var i :| 0 <= i < |w| && w[i].key == k;
    assert w[1..][i - 1].key == k;
  }

  lemma FirstIsQueued(s: State)
    requires WaitingOk(s) && s.waiting != []
    ensures PlacedAt(s, s.waiting[0].key, Queued)
  {
    hide EntryOk;
  }

  lemma PopKeepsPending(s: State, k: Key)
    requires WaitingOk(s) && s.handler.Idle? && s.waiting != [] && Pending(s, k)
    ensures Pending(DoPop(s), k)
    ensures s.waiting[0].key == k ==> DoPop(s).place[k] == Taken
  {
    hide WaitingOk, InQueue;
    FirstIsQueued(s);
    if s.place[k].Queued? && s.waiting[0].key != k {
      QueueMovesUp(s.waiting, k);
    }
  }

  lemma OpenKeepsPending(s: State, k: Key)
    requires s.handler.Popped? && Pending(s, k)
    ensures Pending(DoOpen(s), k)
  {
    hide InQueue;
  }

  lemma RegisterKeepsPending(s: State, k: Key)
    requires s.handler.Opened? && Pending(s, k)
    ensures Pending(DoRegister(s), k)
  {
    hide InQueue, InsertActive;
  }

  /** Rebuilding ends the wait of the handler's key, and of no other. */
  lemma RebuildReplays(s: State, j: JobId, k: Key)
    requires HandlerOk(s) && s.handler.Registered? && j !in s.jobs && s.handler.inode in s.inodes && Pending(s, k)
    ensures if s.handler.e.key == k then
              k in s.saved && DoRebuild(s, j).jobs[j].req == Some(s.saved[k]) && Settled(DoRebuild(s, j), k)
            else Pending(DoRebuild(s, j), k)
  {
    hide InQueue, HandlerOk, Rebuilt, Acceptable;
    RebuiltIsSaved(s);
  }

  lemma JobEventStaysPending(s: State, e: Event, k: Key)
    requires Inv(s) && IsJobEvent(e) && Legal(s, e) && Pending(s, k)
    ensures Pending(After(s, e), k)
  {
    hide Inv, Legal, After, Pending, JobOk, Tables, Step, Touched;
    InvJob(s, e.j);
    if PlacedAt(s, k, Spare(e.j)) {
      CarrierMoves(s, e, k);
    } else {
      JobEventSteps(s, e);
      OthersStayPending(s, After(s, e), Touched(s, e), e.j, k);
    }
  }

  lemma StaysPending(s: State, e: Event, k: Key, req: StoredRequest)
    requires Inv(s) && Legal(s, e) && Pending(s, k) && k in s.saved && s.saved[k] == req
    ensures if IsReplay(s, e, k, req) then Settled(After(s, e), k) else Pending(After(s, e), k)
  {
    hide Inv, JobOk, WaitingOk, HandlerOk, Tables, Pending, Settled, Rebuilt, Parse, Acceptable,
      DoPop, DoOpen, DoRegister, DoRebuild, DoInsert;
    if IsJobEvent(e) {
      JobEventStaysPending(s, e, k);
    } else {
      InvJob(s, if e.InsertWaiting? then e.j else 0);
      match e
      case Tick(time) => TickKeepsPending(s, time, k);
      case InsertWaiting(j) => InsertQueues(s, j, k);
      case Pop => PopKeepsPending(s, k);
      case Open => OpenKeepsPending(s, k);
      case Register => RegisterKeepsPending(s, k);
      case Rebuild(j) => RebuildReplays(s, j, k);
      case RebuildFails(erased) => ParseNeverFails(s, erased);
    }
  }

  lemma TickKeepsPending(s: State, time: Time, k: Key)
    requires Pending(s, k)
    ensures Pending(s.(now := time), k)
  {
  }

  /** A key that is settled is not replayed, nor will it be again. */
  lemma StaysSettled(s: State, e: Event, k: Key, req: StoredRequest)
    requires Inv(s) && Legal(s, e) && Settled(s, k)
    ensures !IsReplay(s, e, k, req) && Settled(After(s, e), k)
  {
    hide Inv, Legal, After, Pending, Settled, Grows, JobOk, Tables, WaitingOk, HandlerOk;
    InvJob(s, 0);
    EventGrows(s, e);
    GrowsAt(s, After(s, e), k);
    HandlerKeyIsTaken(s, k);
    RebuildHasHandler(s, e);
  }

  lemma RebuildHasHandler(s: State, e: Event)
    requires Legal(s, e)
    ensures e.Rebuild? ==> s.handler.Registered?
  {
    hide Rebuilt, Parse, Acceptable;
  }

  lemma GrowsAt(s: State, s': State, k: Key)
    requires Grows(s, s') && Settled(s, k)
    ensures Settled(s', k)
  {
    hide Settled;
  }

  lemma HandlerKeyIsTaken(s: State, k: Key)
    requires HandlerOk(s) && Settled(s, k)
    ensures !s.handler.Idle? ==> s.handler.e.key != k
  {
    hide EntryOk;
  }

  lemma SettledNotPending(s: State, k: Key)
    requires Settled(s, k)
    ensures !Pending(s, k)
  {
  }

  // ----- every run -----

  lemma {:induction false} SettledForever(s: State, events: seq<Event>, k: Key, req: StoredRequest)
    requires Inv(s) && Runs(s, events) && Settled(s, k)
    ensures Replays(s, events, k, req) == 0 && !Pending(End(s, events), k)
    decreases |events|
  {
    hide Inv, Legal, After, Pending, Settled, Grows, IsReplay;
    SettledNotPending(s, k);
    if events != [] {
      StaysSettled(s, events[0], k, req);
      EventKeeps(s, events[0]);
      SettledForever(After(s, events[0]), events[1..], k, req);
    }
  }

  lemma SavedStays(s: State, s': State, k: Key)
    requires Grows(s, s') && k in s.saved
    ensures k in s'.saved && s'.saved[k] == s.saved[k]
  {
    hide Settled;
  }

  /** Nothing saved is lost or doubled: at the end of any run a request that was pending is either
      pending still or has been replayed, exactly once, as it was saved. */
  lemma {:induction false} ReplayedOnce(s: State, events: seq<Event>, k: Key, req: StoredRequest)
    requires Inv(s) && Runs(s, events) && Pending(s, k) && k in s.saved && s.saved[k] == req
    ensures Replays(s, events, k, req) + (if Pending(End(s, events), k) then 1 else 0) == 1
    decreases |events|
  {
    hide Inv, Legal, After, Pending, Settled, Grows, IsReplay;
    if events != [] {
      var s' := After(s, events[0]);
      StaysPending(s, events[0], k, req);
      EventKeeps(s, events[0]);
      EventGrows(s, events[0]);
      SavedStays(s, s', k);
      if IsReplay(s, events[0], k, req) {
        SettledForever(s', events[1..], k, req);
      } else {
        ReplayedOnce(s', events[1..], k, req);
      }
    }
  }

  lemma LinkSaves(s: State, j: JobId, t: Thread)
    requires KeysOk(s) && Legal(s, SaveLink(j, t))
    ensures j in s.jobs && s.jobs[j].req.Some?
    ensures var s1, k := After(s, SaveLink(j, t)), NextKey(s, t);
            k in s1.saved && s1.saved[k] == s.jobs[j].req.value && Pending(s1, k)
  {
    hide NextKey, KeysOk, Rebuilt, Parse, Acceptable;
  }

  /**
   * End to end: request j is linked under a fresh key while it is being saved. From then on, in
   * every run, it is pending or has been replayed, exactly once, with the same headers, cookies,
   * variables, body, files and arguments.
   */
  lemma SavedIsReplayedOnce(s: State, j: JobId, t: Thread, later: seq<Event>)
    requires Inv(s) && Legal(s, SaveLink(j, t)) && Runs(After(s, SaveLink(j, t)), later)
    ensures var s1, k, req := After(s, SaveLink(j, t)), NextKey(s, t), s.jobs[j].req.value;
            Replays(s1, later, k, req) + (if Pending(End(s1, later), k) then 1 else 0) == 1
  {
    hide Inv, Legal, After, Pending;
    InvKeys(s);
    LinkSaves(s, j, t);
    EventKeeps(s, SaveLink(j, t));
    ReplayedOnce(After(s, SaveLink(j, t)), later, NextKey(s, t), s.jobs[j].req.value);
  }

  // ----- replay is always possible -----

  /** How many events of its saver a key is from waiting_. */
  function Stage(s: State, k: Key): nat
    requires Pending(s, k)
  {
    if !s.place[k].Spare? then 0
    else
      var pc := s.jobs[s.place[k].j].pc;
      if pc.Linked? then 3 else if pc.Unactivating? then 2 else 1
  }

  function IndexOf(w: seq<Entry>, k: Key): nat {
    if w == [] || w[0].key == k then 0 else 1 + IndexOf(w[1..], k)
  }

  /** How many entries the handler still has to take, up to this key's own. */
  function Ahead(s: State, k: Key): nat
    requires Pending(s, k)
  {
    if s.place[k].Queued? then 1 + IndexOf(s.waiting, k) else 0
  }

  /** How many events the handler is from looking at waiting_ again. */
  function Phase(h: Handler): nat {
    match h
    case Idle => 0
    case Registered(_, _) => 1
    case Opened(_, _) => 2
    case Popped(_) => 3
  }

  /** Whether the clock has to go on first. */
  function Early(s: State): nat {
    if s.handler.Idle? && s.waiting != [] && s.waiting[0].due > s.now then 1 else 0
  }

  ghost predicate Closer(s: State, s': State, k: Key) {
    && Pending(s, k) && Pending(s', k)
    && (|| Stage(s', k) < Stage(s, k)
        || (Stage(s', k) == Stage(s, k)
            && (|| Ahead(s', k) < Ahead(s, k)
                || (Ahead(s', k) == Ahead(s, k)
                    && (|| Phase(s'.handler) < Phase(s.handler)
                        || (Phase(s'.handler) == Phase(s.handler) && Early(s') < Early(s)))))))
  }

  lemma CarrierNext(s: State, j: JobId, k: Key) returns (e: Event)
    requires Inv(s) && Pending(s, k) && s.place[k] == Spare(j)
    ensures Legal(s, e) && !e.Rebuild? && Closer(s, After(s, e), k)
  {
    hide Inv, DoDropTemp, DoErase, DoInsert, Ahead, JobOk, Tables, WaitingOk, HandlerOk;
    InvJob(s, j);
    match s.jobs[j].pc
    case Linked(_, _, _, _, _) =>
      e := SaveDropTemp(j);
      CarrierMoves(s, e, k);
      DropTempStage(s, j);
    case Unactivating(_, _, _, _) =>
      e := EraseActive(j);
      CarrierMoves(s, e, k);
      EraseStage(s, j);
    case Inserting(_, _, _) =>
      e := InsertWaiting(j);
      InsertQueues(s, j, k);
  }

  lemma DropTempStage(s: State, j: JobId)
    requires j in s.jobs && s.jobs[j].pc.Linked?
    ensures var s' := DoDropTemp(s, j); j in s'.jobs && (s'.jobs[j].pc.Unactivating? || s'.jobs[j].pc.Inserting?)
  {
  }

  lemma EraseStage(s: State, j: JobId)
    requires j in s.jobs && s.jobs[j].pc.Unactivating?
    ensures var s' := DoErase(s, j); j in s'.jobs && s'.jobs[j].pc.Inserting?
  {
  }

  /** The handler's next event, when it has an entry in hand. */
  lemma HandlerNext(s: State, k: Key) returns (e: Event)
    requires Inv(s) && Pending(s, k) && !s.place[k].Spare? && !s.handler.Idle?
    ensures Legal(s, e)
    ensures (k in s.saved && IsReplay(s, e, k, s.saved[k])) || Closer(s, After(s, e), k)
  {
    hide Inv, Pending, Rebuilt, Parse, Acceptable, HandlerOk, WaitingOk, Tables, JobOk, Closer, IsReplay,
      DoOpen, DoRegister, DoRebuild;
    InvJob(s, 0);
    match s.handler
    case Popped(_) =>
      e := Open;
      OpenIsCloser(s, k);
    case Opened(_, _) =>
      e := Register;
      RegisterIsCloser(s, k);
    case Registered(_, _) =>
      var j := FreshJob(s.jobs.Keys);
      RebuiltIsSaved(s);
      e := Rebuild(j);
      RebuildIsCloser(s, j, k);
  }

  lemma OpenIsCloser(s: State, k: Key)
    requires s.handler.Popped? && Pending(s, k) && !s.place[k].Spare?
    ensures Closer(s, DoOpen(s), k)
  {
    hide IndexOf, InQueue;
    OpenKeepsPending(s, k);
  }

  lemma RegisterIsCloser(s: State, k: Key)
    requires s.handler.Opened? && Pending(s, k) && !s.place[k].Spare?
    ensures Closer(s, DoRegister(s), k)
  {
    hide IndexOf, InQueue;
    RegisterKeepsPending(s, k);
  }

  lemma RebuildIsCloser(s: State, j: JobId, k: Key)
    requires HandlerOk(s) && Legal(s, Rebuild(j)) && Pending(s, k) && !s.place[k].Spare?
    ensures (k in s.saved && IsReplay(s, Rebuild(j), k, s.saved[k])) || Closer(s, DoRebuild(s, j), k)
  {
    hide IndexOf, InQueue, HandlerOk, Rebuilt, Parse, Acceptable;
    RebuildReplays(s, j, k);
  }

  lemma {:induction false} FreshJob(used: set<JobId>) returns (j: JobId)
    ensures j !in used && forall i | i in used :: i < j
    decreases used
  {
    if used == {} {
      j := 0;
    } else {
      var i :| i in used;
      var rest := FreshJob(used - {i});
      j := if i < rest then rest else i + 1;
      assert used == (used - {i}) + {i};
    }
  }

  /** The next event towards the first entry, when the handler is idle. */
  lemma QueueNext(s: State, k: Key) returns (e: Event)
    requires Inv(s) && Pending(s, k) && s.place[k].Queued? && s.handler.Idle?
    ensures Legal(s, e) && !e.Rebuild? && Closer(s, After(s, e), k)
  {
    hide Inv, WaitingOk, HandlerOk, Tables, JobOk, DoPop, Closer;
    InvJob(s, 0);
    if s.waiting[0].due > s.now {
      e := Tick(s.waiting[0].due);
      TickIsCloser(s, k);
    } else {
      e := Pop;
      PopIsCloser(s, k);
    }
  }

  lemma TickIsCloser(s: State, k: Key)
    requires Pending(s, k) && s.handler.Idle? && s.waiting != [] && s.waiting[0].due > s.now
    ensures Closer(s, s.(now := s.waiting[0].due), k)
  {
    hide InQueue, IndexOf;
  }

  lemma PopIsCloser(s: State, k: Key)
    requires WaitingOk(s) && Pending(s, k) && s.place[k].Queued? && s.handler.Idle?
    ensures Closer(s, DoPop(s), k)
  {
    hide WaitingOk;
    PopKeepsPending(s, k);
    if s.waiting[0].key != k {
      QueueMovesUp(s.waiting, k);
      FirstIsQueued(s);
    }
  }

  /**
   * Nothing saved ever gets stuck: from every state in which a request is pending, its saver, the
   * clock and the handler alone can bring it to be replayed.
   */
  lemma {:induction false} CanBeReplayed(s: State, k: Key) returns (events: seq<Event>)
    requires Inv(s) && Pending(s, k) && k in s.saved
    ensures Runs(s, events) && Replays(s, events, k, s.saved[k]) == 1
    decreases Stage(s, k), Ahead(s, k), Phase(s.handler), Early(s)
  {
    hide Inv, Legal, After, IsReplay, Grows;
    var e: Event;
    if s.place[k].Spare? {
      e := CarrierNext(s, s.place[k].j, k);
    } else if s.handler.Idle? {
      e := QueueNext(s, k);
    } else {
      e := HandlerNext(s, k);
    }
    var s' := After(s, e);
    if IsReplay(s, e, k, s.saved[k]) {
      events := [e];
      OneEvent(s, e, k);
    } else {
      EventKeeps(s, e);
      EventGrows(s, e);
      SavedStays(s, s', k);
      var rest := CanBeReplayed(s', k);
      events := [e] + rest;
      assert events[1..] == rest;
    }
  }

  lemma OneEvent(s: State, e: Event, k: Key)
    requires Legal(s, e) && k in s.saved && IsReplay(s, e, k, s.saved[k])
    ensures Runs(s, [e]) && Replays(s, [e], k, s.saved[k]) == 1
  {
    hide Legal, After, IsReplay;
    assert [e][1..] == [];
  }

  lemma FromRegistered(s: State, j: JobId)
    requires Inv(s) && j !in s.jobs && s.handler.Registered?
    ensures var k := s.handler.e.key;
            k in s.saved && Runs(s, [Rebuild(j)]) && Replays(s, [Rebuild(j)], k, s.saved[k]) == 1
  {
    hide Inv, Tables, JobOk, WaitingOk, HandlerOk, Rebuilt, Parse, Acceptable, Runs, Replays;
    InvJob(s, j);
    RebuiltIsSaved(s);
    OneEvent(s, Rebuild(j), s.handler.e.key);
  }

  lemma FromOpened(s: State, j: JobId)
    requires Inv(s) && j !in s.jobs && s.handler.Opened?
    ensures var k, events := s.handler.e.key, [Register, Rebuild(j)];
            k in s.saved && Runs(s, events) && Replays(s, events, k, s.saved[k]) == 1
  {
    hide Inv, Runs, Replays, InsertActive;
    var k := s.handler.e.key;
    EventKeeps(s, Register);
    FromRegistered(DoRegister(s), j);
    assert [Register] + [Rebuild(j)] == [Register, Rebuild(j)];
    Prefixed(s, Register, [Rebuild(j)], k, s.saved[k]);
  }

  lemma FromPopped(s: State, j: JobId)
    requires Inv(s) && j !in s.jobs && s.handler.Popped?
    ensures var k, events := s.handler.e.key, [Open, Register, Rebuild(j)];
            k in s.saved && Runs(s, events) && Replays(s, events, k, s.saved[k]) == 1
  {
    hide Inv, Runs, Replays;
    var k := s.handler.e.key;
    EventKeeps(s, Open);
    FromOpened(DoOpen(s), j);
    assert [Open] + [Register, Rebuild(j)] == [Open, Register, Rebuild(j)];
    Prefixed(s, Open, [Register, Rebuild(j)], k, s.saved[k]);
  }

  /** In particular, when the handler is idle and the first entry is due, four events replay it. */
  lemma DueIsReplayed(s: State, j: JobId)
    requires Inv(s) && s.handler.Idle? && s.waiting != [] && s.waiting[0].due <= s.now && j !in s.jobs
    ensures var k, events := s.waiting[0].key, [Pop, Open, Register, Rebuild(j)];
            k in s.saved && Runs(s, events) && Replays(s, events, k, s.saved[k]) == 1
  {
    hide Inv, Runs, Replays;
    var k := s.waiting[0].key;
    EventKeeps(s, Pop);
    FromPopped(DoPop(s), j);
    assert [Pop] + [Open, Register, Rebuild(j)] == [Pop, Open, Register, Rebuild(j)];
    Prefixed(s, Pop, [Open, Register, Rebuild(j)], k, s.saved[k]);
  }

  lemma Prefixed(s: State, e: Event, events: seq<Event>, k: Key, req: StoredRequest)
    requires Legal(s, e) && !e.Rebuild? && Runs(After(s, e), events)
    ensures Runs(s, [e] + events)
    ensures Replays(s, [e] + events, k, req) == Replays(After(s, e), events, k, req)
  {
    hide Legal, After;
    assert ([e] + events)[1..] == events;
  }
}

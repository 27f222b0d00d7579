/**
 * The directory that request-cache/file_cache.cpp keeps its files in: in every run each name in it
 * is some request's own, or leads to a saved request that is still to be replayed, so that nothing is
 * left behind.
 */
module CacheFiles {
  import opened Bytes
  import opened StoredImage
  import opened CacheProtocol
  import opened CacheReplay

  /** The name of a temporary file that save has written and not yet removed. */
  function TempOf(pc: Pc): Option<Key> {
    match pc
    case Linking(_, key, _, temp) => if temp then Some(key) else None
    case Linked(_, key, _, _, temp) => if temp then Some(key) else None
    case Failed(key, _, temp) => if temp then Some(key) else None
    case _ => None
  }

  /** k is the name of a request's own file, or of its temporary one. */
  predicate Owned(s: State, k: Key) {
    k in s.place &&
    match s.place[k]
    case Held(j) => j in s.jobs && s.jobs[j].backing.Some? && s.jobs[j].backing.value.0 == k
    case Temp(j) => j in s.jobs && TempOf(s.jobs[j].pc) == Some(k)
    case _ => false
  }

  predicate NoLeak(s: State) {
    forall k | k in s.disk :: Owned(s, k) || Pending(s, k)
  }

  // ----- one event -----

  /** A request moves on and still answers for what it answered for. */
  lemma MovedNoLeak(s: State, s': State, j: JobId)
    requires NoLeak(s) && s'.disk == s.disk && s'.waiting == s.waiting && s'.handler == s.handler
    requires forall k | k in s.disk && k in s.place :: k in s'.place && s'.place[k] == s.place[k]
    requires j in s.jobs && j in s'.jobs && forall j' | j' in s.jobs && j' != j :: j' in s'.jobs && s'.jobs[j'] == s.jobs[j']
    requires s'.jobs[j].backing == s.jobs[j].backing && TempOf(s'.jobs[j].pc) == TempOf(s.jobs[j].pc)
    requires forall k | Carries(s, j, k) :: Carries(s', j, k)
    ensures NoLeak(s')
  {
    hide TempOf, InQueue, Carries;
    forall k | k in s'.disk
      ensures Owned(s', k) || Pending(s', k)
    {
      assert Owned(s, k) || Pending(s, k);
      if k in s.place && s.place[k] == Spare(j) {
        assert Carries(s', j, k);
      }
      CarriesAlike(s, s', j, k);
    }
  }

  lemma CarriesAlike(s: State, s': State, j: JobId, k: Key)
    requires forall j' | j' in s.jobs && j' != j :: j' in s'.jobs && s'.jobs[j'] == s.jobs[j']
    ensures forall i | i != j && Carries(s, i, k) :: Carries(s', i, k)
  {
  }

  lemma ArriveNoLeak(s: State, j: JobId, req: StoredRequest)
    requires NoLeak(s) && j !in s.jobs
    ensures NoLeak(s.(jobs := s.jobs[j := Job(Some(req), None, 1, Live)]))
  {
    hide TempOf, InQueue;
  }

  lemma CreateNoLeak(s: State, j: JobId, t: Thread)
    requires NoLeak(s) && Tables(s) && j !in s.jobs
    ensures NoLeak(DoCreate(s, j, t))
  {
    hide TempOf, InQueue, Tables, NextKey;
    DrawTables(s, t, Held(j));
    var s' := DoCreate(s, j, t);
    forall k | k in s.disk
      ensures Owned(s', k) || Pending(s', k)
    {
      CarriesAlike(s, s', j, k);
    }
  }

  lemma ActivateNoLeak(s: State, j: JobId)
    requires NoLeak(s) && j in s.jobs && s.jobs[j].pc.Creating? && s.jobs[j].backing.Some?
    ensures NoLeak(DoActivate(s, j))
  {
    hide NoLeak, InsertActive;
    MovedNoLeak(s, DoActivate(s, j), j);
  }

  lemma AttachNoLeak(s: State, j: JobId, req: StoredRequest)
    requires NoLeak(s) && j in s.jobs && s.jobs[j].pc.Attaching? && s.jobs[j].backing.Some?
    ensures NoLeak(DoAttach(s, j, req))
  {
    hide NoLeak, Image;
    MovedNoLeak(s, DoAttach(s, j, req), j);
  }

  lemma DestroyNoLeak(s: State, j: JobId, delay: Time)
    requires NoLeak(s) && j in s.jobs && (s.jobs[j].pc.Live? || s.jobs[j].pc.Attaching?)
    ensures NoLeak(With(s, j, Saving(delay)))
  {
    hide NoLeak;
    MovedNoLeak(s, With(s, j, Saving(delay)), j);
  }

  lemma LookupNoLeak(s: State, j: JobId)
    requires NoLeak(s) && j in s.jobs && s.jobs[j].pc.Lookup?
    ensures NoLeak(DoLookup(s, j))
  {
    hide NoLeak;
    MovedNoLeak(s, DoLookup(s, j), j);
  }

  lemma DrawKeepsPlaces(s: State, t: Thread, p: Place)
    requires Tables(s)
    ensures var s' := Draw(s, t, p);
            && s'.disk == s.disk && s'.waiting == s.waiting && s'.handler == s.handler && s'.jobs == s.jobs
            && forall k | k in s.disk && k in s.place :: k in s'.place && s'.place[k] == s.place[k]
  {
    hide Tables, NextKey;
    DrawTables(s, t, p);
  }

  lemma BeginNoLeak(s: State, j: JobId, t: Thread)
    requires NoLeak(s) && Tables(s) && j in s.jobs && s.jobs[j].pc.Saving?
    ensures NoLeak(DoBegin(s, j, t))
  {
    hide NoLeak, Tables, NextKey, Draw;
    if NeedsKey(s, j) {
      DrawKeepsPlaces(s, t, Temp(j));
    }
    MovedNoLeak(s, DoBegin(s, j, t), j);
  }

  lemma WriteNoLeak(s: State, j: JobId)
    requires NoLeak(s) && JobOk(s, j) && j in s.jobs && s.jobs[j].pc.Writing? && s.jobs[j].req.Some?
    ensures NoLeak(DoWrite(s, j))
  {
    hide JobOk, Image, InQueue;
    if s.jobs[j].backing.Some? {
      hide NoLeak;
      MovedNoLeak(s, DoWrite(s, j), j);
    } else {
      TempIsPlaced(s, j);
    }
  }

  lemma TempIsPlaced(s: State, j: JobId)
    requires JobOk(s, j) && j in s.jobs && s.jobs[j].pc.Writing? && s.jobs[j].backing.None?
    ensures PlacedAt(s, s.jobs[j].pc.key, Temp(j))
  {
    hide Image, Acceptable, FoundOk, WholeOk;
  }

  lemma LinkNoLeak(s: State, j: JobId, t: Thread)
    requires NoLeak(s) && Tables(s) && j in s.jobs && s.jobs[j].pc.Linking? && s.jobs[j].req.Some?
    requires s.jobs[j].pc.key in s.disk
    ensures NoLeak(DoLink(s, j, t))
  {
    hide Tables, NextKey, InQueue;
    DrawTables(s, t, Spare(j));
  }

  lemma LinkFailsNoLeak(s: State, j: JobId, t: Thread)
    requires NoLeak(s) && Tables(s) && j in s.jobs && s.jobs[j].pc.Linking?
    ensures NoLeak(DoLinkFails(s, j, t))
  {
    hide NoLeak, Tables, NextKey;
    DrawTables(s, t, Gone);
    MovedNoLeak(s, DoLinkFails(s, j, t), j);
  }

  lemma DropTempNoLeak(s: State, j: JobId)
    requires NoLeak(s) && j in s.jobs && (s.jobs[j].pc.Linked? || s.jobs[j].pc.Failed?)
    ensures NoLeak(DoDropTemp(s, j))
  {
    hide InQueue;
  }

  lemma EraseNoLeak(s: State, j: JobId)
    requires NoLeak(s) && j in s.jobs && (s.jobs[j].pc.Unactivating? || s.jobs[j].pc.Erasing?)
    ensures NoLeak(DoErase(s, j))
  {
    hide NoLeak;
    MovedNoLeak(s, DoErase(s, j), j);
  }

  lemma InsertNoLeak(s: State, j: JobId)
    requires NoLeak(s) && JobOk(s, j) && j in s.jobs && s.jobs[j].pc.Inserting?
    ensures NoLeak(DoInsert(s, j))
  {
    hide Enqueue, JobOk, InQueue, Pending;
    LinkOfInserting(s, j);
    var s' := DoInsert(s, j);
    forall k | k in s'.disk
      ensures Owned(s', k) || Pending(s', k)
    {
      if Pending(s, k) {
        InsertQueues(s, j, k);
      }
    }
  }

  lemma UnlinkNoLeak(s: State, k: Key)
    requires NoLeak(s)
    ensures NoLeak(Unlink(s, k))
  {
    hide InQueue, TempOf;
  }

  /** A request that is done answers for nothing any more. */
  lemma GoneNoLeak(s: State, j: JobId)
    requires NoLeak(s) && j in s.jobs && s.jobs[j].pc.Closing?
    requires s.jobs[j].backing.Some? ==> s.jobs[j].backing.value.0 !in s.disk
    ensures NoLeak(s.(jobs := s.jobs - {j}))
  {
    hide InQueue;
  }

  lemma CloseNoLeak(s: State, j: JobId)
    requires NoLeak(s) && j in s.jobs && s.jobs[j].pc.Closing?
    ensures NoLeak(DoClose(s, j))
  {
    hide NoLeak;
    match s.jobs[j].backing
    case None => GoneNoLeak(s, j);
    case Some((k, _)) =>
      UnlinkNoLeak(s, k);
      GoneNoLeak(Unlink(s, k), j);
  }

  lemma PopNoLeak(s: State)
    requires NoLeak(s) && WaitingOk(s) && s.handler.Idle? && s.waiting != []
    ensures NoLeak(DoPop(s))
  {
    hide WaitingOk, Pending;
    FirstIsQueued(s);
    var s' := DoPop(s);
    forall k | k in s'.disk
      ensures Owned(s', k) || Pending(s', k)
    {
      if Pending(s, k) {
        PopKeepsPending(s, k);
      }
    }
  }

  lemma OpenNoLeak(s: State)
    requires NoLeak(s) && HandlerOk(s) && s.handler.Popped?
    ensures NoLeak(DoOpen(s))
  {
    hide HandlerOk, Pending;
    HandlerHasFile(s);
    var s' := DoOpen(s);
    forall k | k in s'.disk
      ensures Owned(s', k) || Pending(s', k)
    {
      if Pending(s, k) {
        OpenKeepsPending(s, k);
      }
    }
  }

  lemma HandlerHasFile(s: State)
    requires HandlerOk(s) && !s.handler.Idle?
    ensures s.handler.e.key in s.disk && PlacedAt(s, s.handler.e.key, Taken)
  {
    hide Image, Acceptable;
  }

  lemma RegisterNoLeak(s: State)
    requires NoLeak(s) && s.handler.Opened?
    ensures NoLeak(DoRegister(s))
  {
    hide Pending, InsertActive;
    var s' := DoRegister(s);
    forall k | k in s'.disk
      ensures Owned(s', k) || Pending(s', k)
    {
      if Pending(s, k) {
        RegisterKeepsPending(s, k);
      }
    }
  }

  lemma RebuildNoLeak(s: State, j: JobId)
    requires NoLeak(s) && HandlerOk(s) && s.handler.Registered? && j !in s.jobs && s.handler.inode in s.inodes
    ensures NoLeak(DoRebuild(s, j))
  {
    hide Pending, HandlerOk, Rebuilt;
    HandlerHasFile(s);
    var s' := DoRebuild(s, j);
    forall k | k in s'.disk
      ensures Owned(s', k) || Pending(s', k)
    {
      if Pending(s, k) {
        RebuildReplays(s, j, k);
      }
    }
  }

  lemma JobEventNoLeak(s: State, e: Event)
    requires IsJobEvent(e) && Tables(s) && JobOk(s, e.j) && Legal(s, e) && NoLeak(s)
    ensures NoLeak(After(s, e))
  {
    hide NoLeak, JobOk, Tables, Acceptable, DoCreate, DoActivate, DoAttach, DoBegin, DoLookup, DoWrite, DoLink,
         DoLinkFails, DoDropTemp, DoErase, DoClose, With;
    match e
    case Arrive(j, req) => ArriveNoLeak(s, j, req);
    case Create(j, t) => CreateNoLeak(s, j, t);
    case Activate(j) => ActivateNoLeak(s, j);
    case AttachDone(j, req) => AttachNoLeak(s, j, req);
    case AttachFail(j) => DestroyNoLeak(s, j, 0);
    case Destroy(j, delay) => DestroyNoLeak(s, j, delay);
    case SaveBegin(j, t) => BeginNoLeak(s, j, t);
    case SaveLookup(j) => LookupNoLeak(s, j);
    case SaveWrite(j) => WriteNoLeak(s, j);
    case SaveLink(j, t) => LinkNoLeak(s, j, t);
    case SaveLinkFails(j, t) => LinkFailsNoLeak(s, j, t);
    case SaveDropTemp(j) => DropTempNoLeak(s, j);
    case EraseActive(j) => EraseNoLeak(s, j);
    case Close(j) => CloseNoLeak(s, j);
  }

  lemma EventNoLeak(s: State, e: Event)
    requires Inv(s) && Legal(s, e) && NoLeak(s)
    ensures NoLeak(After(s, e))
  {
    hide Inv, NoLeak, JobOk, Tables, WaitingOk, HandlerOk, Rebuilt, Parse, Acceptable, DoInsert, DoPop, DoOpen,
         DoRegister, DoRebuild;
    InvJob(s, if IsJobEvent(e) || e.InsertWaiting? then e.j else 0);
    if IsJobEvent(e) {
      hide Legal, After;
      JobEventNoLeak(s, e);
    } else {
      match e
      case Tick(time) => TickNoLeak(s, time);
      case InsertWaiting(j) => InsertNoLeak(s, j);
      case Pop => PopNoLeak(s);
      case Open => OpenNoLeak(s);
      case Register => RegisterNoLeak(s);
      case Rebuild(j) => RebuildNoLeak(s, j);
      case RebuildFails(erased) => ParseNeverFails(s, erased);
    }
  }

  lemma TickNoLeak(s: State, time: Time)
    requires NoLeak(s)
    ensures NoLeak(s.(now := time))
  {
    hide InQueue, TempOf, Carries;
    forall k | k in s.disk
      ensures Owned(s.(now := time), k) || Pending(s.(now := time), k)
    {
      TickAlike(s, time, k);
    }
  }

  lemma TickAlike(s: State, time: Time, k: Key)
    ensures Owned(s.(now := time), k) == Owned(s, k) && Pending(s.(now := time), k) == Pending(s, k)
  {
  }

  // ----- every run -----

  lemma {:induction false} RunNoLeak(s: State, events: seq<Event>)
    requires Inv(s) && Runs(s, events) && NoLeak(s)
    ensures NoLeak(End(s, events))
    decreases |events|
  {
    hide Inv, Legal, After, NoLeak;
    if events != [] {
      EventNoLeak(s, events[0]);
      EventKeeps(s, events[0]);
      RunNoLeak(After(s, events[0]), events[1..]);
    }
  }

  /** In every state the daemon can be in, each name in the directory is some request's, or leads to
      one that is to be replayed; so with no request and nothing waiting the directory is empty. */
  lemma NothingLeftBehind(s: State, max: nat, maxString: nat, now: Time, events: seq<Event>)
    requires Reachable(s, max, maxString, now, events)
    ensures forall k | k in s.disk :: Owned(s, k) || Pending(s, k)
    ensures s.jobs == map[] && s.waiting == [] && s.handler.Idle? ==> s.disk == map[]
  {
    hide Owned, Pending, Inv;
    StartInv(max, maxString, now);
    assert NoLeak(Start(max, maxString, now));
    RunNoLeak(Start(max, maxString, now), events);
    if s.jobs == map[] && s.waiting == [] && s.handler.Idle? {
      forall k | k in s.disk
        ensures false
      {
        NobodyToAnswer(s, k);
      }
    }
  }

  lemma NobodyToAnswer(s: State, k: Key)
    requires s.jobs == map[] && s.waiting == [] && s.handler.Idle?
    ensures !Owned(s, k) && !Pending(s, k)
  {
  }
}

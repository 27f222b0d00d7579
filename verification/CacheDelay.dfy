/**
 * What a caller of tryAgain is promised by request-cache/file_cache.cpp: a request that may be
 * retried is queued, and it is replayed no sooner than the delay it asked for.
 */
module CacheDelay {
  import opened Bytes
  import opened StoredImage
  import opened CacheProtocol
  import opened CacheReplay

  /** The delay a request in the middle of save was destroyed with. */
  function DelayOf(pc: Pc): Option<Time> {
    match pc
    case Saving(d) => Some(d)
    case Lookup(d, _) => Some(d)
    case Writing(d, _, _) => Some(d)
    case Linking(d, _, _, _) => Some(d)
    case Linked(d, _, _, _, _) => Some(d)
    case Unactivating(d, _, _, _) => Some(d)
    case Inserting(d, _, _) => Some(d)
    case _ => None
  }

  // ----- the entry that is queued -----

  /** Queueing a request puts one entry into waiting_, due its delay from now on, behind the entries
      due no later; the others stay. */
  lemma OneEntryMore(s: State, j: JobId) returns (p: nat, d: Time, e: Entry)
    requires Inv(s) && Legal(s, InsertWaiting(j))
    ensures p <= |s.waiting| && After(s, InsertWaiting(j)).waiting == s.waiting[..p] + [e] + s.waiting[p..]
    ensures j in s.jobs && DelayOf(s.jobs[j].pc) == Some(d) && 0 < d && e.due == s.now + d
    ensures Carries(s, j, e.key) && e.retries == s.jobs[j].runs
    ensures (forall i | 0 <= i < p :: s.waiting[i].due <= e.due) && (p < |s.waiting| ==> e.due < s.waiting[p].due)
  {
    hide Inv, Enqueue, JobOk, Tables, WaitingOk, HandlerOk;
    InvJob(s, j);
    RetriesAreRuns(s, j);
    d, e := s.jobs[j].pc.delay, NewEntry(s, j);
    p := EnqueueAt(s.waiting, e);
  }

  lemma RetriesAreRuns(s: State, j: JobId)
    requires JobOk(s, j) && j in s.jobs && s.jobs[j].pc.Inserting?
    ensures s.jobs[j].pc.retries == s.jobs[j].runs && 0 < s.jobs[j].pc.delay
  {
    hide Image, Acceptable, LinkOk;
  }

  // ----- the delay is kept -----

  /** Request j is not in save, or has nothing to wait for, or it has delay d. */
  predicate Asks(s: State, j: JobId, d: Time) {
    j in s.jobs ==>
      var x := DelayOf(s.jobs[j].pc);
      x == None || x == Some(0) || x == Some(d)
  }

  /** What a request's own event may make of its delay: keep it, or end save, or begin it with none. */
  predicate DelayFollows(before: Option<Time>, after: Option<Time>) {
    after == None || after == Some(0) || after == before
  }

  lemma BeginDelay(s: State, j: JobId, t: Thread)
    requires j in s.jobs && s.jobs[j].pc.Saving?
    ensures var s' := DoBegin(s, j, t);
            j in s'.jobs && DelayFollows(DelayOf(s.jobs[j].pc), DelayOf(s'.jobs[j].pc))
  {
    hide NextKey, NextGen, Draw;
  }

  lemma WriteDelay(s: State, j: JobId)
    requires j in s.jobs && s.jobs[j].pc.Writing? && s.jobs[j].req.Some?
    ensures var s' := DoWrite(s, j);
            j in s'.jobs && DelayFollows(DelayOf(s.jobs[j].pc), DelayOf(s'.jobs[j].pc))
  {
    hide Image;
  }

  lemma LinkDelay(s: State, j: JobId, t: Thread)
    requires j in s.jobs && s.jobs[j].pc.Linking? && s.jobs[j].req.Some? && s.jobs[j].pc.key in s.disk
    ensures var s' := DoLink(s, j, t);
            j in s'.jobs && DelayOf(s'.jobs[j].pc) == DelayOf(s.jobs[j].pc)
  {
    hide NextKey, NextGen;
  }

  /** An event of its own. */
  lemma OwnDelay(s: State, e: Event)
    requires IsJobEvent(e) && Legal(s, e) && !e.Destroy?
    ensures var s' := After(s, e);
            e.j in s'.jobs ==>
              DelayFollows(if e.j in s.jobs then DelayOf(s.jobs[e.j].pc) else None, DelayOf(s'.jobs[e.j].pc))
  {
    hide Image, Rebuilt, Parse, Acceptable, NextKey, NextGen, InsertActive, DoBegin, DoWrite, DoLink;
    match e
    case Arrive(_, _) =>
    case Create(_, _) =>
    case Activate(_) =>
    case AttachDone(_, _) =>
    case AttachFail(_) =>
    case SaveBegin(j, t) => BeginDelay(s, j, t);
    case SaveLookup(_) =>
    case SaveWrite(j) => WriteDelay(s, j);
    case SaveLink(j, t) => LinkDelay(s, j, t);
    case SaveLinkFails(_, _) =>
    case SaveDropTemp(_) =>
    case EraseActive(_) =>
    case Close(_) =>
  }

  lemma OthersKeepAsking(s: State, s': State, touched: set<Key>, j0: JobId, j: JobId, d: Time)
    requires Step(s, s', touched, j0) && j != j0 && Asks(s, j, d)
    ensures Asks(s', j, d)
  {
    hide Frame;
  }

  lemma HandlerKeepsAsking(s: State, e: Event, j: JobId, d: Time)
    requires Legal(s, e) && !IsJobEvent(e) && Asks(s, j, d)
    ensures Asks(After(s, e), j, d)
  {
    hide Rebuilt, Parse, Acceptable, NewEntry, Enqueue, InsertActive, NewFile, Unlink;
    match e
    case Tick(_) =>
    case InsertWaiting(_) =>
    case Pop =>
    case Open => assert DoOpen(s).jobs == s.jobs by { OpenKeepsJobs(s); }
    case Register =>
    case Rebuild(_) =>
    case RebuildFails(_) => assert After(s, e).jobs == s.jobs by { FailKeepsJobs(s, e); }
  }

  lemma OpenKeepsJobs(s: State)
    requires s.handler.Popped?
    ensures DoOpen(s).jobs == s.jobs
  {
    hide Rebuilt, Parse;
  }

  lemma FailKeepsJobs(s: State, e: Event)
    requires Legal(s, e) && e.RebuildFails?
    ensures After(s, e).jobs == s.jobs
  {
    hide Parse;
  }

  lemma StillAsks(s: State, e: Event, j: JobId, d: Time)
    requires Inv(s) && Legal(s, e) && Asks(s, j, d) && !(e.Destroy? && e.j == j)
    ensures Asks(After(s, e), j, d)
  {
    hide Inv, JobOk, Tables, Step, Touched, After, Legal;
    if !IsJobEvent(e) {
      HandlerKeepsAsking(s, e, j, d);
    } else if e.j == j {
      OwnDelay(s, e);
    } else {
      InvJob(s, e.j);
      JobEventSteps(s, e);
      OthersKeepAsking(s, After(s, e), Touched(s, e), e.j, j, d);
    }
  }

  /** events do not destroy request j once more. */
  predicate Spares(events: seq<Event>, j: JobId) {
    forall e | e in events :: !(e.Destroy? && e.j == j)
  }

  lemma {:induction false} AsksOn(s: State, events: seq<Event>, j: JobId, d: Time)
    requires Inv(s) && Runs(s, events) && Asks(s, j, d) && Spares(events, j)
    ensures Asks(End(s, events), j, d) && Inv(End(s, events)) && s.now <= End(s, events).now
    decreases |events|
  {
    hide Inv, Legal, After, Asks;
    if events != [] {
      assert events[0] in events && forall e | e in events[1..] :: e in events;
      StillAsks(s, events[0], j, d);
      EventKeeps(s, events[0]);
      ClockGoesOn(s, events[0]);
      AsksOn(After(s, events[0]), events[1..], j, d);
    }
  }

  lemma ClockGoesOn(s: State, e: Event)
    requires Inv(s) && Legal(s, e)
    ensures s.now <= After(s, e).now
  {
    hide Inv, Legal, After, Settled;
    EventGrows(s, e);
  }

  /** From the moment request j is destroyed with delay d, the entry it comes to is due d after it is
      queued, in every run. */
  lemma QueuedForItsDelay(s: State, j: JobId, d: Time, events: seq<Event>) returns (p: nat, e: Entry)
    requires Inv(s) && Legal(s, Destroy(j, d)) && Runs(After(s, Destroy(j, d)), events) && Spares(events, j)
    requires Legal(End(After(s, Destroy(j, d)), events), InsertWaiting(j))
    ensures var m := End(After(s, Destroy(j, d)), events);
            var w := After(m, InsertWaiting(j)).waiting;
            && s.now <= m.now && e.due == m.now + d
            && p <= |m.waiting| && w == m.waiting[..p] + [e] + m.waiting[p..]
  {
    hide Inv, Legal, After, Asks;
    DestroyAsks(s, j, d);
    EventKeeps(s, Destroy(j, d));
    AsksOn(After(s, Destroy(j, d)), events, j, d);
    var m, x := End(After(s, Destroy(j, d)), events), 0;
    p, x, e := OneEntryMore(m, j);
    assert x == d by { AskedFor(m, j, d, x); }
  }

  lemma DestroyAsks(s: State, j: JobId, d: Time)
    requires Legal(s, Destroy(j, d))
    ensures Asks(After(s, Destroy(j, d)), j, d) && After(s, Destroy(j, d)).now == s.now
  {
  }

  lemma AskedFor(s: State, j: JobId, d: Time, x: Time)
    requires Asks(s, j, d) && j in s.jobs && DelayOf(s.jobs[j].pc) == Some(x) && 0 < x
    ensures x == d
  {
  }

  // ----- not before its time -----

  /** While the clock is below x key k will not be rebuilt: it is carried with delay enough, or
      queued to a later time; or it has been settled. */
  ghost predicate NotBefore(s: State, k: Key, x: Time) {
    Settled(s, k) ||
    (Pending(s, k) &&
     match s.place[k]
     case Spare(j) => Delays(s, j) && x <= s.now + DelayOf(s.jobs[j].pc).value
     case Queued => DueFrom(s.waiting, k, x)
     case _ => x <= s.now)
  }

  predicate Delays(s: State, j: JobId) {
    j in s.jobs && DelayOf(s.jobs[j].pc).Some?
  }

  predicate DueFrom(w: seq<Entry>, k: Key, x: Time) {
    forall i | 0 <= i < |w| && w[i].key == k :: x <= w[i].due
  }

  lemma CarrierDelay(s: State, e: Event, k: Key)
    requires Inv(s) && IsJobEvent(e) && Legal(s, e) && Pending(s, k) && PlacedAt(s, k, Spare(e.j))
    ensures Delays(s, e.j) && Delays(After(s, e), e.j)
    ensures DelayOf(After(s, e).jobs[e.j].pc) == DelayOf(s.jobs[e.j].pc)
  {
    hide Inv, Rebuilt, Parse, Acceptable, InQueue, Image;
    CarrierMoves(s, e, k);
    CarrierPc(s, e, k);
  }

  lemma OthersNotBefore(s: State, s': State, touched: set<Key>, j: JobId, k: Key, x: Time)
    requires Step(s, s', touched, j) && s.now <= s'.now && Pending(s, k) && !PlacedAt(s, k, Spare(j))
    requires NotBefore(s, k, x)
    ensures NotBefore(s', k, x)
  {
    hide InQueue, DueFrom, Frame;
    OthersStayPending(s, s', touched, j, k);
    SamePlace(s, s', touched, j, k);
  }

  lemma SamePlace(s: State, s': State, touched: set<Key>, j: JobId, k: Key)
    requires Step(s, s', touched, j) && Pending(s, k) && !PlacedAt(s, k, Spare(j))
    ensures k in s'.place && s'.place[k] == s.place[k] && !Settled(s, k)
  {
    hide InQueue;
    assert k !in touched;
    assert SameAt(s, s', k);
  }

  lemma JobEventNotBefore(s: State, e: Event, k: Key, x: Time)
    requires Inv(s) && IsJobEvent(e) && Legal(s, e) && Pending(s, k) && NotBefore(s, k, x)
    ensures NotBefore(After(s, e), k, x)
  {
    hide Inv, Legal, After, Pending, JobOk, Tables, Step, Touched, NotBefore;
    InvJob(s, e.j);
    ClockGoesOn(s, e);
    if PlacedAt(s, k, Spare(e.j)) {
      CarrierMoves(s, e, k);
      CarrierDelay(s, e, k);
      CarriedNotBefore(s, After(s, e), e.j, k, x);
    } else {
      JobEventSteps(s, e);
      OthersNotBefore(s, After(s, e), Touched(s, e), e.j, k, x);
    }
  }

  lemma CarriedNotBefore(s: State, s': State, j: JobId, k: Key, x: Time)
    requires PlacedAt(s, k, Spare(j)) && NotBefore(s, k, x) && s.now <= s'.now
    requires Pending(s', k) && PlacedAt(s', k, Spare(j))
    requires Delays(s, j) && Delays(s', j) && DelayOf(s'.jobs[j].pc) == DelayOf(s.jobs[j].pc)
    ensures NotBefore(s', k, x)
  {
    hide InQueue;
  }

  lemma QueuedOnce(w: seq<Entry>, e: Entry, p: nat, k: Key, x: Time)
    requires p <= |w| && DueFrom(w, k, x) && (e.key == k ==> x <= e.due)
    ensures DueFrom(w[..p] + [e] + w[p..], k, x)
  {
  }

  lemma InsertNotBefore(s: State, j: JobId, k: Key, x: Time)
    requires WaitingOk(s) && JobOk(s, j) && j in s.jobs && s.jobs[j].pc.Inserting?
    requires Pending(s, k) && NotBefore(s, k, x)
    ensures NotBefore(DoInsert(s, j), k, x)
  {
    hide Enqueue, JobOk, InQueue, WaitingOk, DueFrom;
    InsertQueues(s, j, k);
    LinkOfInserting(s, j);
    var e := NewEntry(s, j);
    var p := EnqueueAt(s.waiting, e);
    if s.place[k] == Spare(j) {
      NotYetQueued(s, k, x);
      QueuedOnce(s.waiting, e, p, k, x);
    } else if s.place[k].Queued? {
      QueuedOnce(s.waiting, e, p, k, x);
    }
  }

  lemma NotYetQueued(s: State, k: Key, x: Time)
    requires WaitingOk(s) && k in s.place && !s.place[k].Queued?
    ensures DueFrom(s.waiting, k, x)
  {
    hide EntryOk;
  }

  lemma PopNotBefore(s: State, k: Key, x: Time)
    requires WaitingOk(s) && s.handler.Idle? && s.waiting != [] && s.waiting[0].due <= s.now
    requires Pending(s, k) && NotBefore(s, k, x)
    ensures NotBefore(DoPop(s), k, x)
  {
    hide WaitingOk, InQueue;
    PopKeepsPending(s, k);
    FirstIsQueued(s);
    if s.place[k].Queued? && s.waiting[0].key != k {
      forall i | 0 <= i < |s.waiting[1..]| && s.waiting[1..][i].key == k
        ensures x <= s.waiting[1..][i].due
      {
        assert s.waiting[1..][i] == s.waiting[i + 1];
      }
    }
  }

  lemma OpenNotBefore(s: State, k: Key, x: Time)
    requires s.handler.Popped? && Pending(s, k) && NotBefore(s, k, x)
    ensures NotBefore(DoOpen(s), k, x)
  {
    hide InQueue, DueFrom;
    OpenKeepsPending(s, k);
  }

  lemma RegisterNotBefore(s: State, k: Key, x: Time)
    requires s.handler.Opened? && Pending(s, k) && NotBefore(s, k, x)
    ensures NotBefore(DoRegister(s), k, x)
  {
    hide InQueue, DueFrom, InsertActive;
    RegisterKeepsPending(s, k);
  }

  lemma RebuildNotBefore(s: State, j: JobId, k: Key, x: Time)
    requires HandlerOk(s) && s.handler.Registered? && j !in s.jobs && s.handler.inode in s.inodes
    requires Pending(s, k) && NotBefore(s, k, x)
    ensures NotBefore(DoRebuild(s, j), k, x)
  {
    hide InQueue, DueFrom, Rebuilt, HandlerOk;
    RebuildReplays(s, j, k);
  }

  lemma TickNotBefore(s: State, time: Time, k: Key, x: Time)
    requires Pending(s, k) && NotBefore(s, k, x) && s.now <= time
    ensures NotBefore(s.(now := time), k, x)
  {
    hide InQueue, DueFrom;
  }

  lemma StaysNotBefore(s: State, e: Event, k: Key, x: Time)
    requires Inv(s) && Legal(s, e) && NotBefore(s, k, x)
    ensures NotBefore(After(s, e), k, x)
  {
    hide Inv, JobOk, WaitingOk, HandlerOk, Tables, Pending, Settled, Rebuilt, Parse, Acceptable,
         DoPop, DoOpen, DoRegister, DoRebuild, DoInsert;
    if Settled(s, k) {
      EventGrows(s, e);
      GrowsAt(s, After(s, e), k);
    } else if IsJobEvent(e) {
      JobEventNotBefore(s, e, k, x);
    } else {
      InvJob(s, if e.InsertWaiting? then e.j else 0);
      match e
      case Tick(time) => TickNotBefore(s, time, k, x);
      case InsertWaiting(j) => InsertNotBefore(s, j, k, x);
      case Pop => PopNotBefore(s, k, x);
      case Open => OpenNotBefore(s, k, x);
      case Register => RegisterNotBefore(s, k, x);
      case Rebuild(j) => RebuildNotBefore(s, j, k, x);
      case RebuildFails(erased) => ParseNeverFails(s, erased);
    }
  }

  lemma {:induction false} RunNotBefore(s: State, events: seq<Event>, k: Key, x: Time)
    requires Inv(s) && Runs(s, events) && NotBefore(s, k, x)
    ensures NotBefore(End(s, events), k, x) && Inv(End(s, events))
    decreases |events|
  {
    hide Inv, Legal, After, NotBefore;
    if events != [] {
      StaysNotBefore(s, events[0], k, x);
      EventKeeps(s, events[0]);
      RunNotBefore(After(s, events[0]), events[1..], k, x);
    }
  }

  lemma LinkNotBefore(s: State, j: JobId, t: Thread, d: Time)
    requires Inv(s) && Legal(s, SaveLink(j, t)) && Asks(s, j, d)
    ensures NotBefore(After(s, SaveLink(j, t)), NextKey(s, t), s.now + d)
  {
    hide Inv, Rebuilt, Parse, Acceptable, NextKey, Pending, Settled, DoLink, JobOk;
    InvKeys(s);
    LinkSaves(s, j, t);
    LinkPlaces(s, j, t);
    LinkDelay(s, j, t);
    InvJob(s, j);
    LinkingWaits(s, j);
  }

  lemma LinkPlaces(s: State, j: JobId, t: Thread)
    requires j in s.jobs && s.jobs[j].pc.Linking? && s.jobs[j].req.Some? && s.jobs[j].pc.key in s.disk
    ensures PlacedAt(DoLink(s, j, t), NextKey(s, t), Spare(j)) && DoLink(s, j, t).now == s.now
  {
    hide NextKey, NextGen;
  }

  lemma LinkingWaits(s: State, j: JobId)
    requires JobOk(s, j) && j in s.jobs && s.jobs[j].pc.Linking?
    ensures 0 < s.jobs[j].pc.delay
  {
    hide ChosenOk;
  }

  lemma RebuildIsLate(s: State, j: JobId, k: Key, x: Time)
    requires HandlerOk(s) && NotBefore(s, k, x) && Legal(s, Rebuild(j)) && s.handler.e.key == k
    ensures x <= s.now
  {
    hide EntryOk, Rebuilt, InQueue, DueFrom;
  }

  /**
   * No request is replayed before its time: destroyed at clock s.now with delay d, and linked in the
   * course of that, it is not rebuilt in any run while the clock is below s.now + d.
   */
  lemma NotReplayedEarly(
    s: State, j: JobId, d: Time, events: seq<Event>, m: State, t: Thread, later: seq<Event>, n: State, again: JobId)
    requires Inv(s) && Legal(s, Destroy(j, d)) && Runs(After(s, Destroy(j, d)), events) && Spares(events, j)
    requires m == End(After(s, Destroy(j, d)), events)
    requires Legal(m, SaveLink(j, t)) && Runs(After(m, SaveLink(j, t)), later)
    requires n == End(After(m, SaveLink(j, t)), later)
    requires n.handler.Registered? && n.handler.e.key == NextKey(m, t) && Legal(n, Rebuild(again))
    ensures s.now + d <= n.now
  {
    hide Inv, Legal, After, Asks, NotBefore, NextKey, HandlerOk;
    DestroyAsks(s, j, d);
    EventKeeps(s, Destroy(j, d));
    AsksOn(After(s, Destroy(j, d)), events, j, d);
    LinkNotBefore(m, j, t, d);
    EventKeeps(m, SaveLink(j, t));
    RunNotBefore(After(m, SaveLink(j, t)), later, NextKey(m, t), m.now + d);
    InvJob(n, 0);
    RebuildIsLate(n, again, NextKey(m, t), m.now + d);
  }

  // ----- who is retried -----

  /** A request is linked, and so retried, only if it asked for a delay and has retries left. */
  lemma LinkedOnlyIf(s: State, j: JobId, t: Thread)
    requires Inv(s) && Legal(s, SaveLink(j, t))
    ensures j in s.jobs && DelayOf(s.jobs[j].pc).Some? && 0 < DelayOf(s.jobs[j].pc).value && s.jobs[j].runs <= s.max
  {
    hide Inv, Rebuilt, Parse, Acceptable;
    InvJob(s, j);
    LinkingHasRetries(s, j);
  }

  lemma LinkingHasRetries(s: State, j: JobId)
    requires JobOk(s, j) && j in s.jobs && s.jobs[j].pc.Linking?
    ensures 0 < s.jobs[j].pc.delay && s.jobs[j].runs <= s.max
  {
    hide Image, Acceptable, Stores;
  }

  /** How many events of its own save is from linking the request. */
  function ToGo(pc: Pc): nat {
    match pc
    case Saving(_) => 4
    case Lookup(_, _) => 3
    case Writing(_, _, _) => 2
    case Linking(_, _, _, _) => 1
    case _ => 0
  }

  /** Request j is being saved, asked for a delay, and has retries left. */
  predicate OnCourse(s: State, j: JobId, d: Time, req: StoredRequest) {
    && j in s.jobs && 0 < ToGo(s.jobs[j].pc) && DelayOf(s.jobs[j].pc) == Some(d) && 0 < d
    && s.jobs[j].runs <= s.max && s.jobs[j].req == Some(req)
  }

  lemma BeginOnCourse(s: State, j: JobId, d: Time, req: StoredRequest, t: Thread)
    requires OnCourse(s, j, d, req) && s.jobs[j].pc.Saving? && JobOk(s, j)
    ensures OnCourse(DoBegin(s, j, t), j, d, req) && ToGo(DoBegin(s, j, t).jobs[j].pc) < ToGo(s.jobs[j].pc)
  {
    hide NextKey, NextGen, PcOk;
  }

  lemma LookupOnCourse(s: State, j: JobId, d: Time, req: StoredRequest)
    requires OnCourse(s, j, d, req) && s.jobs[j].pc.Lookup? && JobOk(s, j)
    ensures OnCourse(DoLookup(s, j), j, d, req) && ToGo(DoLookup(s, j).jobs[j].pc) < ToGo(s.jobs[j].pc)
  {
    hide Image, Acceptable, Stores;
  }

  lemma WriteOnCourse(s: State, j: JobId, d: Time, req: StoredRequest)
    requires OnCourse(s, j, d, req) && s.jobs[j].pc.Writing?
    ensures OnCourse(DoWrite(s, j), j, d, req) && ToGo(DoWrite(s, j).jobs[j].pc) < ToGo(s.jobs[j].pc)
  {
    hide Image;
  }

  lemma LinkingHasFile(s: State, j: JobId)
    requires JobOk(s, j) && j in s.jobs && s.jobs[j].pc.Linking?
    ensures s.jobs[j].pc.key in s.disk
  {
    hide Image, Acceptable, FoundOk;
  }

  /** No event of its own but a failing link gives such a request up. */
  lemma SaveGoesOn(s: State, e: Event, d: Time, req: StoredRequest)
    requires Inv(s) && IsJobEvent(e) && Legal(s, e) && OnCourse(s, e.j, d, req) && !e.SaveLinkFails?
    ensures var s' := After(s, e);
            if e.SaveLink? then Pending(s', NextKey(s, e.t)) && NextKey(s, e.t) in s'.saved && s'.saved[NextKey(s, e.t)] == req
            else OnCourse(s', e.j, d, req) && ToGo(s'.jobs[e.j].pc) < ToGo(s.jobs[e.j].pc)
  {
    hide Inv, DoBegin, DoLookup, DoWrite, DoLink, NextKey, Pending, JobOk, Tables, WaitingOk, HandlerOk;
    InvJob(s, e.j);
    InvKeys(s);
    OnlySaving(s, e, d, req);
    match e
    case SaveBegin(j, t) => BeginOnCourse(s, j, d, req, t);
    case SaveLookup(j) => LookupOnCourse(s, j, d, req);
    case SaveWrite(j) => WriteOnCourse(s, j, d, req);
    case SaveLink(j, t) => LinkSaves(s, j, t);
  }

  /** The events open to it. */
  lemma OnlySaving(s: State, e: Event, d: Time, req: StoredRequest)
    requires IsJobEvent(e) && Legal(s, e) && OnCourse(s, e.j, d, req) && !e.SaveLinkFails?
    ensures e.SaveBegin? || e.SaveLookup? || e.SaveWrite? || e.SaveLink?
  {
    hide Rebuilt, Parse, Acceptable;
  }

  /** And there is always such an event. */
  lemma NextSaving(s: State, j: JobId, d: Time, req: StoredRequest, t: Thread) returns (e: Event)
    requires Inv(s) && OnCourse(s, j, d, req)
    ensures IsJobEvent(e) && e.j == j && Legal(s, e) && !e.SaveLinkFails? && (e.SaveLink? ==> e.t == t)
  {
    hide Inv, JobOk, Tables, WaitingOk, HandlerOk;
    InvJob(s, j);
    var pc := s.jobs[j].pc;
    if pc.Linking? {
      LinkingHasFile(s, j);
    }
    e := if pc.Saving? then SaveBegin(j, t) else if pc.Lookup? then SaveLookup(j)
         else if pc.Writing? then SaveWrite(j) else SaveLink(j, t);
  }

  lemma {:induction false} CanBeLinked(s: State, j: JobId, d: Time, req: StoredRequest, t: Thread)
    returns (events: seq<Event>, k: Key)
    requires Inv(s) && OnCourse(s, j, d, req)
    ensures Runs(s, events) && Inv(End(s, events)) && Pending(End(s, events), k)
    ensures k in End(s, events).saved && End(s, events).saved[k] == req
    decreases ToGo(s.jobs[j].pc)
  {
    hide Inv, Legal, After, Pending, NextKey, OnCourse, ToGo;
    var e := NextSaving(s, j, d, req, t);
    SaveGoesOn(s, e, d, req);
    EventKeeps(s, e);
    var s' := After(s, e);
    if e.SaveLink? {
      events, k := [e], NextKey(s, t);
      OneRun(s, e);
    } else {
      events, k := CanBeLinked(s', j, d, req, t);
      FirstRun(s, e, events);
      events := [e] + events;
    }
  }

  lemma OneRun(s: State, e: Event)
    requires Legal(s, e)
    ensures Runs(s, [e]) && End(s, [e]) == After(s, e)
  {
    hide Legal, After;
    assert [e][1..] == [];
  }

  lemma FirstRun(s: State, e: Event, events: seq<Event>)
    requires Legal(s, e) && Runs(After(s, e), events)
    ensures Runs(s, [e] + events) && End(s, [e] + events) == End(After(s, e), events)
  {
    hide Legal, After;
    assert ([e] + events)[1..] == events;
  }

  /**
   * Every request that asked for a delay and has retries left can be replayed as it is: destroyed, it
   * can be saved, and from there replayed.
   */
  lemma RetryIsPossible(s: State, j: JobId, d: Time, t: Thread) returns (saving: seq<Event>, k: Key, replaying: seq<Event>)
    requires Inv(s) && Legal(s, Destroy(j, d)) && 0 < d && j in s.jobs && s.jobs[j].runs <= s.max
    ensures s.jobs[j].req.Some? && Runs(After(s, Destroy(j, d)), saving)
    ensures var m := End(After(s, Destroy(j, d)), saving);
            Runs(m, replaying) && Replays(m, replaying, k, s.jobs[j].req.value) == 1
  {
    hide Inv, Pending, ToGo;
    LiveIsWhole(s, j, d);
    EventKeeps(s, Destroy(j, d));
    var req := s.jobs[j].req.value;
    DestroyedOnCourse(s, j, d, req);
    saving, k := CanBeLinked(After(s, Destroy(j, d)), j, d, req, t);
    replaying := CanBeReplayed(End(After(s, Destroy(j, d)), saving), k);
  }

  lemma LiveIsWhole(s: State, j: JobId, d: Time)
    requires Inv(s) && Legal(s, Destroy(j, d))
    ensures j in s.jobs && s.jobs[j].req.Some?
  {
    hide Inv, Acceptable, Tables, WaitingOk, HandlerOk;
    InvJob(s, j);
  }

  lemma DestroyedOnCourse(s: State, j: JobId, d: Time, req: StoredRequest)
    requires Legal(s, Destroy(j, d)) && 0 < d && j in s.jobs && s.jobs[j].runs <= s.max && s.jobs[j].req == Some(req)
    ensures OnCourse(After(s, Destroy(j, d)), j, d, req)
  {
  }
}

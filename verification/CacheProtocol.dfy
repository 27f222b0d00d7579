/**
 * request-cache/file_cache.cpp as a protocol. Requests are destroyed, and so saved, by pool
 * threads while one more thread replays what is due; every lock region and every file-system
 * call is one event, and events of different threads interleave freely.
 */
module CacheProtocol {
  import opened Bytes
  import opened StoredImage

  type Thread = nat
  type Time = nat
  type InodeId = nat
  type JobId = nat

  /** hexMD5 of (id, time, thread), taken to be injective. */
  datatype Key = Key(id: nat, time: Time, thread: Thread)

  /** KeyId, one per thread. */
  datatype KeyGen = KeyGen(id: nat, last: Time)

  /** An entry of waiting_; `runs` is history: how often the request has been run. */
  datatype Entry = Entry(due: Time, key: Key, retries: nat, runs: nat)

  /** Where a request's destruction, or its creation, has got to. */
  datatype Pc =
    | Creating                                                          // create: file made, not yet in active_
    | Attaching                                                         // attach is filling the file
    | Live                                                              // being handled
    | Saving(delay: Time)                                               // save is entered
    | Lookup(delay: Time, key: Key)                                     // about to look key up in active_
    | Writing(delay: Time, key: Key, found: Option<nat>)                // saveRequest is entered
    | Linking(delay: Time, key: Key, found: Option<nat>, temp: bool)    // createHardLink
    | Linked(delay: Time, key: Key, link: Key, found: Option<nat>, temp: bool)
    | Failed(key: Key, found: Option<nat>, temp: bool)                  // link failed
    | Unactivating(delay: Time, key: Key, link: Key, retries: nat)      // eraseActive, then insertWaiting
    | Inserting(delay: Time, link: Key, retries: nat)                   // insertWaiting
    | Erasing(key: Key)                                                 // eraseActive, then return
    | Closing                                                           // the body's file is released

  /** A request object. Its body may lie in a cache file, named by a key. */
  datatype Job = Job(req: Option<StoredRequest>, backing: Option<(Key, InodeId)>, runs: nat, pc: Pc)

  datatype Handler = Idle | Popped(e: Entry) | Opened(e: Entry, inode: InodeId) | Registered(e: Entry, inode: InodeId)

  /** History: who answers for a key that was issued. */
  datatype Place = Held(j: JobId) | Temp(j: JobId) | Spare(j: JobId) | Queued | Taken | Gone

  datatype State = State(
    max: nat,                        // max_retries_
    maxString: nat,
    now: Time,
    gens: map<Thread, KeyGen>,
    disk: map<Key, InodeId>,         // directory entries below cache_dir_
    inodes: map<InodeId, Bytes>,
    next: InodeId,
    active: map<Key, nat>,           // active_
    waiting: seq<Entry>,             // waiting_, a multimap: in order of due time
    handler: Handler,
    jobs: map<JobId, Job>,
    place: map<Key, Place>,          // history: all keys issued
    saved: map<Key, StoredRequest>)  // history: the request linked under a key

  datatype Event =
    | Tick(time: Time)
    | Arrive(j: JobId, req: StoredRequest)
    | Create(j: JobId, t: Thread)
    | Activate(j: JobId)
    | AttachDone(j: JobId, req: StoredRequest)
    | AttachFail(j: JobId)
    | Destroy(j: JobId, delay: Time)
    | SaveBegin(j: JobId, t: Thread)
    | SaveLookup(j: JobId)
    | SaveWrite(j: JobId)
    | SaveLink(j: JobId, t: Thread)
    | SaveLinkFails(j: JobId, t: Thread)
    | SaveDropTemp(j: JobId)
    | EraseActive(j: JobId)
    | InsertWaiting(j: JobId)
    | Close(j: JobId)
    | Pop
    | Open
    | Register
    | Rebuild(j: JobId)
    | RebuildFails(erased: bool)

  // ----- keys -----

  /** KeyId::get for thread t; a thread's first call makes its KeyId. */
  function NextGen(s: State, t: Thread): KeyGen {
    var g := if t in s.gens then s.gens[t] else KeyGen(0, s.now);
    if s.now == g.last then g.(id := g.id + 1) else KeyGen(0, s.now)
  }

  function NextKey(s: State, t: Thread): Key {
    Key(NextGen(s, t).id, NextGen(s, t).last, t)
  }

  /** A key is drawn and put in someone's charge. */
  function Draw(s: State, t: Thread, p: Place): State {
    s.(gens := s.gens[t := NextGen(s, t)], place := s.place[NextKey(s, t) := p])
  }

  // ----- the state after an event -----

  function With(s: State, j: JobId, pc: Pc): State
    requires j in s.jobs
  {
    s.(jobs := s.jobs[j := s.jobs[j].(pc := pc)])
  }

  function Unlink(s: State, k: Key): State {
    s.(disk := s.disk - {k}, place := s.place[k := Gone])
  }

  /** A file under the name k. */
  function NewFile(s: State, k: Key, content: Bytes): State {
    s.(disk := s.disk[k := s.next], inodes := s.inodes[s.next := content], next := s.next + 1)
  }

  /** multimap::insert: behind every entry that is due no later. */
  function Enqueue(w: seq<Entry>, e: Entry): seq<Entry> {
    if w == [] || e.due < w[0].due then [e] + w else [w[0]] + Enqueue(w[1..], e)
  }

  /** What parse makes of a file's bytes, when they denote a request. */
  function Rebuilt(content: Bytes, maxString: nat): Option<StoredRequest> {
    match Parse(Source(content, 0, |content|, maxString), EMPTY)
    case Err(_) => None
    case Ok(p) =>
      if && p.body.0 <= p.body.1 <= |content|
         && forall f | f in p.files :: Inside(f.begin, f.end, p.body)
      then Some(Meaning(content, p)) else None
  }

  /** What the daemon accepts: map keys are distinct, sizes fit, strings can be allocated. */
  ghost predicate Acceptable(maxString: nat, req: StoredRequest) {
    WellFormed(req, maxString) && |Image(req)| < TWO_64
  }

  /** FileRequestCache::create: a new file under a fresh key. */
  function DoCreate(s: State, j: JobId, t: Thread): State {
    var k := NextKey(s, t);
    NewFile(Draw(s, t, Held(j)), k, []).(jobs := s.jobs[j := Job(None, Some((k, s.next)), 1, Creating)])
  }

  function DoActivate(s: State, j: JobId): State
    requires j in s.jobs && s.jobs[j].backing.Some?
  {
    With(s, j, Attaching).(active := InsertActive(s.active, s.jobs[j].backing.value.0, 0))
  }

  /** attach has filled the file: see Requests.RequestImpl.AttachCached. */
  function DoAttach(s: State, j: JobId, req: StoredRequest): State
    requires j in s.jobs && s.jobs[j].backing.Some?
  {
    s.(inodes := s.inodes[s.jobs[j].backing.value.1 := Image(req)],
       jobs := s.jobs[j := s.jobs[j].(req := Some(req), pc := Live)])
  }

  /** save is about to draw a key for a request that has no file yet. */
  predicate NeedsKey(s: State, j: JobId) {
    j in s.jobs && s.jobs[j].pc.Saving? && s.jobs[j].backing.None? && s.jobs[j].pc.delay != 0 && s.max > 0
  }

  /** Where save goes with the key that there is: nowhere, if there is nothing to do. */
  function AfterBegin(s: State, backing: Option<(Key, InodeId)>, delay: Time): Pc {
    match backing
    case Some((k, _)) => if delay == 0 || s.max <= 0 then Erasing(k) else Lookup(delay, k)
    case None => Closing
  }

  /** save up to the choice of a key. */
  function DoBegin(s: State, j: JobId, t: Thread): State
    requires j in s.jobs && s.jobs[j].pc.Saving?
  {
    var delay := s.jobs[j].pc.delay;
    if NeedsKey(s, j) then With(Draw(s, t, Temp(j)), j, Lookup(delay, NextKey(s, t)))
    else With(s, j, AfterBegin(s, s.jobs[j].backing, delay))
  }

  function AfterLookup(s: State, delay: Time, k: Key): Pc {
    if k !in s.active then Writing(delay, k, None)
    else if s.active[k] >= s.max then Erasing(k)
    else Writing(delay, k, Some(s.active[k]))
  }

  function DoLookup(s: State, j: JobId): State
    requires j in s.jobs && s.jobs[j].pc.Lookup?
  {
    With(s, j, AfterLookup(s, s.jobs[j].pc.delay, s.jobs[j].pc.key))
  }

  /** saveRequest: a request that is not in a cache file yet is serialized into a temporary one. */
  function DoWrite(s: State, j: JobId): State
    requires j in s.jobs && s.jobs[j].pc.Writing? && s.jobs[j].req.Some?
  {
    var pc := s.jobs[j].pc;
    if s.jobs[j].backing.Some? then With(s, j, Linking(pc.delay, pc.key, pc.found, false))
    else
      With(NewFile(s, pc.key, Image(s.jobs[j].req.value)), j, Linking(pc.delay, pc.key, pc.found, true))
  }

  /** createHardLink: one more name, drawn first, for the same inode. */
  function DoLink(s: State, j: JobId, t: Thread): State
    requires j in s.jobs && s.jobs[j].pc.Linking? && s.jobs[j].req.Some? && s.jobs[j].pc.key in s.disk
  {
    var pc, link := s.jobs[j].pc, NextKey(s, t);
    With(Draw(s, t, Spare(j)), j, Linked(pc.delay, pc.key, link, pc.found, pc.temp)).(
      disk := s.disk[link := s.disk[pc.key]], saved := s.saved[link := s.jobs[j].req.value])
  }

  function DoLinkFails(s: State, j: JobId, t: Thread): State
    requires j in s.jobs && s.jobs[j].pc.Linking?
  {
    var pc := s.jobs[j].pc;
    With(Draw(s, t, Gone), j, Failed(pc.key, pc.found, pc.temp))
  }

  /** Where save goes on after saveRequest. */
  function AfterSaving(pc: Pc): Pc
    requires pc.Linked? || pc.Failed?
  {
    if pc.Linked? then
      if pc.found.Some? then Unactivating(pc.delay, pc.key, pc.link, pc.found.value + 1) else Inserting(pc.delay, pc.link, 1)
    else if pc.found.Some? then Erasing(pc.key) else Closing
  }

  /** The end of saveRequest: a temporary file loses its first name. */
  function DoDropTemp(s: State, j: JobId): State
    requires j in s.jobs && (s.jobs[j].pc.Linked? || s.jobs[j].pc.Failed?)
  {
    var pc := s.jobs[j].pc;
    With(if pc.temp then Unlink(s, pc.key) else s, j, AfterSaving(pc))
  }

  function DoErase(s: State, j: JobId): State
    requires j in s.jobs && (s.jobs[j].pc.Unactivating? || s.jobs[j].pc.Erasing?)
  {
    var pc := s.jobs[j].pc;
    With(s, j, if pc.Unactivating? then Inserting(pc.delay, pc.link, pc.retries) else Closing).(
      active := s.active - {pc.key})
  }

  function DoInsert(s: State, j: JobId): State
    requires j in s.jobs && s.jobs[j].pc.Inserting?
  {
    var pc := s.jobs[j].pc;
    With(s, j, Closing).(
      waiting := Enqueue(s.waiting, NewEntry(s, j)),
      place := s.place[pc.link := Queued])
  }

  /** The last reference to the body goes, and FileHolder unlinks the file's own name. */
  function DoClose(s: State, j: JobId): State
    requires j in s.jobs
  {
    match s.jobs[j].backing
    case None => s.(jobs := s.jobs - {j})
    case Some((k, _)) => Unlink(s, k).(jobs := s.jobs - {j})
  }

  /** The first part of handle: the least entry is taken when it is due. */
  function DoPop(s: State): State
    requires s.waiting != []
  {
    s.(handler := Popped(s.waiting[0]), waiting := s.waiting[1..], place := s.place[s.waiting[0].key := Taken])
  }

  /** open with O_CREAT: a missing file would be made empty. */
  function DoOpen(s: State): State
    requires s.handler.Popped?
  {
    var k := s.handler.e.key;
    if k in s.disk then s.(handler := Opened(s.handler.e, s.disk[k]))
    else NewFile(s, k, []).(handler := Opened(s.handler.e, s.next))
  }

  function DoRegister(s: State): State
    requires s.handler.Opened?
  {
    s.(handler := Registered(s.handler.e, s.handler.inode),
       active := InsertActive(s.active, s.handler.e.key, s.handler.e.retries))
  }

  function DoRebuild(s: State, j: JobId): State
    requires s.handler.Registered? && s.handler.inode in s.inodes
  {
    var Registered(entry, inode) := s.handler;
    s.(handler := Idle, place := s.place[entry.key := Held(j)],
       jobs := s.jobs[j := Job(Rebuilt(s.inodes[inode], s.maxString), Some((entry.key, inode)), entry.runs + 1, Live)])
  }

  /** parse threw: the request goes, its file with it; active_ is tidied only if a body was set. */
  function DoRebuildFails(s: State, erased: bool): State
    requires s.handler.Registered?
  {
    var k := s.handler.e.key;
    Unlink(s, k).(handler := Idle, active := if erased then s.active - {k} else s.active)
  }

  ghost predicate Legal(s: State, e: Event) {
    match e
    case Tick(time) => s.now <= time
    case Arrive(j, req) => j !in s.jobs && Acceptable(s.maxString, req)
    case Create(j, t) => j !in s.jobs
    case Activate(j) => j in s.jobs && s.jobs[j].pc.Creating? && s.jobs[j].backing.Some?
    case AttachDone(j, req) => j in s.jobs && s.jobs[j].pc.Attaching? && s.jobs[j].backing.Some? && Acceptable(s.maxString, req)
    case AttachFail(j) => j in s.jobs && s.jobs[j].pc.Attaching?
    case Destroy(j, _) => j in s.jobs && s.jobs[j].pc.Live?
    case SaveBegin(j, t) => j in s.jobs && s.jobs[j].pc.Saving?
    case SaveLookup(j) => j in s.jobs && s.jobs[j].pc.Lookup?
    case SaveWrite(j) => j in s.jobs && s.jobs[j].pc.Writing? && s.jobs[j].req.Some?
    case SaveLink(j, t) => j in s.jobs && s.jobs[j].pc.Linking? && s.jobs[j].req.Some? && s.jobs[j].pc.key in s.disk
    case SaveLinkFails(j, t) => j in s.jobs && s.jobs[j].pc.Linking?
    case SaveDropTemp(j) => j in s.jobs && (s.jobs[j].pc.Linked? || s.jobs[j].pc.Failed?)
    case EraseActive(j) => j in s.jobs && (s.jobs[j].pc.Unactivating? || s.jobs[j].pc.Erasing?)
    case InsertWaiting(j) => j in s.jobs && s.jobs[j].pc.Inserting?
    case Close(j) => j in s.jobs && s.jobs[j].pc.Closing?
    case Pop => s.handler.Idle? && s.waiting != [] && s.waiting[0].due <= s.now
    case Open => s.handler.Popped?
    case Register => s.handler.Opened?
    case Rebuild(j) =>
      && s.handler.Registered? && j !in s.jobs && s.handler.inode in s.inodes
      && Rebuilt(s.inodes[s.handler.inode], s.maxString).Some?
    case RebuildFails(_) =>
      && s.handler.Registered? && s.handler.inode in s.inodes
      && Parse(Source(s.inodes[s.handler.inode], 0, |s.inodes[s.handler.inode]|, s.maxString), EMPTY).Err?
  }

  function After(s: State, e: Event): State
    requires Legal(s, e)
  {
    match e
    case Tick(time) => s.(now := time)
    case Arrive(j, req) => s.(jobs := s.jobs[j := Job(Some(req), None, 1, Live)])
    case Create(j, t) => DoCreate(s, j, t)
    case Activate(j) => DoActivate(s, j)
    case AttachDone(j, req) => DoAttach(s, j, req)
    case AttachFail(j) => With(s, j, Saving(0))
    case Destroy(j, delay) => With(s, j, Saving(delay))
    case SaveBegin(j, t) => DoBegin(s, j, t)
    case SaveLookup(j) => DoLookup(s, j)
    case SaveWrite(j) => DoWrite(s, j)
    case SaveLink(j, t) => DoLink(s, j, t)
    case SaveLinkFails(j, t) => DoLinkFails(s, j, t)
    case SaveDropTemp(j) => DoDropTemp(s, j)
    case EraseActive(j) => DoErase(s, j)
    case InsertWaiting(j) => DoInsert(s, j)
    case Close(j) => DoClose(s, j)
    case Pop => DoPop(s)
    case Open => DoOpen(s)
    case Register => DoRegister(s)
    case Rebuild(j) => DoRebuild(s, j)
    case RebuildFails(erased) => DoRebuildFails(s, erased)
  }

  /** map::insert keeps an entry that is there. */
  function InsertActive(active: map<Key, nat>, k: Key, retries: nat): map<Key, nat> {
    if k in active then active else active[k := retries]
  }

  // ----- runs -----

  function Start(max: nat, maxString: nat, now: Time): State {
    State(max, maxString, now, map[], map[], map[], 0, map[], [], Idle, map[], map[], map[])
  }

  /** events are legal one after the other from s. */
  ghost predicate Runs(s: State, events: seq<Event>)
    decreases |events|
  {
    events == [] || (Legal(s, events[0]) && Runs(After(s, events[0]), events[1..]))
  }

  ghost function End(s: State, events: seq<Event>): State
    requires Runs(s, events)
    decreases |events|
  {
    if events == [] then s else End(After(s, events[0]), events[1..])
  }

  // ----- the invariant -----

  /** k was drawn no later than thread t's generator stands. */
  predicate Drawn(s: State, k: Key) {
    && k.thread in s.gens
    && (k.time < s.gens[k.thread].last || (k.time == s.gens[k.thread].last && k.id <= s.gens[k.thread].id))
  }

  ghost predicate KeysOk(s: State) {
    && (forall k | k in s.place :: Drawn(s, k))
    && (forall t | t in s.gens :: s.gens[t].last <= s.now)
    && (forall k | k in s.saved :: k in s.place)
  }

  ghost predicate DiskOk(s: State) {
    && (forall k | k in s.disk :: k in s.place && s.disk[k] in s.inodes)
    && (forall i | i in s.inodes :: i < s.next)
  }

  /** The file named k holds the image of req. */
  ghost predicate Stores(s: State, k: Key, req: StoredRequest) {
    k in s.disk && s.disk[k] in s.inodes && s.inodes[s.disk[k]] == Image(req)
  }

  ghost predicate PlacedAt(s: State, k: Key, p: Place) {
    k in s.place && s.place[k] == p
  }

  /** What holds of an entry from being linked until it is rebuilt. */
  ghost predicate EntryOk(s: State, e: Entry) {
    && e.key in s.saved && Acceptable(s.maxString, s.saved[e.key]) && Stores(s, e.key, s.saved[e.key])
    && 1 <= e.retries <= s.max && e.runs == e.retries
  }

  ghost predicate WaitingOk(s: State) {
    && (forall i | 0 <= i < |s.waiting| ::
          PlacedAt(s, s.waiting[i].key, Queued) && s.waiting[i].key !in s.active && EntryOk(s, s.waiting[i]))
    && (forall i, j | 0 <= i < j < |s.waiting| ::
          s.waiting[i].key != s.waiting[j].key && s.waiting[i].due <= s.waiting[j].due)
  }

  ghost predicate HandlerOk(s: State) {
    !s.handler.Idle? ==>
      && PlacedAt(s, s.handler.e.key, Taken) && EntryOk(s, s.handler.e)
      && (s.handler.Popped? || s.handler.inode == s.disk[s.handler.e.key])
      && (if s.handler.Registered? then s.handler.e.key in s.active && s.active[s.handler.e.key] == s.handler.e.retries
          else s.handler.e.key !in s.active)
  }

  /** Only k names inode i. */
  ghost predicate OnlyName(s: State, k: Key, i: InodeId) {
    forall k' | k' in s.disk && s.disk[k'] == i :: k' == k
  }

  /** The link that save has made but not yet queued. */
  ghost predicate LinkOk(s: State, j: JobId, job: Job, link: Key) {
    && PlacedAt(s, link, Spare(j)) && link !in s.active
    && job.req.Some? && link in s.saved && s.saved[link] == job.req.value && Stores(s, link, job.req.value)
  }

  /** A request that is complete: it may be run or saved. Its run count is one more than the
      retries recorded in active_. */
  ghost predicate WholeOk(s: State, job: Job) {
    && job.req.Some? && Acceptable(s.maxString, job.req.value)
    && (match job.backing
        case None => job.runs == 1
        case Some((k, _)) =>
          k in s.active && s.active[k] + 1 == job.runs && s.active[k] <= s.max && Stores(s, k, job.req.value))
  }

  /** As above, inside save with key chosen: the stored key, or a fresh one for a temporary file. */
  ghost predicate ChosenOk(s: State, j: JobId, job: Job, key: Key, temp: bool) {
    && WholeOk(s, job) && 0 < s.max
    && (match job.backing
        case Some((k, _)) => key == k && !temp
        case None =>
          PlacedAt(s, key, Temp(j)) && key !in s.active && (if temp then Stores(s, key, job.req.value) else key !in s.disk))
  }

  ghost predicate FoundOk(s: State, job: Job, found: Option<nat>) {
    if job.backing.Some? then found.Some? && found.value + 1 == job.runs && found.value < s.max
    else found.None?
  }

  ghost predicate PcOk(s: State, j: JobId, job: Job) {
    match job.pc
    case Creating => job.req.None? && job.backing.Some? && job.backing.value.0 !in s.active
                     && OnlyName(s, job.backing.value.0, job.backing.value.1) && job.runs == 1
    case Attaching => job.req.None? && job.backing.Some? && job.backing.value.0 in s.active
                      && s.active[job.backing.value.0] == 0
                      && OnlyName(s, job.backing.value.0, job.backing.value.1) && job.runs == 1
    case Live => WholeOk(s, job)
    case Saving(delay) =>
      if job.req.Some? then WholeOk(s, job)
      else delay == 0 && job.backing.Some? && job.backing.value.0 in s.active
    case Lookup(delay, key) => 0 < delay && ChosenOk(s, j, job, key, false)
    case Writing(delay, key, found) => 0 < delay && ChosenOk(s, j, job, key, false) && FoundOk(s, job, found)
    case Linking(delay, key, found, temp) =>
      0 < delay && ChosenOk(s, j, job, key, temp) && temp == job.backing.None? && FoundOk(s, job, found)
    case Linked(delay, key, link, found, temp) =>
      && 0 < delay && ChosenOk(s, j, job, key, temp) && temp == job.backing.None? && FoundOk(s, job, found)
      && LinkOk(s, j, job, link)
    case Failed(key, found, temp) =>
      ChosenOk(s, j, job, key, temp) && temp == job.backing.None? && FoundOk(s, job, found)
    case Unactivating(delay, key, link, retries) =>
      && 0 < delay && ChosenOk(s, j, job, key, false) && job.backing.Some?
      && LinkOk(s, j, job, link) && retries == job.runs && retries <= s.max
    case Inserting(delay, link, retries) =>
      && 0 < delay && LinkOk(s, j, job, link) && Acceptable(s.maxString, job.req.value)
      && retries == job.runs && 1 <= retries <= s.max
      && (job.backing.Some? ==> job.backing.value.0 !in s.active)
    case Erasing(key) => job.backing.Some? && key == job.backing.value.0 && key in s.active
    case Closing => job.backing.Some? ==> job.backing.value.0 !in s.active
  }

  ghost predicate JobOk(s: State, j: JobId) {
    j in s.jobs ==>
      var job := s.jobs[j];
      && (job.backing.Some? ==>
            var (k, i) := job.backing.value;
            PlacedAt(s, k, Held(j)) && k in s.disk && s.disk[k] == i)
      && 1 <= job.runs <= s.max + 1
      && PcOk(s, j, job)
  }

  /** A key in active_ is held by a request object, or is the handler's. */
  ghost predicate ActiveOk(s: State) {
    forall k | k in s.active :: k in s.place &&
      match s.place[k]
      case Held(j) => j in s.jobs && s.jobs[j].backing.Some? && s.jobs[j].backing.value.0 == k
      case Taken => s.handler.Registered? && s.handler.e.key == k
      case _ => false
  }

  ghost predicate Tables(s: State) {
    KeysOk(s) && DiskOk(s) && ActiveOk(s)
  }

  ghost predicate Inv(s: State) {
    && Tables(s) && WaitingOk(s) && HandlerOk(s)
    && forall j | j in s.jobs :: JobOk(s, j)
  }

  // ----- each event keeps the invariant -----

  /** Nothing about k has changed. */
  ghost predicate SameAt(s: State, s': State, k: Key) {
    && k in s.place && k in s'.place && s'.place[k] == s.place[k]
    && (k in s'.disk <==> k in s.disk)
    && (k in s.disk ==> s'.disk[k] == s.disk[k]
                        && (s.disk[k] in s.inodes ==> s.disk[k] in s'.inodes && s'.inodes[s.disk[k]] == s.inodes[s.disk[k]]))
    && (k in s'.active <==> k in s.active) && (k in s.active ==> s'.active[k] == s.active[k])
    && (k in s.saved ==> k in s'.saved && s'.saved[k] == s.saved[k])
  }

  /** Nothing has changed outside the keys in touched, and no new name leads to an inode that
      another request may still be filling. */
  ghost predicate Frame(s: State, s': State, touched: set<Key>) {
    && s'.max == s.max && s'.maxString == s.maxString
    && (forall k | k in s.place && k !in touched :: SameAt(s, s', k))
    && (forall k | k in s.disk && k in s'.disk :: s'.disk[k] == s.disk[k])
    && (forall k | k in s'.disk && k !in s.disk ::
          s'.disk[k] >= s.next || exists x | x in touched :: x in s.disk && s.disk[x] == s'.disk[k])
  }

  /** Whose request, if any, answers for a key. */
  function Owner(p: Place): Option<JobId> {
    match p
    case Held(j) => Some(j)
    case Temp(j) => Some(j)
    case Spare(j) => Some(j)
    case _ => None
  }

  /** Only keys in the charge of request j0, or of no request, are touched. */
  ghost predicate TouchesOnly(s: State, touched: set<Key>, j0: Option<JobId>) {
    forall k | k in touched && k in s.place :: Owner(s.place[k]) == None || Owner(s.place[k]) == j0
  }

  /** Nothing has changed for the keys in request j's charge. */
  ghost predicate Unmoved(s: State, s': State, j: JobId) {
    && s'.max == s.max && s'.maxString == s.maxString
    && (forall k | k in s.place && Owner(s.place[k]) == Some(j) :: SameAt(s, s', k))
    && (forall k | k in s.place && Owner(s.place[k]) == Some(j) && k in s.disk ::
          OnlyName(s, k, s.disk[k]) ==> OnlyName(s', k, s.disk[k]))
  }

  lemma FrameUnmoved(s: State, s': State, touched: set<Key>, j0: Option<JobId>, j: JobId)
    requires Frame(s, s', touched) && TouchesOnly(s, touched, j0) && Some(j) != j0 && DiskOk(s)
    ensures Unmoved(s, s', j)
  {
    hide SameAt;
    forall k | k in s.place && Owner(s.place[k]) == Some(j)
      ensures k !in touched && SameAt(s, s', k)
    {
    }
    forall k | k in s.place && Owner(s.place[k]) == Some(j) && k in s.disk && OnlyName(s, k, s.disk[k])
      ensures OnlyName(s', k, s.disk[k])
    {
    }
  }

  lemma WholeKept(s: State, s': State, j: JobId, job: Job)
    requires Unmoved(s, s', j) && WholeOk(s, job)
    requires job.backing.Some? ==> PlacedAt(s, job.backing.value.0, Held(j))
    ensures WholeOk(s', job)
  {
    hide Image, Acceptable, OnlyName;
    if job.backing.Some? {
      assert SameAt(s, s', job.backing.value.0);
    }
  }

  lemma ChosenKept(s: State, s': State, j: JobId, job: Job, key: Key, temp: bool)
    requires Unmoved(s, s', j) && ChosenOk(s, j, job, key, temp)
    requires job.backing.Some? ==> PlacedAt(s, job.backing.value.0, Held(j))
    ensures ChosenOk(s', j, job, key, temp)
  {
    hide Image, Acceptable, OnlyName;
    WholeKept(s, s', j, job);
    if job.backing.None? {
      assert SameAt(s, s', key);
    }
  }

  lemma LinkKept(s: State, s': State, j: JobId, job: Job, link: Key)
    requires Unmoved(s, s', j) && LinkOk(s, j, job, link)
    ensures LinkOk(s', j, job, link)
  {
    hide Image, OnlyName;
    assert SameAt(s, s', link);
  }

  lemma PcKept(s: State, s': State, j: JobId, job: Job)
    requires Unmoved(s, s', j) && PcOk(s, j, job)
    requires job.backing.Some? ==>
               var (k, i) := job.backing.value; PlacedAt(s, k, Held(j)) && k in s.disk && s.disk[k] == i
    ensures PcOk(s', j, job)
  {
    hide Acceptable, WholeOk, ChosenOk, LinkOk, OnlyName;
    if job.backing.Some? {
      assert SameAt(s, s', job.backing.value.0);
    }
    match job.pc
    case Live => WholeKept(s, s', j, job);
    case Saving(_) => if job.req.Some? { WholeKept(s, s', j, job); }
    case Lookup(_, key) => ChosenKept(s, s', j, job, key, false);
    case Writing(_, key, _) => ChosenKept(s, s', j, job, key, false);
    case Linking(_, key, _, temp) => ChosenKept(s, s', j, job, key, temp);
    case Linked(_, key, link, _, temp) => ChosenKept(s, s', j, job, key, temp); LinkKept(s, s', j, job, link);
    case Failed(key, _, temp) => ChosenKept(s, s', j, job, key, temp);
    case Unactivating(_, key, link, _) => ChosenKept(s, s', j, job, key, false); LinkKept(s, s', j, job, link);
    case Inserting(_, link, _) => LinkKept(s, s', j, job, link);
    case _ =>
  }

  lemma FrameKeepsJob(s: State, s': State, touched: set<Key>, j0: Option<JobId>, j: JobId)
    requires Frame(s, s', touched) && TouchesOnly(s, touched, j0) && Some(j) != j0
    requires DiskOk(s) && j in s.jobs && JobOk(s, j)
    requires j in s'.jobs && s'.jobs[j] == s.jobs[j]
    ensures JobOk(s', j)
  {
    hide Frame, TouchesOnly, DiskOk, PcOk, OnlyName;
    FrameUnmoved(s, s', touched, j0, j);
    PcKept(s, s', j, s.jobs[j]);
    if s.jobs[j].backing.Some? {
      assert SameAt(s, s', s.jobs[j].backing.value.0);
    }
  }

  lemma FrameKeepsWaiting(s: State, s': State, touched: set<Key>)
    requires Frame(s, s', touched) && DiskOk(s) && WaitingOk(s) && s'.waiting == s.waiting
    requires forall i | 0 <= i < |s.waiting| :: s.waiting[i].key !in touched
    ensures WaitingOk(s')
  {
    hide Image, WellFormed;
    forall i | 0 <= i < |s'.waiting|
      ensures PlacedAt(s', s'.waiting[i].key, Queued) && s'.waiting[i].key !in s'.active && EntryOk(s', s'.waiting[i])
    {
      assert SameAt(s, s', s.waiting[i].key);
    }
  }

  lemma FrameKeepsHandler(s: State, s': State, touched: set<Key>)
    requires Frame(s, s', touched) && DiskOk(s) && HandlerOk(s) && s'.handler == s.handler
    requires !s.handler.Idle? ==> s.handler.e.key !in touched
    ensures HandlerOk(s')
  {
    hide Image, WellFormed;
    if !s.handler.Idle? {
      assert SameAt(s, s', s.handler.e.key);
    }
  }

  /** Every touched key that was issued is in request j's charge. */
  ghost predicate Owns(s: State, touched: set<Key>, j: JobId) {
    forall k | k in touched && k in s.place :: Owner(s.place[k]) == Some(j)
  }

  /** What an event of request j, or one that makes it, does to the others: nothing. */
  ghost predicate Step(s: State, s': State, touched: set<Key>, j: JobId) {
    && Frame(s, s', touched) && Owns(s, touched, j)
    && s'.waiting == s.waiting && s'.handler == s.handler
    && (forall j' | j' in s'.jobs && j' != j :: j' in s.jobs && s'.jobs[j'] == s.jobs[j'])
    && forall j' | j' in s.jobs && j' != j :: j' in s'.jobs
  }

  lemma StepKeeps(s: State, s': State, touched: set<Key>, j: JobId)
    requires Inv(s) && Step(s, s', touched, j) && Tables(s') && JobOk(s', j)
    ensures Inv(s')
  {
    hide PcOk, EntryOk, Frame, KeysOk, DiskOk, ActiveOk;
    OthersUntouched(s, s', touched, j);
  }

  lemma OthersUntouched(s: State, s': State, touched: set<Key>, j: JobId)
    requires DiskOk(s) && WaitingOk(s) && HandlerOk(s) && Step(s, s', touched, j)
    requires forall j' | j' in s.jobs :: JobOk(s, j')
    ensures WaitingOk(s') && HandlerOk(s')
    ensures forall j' | j' in s'.jobs && j' != j :: JobOk(s', j')
  {
    hide PcOk, EntryOk, Frame;
    FrameKeepsWaiting(s, s', touched);
    FrameKeepsHandler(s, s', touched);
    forall j' | j' in s'.jobs && j' != j
      ensures JobOk(s', j')
    {
      FrameKeepsJob(s, s', touched, Some(j), j');
    }
  }

  /** No key is issued twice. */
  lemma NextKeyIsNew(s: State, t: Thread)
    requires KeysOk(s)
    ensures NextKey(s, t) !in s.place
    ensures forall p :: KeysOk(Draw(s, t, p))
  {
    var g, k := NextGen(s, t), NextKey(s, t);
    assert k in s.place ==> Drawn(s, k);
    forall p
      ensures KeysOk(Draw(s, t, p))
    {
      var s' := Draw(s, t, p);
      forall k' | k' in s'.place
        ensures Drawn(s', k')
      {
        assert k' != k ==> Drawn(s, k');
      }
    }
  }

  function BackingKeys(job: Job): set<Key> {
    match job.backing
    case None => {}
    case Some((k, _)) => {k}
  }

  /** A request moves on, and nothing else happens. */
  lemma MoveStep(s: State, j: JobId, pc: Pc)
    requires Tables(s) && j in s.jobs
    ensures Step(s, With(s, j, pc), {}, j)
    ensures Tables(With(s, j, pc))
  {
    hide JobOk;
    MoveFrame(s, With(s, j, pc), {});
  }

  /** Frame does not look at requests. */
  lemma FrameMoved(s: State, s1: State, s': State, touched: set<Key>)
    requires Frame(s, s1, touched) && SameTables(s1, s')
    ensures Frame(s, s', touched)
  {
  }

  /** Everything but requests, waiting_ and the handler is the same. */
  ghost predicate SameTables(s: State, s': State) {
    && s'.max == s.max && s'.maxString == s.maxString && s'.disk == s.disk && s'.inodes == s.inodes
    && s'.place == s.place && s'.active == s.active && s'.saved == s.saved
  }

  lemma JobParts(s: State, j: JobId)
    requires JobOk(s, j) && j in s.jobs
    ensures PcOk(s, j, s.jobs[j]) && 1 <= s.jobs[j].runs <= s.max + 1
    ensures s.jobs[j].backing.Some? ==>
              var (k, i) := s.jobs[j].backing.value; PlacedAt(s, k, Held(j)) && k in s.disk && s.disk[k] == i
  {
    hide PcOk;
  }

  /** The keys a request works with are in its charge. */
  lemma OwnsItsKey(s: State, j: JobId)
    requires JobOk(s, j) && j in s.jobs
    ensures Owns(s, BackingKeys(s.jobs[j]), j)
    ensures var pc := s.jobs[j].pc;
            pc.Writing? || pc.Linking? || pc.Linked? || pc.Failed? || pc.Unactivating? ==> Owns(s, {pc.key}, j)
  {
    hide Image, Acceptable, FoundOk, LinkOk, WholeOk, Stores;
  }

  lemma NewFileFrame(s: State, k: Key, content: Bytes)
    requires DiskOk(s) && k !in s.disk
    ensures Frame(s, NewFile(s, k, content), {k})
  {
  }

  lemma UnlinkFrame(s: State, k: Key)
    ensures Frame(s, Unlink(s, k), {k})
  {
  }

  lemma FreshFileFrame(s: State, t: Thread, p: Place)
    requires KeysOk(s) && DiskOk(s)
    ensures Frame(s, NewFile(Draw(s, t, p), NextKey(s, t), []), {})
  {
    hide KeysOk, NextKey, NextGen;
    NextKeyIsNew(s, t);
  }

  /** A request's own predicate, inside unchanged tables. */
  lemma SamePc(s: State, s': State, j: JobId, job: Job)
    requires SameTables(s, s') && PcOk(s, j, job)
    ensures PcOk(s', j, job)
  {
    hide Image, Acceptable, InsertActive;
  }

  lemma MoveOwn(s: State, j: JobId, pc: Pc)
    requires j in s.jobs && 1 <= s.jobs[j].runs <= s.max + 1 && PcOk(s, j, s.jobs[j].(pc := pc))
    requires s.jobs[j].backing.Some? ==>
               var (k, i) := s.jobs[j].backing.value; PlacedAt(s, k, Held(j)) && k in s.disk && s.disk[k] == i
    ensures JobOk(With(s, j, pc), j)
  {
    hide PcOk;
    SamePc(s, With(s, j, pc), j, s.jobs[j].(pc := pc));
  }

  /** No key has come into active_, and those that are there have whom they had. */
  lemma ActiveKept(s: State, s': State, j: JobId)
    requires ActiveOk(s) && s'.handler == s.handler
    requires forall k | k in s'.active :: k in s.active && (k in s.place ==> PlacedAt(s', k, s.place[k]))
    requires forall j' | j' in s.jobs && j' != j :: j' in s'.jobs && s'.jobs[j'] == s.jobs[j']
    requires j in s.jobs && s.jobs[j].backing.Some? && s.jobs[j].backing.value.0 in s'.active ==>
               j in s'.jobs && s'.jobs[j].backing == s.jobs[j].backing
    ensures ActiveOk(s')
  {
  }

  lemma MoveFrame(s: State, s': State, touched: set<Key>)
    requires s'.max == s.max && s'.maxString == s.maxString && s'.disk == s.disk && s'.inodes == s.inodes
    requires s'.place == s.place && s'.active == s.active && s'.saved == s.saved
    ensures Frame(s, s', touched)
  {
  }

  lemma UnlinkTables(s: State, k: Key)
    requires Tables(s) && k in s.place && k !in s.active
    ensures Tables(Unlink(s, k))
  {
  }

  lemma NewFileTables(s: State, k: Key, content: Bytes)
    requires Tables(s) && k in s.place
    ensures Tables(NewFile(s, k, content))
  {
  }

  lemma DrawTables(s: State, t: Thread, p: Place)
    requires Tables(s)
    ensures Tables(Draw(s, t, p)) && NextKey(s, t) !in s.place && NextKey(s, t) !in s.active && NextKey(s, t) !in s.disk
  {
    hide KeysOk;
    NextKeyIsNew(s, t);
    assert KeysOk(Draw(s, t, p));
  }

  lemma NewJobTables(s: State, j: JobId, job: Job)
    requires Tables(s) && j !in s.jobs
    ensures Tables(s.(jobs := s.jobs[j := job]))
  {
  }

  lemma NoJobTables(s: State, j: JobId)
    requires Tables(s) && j in s.jobs && (s.jobs[j].backing.Some? ==> s.jobs[j].backing.value.0 !in s.active)
    ensures Tables(s.(jobs := s.jobs - {j}))
  {
  }

  // ----- events of one request: for each, what it leaves alone (Step), what the request itself
  // is after it (Own), and the tables (Tables) -----

  // A request is accepted without a cache file.

  lemma ArriveStep(s: State, j: JobId, req: StoredRequest)
    requires Tables(s) && j !in s.jobs && Acceptable(s.maxString, req)
    ensures Step(s, s.(jobs := s.jobs[j := Job(Some(req), None, 1, Live)]), {}, j)
  {
    hide Image, Acceptable, ActiveOk, JobOk;
  }

  lemma ArriveOwn(s: State, j: JobId, req: StoredRequest)
    requires Tables(s) && j !in s.jobs && Acceptable(s.maxString, req)
    ensures JobOk(s.(jobs := s.jobs[j := Job(Some(req), None, 1, Live)]), j)
  {
    hide Image, Acceptable;
  }

  lemma ArriveTables(s: State, j: JobId, req: StoredRequest)
    requires Tables(s) && j !in s.jobs && Acceptable(s.maxString, req)
    ensures Tables(s.(jobs := s.jobs[j := Job(Some(req), None, 1, Live)]))
  {
    NewJobTables(s, j, Job(Some(req), None, 1, Live));
  }

  // create: the new file has a key nobody has had.

  lemma CreateStep(s: State, j: JobId, t: Thread)
    requires Tables(s) && j !in s.jobs
    ensures Step(s, DoCreate(s, j, t), {}, j)
  {
    hide Frame, KeysOk, DiskOk, ActiveOk, NextKey, NextGen;
    FreshFileFrame(s, t, Held(j));
    FrameMoved(s, NewFile(Draw(s, t, Held(j)), NextKey(s, t), []), DoCreate(s, j, t), {});
  }

  lemma CreateOwn(s: State, j: JobId, t: Thread)
    requires Tables(s) && j !in s.jobs
    ensures JobOk(DoCreate(s, j, t), j)
  {
    hide Image, Acceptable, KeysOk;
    NextKeyIsNew(s, t);
  }

  lemma CreateTables(s: State, j: JobId, t: Thread)
    requires Tables(s) && j !in s.jobs
    ensures Tables(DoCreate(s, j, t))
  {
    hide Tables;
    var k := NextKey(s, t);
    DrawTables(s, t, Held(j));
    NewFileTables(Draw(s, t, Held(j)), k, []);
    NewJobTables(NewFile(Draw(s, t, Held(j)), k, []), j, Job(None, Some((k, s.next)), 1, Creating));
  }

  // The entry in active_ begins with no retries.

  lemma ActivateStep(s: State, j: JobId)
    requires Tables(s) && JobOk(s, j) && j in s.jobs && s.jobs[j].pc.Creating? && s.jobs[j].backing.Some?
    ensures Step(s, DoActivate(s, j), BackingKeys(s.jobs[j]), j)
  {
    hide Image, Acceptable, ActiveOk, PcOk;
  }

  lemma ActivateOwn(s: State, j: JobId)
    requires Tables(s) && JobOk(s, j) && j in s.jobs && s.jobs[j].pc.Creating? && s.jobs[j].backing.Some?
    ensures JobOk(DoActivate(s, j), j)
  {
    hide Image, Acceptable;
  }

  lemma ActivateTables(s: State, j: JobId)
    requires Tables(s) && JobOk(s, j) && j in s.jobs && s.jobs[j].pc.Creating? && s.jobs[j].backing.Some?
    ensures Tables(DoActivate(s, j))
  {
    hide Image, Acceptable;
  }

  // attach ends with the request's image in its file.

  lemma AttachStep(s: State, j: JobId, req: StoredRequest)
    requires Tables(s) && JobOk(s, j) && j in s.jobs && s.jobs[j].pc.Attaching? && s.jobs[j].backing.Some?
    requires Acceptable(s.maxString, req)
    ensures Step(s, DoAttach(s, j, req), BackingKeys(s.jobs[j]), j)
  {
    hide Image, Acceptable, ActiveOk;
  }

  lemma AttachOwn(s: State, j: JobId, req: StoredRequest)
    requires Tables(s) && JobOk(s, j) && j in s.jobs && s.jobs[j].pc.Attaching? && s.jobs[j].backing.Some?
    requires Acceptable(s.maxString, req)
    ensures JobOk(DoAttach(s, j, req), j)
  {
    hide Image, Acceptable;
  }

  lemma AttachTables(s: State, j: JobId, req: StoredRequest)
    requires Tables(s) && JobOk(s, j) && j in s.jobs && s.jobs[j].pc.Attaching? && s.jobs[j].backing.Some?
    requires Acceptable(s.maxString, req)
    ensures Tables(DoAttach(s, j, req))
  {
    hide Image, Acceptable;
  }

  // A request is destroyed, or attach threw.

  lemma DestroyStep(s: State, j: JobId, delay: Time)
    requires Tables(s) && JobOk(s, j) && j in s.jobs && (s.jobs[j].pc.Live? || (s.jobs[j].pc.Attaching? && delay == 0))
    ensures Step(s, With(s, j, Saving(delay)), {}, j)
  {
    hide Step, Tables, JobOk;
    MoveStep(s, j, Saving(delay));
  }

  lemma DestroyOwn(s: State, j: JobId, delay: Time)
    requires Tables(s) && JobOk(s, j) && j in s.jobs && (s.jobs[j].pc.Live? || (s.jobs[j].pc.Attaching? && delay == 0))
    ensures JobOk(With(s, j, Saving(delay)), j)
  {
    hide Image, Acceptable;
  }

  lemma DestroyTables(s: State, j: JobId, delay: Time)
    requires Tables(s) && JobOk(s, j) && j in s.jobs && (s.jobs[j].pc.Live? || (s.jobs[j].pc.Attaching? && delay == 0))
    ensures Tables(With(s, j, Saving(delay)))
  {
    hide Step, Tables, JobOk;
    MoveStep(s, j, Saving(delay));
  }

  // save is entered, with the stored key or with nothing to do.

  lemma BeginStep(s: State, j: JobId, t: Thread)
    requires Tables(s) && JobOk(s, j) && j in s.jobs && s.jobs[j].pc.Saving? && !NeedsKey(s, j)
    ensures Step(s, DoBegin(s, j, t), {}, j)
  {
    hide Step, Tables, JobOk;
    MoveStep(s, j, DoBegin(s, j, t).jobs[j].pc);
  }

  lemma BeginPc(s: State, j: JobId, job: Job)
    requires job.pc.Saving? && PcOk(s, j, job) && (job.backing.None? ==> job.pc.delay == 0 || s.max <= 0)
    ensures PcOk(s, j, job.(pc := AfterBegin(s, job.backing, job.pc.delay)))
  {
    hide Image, Acceptable, Stores;
  }

  lemma BeginOwn(s: State, j: JobId, t: Thread)
    requires Tables(s) && JobOk(s, j) && j in s.jobs && s.jobs[j].pc.Saving? && !NeedsKey(s, j)
    ensures JobOk(DoBegin(s, j, t), j)
  {
    hide Tables, JobOk, PcOk;
    JobParts(s, j);
    BeginPc(s, j, s.jobs[j]);
    MoveOwn(s, j, AfterBegin(s, s.jobs[j].backing, s.jobs[j].pc.delay));
  }

  lemma BeginTables(s: State, j: JobId, t: Thread)
    requires Tables(s) && JobOk(s, j) && j in s.jobs && s.jobs[j].pc.Saving? && !NeedsKey(s, j)
    ensures Tables(DoBegin(s, j, t))
  {
    hide Step, Tables, JobOk;
    MoveStep(s, j, DoBegin(s, j, t).jobs[j].pc);
  }

  // save draws a key for a temporary file.

  lemma BeginFreshStep(s: State, j: JobId, t: Thread)
    requires Tables(s) && JobOk(s, j) && j in s.jobs && s.jobs[j].pc.Saving? && NeedsKey(s, j)
    ensures Step(s, DoBegin(s, j, t), {}, j)
  {
    hide Image, Acceptable, ActiveOk, JobOk, KeysOk;
    NextKeyIsNew(s, t);
    assert KeysOk(Draw(s, t, Temp(j)));
  }

  lemma BeginFreshOwn(s: State, j: JobId, t: Thread)
    requires Tables(s) && JobOk(s, j) && j in s.jobs && s.jobs[j].pc.Saving? && NeedsKey(s, j)
    ensures JobOk(DoBegin(s, j, t), j)
  {
    hide Image, Acceptable, KeysOk;
    NextKeyIsNew(s, t);
  }

  lemma BeginFreshTables(s: State, j: JobId, t: Thread)
    requires Tables(s) && JobOk(s, j) && j in s.jobs && s.jobs[j].pc.Saving? && NeedsKey(s, j)
    ensures Tables(DoBegin(s, j, t))
  {
    hide Tables;
    DrawTables(s, t, Temp(j));
    MoveStep(Draw(s, t, Temp(j)), j, Lookup(s.jobs[j].pc.delay, NextKey(s, t)));
  }

  // The look-up in active_, and the limit on retries.

  lemma LookupStep(s: State, j: JobId)
    requires Tables(s) && JobOk(s, j) && j in s.jobs && s.jobs[j].pc.Lookup?
    ensures Step(s, DoLookup(s, j), {}, j)
  {
    hide Step, Tables, JobOk;
    MoveStep(s, j, DoLookup(s, j).jobs[j].pc);
  }

  lemma LookupPc(s: State, j: JobId, job: Job)
    requires ActiveOk(s) && job.pc.Lookup? && PcOk(s, j, job) && 1 <= job.runs <= s.max + 1
    requires job.backing.Some? ==> PlacedAt(s, job.backing.value.0, Held(j))
    ensures PcOk(s, j, job.(pc := AfterLookup(s, job.pc.delay, job.pc.key)))
  {
    hide Image, Acceptable, ActiveOk, Stores;
  }

  lemma LookupOwn(s: State, j: JobId)
    requires Tables(s) && JobOk(s, j) && j in s.jobs && s.jobs[j].pc.Lookup?
    ensures JobOk(DoLookup(s, j), j)
  {
    hide Tables, JobOk, PcOk;
    JobParts(s, j);
    TablesParts(s);
    LookupPc(s, j, s.jobs[j]);
    MoveOwn(s, j, AfterLookup(s, s.jobs[j].pc.delay, s.jobs[j].pc.key));
  }

  lemma LookupTables(s: State, j: JobId)
    requires Tables(s) && JobOk(s, j) && j in s.jobs && s.jobs[j].pc.Lookup?
    ensures Tables(DoLookup(s, j))
  {
    hide Step, Tables, JobOk;
    MoveStep(s, j, DoLookup(s, j).jobs[j].pc);
  }

  // A temporary file is written, unless the request has its own.

  lemma NewKeyHasNoFile(s: State, j: JobId)
    requires JobOk(s, j) && j in s.jobs && s.jobs[j].pc.Writing? && s.jobs[j].backing.None?
    ensures s.jobs[j].pc.key !in s.disk
  {
    hide Image, Acceptable, FoundOk, WholeOk;
  }

  lemma WriteStep(s: State, j: JobId)
    requires Tables(s) && JobOk(s, j) && j in s.jobs && s.jobs[j].pc.Writing? && s.jobs[j].req.Some?
    ensures Step(s, DoWrite(s, j), {s.jobs[j].pc.key}, j)
  {
    hide Frame, JobOk, KeysOk, ActiveOk, Image, Owns;
    var pc, s' := s.jobs[j].pc, DoWrite(s, j);
    OwnsItsKey(s, j);
    if s.jobs[j].backing.None? {
      var image := Image(s.jobs[j].req.value);
      NewKeyHasNoFile(s, j);
      NewFileFrame(s, pc.key, image);
      FrameMoved(s, NewFile(s, pc.key, image), s', {pc.key});
    } else {
      MoveFrame(s, s', {pc.key});
    }
  }

  lemma WritePc(s: State, j: JobId, job: Job)
    requires DiskOk(s) && job.pc.Writing? && job.backing.None? && PcOk(s, j, job)
    ensures job.req.Some?
    ensures var pc := job.pc;
            PcOk(NewFile(s, pc.key, Image(job.req.value)), j, job.(pc := Linking(pc.delay, pc.key, pc.found, true)))
  {
    hide Image, Acceptable, DiskOk;
  }

  lemma OldFilePc(s: State, j: JobId, job: Job)
    requires job.pc.Writing? && job.backing.Some? && PcOk(s, j, job)
    ensures PcOk(s, j, job.(pc := Linking(job.pc.delay, job.pc.key, job.pc.found, false)))
  {
    hide Image, Acceptable, Stores;
  }

  lemma WriteOwn(s: State, j: JobId)
    requires Tables(s) && JobOk(s, j) && j in s.jobs && s.jobs[j].pc.Writing? && s.jobs[j].req.Some?
    ensures JobOk(DoWrite(s, j), j)
  {
    hide Tables, JobOk, PcOk, Image, With;
    var job := s.jobs[j];
    JobParts(s, j);
    if job.backing.None? {
      TablesParts(s);
      WritePc(s, j, job);
      MoveOwn(NewFile(s, job.pc.key, Image(job.req.value)), j, Linking(job.pc.delay, job.pc.key, job.pc.found, true));
    } else {
      OldFilePc(s, j, job);
      MoveOwn(s, j, Linking(job.pc.delay, job.pc.key, job.pc.found, false));
    }
  }

  lemma WriteTables(s: State, j: JobId)
    requires Tables(s) && JobOk(s, j) && j in s.jobs && s.jobs[j].pc.Writing? && s.jobs[j].req.Some?
    ensures Tables(DoWrite(s, j))
  {
    hide Image, FoundOk, Tables, With;
    var pc := s.jobs[j].pc;
    if s.jobs[j].backing.None? {
      var image := Image(s.jobs[j].req.value);
      NewFileTables(s, pc.key, image);
      MoveStep(NewFile(s, pc.key, image), j, Linking(pc.delay, pc.key, pc.found, true));
    } else {
      MoveStep(s, j, Linking(pc.delay, pc.key, pc.found, false));
    }
  }

  // createHardLink succeeds.

  lemma LinkStep(s: State, j: JobId, t: Thread)
    requires Tables(s) && JobOk(s, j) && j in s.jobs && s.jobs[j].pc.Linking? && s.jobs[j].req.Some?
    requires s.jobs[j].pc.key in s.disk
    ensures Step(s, DoLink(s, j, t), {s.jobs[j].pc.key}, j)
  {
    hide Image, Acceptable, ActiveOk, KeysOk, FoundOk;
    NextKeyIsNew(s, t);
    assert KeysOk(Draw(s, t, Spare(j)));
  }

  lemma LinkOwn(s: State, j: JobId, t: Thread)
    requires Tables(s) && JobOk(s, j) && j in s.jobs && s.jobs[j].pc.Linking? && s.jobs[j].req.Some?
    requires s.jobs[j].pc.key in s.disk
    ensures JobOk(DoLink(s, j, t), j)
  {
    hide Image, Acceptable, KeysOk, DiskOk, NextKey;
    DrawTables(s, t, Spare(j));
  }

  lemma NewNameTables(s: State, k: Key, i: InodeId, req: StoredRequest)
    requires Tables(s) && k in s.place && i in s.inodes
    ensures Tables(s.(disk := s.disk[k := i], saved := s.saved[k := req]))
  {
  }

  lemma NamesAnInode(s: State, k: Key)
    requires Tables(s) && k in s.disk
    ensures s.disk[k] in s.inodes
  {
    hide KeysOk, ActiveOk;
  }

  lemma LinkIsMove(s: State, j: JobId, t: Thread)
    requires j in s.jobs && s.jobs[j].pc.Linking? && s.jobs[j].req.Some? && s.jobs[j].pc.key in s.disk
    ensures var pc, link, drawn := s.jobs[j].pc, NextKey(s, t), Draw(s, t, Spare(j));
            DoLink(s, j, t) ==
            With(drawn.(disk := drawn.disk[link := s.disk[pc.key]], saved := drawn.saved[link := s.jobs[j].req.value]), j,
                 Linked(pc.delay, pc.key, link, pc.found, pc.temp))
  {
    hide NextKey, NextGen;
  }

  lemma LinkTables(s: State, j: JobId, t: Thread)
    requires Tables(s) && JobOk(s, j) && j in s.jobs && s.jobs[j].pc.Linking? && s.jobs[j].req.Some?
    requires s.jobs[j].pc.key in s.disk
    ensures Tables(DoLink(s, j, t))
  {
    hide Tables, JobOk, With, NextKey;
    var pc, link, drawn := s.jobs[j].pc, NextKey(s, t), Draw(s, t, Spare(j));
    DrawTables(s, t, Spare(j));
    NamesAnInode(s, pc.key);
    NewNameTables(drawn, link, s.disk[pc.key], s.jobs[j].req.value);
    var named := drawn.(disk := drawn.disk[link := s.disk[pc.key]], saved := drawn.saved[link := s.jobs[j].req.value]);
    MoveStep(named, j, Linked(pc.delay, pc.key, link, pc.found, pc.temp));
    assert DoLink(s, j, t) == With(named, j, Linked(pc.delay, pc.key, link, pc.found, pc.temp)) by { LinkIsMove(s, j, t); }
  }

  // link fails: the key it drew stays unused.

  lemma LinkFailsStep(s: State, j: JobId, t: Thread)
    requires Tables(s) && JobOk(s, j) && j in s.jobs && s.jobs[j].pc.Linking?
    ensures Step(s, DoLinkFails(s, j, t), {}, j)
  {
    hide Image, Acceptable, ActiveOk, JobOk, KeysOk;
    NextKeyIsNew(s, t);
    assert KeysOk(Draw(s, t, Gone));
  }

  lemma LinkFailsOwn(s: State, j: JobId, t: Thread)
    requires Tables(s) && JobOk(s, j) && j in s.jobs && s.jobs[j].pc.Linking?
    ensures JobOk(DoLinkFails(s, j, t), j)
  {
    hide Image, Acceptable, ActiveOk, KeysOk;
    NextKeyIsNew(s, t);
    assert KeysOk(Draw(s, t, Gone));
  }

  lemma LinkFailsTables(s: State, j: JobId, t: Thread)
    requires Tables(s) && JobOk(s, j) && j in s.jobs && s.jobs[j].pc.Linking?
    ensures Tables(DoLinkFails(s, j, t))
  {
    hide Tables;
    var pc := s.jobs[j].pc;
    DrawTables(s, t, Gone);
    MoveStep(Draw(s, t, Gone), j, Failed(pc.key, pc.found, pc.temp));
  }

  // The temporary file loses the name it was written under.

  lemma DropTempStep(s: State, j: JobId)
    requires Tables(s) && JobOk(s, j) && j in s.jobs && (s.jobs[j].pc.Linked? || s.jobs[j].pc.Failed?)
    ensures Step(s, DoDropTemp(s, j), {s.jobs[j].pc.key}, j)
  {
    hide Frame, JobOk, Tables, Owns;
    var pc, s' := s.jobs[j].pc, DoDropTemp(s, j);
    OwnsItsKey(s, j);
    if pc.temp {
      UnlinkFrame(s, pc.key);
      FrameMoved(s, Unlink(s, pc.key), s', {pc.key});
    } else {
      MoveFrame(s, s', {pc.key});
    }
  }

  lemma DropTempOwn(s: State, j: JobId)
    requires Tables(s) && JobOk(s, j) && j in s.jobs && (s.jobs[j].pc.Linked? || s.jobs[j].pc.Failed?)
    ensures JobOk(DoDropTemp(s, j), j)
    ensures s.jobs[j].pc.temp ==> s.jobs[j].pc.key in s.place && s.jobs[j].pc.key !in s.active
  {
    hide Image, Acceptable, ActiveOk, KeysOk, DiskOk;
  }

  lemma DropTempTables(s: State, j: JobId)
    requires Tables(s) && JobOk(s, j) && j in s.jobs && (s.jobs[j].pc.Linked? || s.jobs[j].pc.Failed?)
    ensures Tables(DoDropTemp(s, j))
  {
    hide Tables, FoundOk, LinkOk, With;
    var pc := s.jobs[j].pc;
    if pc.temp {
      DropTempOwn(s, j);
      UnlinkTables(s, pc.key);
      MoveStep(Unlink(s, pc.key), j, AfterSaving(pc));
    } else {
      MoveStep(s, j, AfterSaving(pc));
    }
  }

  // eraseActive.

  lemma EraseStep(s: State, j: JobId)
    requires Tables(s) && JobOk(s, j) && j in s.jobs && (s.jobs[j].pc.Unactivating? || s.jobs[j].pc.Erasing?)
    ensures Step(s, DoErase(s, j), {s.jobs[j].pc.key}, j)
  {
    hide Image, Acceptable, ActiveOk, KeysOk, LinkOk;
  }

  lemma EraseOwn(s: State, j: JobId)
    requires Tables(s) && JobOk(s, j) && j in s.jobs && (s.jobs[j].pc.Unactivating? || s.jobs[j].pc.Erasing?)
    ensures JobOk(DoErase(s, j), j)
  {
    hide Image, Acceptable, ActiveOk, KeysOk, DiskOk;
  }

  lemma EraseTables(s: State, j: JobId)
    requires Tables(s) && JobOk(s, j) && j in s.jobs && (s.jobs[j].pc.Unactivating? || s.jobs[j].pc.Erasing?)
    ensures Tables(DoErase(s, j))
  {
    hide ActiveOk;
    ActiveKept(s, DoErase(s, j), j);
  }

  // The body is released, and with it the file's own name.

  lemma CloseStep(s: State, j: JobId)
    requires Tables(s) && JobOk(s, j) && j in s.jobs && s.jobs[j].pc.Closing?
    ensures Step(s, DoClose(s, j), BackingKeys(s.jobs[j]), j)
  {
    hide Frame, JobOk, Tables, Owns;
    OwnsItsKey(s, j);
    match s.jobs[j].backing
    case None => MoveFrame(s, DoClose(s, j), {});
    case Some((k, _)) =>
      UnlinkFrame(s, k);
      FrameMoved(s, Unlink(s, k), DoClose(s, j), {k});
  }

  lemma CloseOwn(s: State, j: JobId)
    requires Tables(s) && JobOk(s, j) && j in s.jobs && s.jobs[j].pc.Closing?
    ensures JobOk(DoClose(s, j), j)
  {
    hide Image, Acceptable;
  }

  lemma CloseTables(s: State, j: JobId)
    requires Tables(s) && JobOk(s, j) && j in s.jobs && s.jobs[j].pc.Closing?
    ensures Tables(DoClose(s, j))
  {
    hide Tables;
    if s.jobs[j].backing.Some? {
      UnlinkTables(s, s.jobs[j].backing.value.0);
      NoJobTables(Unlink(s, s.jobs[j].backing.value.0), j);
    } else {
      NoJobTables(s, j);
    }
  }

  // ----- waiting_ -----

  /** Where an entry is inserted: behind every entry due no later. */
  lemma {:induction false} EnqueueAt(w: seq<Entry>, e: Entry) returns (p: nat)
    ensures p <= |w| && Enqueue(w, e) == w[..p] + [e] + w[p..]
    ensures forall i | 0 <= i < p :: w[i].due <= e.due
    ensures p < |w| ==> e.due < w[p].due
  {
    if w == [] || e.due < w[0].due {
      p := 0;
    } else {
      var q := EnqueueAt(w[1..], e);
      p := q + 1;
      assert w[..p] == [w[0]] + w[1..][..q];
      assert w[p..] == w[1..][q..];
      forall i | 0 <= i < p
        ensures w[i].due <= e.due
      {
        assert i > 0 ==> w[i] == w[1..][i - 1];
      }
    }
  }

  /** The entry that a request becomes. */
  function NewEntry(s: State, j: JobId): Entry
    requires j in s.jobs && s.jobs[j].pc.Inserting?
  {
    var pc := s.jobs[j].pc;
    Entry(pc.delay + s.now, pc.link, pc.retries, s.jobs[j].runs)
  }

  lemma InsertFrame(s: State, j: JobId)
    requires KeysOk(s) && JobOk(s, j) && j in s.jobs && s.jobs[j].pc.Inserting?
    ensures Frame(s, DoInsert(s, j), {s.jobs[j].pc.link})
    ensures PlacedAt(s, s.jobs[j].pc.link, Spare(j)) && s.jobs[j].pc.link !in s.active
  {
    hide Image, Acceptable, Enqueue;
  }

  lemma InsertOwn(s: State, j: JobId)
    requires JobOk(s, j) && j in s.jobs && s.jobs[j].pc.Inserting?
    ensures JobOk(DoInsert(s, j), j) && EntryOk(DoInsert(s, j), NewEntry(s, j))
  {
    hide Image, Acceptable, Enqueue;
  }

  lemma LinkIsSpare(s: State, j: JobId)
    requires JobOk(s, j) && j in s.jobs && s.jobs[j].pc.Inserting?
    ensures PlacedAt(s, s.jobs[j].pc.link, Spare(j)) && s.jobs[j].pc.link !in s.active
  {
    hide Image, Acceptable;
  }

  lemma InsertTables(s: State, j: JobId)
    requires Tables(s) && JobOk(s, j) && j in s.jobs && s.jobs[j].pc.Inserting?
    ensures Tables(DoInsert(s, j))
  {
    hide Enqueue, ActiveOk, JobOk;
    LinkIsSpare(s, j);
    ActiveKept(s, DoInsert(s, j), j);
  }

  lemma InsertKeepsWaiting(s: State, j: JobId)
    requires DiskOk(s) && WaitingOk(s) && j in s.jobs && s.jobs[j].pc.Inserting?
    requires Frame(s, DoInsert(s, j), {s.jobs[j].pc.link}) && PlacedAt(s, s.jobs[j].pc.link, Spare(j))
    requires s.jobs[j].pc.link !in s.active && EntryOk(DoInsert(s, j), NewEntry(s, j))
    ensures WaitingOk(DoInsert(s, j))
  {
    hide Enqueue, EntryOk, Frame, DiskOk;
    var s', e := DoInsert(s, j), NewEntry(s, j);
    var mid := s'.(waiting := s.waiting);
    FrameAlike(s, s', mid, {e.key});
    WaitingNotAt(s, e.key);
    FrameKeepsWaiting(s, mid, {e.key});
    forall i | 0 <= i < |s.waiting|
      ensures EntryOk(s', s.waiting[i])
    {
      SameEntry(mid, s', s.waiting[i]);
    }
    WaitingWith(mid, s', e);
  }

  /** Frame does not look at waiting_. */
  lemma FrameAlike(s: State, s': State, mid: State, touched: set<Key>)
    requires Frame(s, s', touched) && mid == s'.(waiting := s.waiting)
    ensures Frame(s, mid, touched)
  {
  }

  lemma WaitingWith(s: State, s': State, e: Entry)
    requires WaitingOk(s) && s'.place == s.place && s'.active == s.active && s'.waiting == Enqueue(s.waiting, e)
    requires PlacedAt(s, e.key, Queued) && e.key !in s.active && EntryOk(s', e)
    requires forall i | 0 <= i < |s.waiting| :: s.waiting[i].key != e.key && EntryOk(s', s.waiting[i])
    ensures WaitingOk(s')
  {
    hide EntryOk, Enqueue;
    var w := s.waiting;
    var p := EnqueueAt(w, e);
    forall i | 0 <= i < |s'.waiting|
      ensures PlacedAt(s', s'.waiting[i].key, Queued) && s'.waiting[i].key !in s'.active && EntryOk(s', s'.waiting[i])
    {
      if i != p {
        assert s'.waiting[i] == w[if i < p then i else i - 1];
      }
    }
    forall a, b | 0 <= a < b < |s'.waiting|
      ensures s'.waiting[a].key != s'.waiting[b].key && s'.waiting[a].due <= s'.waiting[b].due
    {
      EnqueueOrder(w, e, p, a, b);
    }
  }

  /** EntryOk looks at files, history and limits alone. */
  lemma SameEntry(s: State, s': State, e: Entry)
    requires EntryOk(s, e)
    requires s'.saved == s.saved && s'.disk == s.disk && s'.inodes == s.inodes
    requires s'.max == s.max && s'.maxString == s.maxString
    ensures EntryOk(s', e)
  {
    hide Image, WellFormed;
  }

  lemma EnqueueOrder(w: seq<Entry>, e: Entry, p: nat, a: nat, b: nat)
    requires forall i, j | 0 <= i < j < |w| :: w[i].key != w[j].key && w[i].due <= w[j].due
    requires forall i | 0 <= i < |w| :: w[i].key != e.key
    requires p <= |w| && (forall i | 0 <= i < p :: w[i].due <= e.due) && (p < |w| ==> e.due < w[p].due)
    requires a < b <= |w|
    ensures var q := w[..p] + [e] + w[p..]; q[a].key != q[b].key && q[a].due <= q[b].due
  {
  }

  lemma InsertKeeps(s: State, j: JobId)
    requires Inv(s) && j in s.jobs && s.jobs[j].pc.Inserting?
    ensures Inv(DoInsert(s, j))
  {
    hide Enqueue, EntryOk, WaitingOk, Frame, HandlerOk, Tables, JobOk;
    var s', link := DoInsert(s, j), s.jobs[j].pc.link;
    TablesParts(s);
    InsertFrame(s, j);
    InsertOwn(s, j);
    InsertTables(s, j);
    InsertKeepsWaiting(s, j);
    HandlerNotAt(s, link);
    FrameKeepsHandler(s, s', {link});
    forall j' | j' in s'.jobs && j' != j
      ensures JobOk(s', j')
    {
      FrameKeepsJob(s, s', {link}, Some(j), j');
    }
  }

  /** The handler's key is in its own charge. */
  lemma HandlerNotAt(s: State, k: Key)
    requires HandlerOk(s) && k in s.place && s.place[k] != Taken
    ensures !s.handler.Idle? ==> s.handler.e.key != k
  {
    hide EntryOk;
  }

  // ----- the handler -----

  /** An event of the handler touches its own entry's key only. */
  lemma HandlerTouches(s: State, s': State, k: Key)
    requires DiskOk(s) && Frame(s, s', {k}) && k in s.place && Owner(s.place[k]) == None
    requires forall j | j in s.jobs :: JobOk(s, j) && j in s'.jobs && s'.jobs[j] == s.jobs[j]
    ensures forall j | j in s.jobs :: JobOk(s', j)
  {
    hide DiskOk, JobOk, Frame;
    forall j | j in s.jobs
      ensures JobOk(s', j)
    {
      FrameKeepsJob(s, s', {k}, None, j);
    }
  }

  lemma PopTables(s: State)
    requires Tables(s) && s.waiting != [] && s.waiting[0].key !in s.active && s.handler.Idle?
    requires PlacedAt(s, s.waiting[0].key, Queued)
    ensures Tables(DoPop(s))
  {
  }

  lemma PopFrame(s: State)
    requires s.waiting != []
    ensures Frame(s, DoPop(s), {s.waiting[0].key})
  {
  }

  lemma PopKeeps(s: State)
    requires Inv(s) && s.handler.Idle? && s.waiting != []
    ensures Inv(DoPop(s))
  {
    hide Tables, JobOk, EntryOk, Frame;
    var s', e := DoPop(s), s.waiting[0];
    PopTables(s);
    PopFrame(s);
    TablesParts(s);
    HandlerTouches(s, s', e.key);
    SameEntry(s, s', e);
    forall i | 0 <= i < |s'.waiting|
      ensures PlacedAt(s', s'.waiting[i].key, Queued) && s'.waiting[i].key !in s'.active && EntryOk(s', s'.waiting[i])
    {
      assert s'.waiting[i] == s.waiting[i + 1];
      SameEntry(s, s', s.waiting[i + 1]);
    }
  }

  lemma TablesParts(s: State)
    requires Tables(s)
    ensures KeysOk(s) && DiskOk(s) && ActiveOk(s)
  {
    hide KeysOk, DiskOk, ActiveOk;
  }

  lemma OpenTables(s: State)
    requires Tables(s) && HandlerOk(s) && s.handler.Popped?
    ensures Tables(DoOpen(s)) && Frame(s, DoOpen(s), {s.handler.e.key}) && HandlerOk(DoOpen(s))
  {
    hide Image, Acceptable;
    assert s.handler.e.key in s.disk;
  }

  lemma OpenKeeps(s: State)
    requires Inv(s) && s.handler.Popped?
    ensures Inv(DoOpen(s))
  {
    hide Tables, JobOk, EntryOk, Frame;
    OpenTables(s);
    TablesParts(s);
    assert s.handler.e.key in s.disk by { hide WaitingOk; assert EntryOk(s, s.handler.e); EntryStored(s, s.handler.e); }
    HandlerTouches(s, DoOpen(s), s.handler.e.key);
    WaitingNotAt(s, s.handler.e.key);
    FrameKeepsWaiting(s, DoOpen(s), {s.handler.e.key});
  }

  lemma EntryStored(s: State, e: Entry)
    requires EntryOk(s, e)
    ensures e.key in s.disk
  {
    hide Image, Acceptable;
  }

  lemma WaitingNotAt(s: State, k: Key)
    requires WaitingOk(s) && k in s.place && s.place[k] != Queued
    ensures forall i | 0 <= i < |s.waiting| :: s.waiting[i].key != k
  {
    hide EntryOk;
  }

  lemma RegisterTables(s: State)
    requires Tables(s) && HandlerOk(s) && s.handler.Opened?
    ensures Tables(DoRegister(s))
  {
    hide EntryOk;
  }

  lemma RegisterFrame(s: State)
    requires HandlerOk(s) && s.handler.Opened?
    ensures Frame(s, DoRegister(s), {s.handler.e.key}) && HandlerOk(DoRegister(s))
  {
    hide Image, Acceptable;
  }

  lemma RegisterKeeps(s: State)
    requires Inv(s) && s.handler.Opened?
    ensures Inv(DoRegister(s))
  {
    hide Tables, JobOk, EntryOk, Frame;
    RegisterTables(s);
    RegisterFrame(s);
    TablesParts(s);
    HandlerTouches(s, DoRegister(s), s.handler.e.key);
    WaitingNotAt(s, s.handler.e.key);
    FrameKeepsWaiting(s, DoRegister(s), {s.handler.e.key});
  }

  /** The file that the handler has opened denotes the request that was linked under its key. */
  lemma RebuiltIsSaved(s: State)
    requires HandlerOk(s) && s.handler.Registered?
    ensures s.handler.inode in s.inodes && s.handler.e.key in s.saved
    ensures Rebuilt(s.inodes[s.handler.inode], s.maxString) == Some(s.saved[s.handler.e.key])
  {
    hide Image, WellFormed, Parse, Meaning;
    RoundTrip(s.saved[s.handler.e.key], s.maxString);
  }

  lemma RebuildTables(s: State, j: JobId)
    requires Tables(s) && HandlerOk(s) && s.handler.Registered? && j !in s.jobs && s.handler.inode in s.inodes
    ensures Tables(DoRebuild(s, j)) && Frame(s, DoRebuild(s, j), {s.handler.e.key})
  {
    hide Image, Rebuilt, EntryOk;
  }

  lemma RebuildOwn(s: State, j: JobId)
    requires HandlerOk(s) && s.handler.Registered? && j !in s.jobs && s.handler.inode in s.inodes
    ensures JobOk(DoRebuild(s, j), j)
  {
    hide Image, Rebuilt, Acceptable;
    RebuiltIsSaved(s);
  }

  lemma RebuildKeeps(s: State, j: JobId)
    requires Inv(s) && s.handler.Registered? && j !in s.jobs && s.handler.inode in s.inodes
    ensures Inv(DoRebuild(s, j))
  {
    hide Rebuilt, Tables, JobOk, EntryOk, Frame;
    RebuildTables(s, j);
    RebuildOwn(s, j);
    TablesParts(s);
    HandlerTouches(s, DoRebuild(s, j), s.handler.e.key);
    WaitingNotAt(s, s.handler.e.key);
    FrameKeepsWaiting(s, DoRebuild(s, j), {s.handler.e.key});
  }

  lemma TickKeeps(s: State, time: Time)
    requires Inv(s) && s.now <= time
    ensures Inv(s.(now := time))
  {
    hide Image, WellFormed, EntryOk, PcOk;
    var s' := s.(now := time);
    forall j | j in s'.jobs
      ensures JobOk(s', j)
    {
      FrameKeepsJob(s, s', {}, None, j);
    }
    FrameKeepsWaiting(s, s', {});
    FrameKeepsHandler(s, s', {});
  }

  // ----- every run -----

  /** Of the events of one request, InsertWaiting alone reaches beyond it. */
  predicate IsJobEvent(e: Event) {
    !(e.Tick? || e.InsertWaiting? || e.Pop? || e.Open? || e.Register? || e.Rebuild? || e.RebuildFails?)
  }

  /** The keys at which a request's event changes something, of those issued before. */
  ghost function Touched(s: State, e: Event): set<Key>
    requires IsJobEvent(e) && Legal(s, e)
  {
    match e
    case Activate(j) => BackingKeys(s.jobs[j])
    case AttachDone(j, _) => BackingKeys(s.jobs[j])
    case SaveWrite(j) => {s.jobs[j].pc.key}
    case SaveLink(j, _) => {s.jobs[j].pc.key}
    case SaveDropTemp(j) => {s.jobs[j].pc.key}
    case EraseActive(j) => {s.jobs[j].pc.key}
    case Close(j) => BackingKeys(s.jobs[j])
    case _ => {}
  }

  lemma JobEventSteps(s: State, e: Event)
    requires Tables(s) && IsJobEvent(e) && Legal(s, e) && JobOk(s, e.j)
    ensures Step(s, After(s, e), Touched(s, e), e.j) && JobOk(After(s, e), e.j) && Tables(After(s, e))
  {
    hide JobOk, Tables, Step, Acceptable, Rebuilt, Parse, With, NeedsKey, DoBegin,
         DoLookup, DoWrite, DoLink, DoLinkFails, DoDropTemp, DoErase, DoInsert, DoClose, DoPop, DoOpen,
         DoRegister, DoRebuild, DoCreate, DoActivate, DoAttach;
    match e
    case Arrive(j, req) =>
      ArriveStep(s, j, req);
      ArriveOwn(s, j, req);
      ArriveTables(s, j, req);
    case Create(j, t) =>
      CreateStep(s, j, t);
      CreateOwn(s, j, t);
      CreateTables(s, j, t);
    case Activate(j) =>
      ActivateStep(s, j);
      ActivateOwn(s, j);
      ActivateTables(s, j);
    case AttachDone(j, req) =>
      AttachStep(s, j, req);
      AttachOwn(s, j, req);
      AttachTables(s, j, req);
    case AttachFail(j) =>
      DestroyStep(s, j, 0);
      DestroyOwn(s, j, 0);
      DestroyTables(s, j, 0);
    case Destroy(j, delay) =>
      DestroyStep(s, j, delay);
      DestroyOwn(s, j, delay);
      DestroyTables(s, j, delay);
    case SaveBegin(j, t) =>
      if NeedsKey(s, j) {
        BeginFreshStep(s, j, t);
        BeginFreshOwn(s, j, t);
        BeginFreshTables(s, j, t);
      } else {
        BeginStep(s, j, t);
        BeginOwn(s, j, t);
        BeginTables(s, j, t);
      }
    case SaveLookup(j) =>
      LookupStep(s, j);
      LookupOwn(s, j);
      LookupTables(s, j);
    case SaveWrite(j) =>
      WriteStep(s, j);
      WriteOwn(s, j);
      WriteTables(s, j);
    case SaveLink(j, t) =>
      LinkStep(s, j, t);
      LinkOwn(s, j, t);
      LinkTables(s, j, t);
    case SaveLinkFails(j, t) =>
      LinkFailsStep(s, j, t);
      LinkFailsOwn(s, j, t);
      LinkFailsTables(s, j, t);
    case SaveDropTemp(j) =>
      DropTempStep(s, j);
      DropTempOwn(s, j);
      DropTempTables(s, j);
    case EraseActive(j) =>
      EraseStep(s, j);
      EraseOwn(s, j);
      EraseTables(s, j);
    case Close(j) =>
      CloseStep(s, j);
      CloseOwn(s, j);
      CloseTables(s, j);
  }

  lemma InvJob(s: State, j: JobId)
    requires Inv(s)
    ensures Tables(s) && WaitingOk(s) && HandlerOk(s) && JobOk(s, j)
  {
    hide Tables, WaitingOk, HandlerOk;
  }

  lemma JobEventKeeps(s: State, e: Event)
    requires Inv(s) && IsJobEvent(e) && Legal(s, e)
    ensures Inv(After(s, e))
  {
    hide Inv, After, Legal, Touched, Tables, JobOk, Step;
    InvJob(s, e.j);
    JobEventSteps(s, e);
    StepKeeps(s, After(s, e), Touched(s, e), e.j);
  }

  lemma EventKeeps(s: State, e: Event)
    requires Inv(s) && Legal(s, e)
    ensures Inv(After(s, e))
  {
    hide Inv, Acceptable, Rebuilt, Parse, DoBegin, DoLookup, DoWrite, DoLink, DoLinkFails, DoDropTemp,
         DoErase, DoInsert, DoClose, DoPop, DoOpen, DoRegister, DoRebuild, DoCreate, DoActivate, DoAttach;
    match e
    case Tick(time) => TickKeeps(s, time);
    case InsertWaiting(j) => InsertKeeps(s, j);
    case Pop => PopKeeps(s);
    case Open => OpenKeeps(s);
    case Register => RegisterKeeps(s);
    case Rebuild(j) => RebuildKeeps(s, j);
    case RebuildFails(erased) => ParseNeverFails(s, erased);
    case _ => JobEventKeeps(s, e);
  }

  /** Replaying never meets a file that parse rejects. */
  lemma ParseNeverFails(s: State, erased: bool)
    requires Inv(s)
    ensures !Legal(s, RebuildFails(erased))
  {
    hide Image, WellFormed, Parse, Meaning, WaitingOk, ActiveOk, JobOk;
    if s.handler.Registered? {
      RebuiltIsSaved(s);
    }
  }

  lemma {:induction false} RunKeeps(s: State, events: seq<Event>)
    requires Inv(s) && Runs(s, events)
    ensures Inv(End(s, events))
    decreases |events|
  {
    if events != [] {
      EventKeeps(s, events[0]);
      RunKeeps(After(s, events[0]), events[1..]);
    }
  }

  /** States the daemon can be in. */
  ghost predicate Reachable(s: State, max: nat, maxString: nat, now: Time, events: seq<Event>) {
    Runs(Start(max, maxString, now), events) && s == End(Start(max, maxString, now), events)
  }

  lemma StartInv(max: nat, maxString: nat, now: Time)
    ensures Inv(Start(max, maxString, now))
  {
  }

  ghost predicate Safe(s: State, max: nat) {
    // a key is never in active_ and waiting_ at once, nor twice in waiting_
    && (forall i | 0 <= i < |s.waiting| :: s.waiting[i].key !in s.active)
    && (forall i, j | 0 <= i < j < |s.waiting| :: s.waiting[i].key != s.waiting[j].key)
    // every waiting key names an existing file, which holds the image of the request saved under it
    && (forall i | 0 <= i < |s.waiting| ::
          s.waiting[i].key in s.saved && Stores(s, s.waiting[i].key, s.saved[s.waiting[i].key]))
    // retries lie in 1..max, so a request is run at most 1 + max times
    && (forall i | 0 <= i < |s.waiting| ::
          1 <= s.waiting[i].retries <= max && s.waiting[i].runs == s.waiting[i].retries)
    && (forall j | j in s.jobs :: s.jobs[j].runs <= 1 + max)
    // what the handler would take is least
    && (forall i | 0 <= i < |s.waiting| :: s.waiting[0].due <= s.waiting[i].due)
    // an entry of active_ always has a request, or the handler, to answer for it
    && ActiveOk(s)
  }

  /** Safety of the retry protocol, in every interleaving. */
  lemma RetrySafety(s: State, max: nat, maxString: nat, now: Time, events: seq<Event>)
    requires Reachable(s, max, maxString, now, events)
    ensures Inv(s) && s.max == max && Safe(s, max)
  {
    hide PcOk, Acceptable, KeysOk, DiskOk, Grows, Stores;
    StartInv(max, maxString, now);
    RunKeeps(Start(max, maxString, now), events);
    RunGrows(Start(max, maxString, now), events);
    assert Grows(Start(max, maxString, now), s);
    LimitsStay(Start(max, maxString, now), s);
    assert forall j | j in s.jobs :: JobOk(s, j);
    assert forall i | 0 <= i < |s.waiting| :: EntryOk(s, s.waiting[i]);
  }

  /** The file named k is a request's own, or has been removed. */
  predicate Settled(s: State, k: Key) {
    k in s.place && (s.place[k].Held? || s.place[k].Gone?)
  }

  /** The configuration stays, the clock does not go back, settled keys stay settled; issued keys and
      the requests saved under them are never forgotten. */
  ghost predicate Grows(s: State, s': State) {
    && Limits(s') == Limits(s) && s.now <= s'.now
    && (forall k | k in s.place :: k in s'.place)
    && (forall k | Settled(s, k) :: Settled(s', k))
    && (forall k | k in s.saved :: k in s'.saved && s'.saved[k] == s.saved[k])
  }

  lemma SameHistory(s: State, s': State)
    requires s'.place == s.place && s'.saved == s.saved && Limits(s') == Limits(s) && s.now <= s'.now
    ensures Grows(s, s')
  {
  }

  lemma DrawGrows(s: State, t: Thread, p: Place)
    requires KeysOk(s)
    ensures Grows(s, Draw(s, t, p))
  {
    hide NextKey, NextGen, KeysOk;
    NextKeyIsNew(s, t);
  }

  lemma CreateGrows(s: State, j: JobId, t: Thread)
    requires KeysOk(s)
    ensures Grows(s, DoCreate(s, j, t))
  {
    hide Grows;
    var drawn := Draw(s, t, Held(j));
    DrawGrows(s, t, Held(j));
    SameHistory(drawn, DoCreate(s, j, t));
    GrowsTwice(s, drawn, DoCreate(s, j, t));
  }

  lemma BeginGrows(s: State, j: JobId, t: Thread)
    requires KeysOk(s) && j in s.jobs && s.jobs[j].pc.Saving?
    ensures Grows(s, DoBegin(s, j, t))
  {
    hide Grows;
    if NeedsKey(s, j) {
      var drawn := Draw(s, t, Temp(j));
      DrawGrows(s, t, Temp(j));
      SameHistory(drawn, DoBegin(s, j, t));
      GrowsTwice(s, drawn, DoBegin(s, j, t));
    } else {
      SameHistory(s, DoBegin(s, j, t));
    }
  }

  lemma LookupGrows(s: State, j: JobId)
    requires j in s.jobs && s.jobs[j].pc.Lookup?
    ensures Grows(s, DoLookup(s, j))
  {
    hide Grows;
    SameHistory(s, DoLookup(s, j));
  }

  lemma WriteGrows(s: State, j: JobId)
    requires j in s.jobs && s.jobs[j].pc.Writing? && s.jobs[j].req.Some?
    ensures Grows(s, DoWrite(s, j))
  {
    hide Grows, Image;
    SameHistory(s, DoWrite(s, j));
  }

  lemma LinkGrows(s: State, j: JobId, t: Thread)
    requires KeysOk(s) && j in s.jobs && s.jobs[j].pc.Linking? && s.jobs[j].req.Some? && s.jobs[j].pc.key in s.disk
    ensures Grows(s, DoLink(s, j, t))
  {
    hide NextKey, NextGen;
    NextKeyIsNew(s, t);
  }

  lemma LinkFailsGrows(s: State, j: JobId, t: Thread)
    requires KeysOk(s) && j in s.jobs && s.jobs[j].pc.Linking?
    ensures Grows(s, DoLinkFails(s, j, t))
  {
    hide Grows;
    var drawn := Draw(s, t, Gone);
    DrawGrows(s, t, Gone);
    SameHistory(drawn, DoLinkFails(s, j, t));
    GrowsTwice(s, drawn, DoLinkFails(s, j, t));
  }

  lemma DropTempGrows(s: State, j: JobId)
    requires j in s.jobs && (s.jobs[j].pc.Linked? || s.jobs[j].pc.Failed?)
    ensures Grows(s, DoDropTemp(s, j))
  {
  }

  lemma InsertGrows(s: State, j: JobId)
    requires j in s.jobs && s.jobs[j].pc.Inserting? && JobOk(s, j)
    ensures Grows(s, DoInsert(s, j))
  {
    hide Enqueue, Acceptable, Image;
  }

  lemma CloseGrows(s: State, j: JobId)
    requires j in s.jobs
    ensures Grows(s, DoClose(s, j))
  {
  }

  lemma PopGrows(s: State)
    requires s.waiting != [] && WaitingOk(s)
    ensures Grows(s, DoPop(s))
  {
    hide EntryOk;
  }

  lemma JobEventGrows(s: State, e: Event)
    requires KeysOk(s) && IsJobEvent(e) && Legal(s, e)
    ensures Grows(s, After(s, e))
  {
    hide Acceptable, InsertActive, KeysOk, DoCreate, DoBegin, DoLookup, DoWrite, DoLink, DoLinkFails,
         DoDropTemp, DoClose, Grows;
    match e
    case Create(j, t) => CreateGrows(s, j, t);
    case SaveBegin(j, t) => BeginGrows(s, j, t);
    case SaveLookup(j) => LookupGrows(s, j);
    case SaveWrite(j) => WriteGrows(s, j);
    case SaveLink(j, t) => LinkGrows(s, j, t);
    case SaveLinkFails(j, t) => LinkFailsGrows(s, j, t);
    case SaveDropTemp(j) => DropTempGrows(s, j);
    case Close(j) => CloseGrows(s, j);
    case Arrive(_, _) => SameHistory(s, After(s, e));
    case Activate(_) => SameHistory(s, After(s, e));
    case AttachDone(_, _) => SameHistory(s, After(s, e));
    case AttachFail(_) => SameHistory(s, After(s, e));
    case Destroy(_, _) => SameHistory(s, After(s, e));
    case EraseActive(_) => SameHistory(s, After(s, e));
  }

  lemma EventGrows(s: State, e: Event)
    requires Inv(s) && Legal(s, e)
    ensures Grows(s, After(s, e))
  {
    hide Inv, Rebuilt, Parse, Acceptable, InsertActive, KeysOk, Tables, WaitingOk, HandlerOk, JobOk,
         DoInsert, DoPop, DoOpen, DoRebuild, DoRebuildFails, Grows;
    InvKeys(s);
    InvJob(s, if e.InsertWaiting? then e.j else 0);
    match e
    case InsertWaiting(j) => InsertGrows(s, j);
    case Pop => PopGrows(s);
    case Rebuild(j) => RebuildGrows(s, j);
    case RebuildFails(erased) => ParseNeverFails(s, erased);
    case Tick(time) => SameHistory(s, s.(now := time));
    case Open => OpenGrows(s);
    case Register => SameHistory(s, DoRegister(s));
    case _ => JobEventGrows(s, e);
  }

  lemma OpenGrows(s: State)
    requires s.handler.Popped?
    ensures Grows(s, DoOpen(s))
  {
    hide Grows;
    SameHistory(s, DoOpen(s));
  }

  lemma RebuildGrows(s: State, j: JobId)
    requires s.handler.Registered? && s.handler.inode in s.inodes
    ensures Grows(s, DoRebuild(s, j))
  {
    hide Rebuilt;
  }

  /** The configuration. */
  function Limits(s: State): (nat, nat) {
    (s.max, s.maxString)
  }

  lemma InvKeys(s: State)
    requires Inv(s)
    ensures KeysOk(s)
  {
    hide KeysOk, DiskOk, ActiveOk, WaitingOk, HandlerOk, JobOk;
  }

  lemma GrowsNot(s: State)
    ensures Grows(s, s)
  {
  }

  lemma LimitsStay(s: State, s': State)
    requires Grows(s, s')
    ensures s'.max == s.max && s'.maxString == s.maxString
  {
  }

  lemma GrowsTwice(a: State, b: State, c: State)
    requires Grows(a, b) && Grows(b, c)
    ensures Grows(a, c)
  {
  }

  /** A request saved under a key stays the one saved under it. */
  lemma {:induction false} RunGrows(s: State, events: seq<Event>)
    requires Inv(s) && Runs(s, events)
    ensures Grows(s, End(s, events))
    decreases |events|
  {
    hide Legal, After, Tables, WaitingOk, HandlerOk, JobOk, Grows;
    if events != [] {
      EventGrows(s, events[0]);
      EventKeeps(s, events[0]);
      RunGrows(After(s, events[0]), events[1..]);
      GrowsTwice(s, After(s, events[0]), End(s, events));
    } else {
      GrowsNot(s);
    }
  }

  // ----- keys are issued once -----

  /** The keys an event draws. */
  function Draws(s: State, e: Event): seq<Key> {
    match e
    case Create(_, t) => [NextKey(s, t)]
    case SaveBegin(j, t) => if NeedsKey(s, j) then [NextKey(s, t)] else []
    case SaveLink(_, t) => [NextKey(s, t)]
    case SaveLinkFails(_, t) => [NextKey(s, t)]
    case _ => []
  }

  /** All keys drawn in a run, in order. */
  ghost function Issued(s: State, events: seq<Event>): seq<Key>
    requires Runs(s, events)
    decreases |events|
  {
    if events == [] then [] else Draws(s, events[0]) + Issued(After(s, events[0]), events[1..])
  }

  lemma DrawsAreNew(s: State, e: Event)
    requires KeysOk(s) && Legal(s, e)
    ensures |Draws(s, e)| <= 1
    ensures forall k | k in Draws(s, e) :: k !in s.place
  {
    hide KeysOk, NextKey;
    match e
    case Create(_, t) => NextKeyIsNew(s, t);
    case SaveBegin(_, t) => NextKeyIsNew(s, t);
    case SaveLink(_, t) => NextKeyIsNew(s, t);
    case SaveLinkFails(_, t) => NextKeyIsNew(s, t);
    case _ =>
  }

  lemma DrawsArePlaced(s: State, e: Event)
    requires Legal(s, e)
    ensures forall k | k in Draws(s, e) :: k in After(s, e).place
  {
    hide Rebuilt, Parse, Acceptable, NextKey, NextGen, Image, Enqueue;
    match e
    case Create(_, t) =>
    case SaveBegin(_, t) =>
    case SaveLink(_, t) =>
    case SaveLinkFails(_, t) =>
    case _ => assert Draws(s, e) == [];
  }

  /** With a clock that does not go back, no key is issued twice. */
  lemma {:induction false} KeysIssuedOnce(s: State, events: seq<Event>)
    requires Inv(s) && Runs(s, events)
    ensures forall i | 0 <= i < |Issued(s, events)| :: Issued(s, events)[i] !in s.place
    ensures forall i, j | 0 <= i < j < |Issued(s, events)| :: Issued(s, events)[i] != Issued(s, events)[j]
    decreases |events|
  {
    hide Inv, Legal, After, Draws, NextKey;
    if events != [] {
      var s', first := After(s, events[0]), Draws(s, events[0]);
      EventKeeps(s, events[0]);
      InvKeys(s);
      EventGrows(s, events[0]);
      DrawsAreNew(s, events[0]);
      DrawsArePlaced(s, events[0]);
      KeysIssuedOnce(s', events[1..]);
      var rest := Issued(s', events[1..]);
      assert Issued(s, events) == first + rest;
      forall i | 0 <= i < |first + rest|
        ensures (first + rest)[i] !in s.place
        ensures i >= |first| ==> (first + rest)[i] !in s'.place
        ensures i < |first| ==> (first + rest)[i] in s'.place
      {
        assert i < |first| ==> (first + rest)[i] in first;
        assert i >= |first| ==> (first + rest)[i] == rest[i - |first|];
      }
    }
  }
}

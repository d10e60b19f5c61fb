/** The single-active configuration store as steps of many processes over one database.

    A session may die at any step, which releases its advisory lock and aborts its transaction;
    a commit may take effect and still be reported as failed.  A restarted process is a new
    process.  Checks of a long listener run in a read-only transaction under the semaphore and
    are one step here: they need the token to be free and the session to be alive and owning.
  */
module ConfigProtocol {
  import opened Registry
  import opened ConfigStore

  type Session = nat
  type Pid = nat
  type Tid = nat
  type Wid = nat
  type Md5Index = map<Key, string>

  /** One after-commit callback of a handler. */
  datatype Notice = Published(key: Key, md5: string) | Invalidated(key: Key)

  /** What the publish and delete handlers do inside their transaction. */
  datatype Command = Publish(key: Key, content: string, tags: seq<string>) | Remove(key: Key)

  /** Where the holder of the semaphore stands in WithConfigTransaction. */
  datatype Stage =
    | Holding
    | Verified
    | InTx(work: Tables, notices: seq<Notice>)
    | Reverified(work: Tables, notices: seq<Notice>)
    | Notifying(left: seq<Notice>, sending: set<Wid>)

  datatype WaitPc = FirstCheck | Registering | SecondCheck | Parked | Rechecking | Returned(changed: Option<seq<Key>>)

  /** One WaitChanged call.  `drained`: it has already taken a token from its channel. */
  datatype Waiter = Waiter(keys: seq<Key>, known: Md5Index, pc: WaitPc, token: bool, drained: bool)

  /** `reported`, `ran` and `missed` only record: the callbacks owed by reported commits, those that
      ran, and the md5 column before and after a commit that took effect without being reported. */
  datatype Proc = Proc(
    session: Option<Session>, lost: bool, chan: nat, tasks: map<Tid, Stage>,
    hub: Option<Md5Index>, watchers: map<Key, set<Wid>>, waiters: map<Wid, Waiter>,
    reported: seq<Notice>, ran: seq<Notice>, missed: Option<Missed>)

  datatype Missed = Missed(before: Md5Index, after: Md5Index)

  datatype Commitment = Commitment(pid: Pid, session: Session)

  /** `commits` only records who committed, reported or not. */
  datatype Db = Db(lock: Option<Session>, alive: set<Session>, next: Session, tables: Tables,
                   commits: seq<Commitment>)

  datatype System = System(db: Db, procs: map<Pid, Proc>)

  ghost const IDLE := Proc(None, false, 0, map[], None, map[], map[], [], [], None)
  ghost const START := System(Db(None, {}, 0, EMPTY_TABLES, []), map[])

  // ----- md5 indexes and notices

  function Md5s(t: Tables): Md5Index {
    map k | k in t.rows :: t.rows[k].md5
  }

  function Read(m: Md5Index, k: Key): string {
    if k in m then m[k] else ""
  }

  function ApplyNotice(m: Md5Index, n: Notice): Md5Index {
    match n
    case Published(k, md5) => m[k := md5]
    case Invalidated(k) => m - {k}
  }

  function ApplyNotices(m: Md5Index, ns: seq<Notice>): Md5Index
    decreases |ns|
  {
    if ns == [] then m else ApplyNotices(ApplyNotice(m, ns[0]), ns[1..])
  }

  function Changed(m: Md5Index, keys: seq<Key>, known: Md5Index): (r: seq<Key>)
    ensures forall k :: k in r <==> k in keys && Read(m, k) != Read(known, k)
  {
    if keys == [] then []
    else (if Read(m, keys[0]) != Read(known, keys[0]) then [keys[0]] else []) + Changed(m, keys[1..], known)
  }

  function Apply(h: string -> string, t: Tables, c: Command): Tables {
    match c
    case Publish(k, content, tags) =>
      var u := Upsert(h, t, k, content, "");
      if tags == [] then u else ReplaceTags(u, u.rows[k].id, k, tags)
    case Remove(k) => Delete(t, k)
  }

  /** A tag list with a repeated name is refused by the database and the handler answers 500. */
  predicate Acceptable(c: Command) {
    c.Publish? ==> DistinctNames(TagNames(c.tags))
  }

  function NoticesOf(h: string -> string, t: Tables, c: Command): seq<Notice> {
    match c
    case Publish(k, content, _) => [Published(k, h(content))]
    case Remove(k) => if k in t.rows then [Invalidated(k)] else []
  }

  // ----- steps inside one process

  datatype Local =
    | Take(t: Tid)                                // receive the token
    | Verify(t: Tid)                              // first ownership check passes
    | Begin(t: Tid, id: nat, nid: nat)            // ids the sequences stand at
    | Write(t: Tid, c: Command)
    | Reverify(t: Tid)                            // check on the transaction passes
    | Abandon(t: Tid, lose: bool)                 // any failure before the commit takes effect
    | NotifyHub(t: Tid)                           // next callback: update the map, take the watchers
    | Send(t: Tid, w: Wid)                        // non-blocking send to one watcher
    | PutBack(t: Tid)
    | Lose
    | Preload
    | Wait(w: Wid, keys: seq<Key>, known: Md5Index)
    | Check(w: Wid)
    | Register(w: Wid)
    | Wake(w: Wid)
    | Tick(w: Wid)
    | Timeout(w: Wid)
    | GiveUp(w: Wid)

  ghost predicate Alive(db: Db, p: Proc) {
    p.session.Some? && p.session.value in db.alive
  }

  ghost predicate Live(db: Db, p: Proc) {
    Alive(db, p) && !p.lost
  }

  ghost predicate LocalEnabled(db: Db, p: Proc, e: Local) {
    match e
    case Take(t) => p.session.Some? && p.chan > 0 && t !in p.tasks
    case Verify(t) => t in p.tasks && p.tasks[t].Holding? && Live(db, p)
    case Begin(t, id, nid) =>
      && t in p.tasks && p.tasks[t].Verified? && Alive(db, p)
      && db.tables.nextId <= id && db.tables.nextNid <= nid
    case Write(t, c) => t in p.tasks && p.tasks[t].InTx? && Alive(db, p) && p.hub.Some? && Acceptable(c)
    case Reverify(t) => t in p.tasks && p.tasks[t].InTx? && Live(db, p)
    case Abandon(t, _) => t in p.tasks && !p.tasks[t].Notifying?
    case NotifyHub(t) => t in p.tasks && p.tasks[t].Notifying? && p.tasks[t].left != [] && p.tasks[t].sending == {} && p.hub.Some?
    case Send(t, w) => t in p.tasks && p.tasks[t].Notifying? && w in p.tasks[t].sending
    case PutBack(t) => t in p.tasks && p.tasks[t] == Notifying([], {})
    case Lose => p.session.Some?
    case Preload => p.hub.None? && Live(db, p) && p.chan > 0
    case Wait(w, _, _) => p.hub.Some? && w !in p.waiters
    case Check(w) =>
      && w in p.waiters && (p.waiters[w].pc == FirstCheck || p.waiters[w].pc == SecondCheck || p.waiters[w].pc == Rechecking)
      && Live(db, p) && p.chan > 0
    case Register(w) => w in p.waiters && p.waiters[w].pc == Registering
    case Wake(w) => w in p.waiters && p.waiters[w].pc == Parked && p.waiters[w].token
    case Tick(w) => w in p.waiters && p.waiters[w].pc == Parked
    case Timeout(w) => w in p.waiters && p.waiters[w].pc == Parked && Live(db, p) && p.chan > 0
    case GiveUp(w) => w in p.waiters && !p.waiters[w].pc.Returned?
  }

  function AddWatcher(ws: map<Key, set<Wid>>, keys: seq<Key>, w: Wid): map<Key, set<Wid>> {
    map k | k in ws.Keys + (set x | x in keys) ::
      (if k in ws then ws[k] else {}) + (if k in keys then {w} else {})
  }

  function DropWatcher(ws: map<Key, set<Wid>>, keys: seq<Key>, w: Wid): map<Key, set<Wid>> {
    map k | k in ws && !(k in keys && ws[k] <= {w}) :: if k in keys then ws[k] - {w} else ws[k]
  }

  ghost function Return(p: Proc, w: Wid, r: Option<seq<Key>>): Proc
    requires w in p.waiters
  {
    p.(waiters := p.waiters[w := p.waiters[w].(pc := Returned(r))],
       watchers := DropWatcher(p.watchers, p.waiters[w].keys, w))
  }

  ghost function SetPc(p: Proc, w: Wid, pc: WaitPc): Proc
    requires w in p.waiters
  {
    p.(waiters := p.waiters[w := p.waiters[w].(pc := pc)])
  }

  ghost function SetStage(p: Proc, t: Tid, s: Stage): Proc {
    p.(tasks := p.tasks[t := s])
  }

  /** Put the token back and leave. */
  ghost function Leave(p: Proc, t: Tid): Proc {
    p.(tasks := p.tasks - {t}, chan := p.chan + 1)
  }

  ghost function LocalStep(h: string -> string, db: Db, p: Proc, e: Local): Proc
    requires LocalEnabled(db, p, e)
  {
    match e
    case Take(t) => SetStage(p, t, Holding).(chan := p.chan - 1)
    case Verify(t) => SetStage(p, t, Verified)
    case Begin(t, id, nid) => SetStage(p, t, InTx(db.tables.(nextId := id, nextNid := nid), []))
    case Write(t, c) =>
      var s := p.tasks[t];
      SetStage(p, t, InTx(Apply(h, s.work, c), s.notices + NoticesOf(h, s.work, c)))
    case Reverify(t) => SetStage(p, t, Reverified(p.tasks[t].work, p.tasks[t].notices))
    case Abandon(t, lose) => Leave(p, t).(lost := p.lost || lose)
    case NotifyHub(t) =>
      var n := p.tasks[t].left[0];
      SetStage(p, t, Notifying(p.tasks[t].left[1..], if n.key in p.watchers then p.watchers[n.key] else {}))
        .(hub := Some(ApplyNotice(p.hub.value, n)), watchers := p.watchers - {n.key}, ran := p.ran + [n])
    case Send(t, w) =>
      SetStage(p, t, p.tasks[t].(sending := p.tasks[t].sending - {w}))
        .(waiters := if w in p.waiters then p.waiters[w := p.waiters[w].(token := true)] else p.waiters)
    case PutBack(t) => Leave(p, t)
    case Lose => p.(lost := true)
    case Preload => p.(hub := Some(Md5s(db.tables)))
    case Wait(w, keys, known) => p.(waiters := p.waiters[w := Waiter(keys, known, FirstCheck, false, false)])
    case Check(w) =>
      var q := p.waiters[w];
      var changed := Changed(Md5s(db.tables), q.keys, q.known);
      if changed != [] then Return(p, w, Some(changed))
      else if q.pc == FirstCheck && q.keys == [] then Return(p, w, Some([]))
      else SetPc(p, w, if q.pc == FirstCheck then Registering else Parked)
    case Register(w) => SetPc(p, w, SecondCheck).(watchers := AddWatcher(p.watchers, p.waiters[w].keys, w))
    case Wake(w) => p.(waiters := p.waiters[w := p.waiters[w].(pc := Rechecking, token := false, drained := true)])
    case Tick(w) => SetPc(p, w, Rechecking)
    case Timeout(w) => Return(p, w, Some(Changed(Md5s(db.tables), p.waiters[w].keys, p.waiters[w].known)))
    case GiveUp(w) => Return(p, w, None)
  }

  // ----- steps of the whole system

  datatype Event =
    | Boot(p: Pid)
    | Acquire(p: Pid)
    | Die(s: Session)
    | Commit(p: Pid, t: Tid)
    | CommitUnreported(p: Pid, t: Tid)
    | In(p: Pid, e: Local)

  ghost predicate Enabled(s: System, e: Event) {
    match e
    case Boot(p) => p !in s.procs
    case Acquire(p) => p in s.procs && s.procs[p].session.None?
    case Die(x) => x in s.db.alive
    case Commit(p, t) => CanCommit(s, p, t)
    case CommitUnreported(p, t) => CanCommit(s, p, t)
    case In(p, l) => p in s.procs && LocalEnabled(s.db, s.procs[p], l)
  }

  /** The database accepts a commit from any live session; it does not look at the lock again. */
  ghost predicate CanCommit(s: System, p: Pid, t: Tid) {
    p in s.procs && t in s.procs[p].tasks && s.procs[p].tasks[t].Reverified? && Alive(s.db, s.procs[p])
  }

  ghost function Committed(db: Db, pid: Pid, p: Proc, t: Tid): Db
    requires p.session.Some? && t in p.tasks && p.tasks[t].Reverified?
  {
    db.(tables := p.tasks[t].work, commits := db.commits + [Commitment(pid, p.session.value)])
  }

  ghost function Step(h: string -> string, s: System, e: Event): System
    requires Enabled(s, e)
  {
    match e
    case Boot(p) => s.(procs := s.procs[p := IDLE])
    case Acquire(p) =>
      var x := s.db.next;
      if s.db.lock.None? then
        System(s.db.(lock := Some(x), alive := s.db.alive + {x}, next := x + 1),
               s.procs[p := s.procs[p].(session := Some(x), chan := 1)])
      else s.(db := s.db.(next := x + 1))
    case Die(x) =>
      s.(db := s.db.(alive := s.db.alive - {x}, lock := if s.db.lock == Some(x) then None else s.db.lock))
    case Commit(pid, t) =>
      var p := s.procs[pid];
      var ns := p.tasks[t].notices;
      System(Committed(s.db, pid, p, t),
             s.procs[pid := SetStage(p, t, Notifying(ns, {})).(reported := p.reported + ns)])
    case CommitUnreported(pid, t) =>
      var p := s.procs[pid];
      System(Committed(s.db, pid, p, t), s.procs[pid := Leave(p, t).(lost := true, missed := Some(Missed(Md5s(s.db.tables), Md5s(p.tasks[t].work))))])
    case In(pid, l) =>
      s.(procs := s.procs[pid := LocalStep(h, s.db, s.procs[pid], l)])
  }

  /** The state a sequence of events leads to, if each is enabled in turn. */
  ghost function Run(h: string -> string, es: seq<Event>): Option<System> {
    if es == [] then Some(START)
    else
      var before, e := Run(h, es[..|es| - 1]), es[|es| - 1];
      if before.Some? && Enabled(before.value, e) then Some(Step(h, before.value, e)) else None
  }
}

/** What every reachable state of the configuration protocol satisfies. */
module ConfigInvariants {
  import opened Registry
  import opened ConfigStore
  import opened ConfigProtocol

  // ----- the semaphore

  /** One token, in the channel or with one holder. */
  ghost predicate SemOk(p: Proc) {
    p.chan + |p.tasks| == if p.session.Some? then 1 else 0
  }

  lemma OneHolder(p: Proc, t: Tid)
    requires SemOk(p) && t in p.tasks
    ensures p.chan == 0 && p.session.Some? && p.tasks.Keys == {t}
  {
    assert |p.tasks.Keys| == |p.tasks|;
    assert |p.tasks.Keys - {t}| == 0;
    assert p.tasks.Keys == p.tasks.Keys - {t} + {t};
  }

  lemma NoHolder(p: Proc)
    requires SemOk(p) && p.chan > 0
    ensures p.tasks == map[] && p.chan == 1 && p.session.Some?
  {
    assert |p.tasks.Keys| == |p.tasks|;
  }

  /** The steps of the semaphore's holder. */
  ghost predicate Holders(e: Local) {
    e.Take? || e.Verify? || e.Begin? || e.Write? || e.Reverify? || e.Abandon? || e.NotifyHub? || e.Send? || e.PutBack?
  }

  /** Mutual exclusion: whoever acts under the semaphore is the only one there, before and after. */
  lemma HolderAlone(h: string -> string, db: Db, p: Proc, e: Local)
    requires SemOk(p) && LocalEnabled(db, p, e) && Holders(e)
    ensures e.Take? ==> p.tasks == map[]
    ensures !e.Take? ==> p.tasks.Keys == {e.t}
    ensures e.Abandon? || e.PutBack? ==> LocalStep(h, db, p, e).tasks == map[]
    ensures !e.Abandon? && !e.PutBack? ==> LocalStep(h, db, p, e).tasks.Keys == {e.t}
    ensures SemOk(LocalStep(h, db, p, e))
  {
    var q := LocalStep(h, db, p, e);
    if e.Take? {
      NoHolder(p);
    } else {
      OneHolder(p, e.t);
    }
    assert |q.tasks.Keys| == |q.tasks|;
  }

  lemma SemKept(h: string -> string, db: Db, p: Proc, e: Local)
    requires SemOk(p) && LocalEnabled(db, p, e)
    ensures SemOk(LocalStep(h, db, p, e))
    ensures LocalStep(h, db, p, e).session == p.session
    ensures p.lost ==> LocalStep(h, db, p, e).lost
  {
    if Holders(e) {
      HolderAlone(h, db, p, e);
    }
  }

  // ----- the database and the lock

  /** A live session some process owns holds the lock: only its death could release it. */
  ghost predicate TiedOk(db: Db, p: Proc) {
    p.session.Some? ==> p.session.value < db.next && (p.session.value in db.alive ==> db.lock == p.session)
  }

  ghost predicate DbOk(h: string -> string, db: Db) {
    && (db.lock.Some? ==> db.lock.value in db.alive)
    && (forall x :: x in db.alive ==> x < db.next)
    && Consistent(h, db.tables)
  }

  ghost predicate SessionsOk(s: System) {
    forall p, q :: p in s.procs && q in s.procs && p != q && s.procs[p].session.Some? ==>
      s.procs[p].session != s.procs[q].session
  }

  /** Commits come in the order their sessions took the lock. */
  ghost predicate CommitsOk(s: System) {
    && (forall i :: 0 <= i < |s.db.commits| ==>
          var c := s.db.commits[i];
          && c.pid in s.procs && s.procs[c.pid].session == Some(c.session) && c.session < s.db.next
          && (s.db.lock.Some? ==> c.session <= s.db.lock.value))
    && (forall i, j :: 0 <= i < j < |s.db.commits| ==> s.db.commits[i].session <= s.db.commits[j].session)
  }

  // ----- the tables

  /** Every transaction works on tables that could be committed. */
  ghost predicate WorkOk(h: string -> string, p: Proc) {
    forall t :: t in p.tasks ==> StageTablesOk(h, p.tasks[t])
  }

  ghost predicate StageTablesOk(h: string -> string, s: Stage) {
    s.InTx? || s.Reverified? ==> Consistent(h, s.work)
  }

  lemma ApplyKeeps(h: string -> string, t: Tables, c: Command)
    requires Consistent(h, t)
    ensures Consistent(h, Apply(h, t, c))
  {
    match c
    case Publish(k, content, tags) =>
      UpsertKeeps(h, t, k, content, "");
      TagsKeep(h, Upsert(h, t, k, content, ""), k, tags);
    case Remove(k) => DeleteKeeps(h, t, k);
  }

  lemma WorkKept(h: string -> string, db: Db, p: Proc, e: Local)
    requires DbOk(h, db) && WorkOk(h, p) && LocalEnabled(db, p, e)
    ensures WorkOk(h, LocalStep(h, db, p, e))
  {
    if e.Begin? {
      GapsKeep(h, db.tables, e.id, e.nid);
    } else if e.Write? || e.Reverify? {
      assert StageTablesOk(h, p.tasks[e.t]);
      if e.Write? {
        ApplyKeeps(h, p.tasks[e.t].work, e.c);
      }
    }
  }

  /** While its session lives, a transaction's snapshot extends the committed history: nobody else
      could have committed since it began. */
  ghost predicate GrowsOk(db: Db, p: Proc) {
    Alive(db, p) ==> forall t :: t in p.tasks && (p.tasks[t].InTx? || p.tasks[t].Reverified?) ==>
      db.tables.history <= p.tasks[t].work.history
  }

  lemma ApplyExtends(h: string -> string, t: Tables, c: Command)
    ensures t.history <= Apply(h, t, c).history
  {
  }

  lemma GrowsKept(h: string -> string, db: Db, p: Proc, e: Local)
    requires GrowsOk(db, p) && LocalEnabled(db, p, e)
    ensures GrowsOk(db, LocalStep(h, db, p, e))
  {
    if e.Write? {
      ApplyExtends(h, p.tasks[e.t].work, e.c);
    }
  }

  // ----- the hub's cache

  lemma {:induction false} NoticesConcat(m: Md5Index, a: seq<Notice>, b: seq<Notice>)
    ensures ApplyNotices(m, a + b) == ApplyNotices(ApplyNotices(m, a), b)
    decreases |a|
  {
    if a == [] {
      assert a + b == b;
    } else {
      assert (a + b)[1..] == a[1..] + b;
      NoticesConcat(ApplyNotice(m, a[0]), a[1..], b);
    }
  }

  lemma OneNotice(m: Md5Index, n: Notice)
    ensures ApplyNotices(m, [n]) == ApplyNotice(m, n)
  {
    assert [n][1..] == [];
  }

  lemma NoticesDescribe(h: string -> string, t: Tables, c: Command)
    ensures ApplyNotices(Md5s(t), NoticesOf(h, t, c)) == Md5s(Apply(h, t, c))
  {
    match c
    case Publish(k, content, tags) =>
      OneNotice(Md5s(t), Published(k, h(content)));
      assert Md5s(Apply(h, t, c)) == Md5s(Upsert(h, t, k, content, ""));
    case Remove(k) =>
      OneNotice(Md5s(t), Invalidated(k));
  }

  /** What a stage still owes the hub. */
  ghost predicate StageCacheOk(db: Db, hub: Md5Index, s: Stage) {
    match s
    case Notifying(left, _) => ApplyNotices(hub, left) == Md5s(db.tables)
    case InTx(work, ns) => hub == Md5s(db.tables) && ApplyNotices(hub, ns) == Md5s(work)
    case Reverified(work, ns) => hub == Md5s(db.tables) && ApplyNotices(hub, ns) == Md5s(work)
    case _ => hub == Md5s(db.tables)
  }

  /** While the session lives the cache is exact but for the callbacks still to run; an owner whose
      commit went unreported keeps the cache it had before. */
  ghost predicate CacheOk(db: Db, p: Proc) {
    if p.missed.Some? then Outdated(db, p) else p.hub.Some? && Alive(db, p) ==> UpToDate(db, p)
  }

  ghost predicate UpToDate(db: Db, p: Proc)
    requires p.hub.Some?
  {
    && (p.tasks == map[] ==> p.hub.value == Md5s(db.tables))
    && (forall t :: t in p.tasks ==> StageCacheOk(db, p.hub.value, p.tasks[t]))
  }

  /** It is lost, so nobody gets further than taking its token, and while it lives nobody else commits. */
  ghost predicate Outdated(db: Db, p: Proc)
    requires p.missed.Some?
  {
    && p.lost && (forall t :: t in p.tasks ==> p.tasks[t].Holding?)
    && (Alive(db, p) ==> Md5s(db.tables) == p.missed.value.after && (p.hub.Some? ==> p.hub.value == p.missed.value.before))
  }

  lemma WriteCacheKept(h: string -> string, db: Db, p: Proc, t: Tid, c: Command)
    requires WorkOk(h, p) && LocalEnabled(db, p, Write(t, c))
    requires StageCacheOk(db, p.hub.value, p.tasks[t])
    ensures StageCacheOk(db, p.hub.value, LocalStep(h, db, p, Write(t, c)).tasks[t])
  {
    assert StageTablesOk(h, p.tasks[t]);
    var work, ns := p.tasks[t].work, p.tasks[t].notices;
    NoticesDescribe(h, work, c);
    NoticesConcat(p.hub.value, ns, NoticesOf(h, work, c));
  }

  lemma HolderCacheKept(h: string -> string, db: Db, p: Proc, e: Local)
    requires SemOk(p) && WorkOk(h, p) && CacheOk(db, p) && LocalEnabled(db, p, e) && Holders(e)
    ensures CacheOk(db, LocalStep(h, db, p, e))
  {
    var q := LocalStep(h, db, p, e);
    HolderAlone(h, db, p, e);
    if p.hub.Some? && Alive(db, p) && p.missed.None? {
      if e.Take? {
        assert StageCacheOk(db, q.hub.value, q.tasks[e.t]);
      } else {
        assert StageCacheOk(db, p.hub.value, p.tasks[e.t]);
        if e.Write? {
          WriteCacheKept(h, db, p, e.t, e.c);
        } else if !e.Abandon? && !e.PutBack? {
          assert StageCacheOk(db, q.hub.value, q.tasks[e.t]);
        }
      }
    }
  }

  lemma CacheKept(h: string -> string, db: Db, p: Proc, e: Local)
    requires SemOk(p) && WorkOk(h, p) && CacheOk(db, p) && LocalEnabled(db, p, e)
    ensures CacheOk(db, LocalStep(h, db, p, e))
  {
    if Holders(e) {
      HolderCacheKept(h, db, p, e);
    } else if e.Preload? {
      NoHolder(p);
    }
  }

  // ----- callbacks: once, in order, and only after a reported commit

  ghost predicate StageLogOk(p: Proc, s: Stage) {
    p.reported == p.ran + (if s.Notifying? then s.left else [])
  }

  ghost predicate LogOk(p: Proc) {
    && (p.tasks == map[] ==> p.reported == p.ran)
    && (forall t :: t in p.tasks ==> StageLogOk(p, p.tasks[t]))
  }

  lemma LogKept(h: string -> string, db: Db, p: Proc, e: Local)
    requires SemOk(p) && LogOk(p) && LocalEnabled(db, p, e)
    ensures LogOk(LocalStep(h, db, p, e))
  {
    var q := LocalStep(h, db, p, e);
    if Holders(e) {
      HolderAlone(h, db, p, e);
      HolderLogKept(h, db, p, e);
    } else {
      assert q.tasks == p.tasks && q.reported == p.reported && q.ran == p.ran;
    }
  }

  lemma HolderLogKept(h: string -> string, db: Db, p: Proc, e: Local)
    requires LogOk(p) && LocalEnabled(db, p, e) && Holders(e)
    requires e.Take? ==> p.tasks == map[]
    ensures var q := LocalStep(h, db, p, e);
            if e.Abandon? || e.PutBack? then q.reported == q.ran else e.t in q.tasks && StageLogOk(q, q.tasks[e.t])
  {
    assert !e.Take? ==> StageLogOk(p, p.tasks[e.t]);
  }

  // ----- watchers and waiters

  ghost predicate Listening(q: Waiter) {
    q.pc == SecondCheck || q.pc == Parked || q.pc == Rechecking
  }

  ghost predicate Watching(ws: map<Key, set<Wid>>, w: Wid, k: Key) {
    k in ws && w in ws[k]
  }

  /** No entry outlives its waiter, and no key is kept without watchers. */
  ghost predicate WatchersOk(p: Proc) {
    && (forall k :: k in p.watchers ==> p.watchers[k] != {})
    && (forall k, w :: Watching(p.watchers, w, k) ==> w in p.waiters && k in p.waiters[w].keys && Listening(p.waiters[w]))
  }

  lemma ReturnKeepsWatchers(p: Proc, w: Wid, r: Option<seq<Key>>)
    requires WatchersOk(p) && w in p.waiters
    ensures WatchersOk(Return(p, w, r))
    ensures forall k, v :: Watching(Return(p, w, r).watchers, v, k) <==> Watching(p.watchers, v, k) && v != w
  {
    var q := Return(p, w, r);
    forall k, v
      ensures Watching(q.watchers, v, k) <==> Watching(p.watchers, v, k) && v != w
    {
      if Watching(p.watchers, v, k) && v != w {
        assert !(p.watchers[k] <= {w});
      }
    }
    forall k | k in q.watchers
      ensures q.watchers[k] != {}
    {
      if k in p.waiters[w].keys {
        var v :| v in p.watchers[k] && v != w;
        assert v in q.watchers[k];
      }
    }
  }

  lemma RegisterKeepsWatchers(h: string -> string, db: Db, p: Proc, w: Wid)
    requires WatchersOk(p) && LocalEnabled(db, p, Register(w))
    ensures WatchersOk(LocalStep(h, db, p, Register(w)))
    ensures forall k, v :: Watching(LocalStep(h, db, p, Register(w)).watchers, v, k) <==>
                             Watching(p.watchers, v, k) || (v == w && k in p.waiters[w].keys)
  {
    var q := LocalStep(h, db, p, Register(w));
    forall k | k in q.watchers
      ensures q.watchers[k] != {}
    {
      if k in p.waiters[w].keys {
        assert w in q.watchers[k];
      }
    }
    forall k, v
      ensures Watching(q.watchers, v, k) <==> Watching(p.watchers, v, k) || (v == w && k in p.waiters[w].keys)
    {
    }
    forall k, v | Watching(q.watchers, v, k)
      ensures v in q.waiters && k in q.waiters[v].keys && Listening(q.waiters[v])
    {
      assert v == w || Watching(p.watchers, v, k);
    }
  }

  lemma WatchersKept(h: string -> string, db: Db, p: Proc, e: Local)
    requires WatchersOk(p) && LocalEnabled(db, p, e)
    ensures WatchersOk(LocalStep(h, db, p, e))
  {
    var q := LocalStep(h, db, p, e);
    if Holders(e) {
      HolderWatchersKept(h, db, p, e);
    } else if Returns(h, db, p, e) {
      ReturnKeepsWatchers(p, e.w, q.waiters[e.w].pc.changed);
    } else if e.Register? {
      RegisterKeepsWatchers(h, db, p, e.w);
    } else {
      forall k, w | Watching(q.watchers, w, k)
        ensures w in q.waiters && k in q.waiters[w].keys && Listening(q.waiters[w])
      {
        assert Watching(p.watchers, w, k);
      }
    }
  }

  lemma HolderWatchersKept(h: string -> string, db: Db, p: Proc, e: Local)
    requires WatchersOk(p) && LocalEnabled(db, p, e) && Holders(e)
    ensures WatchersOk(LocalStep(h, db, p, e))
  {
    var q := LocalStep(h, db, p, e);
    forall k, w | Watching(q.watchers, w, k)
      ensures w in q.waiters && k in q.waiters[w].keys && Listening(q.waiters[w])
    {
      assert Watching(p.watchers, w, k);
    }
  }

  /** The steps that end a WaitChanged call. */
  ghost predicate Returns(h: string -> string, db: Db, p: Proc, e: Local)
    requires LocalEnabled(db, p, e)
  {
    || e.Timeout? || e.GiveUp?
    || (e.Check? && LocalStep(h, db, p, e).waiters[e.w].pc.Returned?)
  }

  /** A send to w is still to come. */
  ghost predicate Sending(p: Proc, w: Wid) {
    exists t :: t in p.tasks && p.tasks[t].Notifying? && w in p.tasks[t].sending
  }

  ghost predicate Mentions(ns: seq<Notice>, k: Key) {
    ns != [] && (ns[0].key == k || Mentions(ns[1..], k))
  }

  /** A committed callback about k is still to run. */
  ghost predicate Pending(p: Proc, k: Key) {
    exists t :: t in p.tasks && p.tasks[t].Notifying? && Mentions(p.tasks[t].left, k)
  }

  /** News about k reaches w: it is registered, its channel holds a token, or a send is under way. */
  ghost predicate Covered(p: Proc, w: Wid, k: Key)
    requires w in p.waiters
  {
    p.waiters[w].token || Sending(p, w) || Watching(p.watchers, w, k)
  }

  ghost predicate Informed(p: Proc, w: Wid, k: Key)
    requires w in p.waiters
  {
    p.waiters[w].token || Sending(p, w) || (Watching(p.watchers, w, k) && Pending(p, k))
  }

  ghost predicate Stale(db: Db, q: Waiter, k: Key) {
    k in q.keys && Read(Md5s(db.tables), k) != Read(q.known, k)
  }

  ghost predicate WaiterCovered(p: Proc, w: Wid)
    requires w in p.waiters
  {
    var q := p.waiters[w];
    Listening(q) && !q.drained ==> forall k :: k in q.keys ==> Covered(p, w, k)
  }

  ghost predicate CoverOk(p: Proc) {
    forall w :: w in p.waiters ==> WaiterCovered(p, w)
  }

  /** A waiter that parks out of date and is still registered for the key has a callback coming. */
  ghost predicate NewsOk(db: Db, p: Proc) {
    Live(db, p) ==>
      forall w, k :: w in p.waiters && p.waiters[w].pc == Parked && Stale(db, p.waiters[w], k) && Watching(p.watchers, w, k) ==>
        Pending(p, k)
  }

  /** Nobody's coverage shrinks, except that of a waiter taking its own token. */
  ghost predicate CoverGrows(p: Proc, q: Proc, except: set<Wid>) {
    forall w, k :: w in p.waiters && w in q.waiters && w !in except && Covered(p, w, k) ==> Covered(q, w, k)
  }

  lemma HolderCoverGrows(h: string -> string, db: Db, p: Proc, e: Local)
    requires SemOk(p) && LocalEnabled(db, p, e) && Holders(e)
    ensures CoverGrows(p, LocalStep(h, db, p, e), {})
  {
    var q := LocalStep(h, db, p, e);
    HolderAlone(h, db, p, e);
    forall w, k | w in p.waiters && w in q.waiters && Covered(p, w, k)
      ensures Covered(q, w, k)
    {
      if Sending(p, w) {
        assert w in p.tasks[e.t].sending;
        assert !q.waiters[w].token ==> w in q.tasks[e.t].sending;
      } else if Watching(p.watchers, w, k) && !Watching(q.watchers, w, k) {
        assert w in q.tasks[e.t].sending;
      }
    }
  }

  lemma WaiterCoverGrows(h: string -> string, db: Db, p: Proc, e: Local)
    requires WatchersOk(p) && LocalEnabled(db, p, e) && !Holders(e)
    ensures CoverGrows(p, LocalStep(h, db, p, e),
                       if e.Check? || e.Timeout? || e.GiveUp? || e.Wake? then {e.w} else {})
  {
    var q := LocalStep(h, db, p, e);
    assert q.tasks == p.tasks;
    if Returns(h, db, p, e) {
      ReturnKeepsWatchers(p, e.w, q.waiters[e.w].pc.changed);
    } else if e.Register? {
      RegisterKeepsWatchers(h, db, p, e.w);
    }
    forall w | w in p.waiters && Sending(p, w)
      ensures Sending(q, w)
    {
    }
  }

  lemma HolderCoverKept(h: string -> string, db: Db, p: Proc, e: Local)
    requires SemOk(p) && CoverOk(p) && LocalEnabled(db, p, e) && Holders(e)
    ensures CoverOk(LocalStep(h, db, p, e))
  {
    var q := LocalStep(h, db, p, e);
    HolderCoverGrows(h, db, p, e);
    forall w | w in q.waiters
      ensures WaiterCovered(q, w)
    {
      assert WaiterCovered(p, w);
      assert q.waiters[w] == p.waiters[w].(token := q.waiters[w].token);
    }
  }

  lemma WaiterCoverKept(h: string -> string, db: Db, p: Proc, e: Local)
    requires WatchersOk(p) && CoverOk(p) && LocalEnabled(db, p, e) && !Holders(e)
    ensures CoverOk(LocalStep(h, db, p, e))
  {
    var q := LocalStep(h, db, p, e);
    WaiterCoverGrows(h, db, p, e);
    forall w | w in q.waiters
      ensures WaiterCovered(q, w)
    {
      if w in p.waiters && p.waiters[w] == q.waiters[w] {
        assert WaiterCovered(p, w);
      } else if w in p.waiters {
        assert e.w == w && WaiterCovered(p, w);
        OwnCoverKept(h, db, p, e);
      }
    }
  }

  /** The step's own waiter: it is registered before it listens, and drained if it took a token. */
  lemma OwnCoverKept(h: string -> string, db: Db, p: Proc, e: Local)
    requires LocalEnabled(db, p, e) && !Holders(e) && (e.Check? || e.Register? || e.Wake? || e.Tick? || e.Timeout? || e.GiveUp?)
    requires WaiterCovered(p, e.w)
    ensures WaiterCovered(LocalStep(h, db, p, e), e.w)
  {
    var q := LocalStep(h, db, p, e);
    if Listening(q.waiters[e.w]) && !q.waiters[e.w].drained {
      forall k | k in q.waiters[e.w].keys
        ensures Covered(q, e.w, k)
      {
        if e.Register? {
          assert Watching(q.watchers, e.w, k);
        } else {
          assert Covered(p, e.w, k);
          assert q.tasks == p.tasks && q.watchers == p.watchers;
          assert Sending(p, e.w) ==> Sending(q, e.w);
        }
      }
    }
  }

  lemma CoverKept(h: string -> string, db: Db, p: Proc, e: Local)
    requires SemOk(p) && WatchersOk(p) && CoverOk(p) && LocalEnabled(db, p, e)
    ensures CoverOk(LocalStep(h, db, p, e))
  {
    if Holders(e) {
      HolderCoverKept(h, db, p, e);
    } else {
      WaiterCoverKept(h, db, p, e);
    }
  }

  // ----- no lost wake-up

  lemma HolderNewsKept(h: string -> string, db: Db, p: Proc, e: Local)
    requires SemOk(p) && NewsOk(db, p) && LocalEnabled(db, p, e) && Holders(e)
    ensures NewsOk(db, LocalStep(h, db, p, e))
  {
    var q := LocalStep(h, db, p, e);
    HolderAlone(h, db, p, e);
    if Live(db, q) {
      forall w, k | w in q.waiters && q.waiters[w].pc == Parked && Stale(db, q.waiters[w], k) && Watching(q.watchers, w, k)
        ensures Pending(q, k)
      {
        assert Stale(db, p.waiters[w], k) && Watching(p.watchers, w, k) && Pending(p, k);
        assert Mentions(p.tasks[e.t].left, k) && Mentions(q.tasks[e.t].left, k);
      }
    }
  }

  /** A waiter parks only after a check, under the free semaphore, found nothing changed. */
  lemma ParkedIsFresh(h: string -> string, db: Db, p: Proc, w: Wid, k: Key)
    requires LocalEnabled(db, p, Check(w))
    ensures var q := LocalStep(h, db, p, Check(w));
            q.waiters[w].pc == Parked ==> !Stale(db, q.waiters[w], k)
  {
    var changed := Changed(Md5s(db.tables), p.waiters[w].keys, p.waiters[w].known);
    if Stale(db, p.waiters[w], k) {
      assert k in changed;
    }
  }

  /** No step but a registration adds a watcher. */
  lemma WatchersShrink(h: string -> string, db: Db, p: Proc, e: Local, w: Wid, k: Key)
    requires WatchersOk(p) && LocalEnabled(db, p, e) && !Holders(e)
    requires Watching(LocalStep(h, db, p, e).watchers, w, k)
    ensures Watching(p.watchers, w, k) || (e.Register? && e.w == w)
  {
    if Returns(h, db, p, e) {
      ReturnKeepsWatchers(p, e.w, LocalStep(h, db, p, e).waiters[e.w].pc.changed);
    }
  }

  lemma WaiterNewsKept(h: string -> string, db: Db, p: Proc, e: Local)
    requires WatchersOk(p) && NewsOk(db, p) && LocalEnabled(db, p, e) && !Holders(e)
    ensures NewsOk(db, LocalStep(h, db, p, e))
  {
    var q := LocalStep(h, db, p, e);
    if Live(db, q) {
      forall w, k | w in q.waiters && q.waiters[w].pc == Parked && Stale(db, q.waiters[w], k) && Watching(q.watchers, w, k)
        ensures Pending(q, k)
      {
        if e.Check? {
          ParkedIsFresh(h, db, p, e.w, k);
        }
        WatchersShrink(h, db, p, e, w, k);
        assert w in p.waiters && q.waiters[w] == p.waiters[w] && Pending(p, k);
        assert q.tasks == p.tasks;
      }
    }
  }

  lemma NewsKept(h: string -> string, db: Db, p: Proc, e: Local)
    requires SemOk(p) && WatchersOk(p) && NewsOk(db, p) && LocalEnabled(db, p, e)
    ensures NewsOk(db, LocalStep(h, db, p, e))
  {
    if Holders(e) {
      HolderNewsKept(h, db, p, e);
    } else {
      WaiterNewsKept(h, db, p, e);
    }
  }
}

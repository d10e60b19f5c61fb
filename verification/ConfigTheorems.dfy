/** The claims of the single-active configuration store, over every run. */
module ConfigTheorems {
  import opened Registry
  import opened ConfigStore
  import opened ConfigProtocol
  import opened ConfigInvariants

  ghost predicate ProcOk(h: string -> string, db: Db, p: Proc) {
    && SemOk(p) && TiedOk(db, p) && WorkOk(h, p) && CacheOk(db, p) && LogOk(p)
    && WatchersOk(p) && CoverOk(p) && NewsOk(db, p) && GrowsOk(db, p)
    && (p.hub.None? ==> p.waiters == map[]) && (p.session.None? ==> p.hub.None? && p.missed.None?)
  }

  ghost predicate ProcsOk(h: string -> string, s: System) {
    forall p :: p in s.procs ==> ProcOk(h, s.db, s.procs[p])
  }

  ghost predicate Inv(h: string -> string, s: System) {
    DbOk(h, s.db) && SessionsOk(s) && CommitsOk(s) && ProcsOk(h, s)
  }

  // ----- one step

  lemma LocalKeeps(h: string -> string, db: Db, p: Proc, e: Local)
    requires DbOk(h, db) && ProcOk(h, db, p) && LocalEnabled(db, p, e)
    ensures ProcOk(h, db, LocalStep(h, db, p, e))
    ensures LocalStep(h, db, p, e).session == p.session
  {
    SemKept(h, db, p, e);
    WorkKept(h, db, p, e);
    CacheKept(h, db, p, e);
    LogKept(h, db, p, e);
    WatchersKept(h, db, p, e);
    CoverKept(h, db, p, e);
    NewsKept(h, db, p, e);
    GrowsKept(h, db, p, e);
  }

  /** A change of the database leaves a process alone if it does not bring it to life and leaves
      the committed tables as they are while it lives. */
  lemma FrameKeeps(h: string -> string, db: Db, db': Db, p: Proc)
    requires ProcOk(h, db, p) && TiedOk(db', p)
    requires Alive(db', p) ==> Alive(db, p) && db'.tables == db.tables
    ensures ProcOk(h, db', p)
  {
    if p.hub.Some? && Alive(db', p) && p.missed.None? {
      forall t | t in p.tasks
        ensures StageCacheOk(db', p.hub.value, p.tasks[t])
      {
        assert StageCacheOk(db, p.hub.value, p.tasks[t]);
      }
    }
    if Live(db', p) {
      forall w, k | w in p.waiters && p.waiters[w].pc == Parked && Stale(db', p.waiters[w], k) && Watching(p.watchers, w, k)
        ensures Pending(p, k)
      {
        assert Stale(db, p.waiters[w], k);
      }
    }
  }

  lemma {:induction false} UnmentionedUnchanged(m: Md5Index, ns: seq<Notice>, k: Key)
    ensures Mentions(ns, k) || Read(ApplyNotices(m, ns), k) == Read(m, k)
    decreases |ns|
  {
    if ns != [] && !Mentions(ns, k) {
      UnmentionedUnchanged(ApplyNotice(m, ns[0]), ns[1..], k);
    }
  }

  lemma NothingSending(p: Proc, t: Tid)
    requires SemOk(p) && t in p.tasks && !p.tasks[t].Notifying?
    ensures forall w :: !Sending(p, w)
    ensures forall k :: !Pending(p, k)
  {
    OneHolder(p, t);
  }

  ghost function Reported(p: Proc, t: Tid): Proc
    requires t in p.tasks && p.tasks[t].Reverified?
  {
    SetStage(p, t, Notifying(p.tasks[t].notices, {})).(reported := p.reported + p.tasks[t].notices)
  }

  lemma CommitNews(h: string -> string, db: Db, pid: Pid, p: Proc, t: Tid)
    requires ProcOk(h, db, p) && t in p.tasks && p.tasks[t].Reverified? && Alive(db, p)
    ensures NewsOk(Committed(db, pid, p, t), Reported(p, t))
  {
    var db', q := Committed(db, pid, p, t), Reported(p, t);
    var ns := p.tasks[t].notices;
    NothingSending(p, t);
    if Live(db', q) {
      forall w, k | w in q.waiters && q.waiters[w].pc == Parked && Stale(db', q.waiters[w], k) && Watching(q.watchers, w, k)
        ensures Pending(q, k)
      {
        assert !Stale(db, p.waiters[w], k);
        assert StageCacheOk(db, p.hub.value, p.tasks[t]);
        UnmentionedUnchanged(p.hub.value, ns, k);
        assert q.tasks[t].left == ns;
      }
    }
  }

  lemma CommitCovers(p: Proc, t: Tid)
    requires SemOk(p) && CoverOk(p) && t in p.tasks && p.tasks[t].Reverified?
    ensures CoverOk(Reported(p, t))
  {
    var q := Reported(p, t);
    NothingSending(p, t);
    forall w | w in q.waiters
      ensures WaiterCovered(q, w)
    {
      assert WaiterCovered(p, w);
    }
  }

  lemma CommitKeeps(h: string -> string, db: Db, pid: Pid, p: Proc, t: Tid)
    requires DbOk(h, db) && ProcOk(h, db, p) && t in p.tasks && p.tasks[t].Reverified? && Alive(db, p)
    ensures DbOk(h, Committed(db, pid, p, t))
    ensures ProcOk(h, Committed(db, pid, p, t), Reported(p, t))
  {
    var db', q := Committed(db, pid, p, t), Reported(p, t);
    OneHolder(p, t);
    assert StageTablesOk(h, p.tasks[t]);
    assert |q.tasks.Keys| == |q.tasks| == 1;
    if p.hub.Some? {
      assert StageCacheOk(db, p.hub.value, p.tasks[t]);
      assert StageCacheOk(db', q.hub.value, q.tasks[t]);
    }
    assert StageLogOk(p, p.tasks[t]);
    assert StageLogOk(q, q.tasks[t]);
    CommitNews(h, db, pid, p, t);
    CommitCovers(p, t);
  }

  ghost function Unreported(db: Db, p: Proc, t: Tid): Proc
    requires t in p.tasks && p.tasks[t].Reverified?
  {
    Leave(p, t).(lost := true, missed := Some(Missed(Md5s(db.tables), Md5s(p.tasks[t].work))))
  }

  lemma UnreportedCovers(db: Db, p: Proc, t: Tid)
    requires SemOk(p) && CoverOk(p) && t in p.tasks && p.tasks[t].Reverified?
    ensures CoverOk(Unreported(db, p, t))
  {
    NothingSending(p, t);
    forall w | w in p.waiters
      ensures WaiterCovered(Unreported(db, p, t), w)
    {
      assert WaiterCovered(p, w);
    }
  }

  lemma UnreportedKeeps(h: string -> string, db: Db, pid: Pid, p: Proc, t: Tid)
    requires DbOk(h, db) && ProcOk(h, db, p) && t in p.tasks && p.tasks[t].Reverified? && Alive(db, p)
    ensures DbOk(h, Committed(db, pid, p, t))
    ensures ProcOk(h, Committed(db, pid, p, t), Unreported(db, p, t))
  {
    OneHolder(p, t);
    assert StageTablesOk(h, p.tasks[t]);
    assert StageLogOk(p, p.tasks[t]);
    UnreportedCovers(db, p, t);
    assert p.hub.Some? ==> StageCacheOk(db, p.hub.value, p.tasks[t]);
  }

  /** Whoever commits holds the lock at that moment, and so is the only live owner. */
  lemma CommitterHolds(h: string -> string, s: System, pid: Pid, t: Tid)
    requires Inv(h, s) && CanCommit(s, pid, t)
    ensures s.db.lock == s.procs[pid].session
    ensures forall q :: q in s.procs && q != pid ==> !Alive(s.db, s.procs[q])
  {
    assert ProcOk(h, s.db, s.procs[pid]);
    forall q | q in s.procs && q != pid
      ensures !Alive(s.db, s.procs[q])
    {
      assert ProcOk(h, s.db, s.procs[q]);
    }
  }

  ghost predicate SameSessions(s: System, n: System) {
    n.procs.Keys == s.procs.Keys && forall q :: q in s.procs ==> n.procs[q].session == s.procs[q].session
  }

  lemma OrderKept(s: System, n: System)
    requires SessionsOk(s) && CommitsOk(s) && SameSessions(s, n)
    requires n.db.commits == s.db.commits && n.db.next == s.db.next && (n.db.lock == s.db.lock || n.db.lock.None?)
    ensures SessionsOk(n) && CommitsOk(n)
  {
  }

  lemma CommitInOrder(s: System, n: System, pid: Pid, x: Session)
    requires SessionsOk(s) && CommitsOk(s) && SameSessions(s, n)
    requires pid in s.procs && s.procs[pid].session == Some(x) == s.db.lock && x < s.db.next
    requires n.db == s.db.(tables := n.db.tables, commits := s.db.commits + [Commitment(pid, x)])
    ensures SessionsOk(n) && CommitsOk(n)
  {
  }

  /** For everybody else nothing changes: the committer held the lock, so none of them is alive. */
  lemma CommitFrames(h: string -> string, s: System, e: Event, q: Pid)
    requires Inv(h, s) && Enabled(s, e) && (e.Commit? || e.CommitUnreported?) && q in s.procs && q != e.p
    ensures ProcOk(h, Step(h, s, e).db, s.procs[q])
  {
    CommitterHolds(h, s, e.p, e.t);
    assert ProcOk(h, s.db, s.procs[q]);
    FrameKeeps(h, s.db, Step(h, s, e).db, s.procs[q]);
  }

  lemma CommitterKeeps(h: string -> string, s: System, e: Event)
    requires Inv(h, s) && Enabled(s, e) && (e.Commit? || e.CommitUnreported?)
    ensures ProcOk(h, Step(h, s, e).db, Step(h, s, e).procs[e.p])
    ensures DbOk(h, Step(h, s, e).db)
  {
    CommitterHolds(h, s, e.p, e.t);
    assert ProcOk(h, s.db, s.procs[e.p]);
    if e.Commit? {
      CommitKeeps(h, s.db, e.p, s.procs[e.p], e.t);
    } else {
      UnreportedKeeps(h, s.db, e.p, s.procs[e.p], e.t);
    }
  }

  lemma CommitProcsKeep(h: string -> string, s: System, e: Event)
    requires Inv(h, s) && Enabled(s, e) && (e.Commit? || e.CommitUnreported?)
    ensures ProcsOk(h, Step(h, s, e))
  {
    var n := Step(h, s, e);
    CommitterKeeps(h, s, e);
    forall q | q in n.procs
      ensures ProcOk(h, n.db, n.procs[q])
    {
      if q != e.p {
        CommitFrames(h, s, e, q);
      }
    }
  }

  lemma CommitOrderKept(h: string -> string, s: System, e: Event)
    requires Inv(h, s) && Enabled(s, e) && (e.Commit? || e.CommitUnreported?)
    ensures SessionsOk(Step(h, s, e)) && CommitsOk(Step(h, s, e))
  {
    CommitterHolds(h, s, e.p, e.t);
    CommitInOrder(s, Step(h, s, e), e.p, s.procs[e.p].session.value);
  }

  lemma CommitStepKeeps(h: string -> string, s: System, e: Event)
    requires Inv(h, s) && Enabled(s, e) && (e.Commit? || e.CommitUnreported?)
    ensures Inv(h, Step(h, s, e))
  {
    CommitOrderKept(h, s, e);
    CommitterKeeps(h, s, e);
    CommitProcsKeep(h, s, e);
  }

  lemma DieKeeps(h: string -> string, s: System, x: Session)
    requires Inv(h, s) && Enabled(s, Die(x))
    ensures Inv(h, Step(h, s, Die(x)))
  {
    var n := Step(h, s, Die(x));
    OrderKept(s, n);
    forall q | q in n.procs
      ensures ProcOk(h, n.db, n.procs[q])
    {
      assert ProcOk(h, s.db, s.procs[q]);
      FrameKeeps(h, s.db, n.db, s.procs[q]);
    }
  }

  lemma BootKeeps(h: string -> string, s: System, p: Pid)
    requires Inv(h, s) && Enabled(s, Boot(p))
    ensures Inv(h, Step(h, s, Boot(p)))
  {
    var n := Step(h, s, Boot(p));
    assert ProcOk(h, n.db, IDLE);
  }

  /** A session that takes the lock is newer than every session that ever committed. */
  lemma AcquireInOrder(h: string -> string, s: System, p: Pid)
    requires Inv(h, s) && Enabled(s, Acquire(p))
    ensures SessionsOk(Step(h, s, Acquire(p))) && CommitsOk(Step(h, s, Acquire(p)))
  {
    forall q | q in s.procs
      ensures TiedOk(s.db, s.procs[q])
    {
      assert ProcOk(h, s.db, s.procs[q]);
    }
  }

  lemma FreshOwner(h: string -> string, db: Db, db': Db, p: Proc, x: Session)
    requires ProcOk(h, db, p) && p.session.None?
    requires db'.lock == Some(x) && x < db'.next
    ensures ProcOk(h, db', p.(session := Some(x), chan := 1))
  {
    assert |p.tasks| == 0;
  }

  /** For everybody else nothing changes: a process whose session lives would have held the lock. */
  lemma AcquireFrames(h: string -> string, s: System, p: Pid, q: Pid)
    requires Inv(h, s) && Enabled(s, Acquire(p)) && q in s.procs && (q != p || s.db.lock.Some?)
    ensures ProcOk(h, Step(h, s, Acquire(p)).db, s.procs[q])
  {
    assert ProcOk(h, s.db, s.procs[q]);
    FrameKeeps(h, s.db, Step(h, s, Acquire(p)).db, s.procs[q]);
  }

  lemma AcquireProcsKeep(h: string -> string, s: System, p: Pid, q: Pid)
    requires Inv(h, s) && Enabled(s, Acquire(p)) && q in s.procs
    ensures ProcOk(h, Step(h, s, Acquire(p)).db, Step(h, s, Acquire(p)).procs[q])
  {
    if q == p && s.db.lock.None? {
      assert ProcOk(h, s.db, s.procs[p]);
      FreshOwner(h, s.db, Step(h, s, Acquire(p)).db, s.procs[p], s.db.next);
    } else {
      AcquireFrames(h, s, p, q);
    }
  }

  lemma AcquireAllKeep(h: string -> string, s: System, p: Pid)
    requires Inv(h, s) && Enabled(s, Acquire(p))
    ensures ProcsOk(h, Step(h, s, Acquire(p)))
  {
    forall q | q in Step(h, s, Acquire(p)).procs
      ensures ProcOk(h, Step(h, s, Acquire(p)).db, Step(h, s, Acquire(p)).procs[q])
    {
      AcquireProcsKeep(h, s, p, q);
    }
  }

  lemma AcquireDbKeeps(h: string -> string, s: System, p: Pid)
    requires DbOk(h, s.db) && Enabled(s, Acquire(p))
    ensures DbOk(h, Step(h, s, Acquire(p)).db)
  {
  }

  lemma AcquireKeeps(h: string -> string, s: System, p: Pid)
    requires Inv(h, s) && Enabled(s, Acquire(p))
    ensures Inv(h, Step(h, s, Acquire(p)))
  {
    AcquireDbKeeps(h, s, p);
    AcquireInOrder(h, s, p);
    AcquireAllKeep(h, s, p);
  }

  lemma InKeeps(h: string -> string, s: System, pid: Pid, l: Local)
    requires Inv(h, s) && Enabled(s, In(pid, l))
    ensures Inv(h, Step(h, s, In(pid, l)))
  {
    var n := Step(h, s, In(pid, l));
    assert ProcOk(h, s.db, s.procs[pid]);
    LocalKeeps(h, s.db, s.procs[pid], l);
    OrderKept(s, n);
    forall q | q in n.procs
      ensures ProcOk(h, n.db, n.procs[q])
    {
      assert q != pid ==> ProcOk(h, s.db, s.procs[q]);
    }
  }

  lemma StepKeeps(h: string -> string, s: System, e: Event)
    requires Inv(h, s) && Enabled(s, e)
    ensures Inv(h, Step(h, s, e))
  {
    match e
    case Boot(p) => BootKeeps(h, s, p);
    case Acquire(p) => AcquireKeeps(h, s, p);
    case Die(x) => DieKeeps(h, s, x);
    case Commit(_, _) => CommitStepKeeps(h, s, e);
    case CommitUnreported(_, _) => CommitStepKeeps(h, s, e);
    case In(p, l) => InKeeps(h, s, p, l);
  }

  // ----- every run

  lemma {:induction false} Reachable(h: string -> string, es: seq<Event>)
    requires Run(h, es).Some?
    ensures Inv(h, Run(h, es).value)
  {
    if es != [] {
      Reachable(h, es[..|es| - 1]);
      StepKeeps(h, Run(h, es[..|es| - 1]).value, es[|es| - 1]);
    }
  }

  /** At most one process has a live session that owns the configuration. */
  lemma OneLiveOwner(h: string -> string, es: seq<Event>, s: System, p: Pid, q: Pid)
    requires Run(h, es) == Some(s) && p in s.procs && q in s.procs
    requires Alive(s.db, s.procs[p]) && Alive(s.db, s.procs[q])
    ensures p == q && s.db.lock == s.procs[p].session
  {
    Reachable(h, es);
    assert ProcOk(h, s.db, s.procs[p]) && ProcOk(h, s.db, s.procs[q]);
  }

  /** The committed tables change only by a commit of the session holding the lock at that moment,
      reported or not, although the database itself only asks for a live session. */
  lemma OnlyTheHolderCommits(h: string -> string, es: seq<Event>, s: System, e: Event)
    requires Run(h, es) == Some(s) && Enabled(s, e)
    ensures Step(h, s, e).db.tables == s.db.tables || e.Commit? || e.CommitUnreported?
    ensures e.Commit? || e.CommitUnreported? ==> s.procs[e.p].session.Some? && s.db.lock == s.procs[e.p].session
  {
    Reachable(h, es);
    if e.Commit? || e.CommitUnreported? {
      CommitterHolds(h, s, e.p, e.t);
    }
  }

  /** Fencing: once another process has committed, no earlier committer commits again. */
  lemma Fenced(h: string -> string, es: seq<Event>, s: System, i: nat, j: nat, k: nat)
    requires Run(h, es) == Some(s) && i < j < k < |s.db.commits|
    requires s.db.commits[i].pid == s.db.commits[k].pid
    ensures s.db.commits[j].pid == s.db.commits[i].pid
  {
    Reachable(h, es);
    CommittersAlternateNever(s, i, j, k);
  }

  lemma CommittersAlternateNever(s: System, i: nat, j: nat, k: nat)
    requires SessionsOk(s) && CommitsOk(s) && i < j < k < |s.db.commits|
    requires s.db.commits[i].pid == s.db.commits[k].pid
    ensures s.db.commits[j].pid == s.db.commits[i].pid
  {
    var a, b, c := s.db.commits[i], s.db.commits[j], s.db.commits[k];
    assert a.session <= b.session && b.session <= c.session;
    assert s.procs[a.pid].session == Some(a.session) && s.procs[c.pid].session == Some(c.session);
    assert s.procs[b.pid].session == Some(b.session);
  }

  /** Ownership is for one session only: it is never replaced, never found again once lost, and a
      dead session stays dead. */
  lemma LostForGood(h: string -> string, es: seq<Event>, s: System, e: Event, p: Pid)
    requires Run(h, es) == Some(s) && Enabled(s, e) && p in s.procs && s.procs[p].session.Some?
    ensures var n := Step(h, s, e);
            && p in n.procs && n.procs[p].session == s.procs[p].session
            && (s.procs[p].lost ==> n.procs[p].lost)
            && (!Alive(s.db, s.procs[p]) ==> !Alive(n.db, n.procs[p]))
  {
    Reachable(h, es);
    assert ProcOk(h, s.db, s.procs[p]);
    if e.In? {
      assert ProcOk(h, s.db, s.procs[e.p]);
      SemKept(h, s.db, s.procs[e.p], e.e);
    }
  }

  /** The committed configuration is always what its own history says, whoever wrote it and
      whatever failed on the way. */
  lemma TablesAlwaysConsistent(h: string -> string, es: seq<Event>, s: System)
    requires Run(h, es) == Some(s)
    ensures Consistent(h, s.db.tables)
    ensures s.db.tables.rows == Replay(s.db.tables.history)
  {
    Reachable(h, es);
  }

  /** The token is in the channel or with exactly one holder, so putting it back never blocks. */
  lemma TokenConserved(h: string -> string, es: seq<Event>, s: System, p: Pid, t: Tid)
    requires Run(h, es) == Some(s) && p in s.procs && s.procs[p].session.Some?
    ensures s.procs[p].chan + |s.procs[p].tasks| == 1
    ensures t in s.procs[p].tasks ==> s.procs[p].chan == 0 && s.procs[p].tasks.Keys == {t}
  {
    Reachable(h, es);
    assert ProcOk(h, s.db, s.procs[p]);
    if t in s.procs[p].tasks {
      OneHolder(s.procs[p], t);
    }
  }

  /** While the owner lives, has not given itself up and the semaphore is free, the hub's index is
      the md5 column of the committed table. */
  lemma CacheExact(h: string -> string, es: seq<Event>, s: System, p: Pid)
    requires Run(h, es) == Some(s) && p in s.procs
    requires Live(s.db, s.procs[p]) && s.procs[p].chan > 0 && s.procs[p].hub.Some?
    ensures s.procs[p].hub.value == Md5s(s.db.tables)
  {
    Reachable(h, es);
    assert ProcOk(h, s.db, s.procs[p]);
    NoHolder(s.procs[p]);
  }

  lemma LocalMissed(h: string -> string, db: Db, p: Proc, e: Local)
    requires LocalEnabled(db, p, e)
    ensures LocalStep(h, db, p, e).missed == p.missed
  {
  }

  lemma MissedStep(h: string -> string, s: System, e: Event, p: Pid)
    requires Enabled(s, e) && p in s.procs
    ensures p in Step(h, s, e).procs
    ensures e.CommitUnreported? && e.p == p ==>
              Step(h, s, e).procs[p].missed == Some(Missed(Md5s(s.db.tables), Md5s(Step(h, s, e).db.tables)))
    ensures !(e.CommitUnreported? && e.p == p) ==> Step(h, s, e).procs[p].missed == s.procs[p].missed
  {
    if e.In? {
      LocalMissed(h, s.db, s.procs[e.p], e.e);
    }
  }

  lemma MissedOnce(h: string -> string, s: System, e: Event)
    requires Inv(h, s) && Enabled(s, e) && e.CommitUnreported?
    ensures s.procs[e.p].missed.None?
  {
    assert ProcOk(h, s.db, s.procs[e.p]);
    assert s.procs[e.p].missed.Some? ==> Outdated(s.db, s.procs[e.p]);
  }

  lemma MissedStays(h: string -> string, s: System, e: Event, p: Pid)
    requires Inv(h, s) && Enabled(s, e) && p in s.procs && s.procs[p].missed.Some?
    ensures p in Step(h, s, e).procs && Step(h, s, e).procs[p].missed == s.procs[p].missed
  {
    if e.CommitUnreported? {
      MissedOnce(h, s, e);
    }
    MissedStep(h, s, e, p);
  }

  lemma MissedJustNow(h: string -> string, es: seq<Event>, s: System, p: Pid, n: nat)
    requires Run(h, es) == Some(s) && UnreportedAt(h, es, p, n) && n == |es| - 1
    ensures p in s.procs && s.procs[p].missed == Some(Around(h, es, n))
  {
    assert es[..n + 1] == es;
    MissedStep(h, Run(h, es[..n]).value, es[n], p);
  }

  /** What `missed` records, over any run: the md5 column around the process's one commit that took
      effect unreported, ... */
  lemma {:induction false} MissedIs(h: string -> string, es: seq<Event>, s: System, p: Pid, n: nat)
    requires Run(h, es) == Some(s) && UnreportedAt(h, es, p, n)
    ensures p in s.procs && s.procs[p].missed == Some(Around(h, es, n))
  {
    var m := |es| - 1;
    if n == m {
      MissedJustNow(h, es, s, p, n);
    } else {
      var before := Run(h, es[..m]).value;
      assert es[..m][..n] == es[..n] && es[..m][..n + 1] == es[..n + 1];
      MissedIs(h, es[..m], before, p, n);
      Reachable(h, es[..m]);
      MissedStays(h, before, es[m], p);
    }
  }

  /** ... and nothing if there was none. */
  lemma {:induction false} MissedHappened(h: string -> string, es: seq<Event>, s: System, p: Pid) returns (n: nat)
    requires Run(h, es) == Some(s) && p in s.procs && s.procs[p].missed.Some?
    ensures UnreportedAt(h, es, p, n)
  {
    var m := |es| - 1;
    var before := Run(h, es[..m]).value;
    if es[m].CommitUnreported? && es[m].p == p {
      n := m;
      assert es[..m + 1] == es;
    } else {
      assert p in before.procs;
      MissedStep(h, before, es[m], p);
      n := MissedHappened(h, es[..m], before, p);
      assert es[..m][..n] == es[..n] && es[..m][..n + 1] == es[..n + 1];
    }
  }

  ghost predicate UnreportedAt(h: string -> string, es: seq<Event>, p: Pid, n: nat) {
    n < |es| && es[n].CommitUnreported? && es[n].p == p && Run(h, es[..n]).Some? && Run(h, es[..n + 1]).Some?
  }

  ghost function Around(h: string -> string, es: seq<Event>, n: nat): Missed
    requires n < |es| && Run(h, es[..n]).Some? && Run(h, es[..n + 1]).Some?
  {
    Missed(Md5s(Run(h, es[..n]).value.db.tables), Md5s(Run(h, es[..n + 1]).value.db.tables))
  }

  /** The same for an owner that may be lost, as long as its session lives: with the semaphore free its
      index is exact if and only if no commit of its own took effect unreported and changed an md5. */
  lemma CacheExactIff(h: string -> string, es: seq<Event>, s: System, p: Pid)
    requires Run(h, es) == Some(s) && p in s.procs
    requires Alive(s.db, s.procs[p]) && s.procs[p].chan > 0 && s.procs[p].hub.Some?
    ensures s.procs[p].hub.value == Md5s(s.db.tables) <==>
              forall n :: UnreportedAt(h, es, p, n) ==> Around(h, es, n).before == Around(h, es, n).after
  {
    Reachable(h, es);
    assert ProcOk(h, s.db, s.procs[p]);
    NoHolder(s.procs[p]);
    forall n | UnreportedAt(h, es, p, n)
      ensures s.procs[p].missed == Some(Around(h, es, n))
    {
      MissedIs(h, es, s, p, n);
    }
    if s.procs[p].missed.Some? {
      var n := MissedHappened(h, es, s, p);
    }
  }

  /** Callbacks run once each and in order: those that ran, followed by those of the commit whose
      notification is under way, are exactly those of the commits reported successful. */
  lemma CallbacksRunOnce(h: string -> string, es: seq<Event>, s: System, p: Pid)
    requires Run(h, es) == Some(s) && p in s.procs
    ensures s.procs[p].ran <= s.procs[p].reported
    ensures s.procs[p].chan > 0 ==> s.procs[p].ran == s.procs[p].reported
  {
    Reachable(h, es);
    var q := s.procs[p];
    assert ProcOk(h, s.db, q);
    if q.chan > 0 {
      NoHolder(q);
    } else if q.tasks != map[] {
      var t :| t in q.tasks;
      assert StageLogOk(q, q.tasks[t]);
    }
  }

  /** Which waiters the next callbacks reach: a parked waiter that is out of date on k has a token, a
      send under way or a callback about k to come, exactly when it has a token, a send under way or
      is still registered for k. */
  lemma InformedIff(h: string -> string, es: seq<Event>, s: System, p: Pid, w: Wid, k: Key)
    requires Run(h, es) == Some(s) && p in s.procs && w in s.procs[p].waiters && Live(s.db, s.procs[p])
    requires s.procs[p].waiters[w].pc == Parked && Stale(s.db, s.procs[p].waiters[w], k)
    ensures Informed(s.procs[p], w, k) <==> Covered(s.procs[p], w, k)
    ensures s.procs[p].chan > 0 ==> (Informed(s.procs[p], w, k) <==> s.procs[p].waiters[w].token)
  {
    Reachable(h, es);
    assert ProcOk(h, s.db, s.procs[p]);
    if s.procs[p].chan > 0 {
      NoHolder(s.procs[p]);
    }
  }

  /** No lost wake-up: before a waiter is first woken it is always covered, so if a key differs from
      the known value its channel holds a token, a send to it is under way, or a committed
      transaction still has its callback about that key to run. */
  lemma NoLostWakeup(h: string -> string, es: seq<Event>, s: System, p: Pid, w: Wid, k: Key)
    requires Run(h, es) == Some(s) && p in s.procs && w in s.procs[p].waiters && Live(s.db, s.procs[p])
    requires var q := s.procs[p].waiters[w]; q.pc == Parked && !q.drained && Stale(s.db, q, k)
    ensures Informed(s.procs[p], w, k)
    ensures s.procs[p].chan > 0 ==> s.procs[p].waiters[w].token
  {
    InformedIff(h, es, s, p, w, k);
    Reachable(h, es);
    assert ProcOk(h, s.db, s.procs[p]);
    assert WaiterCovered(s.procs[p], w);
  }

  /** A callback about k reaches exactly the waiters registered for k at that moment: WaitChanged
      registers once, so a waiter taken off k by an earlier callback is not told again. */
  lemma ToldIffRegistered(h: string -> string, es: seq<Event>, s: System, p: Pid, t: Tid, w: Wid)
    requires Run(h, es) == Some(s) && p in s.procs && LocalEnabled(s.db, s.procs[p], NotifyHub(t))
    ensures var k := s.procs[p].tasks[t].left[0].key;
            var q := LocalStep(h, s.db, s.procs[p], NotifyHub(t));
            && (Sending(q, w) <==> Watching(s.procs[p].watchers, w, k))
            && !Watching(q.watchers, w, k)
  {
    Reachable(h, es);
    assert ProcOk(h, s.db, s.procs[p]);
    HolderAlone(h, s.db, s.procs[p], NotifyHub(t));
    var q := LocalStep(h, s.db, s.procs[p], NotifyHub(t));
    assert w in q.tasks[t].sending ==> Sending(q, w);
  }

  // ----- the history only grows

  /** What fencing is for: no commit, reported or not, ever overwrites another one; the committed
      history of every state is a prefix of that of every later one. */
  lemma HistoryGrows(h: string -> string, s: System, e: Event)
    requires Inv(h, s) && Enabled(s, e)
    ensures s.db.tables.history <= Step(h, s, e).db.tables.history
  {
    if e.Commit? || e.CommitUnreported? {
      assert ProcOk(h, s.db, s.procs[e.p]);
    }
  }

  lemma {:induction false} NoCommitIsOverwritten(h: string -> string, es: seq<Event>, later: seq<Event>, s: System, n: System)
    requires Run(h, es) == Some(s) && Run(h, es + later) == Some(n)
    ensures s.db.tables.history <= n.db.tables.history
  {
    if later == [] {
      assert es + later == es;
    } else {
      var all, m := es + later, |later| - 1;
      assert all[..|all| - 1] == es + later[..m] && all[|all| - 1] == later[m];
      Reachable(h, es + later[..m]);
      NoCommitIsOverwritten(h, es, later[..m], s, Run(h, es + later[..m]).value);
      HistoryGrows(h, Run(h, es + later[..m]).value, later[m]);
    }
  }
}

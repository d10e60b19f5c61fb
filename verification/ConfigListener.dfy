/** Where the listener's promise ends: a run in which a waiter is woken by a publication that
    changes nothing, parks again without registering again, and is not told of the next change. */
module ConfigListener {
  import opened Registry
  import opened ConfigStore
  import opened ConfigProtocol
  import opened ConfigInvariants
  import Theorems = ConfigTheorems

  lemma Extend(h: string -> string, es: seq<Event>, s: System, e: Event)
    requires Run(h, es) == Some(s) && Enabled(s, e)
    ensures Run(h, es + [e]) == Some(Step(h, s, e))
  {
    assert (es + [e])[..|es|] == es;
  }

  /** Process 0 owns the configuration, nothing is under way. */
  ghost predicate Quiet(s: System) {
    && 0 in s.procs && s.procs[0].tasks == map[] && s.procs[0].chan == 1 && s.procs[0].hub.Some?
    && Live(s.db, s.procs[0])
  }

  ghost predicate Reaches(h: string -> string, s: System) {
    exists es :: Run(h, es) == Some(s)
  }

  lemma Follow(h: string -> string, s: System, e: Event)
    requires Reaches(h, s) && Enabled(s, e)
    ensures Reaches(h, Step(h, s, e))
  {
    var es :| Run(h, es) == Some(s);
    Extend(h, es, s, e);
  }

  lemma Activate(h: string -> string) returns (s: System)
    ensures Reaches(h, s) && Quiet(s)
    ensures s.procs[0].waiters == map[] && s.procs[0].watchers == map[] && s.db.tables == EMPTY_TABLES
  {
    assert Run(h, []) == Some(START);
    s := START;
    Follow(h, s, Boot(0));
    s := Step(h, s, Boot(0));
    Follow(h, s, Acquire(0));
    s := Step(h, s, Acquire(0));
    Follow(h, s, In(0, Preload));
    s := Step(h, s, In(0, Preload));
  }

  /** Process 0 is inside a transaction of task 0, or notifying after one. */
  ghost predicate At(s: System, stage: Stage) {
    && 0 in s.procs && s.procs[0].tasks == map[0 := stage] && s.procs[0].chan == 0 && s.procs[0].hub.Some?
    && Live(s.db, s.procs[0])
  }

  /** The listener side of process 0, its index included, is the same in both states. */
  ghost predicate SameListeners(s: System, n: System) {
    0 in s.procs && 0 in n.procs && n.procs[0].waiters == s.procs[0].waiters && n.procs[0].watchers == s.procs[0].watchers
    && n.procs[0].hub == s.procs[0].hub
  }

  lemma EnterTransaction(h: string -> string, s: System) returns (n: System)
    requires Reaches(h, s) && Quiet(s)
    ensures Reaches(h, n) && At(n, InTx(s.db.tables, [])) && SameListeners(s, n) && n.db == s.db
  {
    n := s;
    Follow(h, n, In(0, Take(0)));
    n := Step(h, n, In(0, Take(0)));
    Follow(h, n, In(0, Verify(0)));
    n := Step(h, n, In(0, Verify(0)));
    var begin := In(0, Begin(0, n.db.tables.nextId, n.db.tables.nextNid));
    Follow(h, n, begin);
    n := Step(h, n, begin);
    assert n.procs[0].tasks == map[0 := InTx(s.db.tables, [])];
  }

  lemma WriteAndVerify(h: string -> string, s: System, t: Tables, k: Key, content: string) returns (n: System)
    requires Reaches(h, s) && At(s, InTx(t, []))
    ensures Reaches(h, n) && SameListeners(s, n) && n.db == s.db
    ensures At(n, Reverified(Upsert(h, t, k, content, ""), [Published(k, h(content))]))
  {
    var c := Publish(k, content, []);
    assert Acceptable(c);
    Follow(h, s, In(0, Write(0, c)));
    n := Step(h, s, In(0, Write(0, c)));
    assert [] + NoticesOf(h, t, c) == [Published(k, h(content))];
    assert n.procs[0].tasks == map[0 := InTx(Upsert(h, t, k, content, ""), [Published(k, h(content))])];
    Follow(h, n, In(0, Reverify(0)));
    n := Step(h, n, In(0, Reverify(0)));
  }

  lemma CommitAndNotify(h: string -> string, s: System, t: Tables, note: Notice) returns (n: System)
    requires Reaches(h, s) && At(s, Reverified(t, [note]))
    ensures Reaches(h, n) && n.db.tables == t
    ensures At(n, Notifying([], if note.key in s.procs[0].watchers then s.procs[0].watchers[note.key] else {}))
    ensures n.procs[0].waiters == s.procs[0].waiters
    ensures n.procs[0].watchers == s.procs[0].watchers - {note.key}
  {
    Follow(h, s, Commit(0, 0));
    n := Step(h, s, Commit(0, 0));
    assert n.procs[0].tasks == map[0 := Notifying([note], {})];
    Follow(h, n, In(0, NotifyHub(0)));
    n := Step(h, n, In(0, NotifyHub(0)));
    assert [note][1..] == [];
  }

  /** A publication up to and including its only callback's update of the hub. */
  lemma PublishToHub(h: string -> string, s: System, k: Key, content: string) returns (n: System)
    requires Reaches(h, s) && Quiet(s)
    ensures Reaches(h, n)
    ensures At(n, Notifying([], if k in s.procs[0].watchers then s.procs[0].watchers[k] else {}))
    ensures n.procs[0].waiters == s.procs[0].waiters
    ensures n.procs[0].watchers == s.procs[0].watchers - {k}
    ensures n.db.tables == Upsert(h, s.db.tables, k, content, "")
  {
    n := EnterTransaction(h, s);
    n := WriteAndVerify(h, n, s.db.tables, k, content);
    n := CommitAndNotify(h, n, Upsert(h, s.db.tables, k, content, ""), Published(k, h(content)));
  }

  lemma Finish(h: string -> string, s: System) returns (n: System)
    requires Reaches(h, s) && At(s, Notifying([], {}))
    ensures Reaches(h, n) && Quiet(n) && n.db == s.db && SameListeners(s, n)
  {
    Follow(h, s, In(0, PutBack(0)));
    n := Step(h, s, In(0, PutBack(0)));
  }

  ghost predicate Lone(s: System, q: Waiter) {
    0 in s.procs && s.procs[0].waiters == map[0 := q]
  }

  lemma FirstCheckPasses(h: string -> string, s: System, k: Key, known: Md5Index) returns (n: System)
    requires Reaches(h, s) && Quiet(s) && s.procs[0].waiters == map[]
    requires Read(Md5s(s.db.tables), k) == Read(known, k)
    ensures Reaches(h, n) && Quiet(n) && n.db == s.db && n.procs[0].watchers == s.procs[0].watchers
    ensures Lone(n, Waiter([k], known, Registering, false, false))
  {
    assert Changed(Md5s(s.db.tables), [k], known) == [];
    Follow(h, s, In(0, Wait(0, [k], known)));
    n := Step(h, s, In(0, Wait(0, [k], known)));
    assert Lone(n, Waiter([k], known, FirstCheck, false, false));
    Follow(h, n, In(0, Check(0)));
    n := Step(h, n, In(0, Check(0)));
  }

  lemma OneWatcher(k: Key)
    ensures AddWatcher(map[], [k], 0) == map[k := {0}]
  {
    assert (set x | x in [k]) == {k};
    assert AddWatcher(map[], [k], 0).Keys == {k};
    assert AddWatcher(map[], [k], 0)[k] == {0};
  }

  /** A listener on one key that knows the current md5 registers ... */
  lemma RegisterAfterCheck(h: string -> string, s: System, k: Key, known: Md5Index) returns (n: System)
    requires Reaches(h, s) && Quiet(s) && s.procs[0].waiters == map[] && s.procs[0].watchers == map[]
    requires Read(Md5s(s.db.tables), k) == Read(known, k)
    ensures Reaches(h, n) && Quiet(n) && n.db == s.db && n.procs[0].watchers == map[k := {0}]
    ensures Lone(n, Waiter([k], known, SecondCheck, false, false))
  {
    n := FirstCheckPasses(h, s, k, known);
    Follow(h, n, In(0, Register(0)));
    OneWatcher(k);
    n := Step(h, n, In(0, Register(0)));
  }

  /** ... and any check that finds nothing changed parks it. */
  lemma CheckInVain(h: string -> string, s: System, k: Key, q: Waiter) returns (n: System)
    requires Reaches(h, s) && Quiet(s) && Lone(s, q) && q.keys == [k] && (q.pc == SecondCheck || q.pc == Rechecking)
    requires Read(Md5s(s.db.tables), k) == Read(q.known, k)
    ensures Reaches(h, n) && Quiet(n) && n.db == s.db && Lone(n, q.(pc := Parked))
    ensures n.procs[0].watchers == s.procs[0].watchers
  {
    assert Changed(Md5s(s.db.tables), [k], q.known) == [];
    Follow(h, s, In(0, Check(0)));
    n := Step(h, s, In(0, Check(0)));
  }

  lemma SendToken(h: string -> string, s: System, q: Waiter) returns (n: System)
    requires Reaches(h, s) && At(s, Notifying([], {0})) && Lone(s, q)
    ensures Reaches(h, n) && At(n, Notifying([], {})) && Lone(n, q.(token := true)) && n.db == s.db
    ensures n.procs[0].watchers == s.procs[0].watchers
  {
    Follow(h, s, In(0, Send(0, 0)));
    n := Step(h, s, In(0, Send(0, 0)));
    assert {0} - {0} == {};
    assert n.procs[0].tasks == map[0 := Notifying([], {})];
  }

  lemma TakeToken(h: string -> string, s: System, q: Waiter) returns (n: System)
    requires Reaches(h, s) && Quiet(s) && Lone(s, q) && q.pc == Parked && q.token
    ensures Reaches(h, n) && Quiet(n) && n.db == s.db && n.procs[0].watchers == s.procs[0].watchers
    ensures Lone(n, q.(pc := Rechecking, token := false, drained := true))
  {
    Follow(h, s, In(0, Wake(0)));
    n := Step(h, s, In(0, Wake(0)));
  }

  /** A listener on k, registered and parked, that knows the md5 of what is stored. */
  lemma ParkListener(h: string -> string, k: Key, before: string) returns (s: System)
    ensures Reaches(h, s) && Quiet(s) && s.procs[0].watchers == map[k := {0}]
    ensures Lone(s, Waiter([k], map[k := h(before)], Parked, false, false))
    ensures Read(Md5s(s.db.tables), k) == h(before)
  {
    var known := map[k := h(before)];
    s := Activate(h);
    s := PublishToHub(h, s, k, before);
    s := Finish(h, s);
    s := RegisterAfterCheck(h, s, k, known);
    s := CheckInVain(h, s, k, Waiter([k], known, SecondCheck, false, false));
  }

  /** A publication of the same content again wakes it; it finds nothing and parks unregistered. */
  lemma WokenInVain(h: string -> string, k: Key, before: string) returns (s: System)
    ensures Reaches(h, s) && Quiet(s) && s.procs[0].watchers == map[]
    ensures Lone(s, Waiter([k], map[k := h(before)], Parked, false, true))
  {
    var known := map[k := h(before)];
    s := ParkListener(h, k, before);
    s := PublishToHub(h, s, k, before);
    assert s.procs[0].watchers == map[];
    s := SendToken(h, s, Waiter([k], known, Parked, false, false));
    s := Finish(h, s);
    s := TakeToken(h, s, Waiter([k], known, Parked, true, false));
    s := CheckInVain(h, s, k, Waiter([k], known, Rechecking, false, true));
  }

  /** For any two contents with different md5s there is a run that ends with a parked waiter whose
      key has changed while its owner is live, no token is in its channel, and nothing that would
      wake it is under way.  Only the listener's one-second tick finds the change. */
  lemma SecondWakeupCanBeLost(h: string -> string, k: Key, before: string, after: string) returns (s: System)
    requires h(before) != h(after)
    ensures Reaches(h, s) && Quiet(s) && Lone(s, Waiter([k], map[k := h(before)], Parked, false, true))
    ensures Stale(s.db, s.procs[0].waiters[0], k) && !Informed(s.procs[0], 0, k)
  {
    s := WokenInVain(h, k, before);
    s := PublishToHub(h, s, k, after);
    s := Finish(h, s);
  }

  /** A commit that takes effect and is reported as failed, of a content with another md5: the owner is
      lost, its session still lives, its semaphore is free, and its index is stale. */
  lemma IndexCanBeStale(h: string -> string, k: Key, before: string, after: string) returns (s: System)
    ensures Reaches(h, s) && 0 in s.procs && Alive(s.db, s.procs[0]) && s.procs[0].chan > 0 && s.procs[0].lost
    ensures s.procs[0].hub.Some?
    ensures Read(s.procs[0].hub.value, k) == h(before) && Read(Md5s(s.db.tables), k) == h(after)
  {
    s := Activate(h);
    s := PublishToHub(h, s, k, before);
    s := Finish(h, s);
    IndexIsExact(h, s);
    var t := s.db.tables;
    s := EnterTransaction(h, s);
    s := WriteAndVerify(h, s, t, k, after);
    s := FailToReport(h, s, Upsert(h, t, k, after, ""), [Published(k, h(after))]);
  }

  lemma IndexIsExact(h: string -> string, s: System)
    requires Reaches(h, s) && Quiet(s)
    ensures s.procs[0].hub == Some(Md5s(s.db.tables))
  {
    var es :| Run(h, es) == Some(s);
    Theorems.CacheExact(h, es, s, 0);
  }

  lemma FailToReport(h: string -> string, s: System, t: Tables, ns: seq<Notice>) returns (n: System)
    requires Reaches(h, s) && At(s, Reverified(t, ns))
    ensures Reaches(h, n) && n.db.tables == t && 0 in n.procs && n.procs[0].hub == s.procs[0].hub
    ensures Alive(n.db, n.procs[0]) && n.procs[0].lost && n.procs[0].chan == 1
  {
    Follow(h, s, CommitUnreported(0, 0));
    n := Step(h, s, CommitUnreported(0, 0));
  }

  /** The listener's one-second tick then finds it: from any state where the owner is live and the
      semaphore free, a tick and the check after it return exactly the changed keys, if any. */
  lemma TickFindsIt(h: string -> string, s: System, p: Pid, w: Wid)
    requires p in s.procs && Live(s.db, s.procs[p]) && s.procs[p].chan > 0
    requires w in s.procs[p].waiters && s.procs[p].waiters[w].pc == Parked
    ensures Enabled(s, In(p, Tick(w))) && Enabled(Step(h, s, In(p, Tick(w))), In(p, Check(w)))
    ensures var q := s.procs[p].waiters[w];
            var n := Step(h, Step(h, s, In(p, Tick(w))), In(p, Check(w)));
            var changed := Changed(Md5s(s.db.tables), q.keys, q.known);
            n.procs[p].waiters[w].pc == (if changed != [] then Returned(Some(changed)) else Parked)
  {
  }
}

/** Runs of the instance table against a clock that never goes back: the sweeper changes what is
    stored, never what a healthy-only listing returns. */
module NamingRuns {
  import opened NamingStore

  datatype Op =
    | Register(u: Upsert)
    | Beat(u: Upsert)
    | Delete(key: Key)
    | MarkStale(seen: int)
    | Purge(seen: int)
    | MarkPersistent

  /** A sweep is two statements, and both use the clock as it was read when the sweep began, so
      they carry that earlier reading; other operations may come between them. */
  datatype Timed = Timed(at: int, op: Op)

  predicate BySweeper(op: Op) {
    op.MarkStale? || op.Purge?
  }

  function Do(cfg: Config, rows: Table, t: Timed): Table {
    match t.op
    case Register(u) => Registered(rows, u, t.at)
    case Beat(u) => Beaten(rows, u, t.at)
    case Delete(key) => Removed(rows, key)
    case MarkStale(seen) => Marked(cfg, rows, seen)
    case Purge(seen) => Purged(cfg, rows, seen)
    case MarkPersistent => PersistentMarked(cfg, rows, t.at)
  }

  function After(cfg: Config, rows: Table, trace: seq<Timed>): Table {
    if trace == [] then rows
    else Do(cfg, After(cfg, rows, trace[..|trace| - 1]), trace[|trace| - 1])
  }

  /** The same run with every sweep erased. */
  function Unswept(trace: seq<Timed>): seq<Timed> {
    if trace == [] then []
    else Unswept(trace[..|trace| - 1]) + (if BySweeper(trace[|trace| - 1].op) then [] else [trace[|trace| - 1]])
  }

  predicate Monotone(trace: seq<Timed>) {
    && (forall i, j :: 0 <= i < j < |trace| ==> trace[i].at <= trace[j].at)
    && (forall i :: 0 <= i < |trace| && BySweeper(trace[i].op) ==> trace[i].op.seen <= trace[i].at)
  }

  predicate EphemeralBeats(trace: seq<Timed>) {
    forall i :: 0 <= i < |trace| && trace[i].op.Beat? ==> trace[i].op.u.ephemeral
  }

  /** Rows never carry an empty cluster name: registration replaces it. */
  predicate NoBlank(rows: Table) {
    forall k :: k in rows ==> k.cluster != ""
  }

  // ----- sweeps are invisible

  /** No healthy-only read will return this ephemeral row again unless it is refreshed. */
  ghost predicate Hidden(cfg: Config, r: Row, now: int) {
    r.ephemeral && (cfg.timeout <= 0 || Silent(r, now, cfg.timeout))
  }

  ghost predicate SimRow(cfg: Config, a: Row, b: Row, now: int) {
    && a.ephemeral == b.ephemeral && a.lastBeat == b.lastBeat
    && (a.healthy == b.healthy || (!a.healthy && Hidden(cfg, b, now)))
  }

  /** a is the swept table, b the one never swept. */
  ghost predicate Sim(cfg: Config, a: Table, b: Table, now: int) {
    && NoBlank(a) && NoBlank(b)
    && (forall k :: k in a ==> k in b && SimRow(cfg, a[k], b[k], now))
    && (forall k :: k in b && k !in a ==> Hidden(cfg, b[k], now))
  }

  ghost predicate Harmless(cfg: Config) {
    cfg.timeout <= 0 || cfg.deleteAfter >= cfg.timeout
  }

  lemma SimLater(cfg: Config, a: Table, b: Table, now: int, later: int)
    requires Sim(cfg, a, b, now) && now <= later
    ensures Sim(cfg, a, b, later)
  {
    forall k | k in a
      ensures k in b && SimRow(cfg, a[k], b[k], later)
    {
      assert SimRow(cfg, a[k], b[k], now);
    }
    forall k | k in b && k !in a
      ensures Hidden(cfg, b[k], later)
    {
      assert Hidden(cfg, b[k], now);
    }
  }

  /** Only the swept table sweeps. */
  lemma SimSweep(cfg: Config, a: Table, b: Table, t: Timed)
    requires Sim(cfg, a, b, t.at) && Harmless(cfg)
    requires BySweeper(t.op) && t.op.seen <= t.at
    ensures Sim(cfg, Do(cfg, a, t), b, t.at)
  {
    var a' := Do(cfg, a, t);
    forall k | k in b
      ensures k in a' ==> SimRow(cfg, a'[k], b[k], t.at)
      ensures k !in a' ==> Hidden(cfg, b[k], t.at)
    {
      assert k in a ==> SimRow(cfg, a[k], b[k], t.at);
      assert k !in a ==> Hidden(cfg, b[k], t.at);
    }
  }

  lemma SimStep(cfg: Config, a: Table, b: Table, t: Timed)
    requires Sim(cfg, a, b, t.at) && !BySweeper(t.op)
    requires t.op.Beat? ==> t.op.u.ephemeral
    ensures Sim(cfg, Do(cfg, a, t), Do(cfg, b, t), t.at)
  {
    var a', b' := Do(cfg, a, t), Do(cfg, b, t);
    forall k | k in a'
      ensures k in b' && SimRow(cfg, a'[k], b'[k], t.at)
    {
      assert k in a ==> SimRow(cfg, a[k], b[k], t.at);
      assert k in b && k !in a ==> Hidden(cfg, b[k], t.at);
    }
    forall k | k in b' && k !in a'
      ensures Hidden(cfg, b'[k], t.at)
    {
      assert k in b && k !in a ==> Hidden(cfg, b[k], t.at);
    }
  }

  lemma {:induction false} SimRun(cfg: Config, rows: Table, trace: seq<Timed>, now: int)
    requires NoBlank(rows) && Monotone(trace) && EphemeralBeats(trace) && Harmless(cfg)
    requires trace != [] ==> trace[|trace| - 1].at <= now
    ensures Sim(cfg, After(cfg, rows, trace), After(cfg, rows, Unswept(trace)), now)
  {
    if trace != [] {
      var n := |trace| - 1;
      SimRun(cfg, rows, trace[..n], trace[n].at);
      var a, b := After(cfg, rows, trace[..n]), After(cfg, rows, Unswept(trace[..n]));
      if BySweeper(trace[n].op) {
        SimSweep(cfg, a, b, trace[n]);
      } else {
        SimStep(cfg, a, b, trace[n]);
      }
      UnsweptLast(cfg, rows, trace);
      SimLater(cfg, After(cfg, rows, trace), After(cfg, rows, Unswept(trace)), trace[n].at, now);
    }
  }

  lemma UnsweptLast(cfg: Config, rows: Table, trace: seq<Timed>)
    requires trace != []
    ensures var n := |trace| - 1;
            var before := After(cfg, rows, Unswept(trace[..n]));
            After(cfg, rows, Unswept(trace)) == if BySweeper(trace[n].op) then before else Do(cfg, before, trace[n])
  {
    var n := |trace| - 1;
    var u := Unswept(trace[..n]);
    if BySweeper(trace[n].op) {
      assert Unswept(trace) == u;
    } else {
      assert (u + [trace[n]])[..|u|] == u;
    }
  }

  lemma SimReads(cfg: Config, a: Table, b: Table, q: Query, now: int)
    requires Sim(cfg, a, b, now) && q.healthyOnly
    ensures Listed(cfg, a, q, now) == Listed(cfg, b, q, now)
  {
    forall k
      ensures k in Listed(cfg, a, q, now) <==> k in Listed(cfg, b, q, now)
    {
      assert k in a ==> SimRow(cfg, a[k], b[k], now);
      assert k in b && k !in a ==> Hidden(cfg, b[k], now);
    }
  }

  /** Sweeps are invisible: every healthy-only listing returns the same instances as in the run
      with the sweeps erased, at whatever moment it is made. */
  lemma SweepsInvisible(cfg: Config, rows: Table, trace: seq<Timed>, q: Query, now: int)
    requires NoBlank(rows) && Monotone(trace) && EphemeralBeats(trace) && Harmless(cfg) && q.healthyOnly
    requires trace != [] ==> trace[|trace| - 1].at <= now
    ensures Listed(cfg, After(cfg, rows, trace), q, now) == Listed(cfg, After(cfg, rows, Unswept(trace)), q, now)
  {
    SimRun(cfg, rows, trace, now);
    SimReads(cfg, After(cfg, rows, trace), After(cfg, rows, Unswept(trace)), q, now);
  }

  ghost predicate InvisibleInEveryRun(cfg: Config) {
    forall rows: Table, trace: seq<Timed>, q: Query, now: int :: SweepsUnseen(cfg, rows, trace, q, now)
  }

  ghost predicate SweepsUnseen(cfg: Config, rows: Table, trace: seq<Timed>, q: Query, now: int) {
    NoBlank(rows) && Monotone(trace) && EphemeralBeats(trace) && q.healthyOnly
    && (trace != [] ==> trace[|trace| - 1].at <= now)
    ==> Listed(cfg, After(cfg, rows, trace), q, now) == Listed(cfg, After(cfg, rows, Unswept(trace)), q, now)
  }

  /** The deletion limit that makes it so is exactly the health timeout: with anything shorter
      some run loses an instance that is still healthy. */
  lemma InvisibleIffHarmless(cfg: Config)
    ensures InvisibleInEveryRun(cfg) <==> Harmless(cfg)
  {
    if Harmless(cfg) {
      forall rows: Table, trace: seq<Timed>, q: Query, now: int
        ensures SweepsUnseen(cfg, rows, trace, q, now)
      {
        if NoBlank(rows) && Monotone(trace) && EphemeralBeats(trace) && q.healthyOnly
           && (trace != [] ==> trace[|trace| - 1].at <= now)
        {
          SweepsInvisible(cfg, rows, trace, q, now);
        }
      }
    } else {
      var k := Key("ns", "g", "s", "c", "10.0.0.1", 80);
      var u := Upsert(k, 1.0, true, true, "");
      var now := if cfg.deleteAfter < 0 then 1 else cfg.deleteAfter + 2;
      var trace := [Timed(1, Register(u)), Timed(now, MarkStale(now)), Timed(now, Purge(now))];
      var q := Query("ns", "g", "s", {}, true);
      AfterSweep(cfg, trace);
      assert k !in Listed(cfg, After(cfg, map[], trace), q, now);
      assert k in Listed(cfg, After(cfg, map[], Unswept(trace)), q, now);
      assert !SweepsUnseen(cfg, map[], trace, q, now);
    }
  }

  /** One operation and one sweep: its two statements, one after the other. */
  lemma AfterSweep(cfg: Config, trace: seq<Timed>)
    requires |trace| == 3 && !BySweeper(trace[0].op) && BySweeper(trace[1].op) && BySweeper(trace[2].op)
    ensures After(cfg, map[], trace) == Do(cfg, Do(cfg, Do(cfg, map[], trace[0]), trace[1]), trace[2])
    ensures After(cfg, map[], Unswept(trace)) == Do(cfg, map[], trace[0])
  {
    assert trace[..2][..1] == trace[..1] && trace[..1][..0] == [] && trace[..2][1] == trace[1] && trace[..1][0] == trace[0];
    assert After(cfg, map[], trace[..1]) == Do(cfg, map[], trace[0]);
    assert After(cfg, map[], trace[..2]) == Do(cfg, Do(cfg, map[], trace[0]), trace[1]);
    UnsweptLast(cfg, map[], trace);
    UnsweptLast(cfg, map[], trace[..2]);
    UnsweptLast(cfg, map[], trace[..1]);
    assert Unswept([]) == [];
  }

  /** Beats must be marked ephemeral, which the beat endpoint lets a caller switch off: under any
      settings, a beat that recreates a swept instance as a persistent one keeps it listed for ever,
      while the unswept run sees it expire. */
  lemma PersistentBeatIsSeen(cfg: Config) returns (trace: seq<Timed>, q: Query, now: int)
    ensures Monotone(trace) && q.healthyOnly && (trace != [] ==> trace[|trace| - 1].at <= now)
    ensures Listed(cfg, After(cfg, map[], trace), q, now) != Listed(cfg, After(cfg, map[], Unswept(trace)), q, now)
  {
    var k := Key("ns", "g", "s", "c", "10.0.0.1", 80);
    var t1 := (if cfg.deleteAfter < 0 then 0 else cfg.deleteAfter) + 2;
    var first := [Timed(1, Register(Upsert(k, 1.0, true, true, ""))), Timed(t1, MarkStale(t1)), Timed(t1, Purge(t1))];
    now := t1 + (if cfg.timeout < 0 then 0 else cfg.timeout) + 1;
    trace := first + [Timed(t1, Beat(Upsert(k, 1.0, true, false, "")))];
    q := Query("ns", "g", "s", {}, true);
    assert trace[..3] == first;
    AfterSweep(cfg, first);
    UnsweptLast(cfg, map[], trace);
    assert k in Listed(cfg, After(cfg, map[], trace), q, now);
    assert k !in Listed(cfg, After(cfg, map[], Unswept(trace)), q, now);
  }

  /** Invisible in every run, beats marked persistent admitted or not. */
  ghost predicate InvisibleWith(cfg: Config, persistentBeats: bool) {
    forall rows: Table, trace: seq<Timed>, q: Query, now: int ::
      persistentBeats || EphemeralBeats(trace) ==> SameListing(cfg, rows, trace, q, now)
  }

  ghost predicate SameListing(cfg: Config, rows: Table, trace: seq<Timed>, q: Query, now: int) {
    NoBlank(rows) && Monotone(trace) && q.healthyOnly && (trace != [] ==> trace[|trace| - 1].at <= now) ==>
      Listed(cfg, After(cfg, rows, trace), q, now) == Listed(cfg, After(cfg, rows, Unswept(trace)), q, now)
  }

  /** Both conditions are exact: the settings are harmless, and no beat is marked persistent. */
  lemma InvisibleIff(cfg: Config, persistentBeats: bool)
    ensures InvisibleWith(cfg, persistentBeats) <==> Harmless(cfg) && !persistentBeats
  {
    InvisibleIffHarmless(cfg);
    if persistentBeats {
      var trace, q, now := PersistentBeatIsSeen(cfg);
      assert !SameListing(cfg, map[], trace, q, now);
    } else {
      forall rows: Table, trace: seq<Timed>, q: Query, now: int
        ensures SweepsUnseen(cfg, rows, trace, q, now) <==> (EphemeralBeats(trace) ==> SameListing(cfg, rows, trace, q, now))
      {
      }
    }
  }

  /** Sweeping twice is sweeping once at the later time, so replicas may sweep concurrently. */
  lemma SweepsCollapse(cfg: Config, rows: Table, t1: int, t2: int)
    requires t1 <= t2
    ensures Swept(cfg, Swept(cfg, rows, t1), t2) == Swept(cfg, rows, t2)
  {
    var a, b := Swept(cfg, Swept(cfg, rows, t1), t2), Swept(cfg, rows, t2);
    forall k
      ensures k in a <==> k in b
      ensures k in a ==> a[k] == b[k]
    {
    }
  }

  // ----- an instance that keeps beating

  /** The last time instance k was registered or beaten. */
  function LastRefresh(trace: seq<Timed>, k: Key): int {
    if trace == [] then 0
    else if Refreshes(trace[|trace| - 1].op, k) then trace[|trace| - 1].at
    else LastRefresh(trace[..|trace| - 1], k)
  }

  predicate Refreshes(op: Op, k: Key) {
    (op.Register? || op.Beat?) && Defaulted(op.u.key) == k
  }

  /** The run starts with k's ephemeral registration, never deregisters it, and never lets more
      than `limit` pass since its last refresh. */
  ghost predicate KeepsBeating(trace: seq<Timed>, k: Key, limit: int) {
    && trace != [] && trace[0].op.Register? && Defaulted(trace[0].op.u.key) == k && trace[0].at > 0
    && (forall i :: 0 <= i < |trace| && trace[i].op.Register? && Defaulted(trace[i].op.u.key) == k ==> trace[i].op.u.ephemeral)
    && (forall i :: 0 <= i < |trace| && trace[i].op.Delete? ==> Defaulted(trace[i].op.key) != k)
    && InTime(trace, k, limit)
  }

  /** At every step k's last refresh is no more than `limit` ago. */
  ghost predicate InTime(trace: seq<Timed>, k: Key, limit: int) {
    forall i {:trigger trace[..i]} :: 0 < i < |trace| ==> trace[i].at - LastRefresh(trace[..i], k) <= limit
  }

  lemma BeatRegisters(rows: Table, u: Upsert, now: int)
    requires NoBlank(rows)
    ensures u.key.cluster == "" ==> u.key !in rows
  {
  }

  lemma {:induction false} NeverBlank(cfg: Config, rows: Table, trace: seq<Timed>)
    requires NoBlank(rows)
    ensures NoBlank(After(cfg, rows, trace))
  {
    if trace != [] {
      NeverBlank(cfg, rows, trace[..|trace| - 1]);
    }
  }

  ghost predicate Kept(rows: Table, k: Key, refreshed: int, healthy: bool) {
    k in rows && rows[k].ephemeral && rows[k].lastBeat == refreshed && (healthy ==> rows[k].healthy)
  }

  /** One step of a run that keeps k beating. */
  lemma KeptStep(cfg: Config, rows: Table, t: Timed, k: Key, refreshed: int, limit: int)
    requires NoBlank(rows) && Kept(rows, k, refreshed, limit <= cfg.timeout) && limit <= cfg.deleteAfter
    requires t.at - refreshed <= limit
    requires BySweeper(t.op) ==> t.op.seen <= t.at
    requires t.op.Register? || t.op.Beat? ==> t.op.u.ephemeral || Defaulted(t.op.u.key) != k
    requires t.op.Delete? ==> Defaulted(t.op.key) != k
    ensures Kept(Do(cfg, rows, t), k, if Refreshes(t.op, k) then t.at else refreshed, limit <= cfg.timeout)
  {
    if t.op.Beat? {
      BeatRegisters(rows, t.op.u, t.at);
    }
  }

  /** With a limit up to the deletion limit the row stays; up to the health timeout it also stays
      healthy. */
  lemma {:induction false} RowKept(cfg: Config, rows: Table, trace: seq<Timed>, k: Key, limit: int)
    requires NoBlank(rows) && Monotone(trace) && EphemeralBeats(trace) && KeepsBeating(trace, k, limit)
    requires limit <= cfg.deleteAfter
    ensures Kept(After(cfg, rows, trace), k, LastRefresh(trace, k), limit <= cfg.timeout)
    ensures 0 < LastRefresh(trace, k) <= trace[|trace| - 1].at
  {
    var n := |trace| - 1;
    if n == 0 {
      assert trace[..0] == [];
    } else {
      assert forall i :: 0 <= i < n ==> trace[..n][..i] == trace[..i];
      RowKept(cfg, rows, trace[..n], k, limit);
      NeverBlank(cfg, rows, trace[..n]);
      KeptStep(cfg, After(cfg, rows, trace[..n]), trace[n], k, LastRefresh(trace[..n], k), limit);
    }
  }

  /** An instance whose registrations and beats are never more than the timeout apart is in every
      healthy-only listing of its service, however sweeps fall. */
  lemma BeatingIsListed(cfg: Config, rows: Table, trace: seq<Timed>, k: Key, q: Query, now: int)
    requires NoBlank(rows) && Monotone(trace) && EphemeralBeats(trace) && KeepsBeating(trace, k, cfg.timeout)
    requires 0 < cfg.timeout <= cfg.deleteAfter
    requires trace[|trace| - 1].at <= now <= LastRefresh(trace, k) + cfg.timeout
    requires Matches(k, q)
    ensures k in Listed(cfg, After(cfg, rows, trace), q, now)
  {
    RowKept(cfg, rows, trace, k, cfg.timeout);
  }
}

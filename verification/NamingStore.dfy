/** The instance table of the naming registry: registration, beats, the two sweeps and the
    health an instance is given when it is read.  The clock is an argument. */
module NamingStore {
  import opened StableSort

  datatype Key = Key(namespace: string, group: string, service: string, cluster: string, ip: string, port: nat)
  datatype Row = Row(weight: real, healthy: bool, enabled: bool, ephemeral: bool, metadata: string, lastBeat: int)
  type Table = map<Key, Row>

  datatype Upsert = Upsert(key: Key, weight: real, enabled: bool, ephemeral: bool, metadata: string)

  /** A listing: one service, any of some clusters (none named means all), healthy ones only or not. */
  datatype Query = Query(namespace: string, group: string, service: string, clusters: set<string>, healthyOnly: bool)

  datatype Config = Config(timeout: int, deleteAfter: int, persistentTimeout: int)

  /** Health at the read boundary: the stored flag may lag behind the clock. */
  predicate EffectiveHealth(cfg: Config, r: Row, now: int) {
    if !r.healthy || !r.ephemeral then r.healthy
    else if cfg.timeout <= 0 || r.lastBeat <= 0 || r.lastBeat > now then false
    else now - r.lastBeat <= cfg.timeout
  }

  function Defaulted(k: Key): Key {
    if k.cluster == "" then k.(cluster := "DEFAULT") else k
  }

  function NewRow(u: Upsert, now: int): Row {
    Row(if u.weight <= 0.0 then 1.0 else u.weight, true, u.enabled, u.ephemeral, u.metadata, now)
  }

  function Registered(rows: Table, u: Upsert, now: int): Table {
    rows[Defaulted(u.key) := NewRow(u, now)]
  }

  /** A beat touches the row under the key exactly as given, or registers. */
  function Beaten(rows: Table, u: Upsert, now: int): Table {
    if u.key in rows then rows[u.key := rows[u.key].(lastBeat := now, healthy := true)]
    else Registered(rows, u, now)
  }

  predicate Silent(r: Row, now: int, limit: int) {
    r.lastBeat < now - limit
  }

  /** The sweep's first statement: silent ephemeral instances are marked unhealthy. */
  function Marked(cfg: Config, rows: Table, now: int): Table {
    map k | k in rows ::
      (if rows[k].ephemeral && Silent(rows[k], now, cfg.timeout) then rows[k].(healthy := false) else rows[k])
  }

  function Newly(cfg: Config, rows: Table, now: int): set<Key> {
    set k | k in rows && rows[k].ephemeral && rows[k].healthy && Silent(rows[k], now, cfg.timeout)
  }

  /** Its second statement: long-silent ones are removed. */
  function Purged(cfg: Config, rows: Table, now: int): Table {
    map k | k in rows && !(rows[k].ephemeral && Silent(rows[k], now, cfg.deleteAfter)) :: rows[k]
  }

  function Swept(cfg: Config, rows: Table, now: int): Table {
    Purged(cfg, Marked(cfg, rows, now), now)
  }

  function PersistentMarked(cfg: Config, rows: Table, now: int): Table {
    if cfg.persistentTimeout <= 0 then rows
    else
      map k | k in rows ::
        (if !rows[k].ephemeral && Silent(rows[k], now, cfg.persistentTimeout) then rows[k].(healthy := false)
         else rows[k])
  }

  predicate Matches(k: Key, q: Query) {
    && k.namespace == q.namespace && k.group == q.group && k.service == q.service
    && (q.clusters == {} || k.cluster in q.clusters)
  }

  /** The instances a listing returns. */
  function Listed(cfg: Config, rows: Table, q: Query, now: int): set<Key> {
    set k | k in rows && Matches(k, q) && (q.healthyOnly ==> EffectiveHealth(cfg, rows[k], now))
  }

  function Removed(rows: Table, key: Key): Table {
    rows - {Defaulted(key)}
  }

  class Store {
    var rows: Table
    const cfg: Config

    constructor (cfg: Config)
      ensures rows == map[] && this.cfg == cfg
    {
      rows := map[];
      this.cfg := cfg;
    }

    method RegisterInstance(u: Upsert, now: int) returns (created: bool)
      modifies this
      ensures rows == Registered(old(rows), u, now)
      ensures created <==> Defaulted(u.key) !in old(rows)
    {
      var key := Defaulted(u.key);
      var weight := if u.weight <= 0.0 then 1.0 else u.weight;
      created := key !in rows;
      if created {
        rows := rows[key := Row(weight, true, u.enabled, u.ephemeral, u.metadata, now)];
        return;
      }
      rows := rows[key := rows[key].(weight := weight, enabled := u.enabled, ephemeral := u.ephemeral,
                                     metadata := u.metadata, lastBeat := now, healthy := true)];
    }

    method BeatInstance(u: Upsert, now: int) returns (created: bool)
      modifies this
      ensures rows == Beaten(old(rows), u, now)
      ensures created <==> u.key !in old(rows) && Defaulted(u.key) !in old(rows)
    {
      if u.key in rows {
        rows := rows[u.key := rows[u.key].(lastBeat := now, healthy := true)];
        return false;
      }
      created := RegisterInstance(u, now);
    }

    method DeleteInstance(key: Key) returns (deleted: bool)
      modifies this
      ensures rows == Removed(old(rows), key) && (deleted <==> Defaulted(key) in old(rows))
    {
      var k := Defaulted(key);
      deleted := k in rows;
      rows := rows - {k};
    }

    /** `selected` is the query's answer: the matching rows in the database's order, those whose
        stored flag says unhealthy already left out of a healthy-only listing. */
    method ListInstances(q: Query, now: int, selected: seq<Key>, before: (Key, Key) -> bool)
      returns (out: seq<(Key, bool)>)
      requires Ascending(selected, before) && Distinct(selected)
      requires forall k :: k in selected <==> k in rows && Matches(k, q) && (q.healthyOnly ==> rows[k].healthy)
      ensures forall k :: k in Listed(cfg, rows, q, now) <==> exists i :: 0 <= i < |out| && out[i].0 == k
      ensures forall i :: 0 <= i < |out| ==> out[i].0 in rows && out[i].1 == EffectiveHealth(cfg, rows[out[i].0], now)
      ensures forall i, j :: 0 <= i < j < |out| ==> before(out[i].0, out[j].0) && out[i].0 != out[j].0
    {
      out := [];
      for n := 0 to |selected|
        invariant forall i :: 0 <= i < |out| ==>
                    out[i].0 in selected[..n] && out[i].1 == EffectiveHealth(cfg, rows[out[i].0], now)
                    && (q.healthyOnly ==> out[i].1)
        invariant forall k :: k in selected[..n] && (q.healthyOnly ==> EffectiveHealth(cfg, rows[k], now)) ==>
                    exists i :: 0 <= i < |out| && out[i].0 == k
        invariant forall i, j :: 0 <= i < j < |out| ==> before(out[i].0, out[j].0) && out[i].0 != out[j].0
      {
        var k := selected[n];
        assert selected[..n + 1] == selected[..n] + [k];
        var healthy := EffectiveHealth(cfg, rows[k], now);
        if !q.healthyOnly || healthy {
          ghost var was := out;
          out := out + [(k, healthy)];
          assert out[|was|].0 == k;
          assert forall i :: 0 <= i < |was| ==> out[i] == was[i];
        }
      }
      assert selected[..|selected|] == selected;
    }

    method SweepEphemeral(now: int) returns (marked: nat, deleted: nat)
      modifies this
      ensures rows == Swept(cfg, old(rows), now)
      ensures marked == |Newly(cfg, old(rows), now)|
      ensures deleted == |old(rows).Keys - rows.Keys|
    {
      marked := MarkStale(now);
      assert rows.Keys == old(rows).Keys;
      deleted := PurgeStale(now);
    }

    /** The two statements of the sweep; each is atomic, the pair is not. */
    method MarkStale(now: int) returns (marked: nat)
      modifies this
      ensures rows == Marked(cfg, old(rows), now)
      ensures marked == |Newly(cfg, old(rows), now)|
    {
      var stale := Newly(cfg, rows, now);
      marked := |stale|;
      rows := map k | k in rows :: if k in stale then rows[k].(healthy := false) else rows[k];
    }

    method PurgeStale(now: int) returns (deleted: nat)
      modifies this
      ensures rows == Purged(cfg, old(rows), now)
      ensures deleted == |old(rows).Keys - rows.Keys|
    {
      var gone := set k | k in rows && rows[k].ephemeral && Silent(rows[k], now, cfg.deleteAfter);
      deleted := |gone|;
      rows := rows - gone;
      assert old(rows).Keys - rows.Keys == gone;
    }

    method MarkStalePersistentUnhealthy(now: int) returns (marked: nat)
      modifies this
      ensures rows == PersistentMarked(cfg, old(rows), now)
      ensures rows.Keys == old(rows).Keys
    {
      if cfg.persistentTimeout <= 0 {
        return 0;
      }
      var stale := set k | k in rows && !rows[k].ephemeral && rows[k].healthy && Silent(rows[k], now, cfg.persistentTimeout);
      marked := |stale|;
      rows := map k | k in rows :: if k in stale then rows[k].(healthy := false) else rows[k];
    }
  }
}

/** The watcher hub of one process: the index and the watcher sets as its methods change them,
    each proved to be the corresponding part of a protocol step. */
module ConfigHub {
  import opened ConfigStore
  import opened ConfigProtocol

  class Hub {
    var md5s: Md5Index
    var watchers: map<Key, set<Wid>>

    /** The preload: one entry per committed row, in whatever order the query returns them. */
    constructor (t: Tables, entries: seq<(Key, string)>)
      requires forall i :: 0 <= i < |entries| ==> entries[i].0 in t.rows && entries[i].1 == t.rows[entries[i].0].md5
      requires forall k :: k in t.rows ==> exists i :: 0 <= i < |entries| && entries[i].0 == k
      ensures md5s == Md5s(t) && watchers == map[]
    {
      md5s := map[];
      watchers := map[];
      new;
      for i := 0 to |entries|
        invariant watchers == map[]
        invariant forall k :: k in md5s ==> k in t.rows && md5s[k] == t.rows[k].md5
        invariant forall j :: 0 <= j < i ==> entries[j].0 in md5s
      {
        md5s := md5s[entries[i].0 := entries[i].1];
      }
    }

    /** Takes the watchers of a key off the map; the caller sends to them after unlocking. */
    method TakeWatchers(k: Key) returns (chs: set<Wid>)
      modifies this`watchers
      ensures chs == if k in old(watchers) then old(watchers)[k] else {}
      ensures watchers == old(watchers) - {k}
    {
      chs := if k in watchers then watchers[k] else {};
      watchers := watchers - {k};
    }

    method Publish(k: Key, md5: string) returns (chs: set<Wid>)
      modifies this
      ensures md5s == ApplyNotice(old(md5s), Published(k, md5))
      ensures watchers == old(watchers) - {k} && chs == if k in old(watchers) then old(watchers)[k] else {}
    {
      md5s := md5s[k := md5];
      chs := TakeWatchers(k);
    }

    method Invalidate(k: Key) returns (chs: set<Wid>)
      modifies this
      ensures md5s == ApplyNotice(old(md5s), Invalidated(k))
      ensures watchers == old(watchers) - {k} && chs == if k in old(watchers) then old(watchers)[k] else {}
    {
      md5s := md5s - {k};
      chs := TakeWatchers(k);
    }

    /** The registration loop of WaitChanged. */
    method Register(keys: seq<Key>, w: Wid)
      modifies this`watchers
      ensures watchers == AddWatcher(old(watchers), keys, w)
    {
      AddNone(watchers, w);
      for i := 0 to |keys|
        invariant watchers == AddWatcher(old(watchers), keys[..i], w)
      {
        var k := keys[i];
        watchers := watchers[k := (if k in watchers then watchers[k] else {}) + {w}];
        assert watchers == AddWatcher(old(watchers), keys[..i + 1], w) by {
          AddOne(old(watchers), keys[..i], k, w);
          assert keys[..i + 1] == keys[..i] + [k];
        }
      }
      assert keys[..|keys|] == keys;
    }

    /** Its deferred clean-up: empty sets are dropped. */
    method Unregister(keys: seq<Key>, w: Wid)
      requires forall k :: k in watchers ==> watchers[k] != {}
      modifies this`watchers
      ensures watchers == DropWatcher(old(watchers), keys, w)
    {
      DropNone(watchers, w);
      for i := 0 to |keys|
        invariant watchers == DropWatcher(old(watchers), keys[..i], w)
      {
        var k := keys[i];
        DropOne(old(watchers), keys[..i], k, w);
        assert keys[..i + 1] == keys[..i] + [k];
        if k in watchers {
          var m := watchers[k] - {w};
          if m == {} {
            watchers := watchers - {k};
          } else {
            watchers := watchers[k := m];
          }
        }
      }
      assert keys[..|keys|] == keys;
    }
  }

  lemma AddNone(ws: map<Key, set<Wid>>, w: Wid)
    ensures AddWatcher(ws, [], w) == ws
  {
    var none: seq<Key> := [];
    assert (set x | x in none) == {};
    assert forall k :: k in ws ==> AddWatcher(ws, none, w)[k] == ws[k];
  }

  lemma AddOne(ws: map<Key, set<Wid>>, keys: seq<Key>, k: Key, w: Wid)
    ensures var m := AddWatcher(ws, keys, w);
            AddWatcher(ws, keys + [k], w) == m[k := (if k in m then m[k] else {}) + {w}]
  {
    var m, n := AddWatcher(ws, keys, w), AddWatcher(ws, keys + [k], w);
    var r := m[k := (if k in m then m[k] else {}) + {w}];
    assert forall x :: x in keys + [k] <==> x in keys || x == k;
    assert n.Keys == r.Keys;
    forall x | x in n
      ensures n[x] == r[x]
    {
    }
  }

  lemma DropNone(ws: map<Key, set<Wid>>, w: Wid)
    requires forall k :: k in ws ==> ws[k] != {}
    ensures DropWatcher(ws, [], w) == ws
  {
    assert forall k :: k in ws ==> DropWatcher(ws, [], w)[k] == ws[k];
  }

  lemma DropOne(ws: map<Key, set<Wid>>, keys: seq<Key>, k: Key, w: Wid)
    ensures var m := DropWatcher(ws, keys, w);
            DropWatcher(ws, keys + [k], w) ==
            (if k !in m then m else if m[k] - {w} == {} then m - {k} else m[k := m[k] - {w}])
  {
    var m, n := DropWatcher(ws, keys, w), DropWatcher(ws, keys + [k], w);
    assert forall x :: x in keys + [k] <==> x in keys || x == k;
    assert k in ws && k !in m ==> ws[k] <= {w};
    assert k in m ==> (m[k] - {w} == {} <==> ws[k] <= {w});
    forall x | x in n
      ensures x in m && n[x] == (if x == k then m[x] - {w} else m[x])
    {
    }
    forall x | x in m
      ensures x in n <==> x != k || m[x] - {w} != {}
    {
    }
  }
}

/** The configuration tables: current rows, the history log and the tag relations, as the
    statements of one transaction change them.

    The md5 of a content is the parameter `h`.  Row and history ids come from the database's
    sequences; a rolled-back transaction leaves gaps in them.
  */
module ConfigStore {
  import opened Registry
  import opened Text

  datatype Key = Key(tenant: string, group: string, dataId: string)
  datatype Row = Row(id: nat, content: string, md5: string)
  datatype OpType = I | U | D
  datatype Entry = Entry(nid: nat, id: nat, key: Key, content: string, md5: string, op: OpType)
  datatype Tag = Tag(id: nat, name: string, key: Key)

  datatype Tables = Tables(
    rows: map<Key, Row>, history: seq<Entry>, tags: set<Tag>, nextId: nat, nextNid: nat)

  const EMPTY_TABLES := Tables(map[], [], {}, 0, 0)

  // ----- what the statements of one operation amount to

  function Log(t: Tables, id: nat, key: Key, content: string, md5: string, op: OpType): Tables {
    t.(history := t.history + [Entry(t.nextNid, id, key, content, md5, op)], nextNid := t.nextNid + 1)
  }

  function Md5Of(h: string -> string, content: string, given: string): string {
    if given == "" then h(content) else given
  }

  function Upsert(h: string -> string, t: Tables, key: Key, content: string, given: string): Tables {
    var md5 := Md5Of(h, content, given);
    if key in t.rows then
      Log(t.(rows := t.rows[key := Row(t.rows[key].id, content, md5)]), t.rows[key].id, key, content, md5, U)
    else
      Log(t.(rows := t.rows[key := Row(t.nextId, content, md5)], nextId := t.nextId + 1), t.nextId, key, content, md5, I)
  }

  function Delete(t: Tables, key: Key): Tables {
    if key !in t.rows then t
    else
      var row := t.rows[key];
      Log(t.(rows := t.rows - {key}, tags := set g | g in t.tags && g.key != key), row.id, key, row.content, row.md5, D)
  }

  /** The names a tag list asks for: trimmed, empties skipped. */
  function TagNames(tags: seq<string>): seq<string> {
    if tags == [] then []
    else
      var name := TrimSpace(tags[|tags| - 1]);
      TagNames(tags[..|tags| - 1]) + (if name == "" then [] else [name])
  }

  predicate DistinctNames(names: seq<string>) {
    forall i, j :: 0 <= i < j < |names| ==> names[i] != names[j]
  }

  function ReplaceTags(t: Tables, id: nat, key: Key, tags: seq<string>): Tables {
    t.(tags := (set g | g in t.tags && g.id != id) + (set n | n in TagNames(tags) :: Tag(id, n, key)))
  }

  // ----- the statements themselves

  datatype Result<+T> = Ok(value: T) | Err

  /** The tables as one transaction sees them.  `fails(n)` says whether the n-th statement of an
      operation is refused by the database; the operation then returns at once, and what it did so
      far is for the transaction to roll back. */
  class Transaction {
    var work: Tables
    const h: string -> string

    constructor (t: Tables, h: string -> string)
      ensures work == t && this.h == h
    {
      work := t;
      this.h := h;
    }

    /** Returns the row's id and whether it was created. */
    method UpsertConfig(key: Key, content: string, given: string, fails: nat -> bool) returns (r: Result<(nat, bool)>)
      modifies this
      ensures r.Ok? <==> !fails(0) && !fails(1) && !fails(2)
      ensures r.Ok? ==> work == Upsert(h, old(work), key, content, given)
      ensures r.Ok? ==> r.value.1 == (key !in old(work).rows) && r.value.0 == work.rows[key].id
      ensures r.Err? ==> work.history == old(work).history && work.tags == old(work).tags
    {
      var md5 := if given == "" then h(content) else given;
      if fails(0) {
        return Err;
      }
      var created := key !in work.rows;
      if fails(1) {
        return Err;
      }
      var id: nat;
      if created {
        id := work.nextId;
        work := work.(rows := work.rows[key := Row(id, content, md5)], nextId := id + 1);
      } else {
        id := work.rows[key].id;
        work := work.(rows := work.rows[key := Row(id, content, md5)]);
      }
      if fails(2) {
        return Err;
      }
      work := Log(work, id, key, content, md5, if created then I else U);
      return Ok((id, created));
    }

    /** Returns whether a row was deleted. */
    method DeleteConfig(key: Key, fails: nat -> bool) returns (r: Result<bool>)
      modifies this
      ensures r.Ok? ==> work == Delete(old(work), key) && r.value == (key in old(work).rows)
      ensures r.Ok? <==> !fails(0) && (key in old(work).rows ==> !fails(1) && !fails(2) && !fails(3))
    {
      if fails(0) {
        return Err;
      }
      if key !in work.rows {
        return Ok(false);
      }
      var row := work.rows[key];
      if fails(1) {
        return Err;
      }
      work := work.(rows := work.rows - {key});
      if fails(2) {
        return Err;
      }
      work := Log(work, row.id, key, row.content, row.md5, D);
      if fails(3) {
        return Err;
      }
      work := work.(tags := set g | g in work.tags && g.key != key);
      return Ok(true);
    }

    /** Rewrites the tags of one row; a repeated name violates the unique constraint and fails. */
    method ReplaceConfigTags(id: nat, key: Key, tags: seq<string>, fails: nat -> bool) returns (r: Result<()>)
      modifies this
      ensures r.Ok? ==> work == ReplaceTags(old(work), id, key, tags) && DistinctNames(TagNames(tags))
      ensures (forall n :: !fails(n)) ==> (r.Ok? <==> DistinctNames(TagNames(tags)))
    {
      if fails(0) {
        return Err;
      }
      work := work.(tags := set g | g in work.tags && g.id != id);
      for i := 0 to |tags|
        invariant work == ReplaceTags(old(work), id, key, tags[..i])
        invariant DistinctNames(TagNames(tags[..i]))
      {
        assert tags[..i + 1][..i] == tags[..i];
        var name := TrimSpace(tags[i]);
        if name != "" {
          var tag := Tag(id, name, key);
          if (exists g :: g in work.tags && g.id == id && g.name == name) || fails(i + 1) {
            RepeatedName(tags, i);
            assert (exists g :: g in work.tags && g.id == id && g.name == name) ==> name in TagNames(tags[..i]);
            return Err;
          }
          assert name !in TagNames(tags[..i]) by {
            assert tag !in work.tags;
          }
          work := work.(tags := work.tags + {tag});
        }
      }
      assert tags[..|tags|] == tags;
      return Ok(());
    }
  }

  /** Names already seen stay seen, so one repetition spoils the whole list. */
  lemma RepeatedName(tags: seq<string>, i: nat)
    requires i < |tags| && TrimSpace(tags[i]) != ""
    ensures TrimSpace(tags[i]) in TagNames(tags[..i]) ==> !DistinctNames(TagNames(tags))
  {
    var names, name := TagNames(tags[..i]), TrimSpace(tags[i]);
    assert tags[..i + 1][..i] == tags[..i];
    assert TagNames(tags[..i + 1]) == names + [name];
    TagNamesPrefix(tags, i + 1);
    if name in names {
      var j :| 0 <= j < |names| && names[j] == name;
      assert TagNames(tags)[j] == TagNames(tags)[|names|];
    }
  }

  lemma {:induction false} TagNamesPrefix(tags: seq<string>, i: nat)
    requires i <= |tags|
    ensures TagNames(tags[..i]) <= TagNames(tags)
  {
    if i == |tags| {
      assert tags[..i] == tags;
    } else {
      TagNamesPrefix(tags[..|tags| - 1], i);
      assert tags[..|tags| - 1][..i] == tags[..i];
    }
  }

  // ----- what every committed state satisfies

  /** The rows a history log describes: the last I or U of a key, unless a D came after it. */
  function Replay(history: seq<Entry>): map<Key, Row> {
    if history == [] then map[]
    else
      var e := history[|history| - 1];
      var before := Replay(history[..|history| - 1]);
      if e.op == D then before - {e.key} else before[e.key := Row(e.id, e.content, e.md5)]
  }

  function OpsOf(history: seq<Entry>, key: Key): seq<OpType> {
    if history == [] then []
    else
      var e := history[|history| - 1];
      OpsOf(history[..|history| - 1], key) + (if e.key == key then [e.op] else [])
  }

  /** A prefix of (I U* D)*: an I stands exactly at the start and right after every D. */
  predicate LifeCycles(ops: seq<OpType>) {
    forall i :: 0 <= i < |ops| ==> (ops[i] == I <==> StartsCycle(ops, i))
  }

  predicate StartsCycle(ops: seq<OpType>, i: nat)
    requires i < |ops|
  {
    i == 0 || ops[i - 1] == D
  }

  /** The operations logged for k make life cycles, and the row exists while one is open. */
  ghost predicate CycleOk(rows: map<Key, Row>, history: seq<Entry>, k: Key) {
    var ops := OpsOf(history, k);
    LifeCycles(ops) && (k in rows <==> ops != [] && ops[|ops| - 1] != D)
  }

  ghost predicate NidsOk(h: string -> string, t: Tables) {
    && NidsAscend(t.history)
    && (forall i :: 0 <= i < |t.history| ==> t.history[i].nid < t.nextNid)
    && (forall i :: 0 <= i < |t.history| ==> t.history[i].md5 == h(t.history[i].content))
  }

  ghost predicate HistoryOk(h: string -> string, t: Tables) {
    t.rows == Replay(t.history) && NidsOk(h, t) && forall k :: CycleOk(t.rows, t.history, k)
  }

  ghost predicate RowsOk(h: string -> string, t: Tables) {
    && (forall k :: k in t.rows ==> t.rows[k].md5 == h(t.rows[k].content) && t.rows[k].id < t.nextId)
    && (forall k, l :: k in t.rows && l in t.rows && t.rows[k].id == t.rows[l].id ==> k == l)
  }

  /** Tags never outlive their row, and never pass to a later row of the same key. */
  ghost predicate TagsOk(t: Tables) {
    forall g :: g in t.tags ==> g.key in t.rows && t.rows[g.key].id == g.id
  }

  ghost predicate Consistent(h: string -> string, t: Tables) {
    HistoryOk(h, t) && RowsOk(h, t) && TagsOk(t)
  }

  lemma LifeCyclesExtend(ops: seq<OpType>, op: OpType)
    requires LifeCycles(ops)
    requires op == I <==> ops == [] || ops[|ops| - 1] == D
    ensures LifeCycles(ops + [op])
  {
    var r := ops + [op];
    forall i | 0 <= i < |r|
      ensures r[i] == I <==> StartsCycle(r, i)
    {
      if i < |ops| {
        assert r[i] == ops[i] && (StartsCycle(r, i) <==> StartsCycle(ops, i));
      }
    }
  }

  /** e is what the log gains when the rows of t become those of t'. */
  ghost predicate Logged(h: string -> string, t: Tables, t': Tables, e: Entry) {
    && t'.history == t.history + [e]
    && t.nextNid <= e.nid < t'.nextNid && e.md5 == h(e.content)
    && (e.op == I <==> e.key !in t.rows)
    && t'.rows == if e.op == D then t.rows - {e.key} else t.rows[e.key := Row(e.id, e.content, e.md5)]
  }

  lemma CycleKeeps(h: string -> string, t: Tables, t': Tables, e: Entry, k: Key)
    requires CycleOk(t.rows, t.history, k) && Logged(h, t, t', e)
    ensures CycleOk(t'.rows, t'.history, k)
  {
    assert t'.history[..|t.history|] == t.history;
    var ops := OpsOf(t.history, k);
    if e.key == k {
      LifeCyclesExtend(ops, e.op);
    }
  }

  lemma NidsKeep(h: string -> string, t: Tables, t': Tables, e: Entry)
    requires NidsOk(h, t) && Logged(h, t, t', e)
    ensures NidsOk(h, t')
  {
  }

  lemma LogKeeps(h: string -> string, t: Tables, t': Tables, e: Entry)
    requires HistoryOk(h, t) && Logged(h, t, t', e)
    ensures HistoryOk(h, t')
  {
    ReplayLast(t.history, e);
    NidsKeep(h, t, t', e);
    forall k
      ensures CycleOk(t'.rows, t'.history, k)
    {
      CycleKeeps(h, t, t', e, k);
    }
  }

  lemma ReplayLast(older: seq<Entry>, e: Entry)
    ensures Replay(older + [e]) ==
            if e.op == D then Replay(older) - {e.key} else Replay(older)[e.key := Row(e.id, e.content, e.md5)]
  {
    assert (older + [e])[..|older|] == older;
  }

  lemma UpsertKeepsRows(h: string -> string, t: Tables, key: Key, content: string, given: string)
    requires RowsOk(h, t) && TagsOk(t) && (given == "" || given == h(content))
    ensures RowsOk(h, Upsert(h, t, key, content, given)) && TagsOk(Upsert(h, t, key, content, given))
  {
    var t' := Upsert(h, t, key, content, given);
    assert forall k :: k in t'.rows && k != key ==> k in t.rows && t'.rows[k] == t.rows[k];
  }

  function UpsertEntry(h: string -> string, t: Tables, key: Key, content: string, given: string): Entry {
    Entry(t.nextNid, if key in t.rows then t.rows[key].id else t.nextId, key, content, Md5Of(h, content, given),
          if key in t.rows then U else I)
  }

  /** A publish keeps every table property exactly when the md5 it records is the content's own:
      always when none is given, as in the handlers. */
  lemma UpsertKeeps(h: string -> string, t: Tables, key: Key, content: string, given: string)
    requires Consistent(h, t)
    ensures Consistent(h, Upsert(h, t, key, content, given)) <==> given == "" || given == h(content)
  {
    var t', e := Upsert(h, t, key, content, given), UpsertEntry(h, t, key, content, given);
    assert t'.history == t.history + [e];
    if given == "" || given == h(content) {
      LogKeeps(h, t, t', e);
      UpsertKeepsRows(h, t, key, content, given);
    } else {
      assert t'.history[|t.history|] == e;
    }
  }

  lemma DeleteKeeps(h: string -> string, t: Tables, key: Key)
    requires Consistent(h, t)
    ensures Consistent(h, Delete(t, key))
  {
    if key in t.rows {
      var t' := Delete(t, key);
      LogKeeps(h, t, t', t'.history[|t.history|]);
    }
  }

  lemma TagsKeep(h: string -> string, t: Tables, key: Key, tags: seq<string>)
    requires Consistent(h, t) && key in t.rows
    ensures Consistent(h, ReplaceTags(t, t.rows[key].id, key, tags))
  {
  }

  /** Sequence gaps left by a rolled-back transaction are harmless. */
  lemma GapsKeep(h: string -> string, t: Tables, id: nat, nid: nat)
    requires Consistent(h, t) && t.nextId <= id && t.nextNid <= nid
    ensures Consistent(h, t.(nextId := id, nextNid := nid))
  {
  }

  // ----- reading the history back

  /** The newest entry of a key older than nid. */
  function Previous(history: seq<Entry>, key: Key, nid: nat): Option<Entry> {
    if history == [] then None
    else
      var e := history[|history| - 1];
      if e.key == key && e.nid < nid then Some(e) else Previous(history[..|history| - 1], key, nid)
  }

  ghost predicate NidsAscend(history: seq<Entry>) {
    forall i, j :: 0 <= i < j < |history| ==> history[i].nid < history[j].nid
  }

  /** It is the one the query's descending order by id puts first, since ids ascend along the log. */
  lemma {:induction false} PreviousIsNewest(history: seq<Entry>, key: Key, nid: nat)
    requires NidsAscend(history)
    ensures match Previous(history, key, nid)
            case None => forall e :: e in history && e.key == key ==> e.nid >= nid
            case Some(p) => p in history && p.key == key && p.nid < nid
                            && forall e :: e in history && e.key == key && e.nid < nid ==> e.nid <= p.nid
  {
    if history != [] {
      var n := |history| - 1;
      PreviousIsNewest(history[..n], key, nid);
      assert history == history[..n] + [history[n]];
    }
  }

  function OlderThan(history: seq<Entry>, nid: nat): seq<Entry> {
    if history == [] then []
    else OlderThan(history[..|history| - 1], nid)
         + (if history[|history| - 1].nid < nid then [history[|history| - 1]] else [])
  }

  ghost predicate Describes(p: Option<Entry>, before: map<Key, Row>, key: Key) {
    && (key in before <==> p.Some? && p.value.op != D)
    && (key in before ==> before[key] == Row(p.value.id, p.value.content, p.value.md5))
  }

  /** The previous entry of a key tells exactly what its row held before entry nid was written:
      nothing if there is none or it is a D, and otherwise that entry's id, content and md5. */
  lemma {:induction false} PreviousIsTheRowBefore(history: seq<Entry>, key: Key, nid: nat)
    ensures Describes(Previous(history, key, nid), Replay(OlderThan(history, nid)), key)
  {
    if history != [] {
      var n := |history| - 1;
      PreviousIsTheRowBefore(history[..n], key, nid);
      if history[n].nid < nid {
        ReplayLast(OlderThan(history[..n], nid), history[n]);
      } else {
        assert OlderThan(history, nid) == OlderThan(history[..n], nid);
      }
    }
  }
}

/** Transactions inside a transaction: a call of WithConfigTransaction whose context already carries
    one runs its function in it and does nothing else. */
module ConfigNesting {
  import opened Registry
  import opened ConfigAdmission

  /** What a function given to WithConfigTransaction does, one thing after the other.  A caller may
      ignore the error of a nested call. */
  datatype Work =
    | Statement(text: string)
    | AfterCommit(callback: nat)
    | Refuse
    | Nested(body: seq<Work>, ignored: bool)

  datatype Effect = Effect(writes: seq<string>, callbacks: seq<nat>, ok: bool)

  /** What a function leaves in its transaction, and whether it succeeds; it stops at its first error. */
  function Outcome(body: seq<Work>): Effect
    decreases body
  {
    if body == [] then Effect([], [], true)
    else
      var before := Outcome(body[..|body| - 1]);
      if !before.ok then before
      else
        var last := Alone(body[|body| - 1]);
        Effect(before.writes + last.writes, before.callbacks + last.callbacks, last.ok)
  }

  function Alone(w: Work): Effect
    decreases w
  {
    match w
    case Statement(text) => Effect([text], [], true)
    case AfterCommit(c) => Effect([], [c], true)
    case Refuse => Effect([], [], false)
    case Nested(inner, ignored) =>
      var e := Outcome(inner);
      e.(ok := e.ok || ignored)
  }

  /** The transaction a context carries. */
  class Bound {
    var writes: seq<string>
    var callbacks: seq<nat>

    constructor ()
      ensures writes == [] && callbacks == []
    {
      writes, callbacks := [], [];
    }
  }

  /** What took effect: every commit with its statements, and the callbacks that ran. */
  class Database {
    var commits: seq<seq<string>>
    var ran: seq<nat>
  }

  predicate TookEffect(e: Option<Ending>) {
    e == Some(CommitReported) || e == Some(CommitUnreported)
  }

  /** With a transaction in the context the function's work joins it; without one it gets its own. */
  method WithConfigTransaction(o: Owner, db: Database, tx: Bound?, body: seq<Work>, w: Weather) returns (ok: bool, ghost e: Option<Ending>)
    requires tx == null ==> o.token
    modifies if tx == null then {o, db} else {tx}
    ensures tx != null ==> Joined(old(tx.writes), old(tx.callbacks), tx, body) && ok == Outcome(body).ok
    ensures tx == null ==> o.token && o.steps == old(o.steps) + Within(e) && (ok <==> e == Some(CommitReported))
    ensures tx == null ==> (e == Some(Rejected) <==> !old(o.lost) && w.getsToken && w.admitted && w.begins && !Outcome(body).ok)
    ensures tx == null ==> (TookEffect(e) ==> Outcome(body).ok)
    ensures tx == null ==> db.commits == old(db.commits) + if TookEffect(e) then [Outcome(body).writes] else []
    ensures tx == null ==> db.ran == old(db.ran) + if ok then Outcome(body).callbacks else []
    decreases body, 4
  {
    if tx != null {
      ok := Run(o, db, tx, body, w);
      return ok, None;
    }
    ok, e := Outermost(o, db, body, w);
  }

  ghost predicate Joined(writes: seq<string>, callbacks: seq<nat>, tx: Bound, body: seq<Work>)
    reads tx
  {
    tx.writes == writes + Outcome(body).writes && tx.callbacks == callbacks + Outcome(body).callbacks
  }

  /** At most one commit, of the work of all nested calls. */
  method Outermost(o: Owner, db: Database, body: seq<Work>, w: Weather) returns (ok: bool, ghost e: Option<Ending>)
    requires o.token
    modifies o, db
    ensures o.token && o.steps == old(o.steps) + Within(e) && (ok <==> e == Some(CommitReported))
    ensures e == Some(Rejected) <==> !old(o.lost) && w.getsToken && w.admitted && w.begins && !Outcome(body).ok
    ensures TookEffect(e) ==> Outcome(body).ok
    ensures db.commits == old(db.commits) + if TookEffect(e) then [Outcome(body).writes] else []
    ensures db.ran == old(db.ran) + if ok then Outcome(body).callbacks else []
    decreases body, 3
  {
    if o.lost || !w.getsToken {
      return false, None;
    }
    o.token := false;
    o.Record(TAKEN);
    var end := HoldingToken(o, db, body, w);
    o.PutBack();
    ok, e := end == CommitReported, Some(end);
    Wrapped(old(o.steps), end, o.lost);
  }

  method HoldingToken(o: Owner, db: Database, body: seq<Work>, w: Weather) returns (end: Ending)
    requires !o.lost
    modifies o`lost, o`steps, db
    ensures o.steps == old(o.steps) + StepsOf(end) && (o.lost <==> Loses(end))
    ensures end == Rejected <==> w.admitted && w.begins && !Outcome(body).ok
    ensures TookEffect(Some(end)) ==> Outcome(body).ok
    ensures db.commits == old(db.commits) + if TookEffect(Some(end)) then [Outcome(body).writes] else []
    ensures db.ran == old(db.ran) + if end == CommitReported then Outcome(body).callbacks else []
    decreases body, 2
  {
    var early := o.Begin(w);
    if early.Some? {
      return early.value;
    }
    end := InTransaction(o, db, body, w);
    Assembled(end);
  }

  method InTransaction(o: Owner, db: Database, body: seq<Work>, w: Weather) returns (end: Ending)
    requires !o.lost
    modifies o`lost, o`steps, db
    ensures end != NotAdmitted && end != NoTransaction && (o.lost <==> Loses(end)) && (end == Rejected <==> !Outcome(body).ok)
    ensures o.steps == old(o.steps) + StepsOf(end)[2..]
    ensures db.commits == old(db.commits) + if TookEffect(Some(end)) then [Outcome(body).writes] else []
    ensures db.ran == old(db.ran) + if end == CommitReported then Outcome(body).callbacks else []
    decreases body, 1
  {
    var bound := new Bound();
    var accepted := Run(o, db, bound, body, w);
    o.Record(RAN);
    end := o.EndTransaction(!accepted, w);
    Assembled(end);
    assert bound.writes == Outcome(body).writes && bound.callbacks == Outcome(body).callbacks;
    Settle(db, bound, end);
  }

  /** The database's side of a commit, and the callbacks after it. */
  method Settle(db: Database, tx: Bound, end: Ending)
    modifies db
    ensures db.commits == old(db.commits) + if TookEffect(Some(end)) then [tx.writes] else []
    ensures db.ran == old(db.ran) + if end == CommitReported then tx.callbacks else []
  {
    if end == CommitReported || end == CommitUnreported {
      db.commits := db.commits + [tx.writes];
    }
    if end == CommitReported {
      db.ran := db.ran + tx.callbacks;
    }
  }

  lemma Assembled(end: Ending)
    requires end != NotAdmitted && end != NoTransaction
    ensures [RAN] + StepsOf(end)[3..] == StepsOf(end)[2..] && [CHECKED, BEGUN] + StepsOf(end)[2..] == StepsOf(end)
  {
  }

  /** The function itself. */
  method Run(o: Owner, db: Database, tx: Bound, body: seq<Work>, w: Weather) returns (ok: bool)
    modifies tx
    ensures Joined(old(tx.writes), old(tx.callbacks), tx, body) && ok == Outcome(body).ok
    decreases body, 0
  {
    for i := 0 to |body|
      invariant Joined(old(tx.writes), old(tx.callbacks), tx, body[..i]) && Outcome(body[..i]).ok
    {
      OutcomeNext(body, i);
      var accepted := RunOne(o, db, tx, body[i], w);
      if !accepted {
        StopsThere(body, i + 1);
        return false;
      }
    }
    assert body[..|body|] == body;
    return true;
  }

  method RunOne(o: Owner, db: Database, tx: Bound, step: Work, w: Weather) returns (ok: bool)
    modifies tx
    ensures tx.writes == old(tx.writes) + Alone(step).writes
    ensures tx.callbacks == old(tx.callbacks) + Alone(step).callbacks && ok == Alone(step).ok
    decreases step
  {
    ok := true;
    match step {
      case Statement(text) => tx.writes := tx.writes + [text];
      case AfterCommit(c) => tx.callbacks := tx.callbacks + [c];
      case Refuse => ok := false;
      case Nested(inner, ignored) =>
        var inside, _ := WithConfigTransaction(o, db, tx, inner, w);
        ok := inside || ignored;
    }
  }

  lemma OutcomeNext(body: seq<Work>, i: nat)
    requires i < |body| && Outcome(body[..i]).ok
    ensures Outcome(body[..i + 1]) ==
              var before, last := Outcome(body[..i]), Alone(body[i]);
              Effect(before.writes + last.writes, before.callbacks + last.callbacks, last.ok)
  {
    assert body[..i + 1][..i] == body[..i];
  }

  /** Nothing is done after an error. */
  lemma {:induction false} StopsThere(body: seq<Work>, n: nat)
    requires n <= |body| && !Outcome(body[..n]).ok
    ensures Outcome(body) == Outcome(body[..n])
  {
    if n == |body| {
      assert body[..n] == body;
    } else {
      var shorter := body[..|body| - 1];
      assert shorter[..n] == body[..n];
      StopsThere(shorter, n);
    }
  }

  // ----- nesting is invisible

  /** Every nested function written out in place of its call. */
  function Inlined(body: seq<Work>): (r: seq<Work>)
    ensures forall w :: w in r ==> !w.Nested?
    decreases body
  {
    if body == [] then [] else Inlined(body[..|body| - 1]) + InPlace(body[|body| - 1])
  }

  function InPlace(w: Work): (r: seq<Work>)
    ensures forall v :: v in r ==> !v.Nested?
    decreases w
  {
    match w
    case Nested(inner, _) => Inlined(inner)
    case _ => [w]
  }

  /** No call ignores an error, at any depth. */
  predicate PassesErrorsOn(body: seq<Work>)
    decreases body
  {
    body == [] || (PassesErrorsOn(body[..|body| - 1]) && PassesOn(body[|body| - 1]))
  }

  predicate PassesOn(w: Work)
    decreases w
  {
    w.Nested? ==> !w.ignored && PassesErrorsOn(w.body)
  }

  lemma {:induction false} OutcomeJoined(a: seq<Work>, b: seq<Work>)
    ensures Outcome(a + b) ==
              var x, y := Outcome(a), Outcome(b);
              if x.ok then Effect(x.writes + y.writes, x.callbacks + y.callbacks, y.ok) else x
    decreases |b|
  {
    if b == [] {
      assert a + b == a;
    } else {
      var n := |b| - 1;
      assert (a + b)[..|a + b| - 1] == a + b[..n];
      OutcomeJoined(a, b[..n]);
    }
  }

  /** A function does with nested transactions, at any depth, what it does with their functions written
      out: the same statements in one commit, the same callbacks in the same order. */
  lemma {:induction false} NestingIsInvisible(body: seq<Work>)
    requires PassesErrorsOn(body)
    ensures Outcome(Inlined(body)) == Outcome(body)
    decreases body, 1
  {
    if body != [] {
      var n := |body| - 1;
      NestingIsInvisible(body[..n]);
      OneIsInvisible(body[n]);
      OutcomeJoined(Inlined(body[..n]), InPlace(body[n]));
      OutcomeJoined(body[..n], [body[n]]);
      assert body[..n] + [body[n]] == body;
    }
  }

  lemma {:induction false} OneIsInvisible(w: Work)
    requires PassesOn(w)
    ensures Outcome(InPlace(w)) == Outcome([w])
    decreases w, 0
  {
    assert [w][..0] == [];
    if w.Nested? {
      NestingIsInvisible(w.body);
    }
  }

  /** A nested call is no savepoint: if its error is ignored, what it wrote before is committed with
      the rest. */
  lemma IgnoredErrorKeepsItsWrites(a: string, b: string)
    ensures Outcome([Nested([Statement(a), Refuse], true), Statement(b)]) == Effect([a, b], [], true)
  {
    assert [Statement(a), Refuse][..1] == [Statement(a)] && [Statement(a)][..0] == [];
    assert Outcome([Statement(a)]) == Effect([a], [], true);
    assert Outcome([Statement(a), Refuse]) == Effect([a], [], false);
    var inner := Nested([Statement(a), Refuse], true);
    assert [inner, Statement(b)][..1] == [inner] && [inner][..0] == [];
    assert Outcome([inner]) == Effect([a], [], true);
  }
}

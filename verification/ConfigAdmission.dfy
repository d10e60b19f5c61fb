/** Admission of one configuration request: the handler writes into a buffer inside the fenced
    transaction, and the buffer reaches the client only once the outcome is known. */
module ConfigAdmission {
  import opened Registry

  const MAX_BODY := 16 * 1024 * 1024

  /** What a handler does to its response writer. */
  datatype Write = Header(code: nat) | Body(text: string)

  /** How one request fares: whether it gets the token before it is cancelled or ownership is given
      up, and how the ownership checks, the transaction and its commit go. */
  datatype CommitOutcome = Reported | RefusedByDatabase | TookEffectUnreported
  datatype Weather = Weather(getsToken: bool, admitted: bool, begins: bool, stillOwner: bool, commit: CommitOutcome)

  /** What may be done for one request, numbered in the order it must be done. */
  type Step = nat

  const BUFFERED: Step := 0       // a listener's handler ran, before any transaction
  const TAKEN: Step := 1          // the token
  const CHECKED: Step := 2        // the first ownership check passed
  const BEGUN: Step := 3          // the transaction
  const RAN: Step := 4            // the function given to the transaction
  const RECHECKED: Step := 5      // the second ownership check passed
  const COMMITTED: Step := 6      // the commit took effect
  const REPORTED: Step := 7       // and was reported as successful
  const NOTIFIED: Step := 8       // the callbacks ran
  const ROLLED_BACK: Step := 9
  const PUT_BACK: Step := 10      // the token
  const DISCARDED: Step := 11     // the session of an owner that is lost
  const ANSWERED: Step := 12      // the handler's answer, or 503, reaches the client

  datatype Reply = Handler(code: nat, body: string) | Unavailable

  function Texts(ws: seq<Write>): string {
    if ws == [] then []
    else Texts(ws[..|ws| - 1]) + (if ws[|ws| - 1].Body? then ws[|ws| - 1].text else [])
  }

  /** The status the writer settles on: the first one written, 200 if a body comes first, 0 if nothing does. */
  function Code(ws: seq<Write>): nat {
    if ws == [] then 0
    else if Code(ws[..|ws| - 1]) != 0 then Code(ws[..|ws| - 1])
    else if ws[|ws| - 1].Body? then 200 else ws[|ws| - 1].code
  }

  function Status(code: nat): nat {
    if code == 0 then 200 else code
  }

  class ConfigResponse {
    var code: nat
    var body: string
    var overflow: bool

    constructor ()
      ensures code == 0 && body == [] && !overflow
    {
      code, body, overflow := 0, [], false;
    }

    method WriteHeader(n: nat)
      modifies this
      ensures code == if old(code) == 0 then n else old(code)
      ensures body == old(body) && overflow == old(overflow)
    {
      if code == 0 {
        code := n;
      }
    }

    /** A write past the limit is refused whole and remembered. */
    method Write(text: string)
      modifies this
      ensures code == if old(code) == 0 then 200 else old(code)
      ensures |old(body)| + |text| > MAX_BODY ==> overflow && body == old(body)
      ensures |old(body)| + |text| <= MAX_BODY ==> overflow == old(overflow) && body == old(body) + text
    {
      if code == 0 {
        code := 200;
      }
      if |body| + |text| > MAX_BODY {
        overflow := true;
        return;
      }
      body := body + text;
    }

    method Play(ws: seq<Write>)
      requires code == 0 && body == [] && !overflow
      modifies this
      ensures code == Code(ws)
      ensures !overflow ==> body == Texts(ws)
      ensures overflow <==> |Texts(ws)| > MAX_BODY
      ensures |body| <= MAX_BODY
    {
      for i := 0 to |ws|
        invariant code == Code(ws[..i])
        invariant !overflow ==> body == Texts(ws[..i])
        invariant overflow ==> |Texts(ws[..i])| > MAX_BODY
        invariant |body| <= MAX_BODY
      {
        assert ws[..i + 1][..i] == ws[..i];
        match ws[i]
        case Header(n) => WriteHeader(n);
        case Body(text) => Write(text);
      }
      assert ws[..|ws|] == ws;
    }
  }

  // ----- the order of steps

  /** Every step comes after those it must follow, and none is made twice. */
  ghost predicate InOrder(steps: seq<Step>) {
    forall i, j :: 0 <= i < j < |steps| ==> steps[i] < steps[j]
  }

  /** No commit without both checks around the function, no callback without a reported commit, and a
      transaction that begins either commits or is rolled back.  No step of it without the token, and
      the token comes back whatever happens. */
  ghost predicate Orderly(steps: seq<Step>) {
    && InOrder(steps)
    && (COMMITTED in steps ==> CHECKED in steps && RAN in steps && RECHECKED in steps)
    && (REPORTED in steps ==> COMMITTED in steps) && (NOTIFIED in steps <==> REPORTED in steps)
    && (BEGUN in steps ==> (COMMITTED in steps <==> ROLLED_BACK !in steps))
    && (TAKEN in steps <==> PUT_BACK in steps)
    && (forall s :: s in steps && CHECKED <= s <= ROLLED_BACK ==> TAKEN in steps)
  }

  /** The ways WithConfigTransaction can end once it has the token. */
  datatype Ending = NotAdmitted | NoTransaction | Rejected | NoLongerOwner | CommitFailed | CommitUnreported | CommitReported

  function StepsOf(e: Ending): seq<Step> {
    match e
    case NotAdmitted => []
    case NoTransaction => [CHECKED]
    case Rejected => [CHECKED, BEGUN, RAN, ROLLED_BACK]
    case NoLongerOwner => [CHECKED, BEGUN, RAN, ROLLED_BACK]
    case CommitFailed => [CHECKED, BEGUN, RAN, RECHECKED, ROLLED_BACK]
    case CommitUnreported => [CHECKED, BEGUN, RAN, RECHECKED, COMMITTED]
    case CommitReported => [CHECKED, BEGUN, RAN, RECHECKED, COMMITTED, REPORTED, NOTIFIED]
  }

  predicate Loses(e: Ending) {
    e != Rejected && e != CommitReported
  }

  function Tail(e: Ending): seq<Step> {
    [PUT_BACK] + if Loses(e) then [DISCARDED] else []
  }

  /** What WithConfigTransaction does, if it got the token. */
  function Within(e: Option<Ending>): seq<Step> {
    match e
    case None => []
    case Some(end) => [TAKEN] + StepsOf(end) + Tail(end)
  }

  /** What Orderly says of the steps as a set. */
  ghost predicate Complete(done: set<Step>) {
    && (COMMITTED in done ==> {CHECKED, RAN, RECHECKED} <= done)
    && (REPORTED in done ==> COMMITTED in done) && (NOTIFIED in done <==> REPORTED in done)
    && (BEGUN in done ==> (COMMITTED in done <==> ROLLED_BACK !in done))
    && (TAKEN in done <==> PUT_BACK in done)
    && (forall s :: s in done && CHECKED <= s <= ROLLED_BACK ==> TAKEN in done)
  }

  ghost predicate Made(steps: seq<Step>, done: set<Step>) {
    InOrder(steps) && forall s :: s in steps <==> s in done
  }

  lemma MadeOrderly(steps: seq<Step>, done: set<Step>)
    requires Made(steps, done) && Complete(done)
    ensures Orderly(steps)
  {
  }

  lemma MadeJoined(a: seq<Step>, x: set<Step>, b: seq<Step>, y: set<Step>)
    requires Made(a, x) && Made(b, y) && forall s, t :: s in x && t in y ==> s < t
    ensures Made(a + b, x + y)
  {
    var c := a + b;
    forall i, j | 0 <= i < j < |c|
      ensures c[i] < c[j]
    {
      assert i < |a| ==> c[i] in a;
      assert j >= |a| ==> c[j] in b;
    }
  }

  /** The steps between the first check and the put-back, as a set. */
  ghost function Inside(e: Ending): (done: set<Step>)
    ensures Made(StepsOf(e), done) && forall s :: s in done ==> CHECKED <= s <= ROLLED_BACK
  {
    match e
    case NotAdmitted => {}
    case NoTransaction => {CHECKED}
    case Rejected => {CHECKED, BEGUN, RAN, ROLLED_BACK}
    case NoLongerOwner => {CHECKED, BEGUN, RAN, ROLLED_BACK}
    case CommitFailed => {CHECKED, BEGUN, RAN, RECHECKED, ROLLED_BACK}
    case CommitUnreported => {CHECKED, BEGUN, RAN, RECHECKED, COMMITTED}
    case CommitReported => {CHECKED, BEGUN, RAN, RECHECKED, COMMITTED, REPORTED, NOTIFIED}
  }

  ghost function Done(e: Option<Ending>): set<Step> {
    match e
    case None => {}
    case Some(end) => Inside(end) + Around(end)
  }

  ghost function Around(e: Ending): set<Step> {
    if Loses(e) then {TAKEN, PUT_BACK, DISCARDED} else {TAKEN, PUT_BACK}
  }

  lemma InsideComplete(e: Ending)
    ensures COMMITTED in Inside(e) <==> e == CommitUnreported || e == CommitReported
    ensures REPORTED in Inside(e) <==> e == CommitReported
    ensures NOTIFIED in Inside(e) <==> e == CommitReported
    ensures ROLLED_BACK in Inside(e) <==> e == Rejected || e == NoLongerOwner || e == CommitFailed
    ensures RECHECKED in Inside(e) <==> e == CommitFailed || e == CommitUnreported || e == CommitReported
    ensures RAN in Inside(e) <==> e != NotAdmitted && e != NoTransaction
    ensures BEGUN in Inside(e) <==> e != NotAdmitted && e != NoTransaction
    ensures CHECKED in Inside(e) <==> e != NotAdmitted
  {
  }

  lemma DoneComplete(e: Option<Ending>)
    ensures Complete(Done(e)) && forall s :: s in Done(e) ==> TAKEN <= s <= DISCARDED
    ensures COMMITTED in Done(e) <==> e == Some(CommitUnreported) || e == Some(CommitReported)
    ensures REPORTED in Done(e) <==> e == Some(CommitReported)
    ensures ROLLED_BACK in Done(e) <==> e == Some(Rejected) || e == Some(NoLongerOwner) || e == Some(CommitFailed)
    ensures TAKEN in Done(e) <==> e.Some?
  {
    if e.Some? {
      InsideComplete(e.value);
    }
  }

  ghost function TailDone(e: Ending): set<Step> {
    {PUT_BACK} + if Loses(e) then {DISCARDED} else {}
  }

  lemma TailMade(e: Ending)
    ensures Made(Tail(e), TailDone(e)) && {TAKEN} + TailDone(e) == Around(e)
  {
    assert Tail(e) == if Loses(e) then [PUT_BACK, DISCARDED] else [PUT_BACK];
  }

  lemma Wrapped(before: seq<Step>, end: Ending, lost: bool)
    requires lost <==> Loses(end)
    ensures before + [TAKEN] + StepsOf(end) + (if lost then [PUT_BACK, DISCARDED] else [PUT_BACK]) == before + Within(Some(end))
  {
    var s := StepsOf(end);
    assert Tail(end) == if lost then [PUT_BACK, DISCARDED] else [PUT_BACK];
    assert before + [TAKEN] + s + Tail(end) == before + ([TAKEN] + s + Tail(end));
  }

  lemma WithinMade(e: Option<Ending>)
    ensures Made(Within(e), Done(e))
  {
    if e.Some? {
      var end := e.value;
      TailMade(end);
      MadeJoined([TAKEN], {TAKEN}, StepsOf(end), Inside(end));
      MadeJoined([TAKEN] + StepsOf(end), {TAKEN} + Inside(end), Tail(end), TailDone(end));
      assert {TAKEN} + Inside(end) + TailDone(end) == Inside(end) + ({TAKEN} + TailDone(end));
    }
  }

  /** A whole request: a listener's handler before, and the answer after. */
  lemma WholeMade(first: seq<Step>, start: set<Step>, e: Option<Ending>)
    requires Made(first, start) && start <= {BUFFERED}
    ensures Made(first + Within(e) + [ANSWERED], start + Done(e) + {ANSWERED})
  {
    DoneComplete(e);
    WithinMade(e);
    MadeJoined(first, start, Within(e), Done(e));
    MadeJoined(first + Within(e), start + Done(e), [ANSWERED], {ANSWERED});
  }

  lemma WholeOrderly(first: seq<Step>, start: set<Step>, e: Option<Ending>)
    requires Made(first, start) && start <= {BUFFERED}
    ensures Orderly(first + Within(e) + [ANSWERED])
    ensures forall s :: s in first + Within(e) + [ANSWERED] <==> s in Done(e) || s in start || s == ANSWERED
  {
    WholeMade(first, start, e);
    DoneComplete(e);
    StillComplete(Done(e), start);
    MadeOrderly(first + Within(e) + [ANSWERED], start + Done(e) + {ANSWERED});
  }

  lemma StillComplete(done: set<Step>, start: set<Step>)
    requires Complete(done) && start <= {BUFFERED}
    ensures Complete(start + done + {ANSWERED})
  {
  }

  /** Which of the outcomes the steps of a whole request show. */
  lemma WholeShows(first: seq<Step>, e: Option<Ending>)
    requires first == [] || first == [BUFFERED]
    ensures var steps := first + Within(e) + [ANSWERED];
            && Orderly(steps)
            && (COMMITTED in steps <==> e == Some(CommitUnreported) || e == Some(CommitReported))
            && (REPORTED in steps <==> e == Some(CommitReported))
            && (ROLLED_BACK in steps <==> e == Some(Rejected) || e == Some(NoLongerOwner) || e == Some(CommitFailed))
            && (TAKEN in steps <==> e.Some?) && (BUFFERED in steps <==> first != [])
  {
    var start := if first == [] then {} else {BUFFERED};
    assert Made(first, start);
    WholeOrderly(first, start, e);
    DoneComplete(e);
  }

  /** The owner's part of WithConfigTransaction: its token, whether it is lost, and a record of what it
      did for the request at hand. */
  class Owner {
    var token: bool
    var lost: bool
    var steps: seq<Step>

    constructor ()
      ensures token && !lost && steps == []
    {
      token, lost, steps := true, false, [];
    }

    method Record(s: Step)
      modifies this`steps
      ensures steps == old(steps) + [s]
    {
      steps := steps + [s];
    }

    /** The first ownership check and the start of the transaction, or how it ended before that. */
    method Begin(w: Weather) returns (early: Option<Ending>)
      requires !lost
      modifies this`lost, this`steps
      ensures early == if !w.admitted then Some(NotAdmitted) else if !w.begins then Some(NoTransaction) else None
      ensures (lost <==> early.Some?)
      ensures steps == old(steps) + if early.Some? then StepsOf(early.value) else [CHECKED, BEGUN]
    {
      if !w.admitted {
        lost := true;
        return Some(NotAdmitted);
      }
      Record(CHECKED);
      if !w.begins {
        lost := true;
        return Some(NoTransaction);
      }
      Record(BEGUN);
      return None;
    }

    /** The deferred part: the token goes back, and a lost owner discards its session. */
    method PutBack()
      modifies this`token, this`steps
      ensures token && steps == old(steps) + if lost then [PUT_BACK, DISCARDED] else [PUT_BACK]
    {
      token := true;
      Record(PUT_BACK);
      if lost {
        Record(DISCARDED);
      }
    }

    /** What is done while the token is held: everything up to the deferred put-back. */
    method HoldingToken(b: ConfigResponse, listener: bool, script: seq<Write>, w: Weather) returns (e: Ending)
      requires !token && !lost
      requires !listener ==> b.code == 0 && b.body == [] && !b.overflow
      modifies this`lost, this`steps, b
      ensures steps == old(steps) + StepsOf(e)
      ensures lost <==> Loses(e)
      ensures listener ==> b.code == old(b.code) && b.body == old(b.body) && b.overflow == old(b.overflow)
      ensures !listener && e != NotAdmitted && e != NoTransaction ==> Buffers(b, script)
      ensures e != NotAdmitted && e != NoTransaction ==> (e == Rejected <==> Refuses(b, listener))
      ensures e == CommitUnreported ==> w.commit == TookEffectUnreported
    {
      var early := Begin(w);
      if early.Some? {
        return early.value;
      }
      if !listener {
        b.Play(script);
      }
      Record(RAN);
      e := EndTransaction(b.overflow || (!listener && b.code >= 400), w);
      assert StepsOf(e) == [CHECKED, BEGUN, RAN] + StepsOf(e)[3..];
    }

    /** After the function: roll back if it failed, and otherwise check again and commit. */
    method EndTransaction(failed: bool, w: Weather) returns (e: Ending)
      requires !lost
      modifies this`lost, this`steps
      ensures e != NotAdmitted && e != NoTransaction && steps == old(steps) + StepsOf(e)[3..]
      ensures (lost <==> Loses(e)) && (e == Rejected <==> failed)
      ensures e == CommitUnreported ==> w.commit == TookEffectUnreported
    {
      if failed {
        Record(ROLLED_BACK);
        return Rejected;
      }
      if !w.stillOwner {
        lost := true;
        Record(ROLLED_BACK);
        return NoLongerOwner;
      }
      Record(RECHECKED);
      match w.commit {
        case RefusedByDatabase =>
          lost := true;
          Record(ROLLED_BACK);
          return CommitFailed;
        case TookEffectUnreported =>
          lost := true;
          Record(COMMITTED);
          return CommitUnreported;
        case Reported =>
          Record(COMMITTED);
          Record(REPORTED);
          Record(NOTIFIED);
          return CommitReported;
      }
    }

    /** The whole of it: nothing without the token, and the token back at the end.  A request that is
        cancelled while it waits for the token leaves ownership alone. */
    method WithConfigTransaction(b: ConfigResponse, listener: bool, script: seq<Write>, w: Weather) returns (e: Option<Ending>)
      requires token
      requires !listener ==> b.code == 0 && b.body == [] && !b.overflow
      modifies this, b
      ensures token && steps == old(steps) + Within(e)
      ensures e == None <==> old(lost) || !w.getsToken
      ensures lost <==> old(lost) || (e.Some? && Loses(e.value))
      ensures listener ==> b.code == old(b.code) && b.body == old(b.body) && b.overflow == old(b.overflow)
      ensures e.Some? && !listener && e.value != NotAdmitted && e.value != NoTransaction ==> Buffers(b, script)
      ensures e.Some? && e.value != NotAdmitted && e.value != NoTransaction ==> (e.value == Rejected <==> Refuses(b, listener))
      ensures e == Some(CommitUnreported) ==> w.commit == TookEffectUnreported
    {
      if lost || !w.getsToken {
        return None;
      }
      token := false;
      Record(TAKEN);
      var end := HoldingToken(b, listener, script, w);
      PutBack();
      e := Some(end);
      Wrapped(old(steps), end, lost);
    }
  }

  ghost predicate Buffers(b: ConfigResponse, script: seq<Write>)
    reads b
  {
    && b.code == Code(script) && (!b.overflow ==> b.body == Texts(script)) && |b.body| <= MAX_BODY
    && (b.overflow <==> |Texts(script)| > MAX_BODY)
  }

  /** The function given to the transaction fails: the buffer overflowed, or the handler's own answer
      is an error. */
  ghost predicate Refuses(b: ConfigResponse, listener: bool)
    reads b
  {
    b.overflow || (!listener && b.code >= 400)
  }

  /** Serves one request; `o.steps` records what is done for it. */
  method ServeConfig(o: Owner, ready: bool, listener: bool, script: seq<Write>, w: Weather) returns (reply: Reply)
    requires o.token && o.steps == []
    modifies o
    ensures o.token && Orderly(o.steps) && o.steps != [] && o.steps[|o.steps| - 1] == ANSWERED
    ensures reply.Handler? ==> reply.code == Status(Code(script)) && reply.body == Texts(script) && |reply.body| <= MAX_BODY
    ensures reply.Handler? && (listener || reply.code < 400) ==> REPORTED in o.steps
    ensures reply.Handler? && !listener && reply.code >= 400 ==> ROLLED_BACK in o.steps
    ensures REPORTED in o.steps ==> reply.Handler?
    ensures COMMITTED in o.steps && REPORTED !in o.steps ==> w.commit == TookEffectUnreported && reply == Unavailable
    ensures |Texts(script)| > MAX_BODY ==> reply == Unavailable && COMMITTED !in o.steps
    ensures listener && ready ==> BUFFERED in o.steps
    ensures old(o.lost) || !w.getsToken ==> reply == Unavailable && TAKEN !in o.steps && o.lost == old(o.lost)
  {
    if !ready {
      o.Record(ANSWERED);
      return Unavailable;
    }
    var b := new ConfigResponse();
    if listener {
      b.Play(script);
      o.Record(BUFFERED);
    }
    ghost var first := o.steps;
    var e := o.WithConfigTransaction(b, listener, script, w);
    WholeShows(first, e);
    if e == Some(CommitReported) || (!listener && e == Some(Rejected) && !b.overflow) {
      reply := Handler(Status(b.code), b.body);
    } else {
      reply := Unavailable;
    }
    o.Record(ANSWERED);
  }

  /** What reaches the client does so last: after the commit, if there is one, and after the token is
      back. */
  lemma AnswerComesLast(steps: seq<Step>)
    requires Orderly(steps) && steps != [] && steps[|steps| - 1] == ANSWERED
    ensures COMMITTED in steps ==>
              exists taken, ran, commit, back ::
                0 <= taken < ran < commit < back < |steps| - 1
                && steps[taken] == TAKEN && steps[ran] == RAN && steps[commit] == COMMITTED && steps[back] == PUT_BACK
    ensures REPORTED in steps ==> COMMITTED in steps
  {
    if COMMITTED in steps {
      var taken :| 0 <= taken < |steps| && steps[taken] == TAKEN;
      var ran :| 0 <= ran < |steps| && steps[ran] == RAN;
      var commit :| 0 <= commit < |steps| && steps[commit] == COMMITTED;
      var back :| 0 <= back < |steps| && steps[back] == PUT_BACK;
    }
  }
}

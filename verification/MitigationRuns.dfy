/** Any number of mitigation calls in flight, interleaved at the granularity of their transactions. */
module MitigationRuns {
  import opened Prelude
  import opened StateMachines
  import opened Sessions
  import opened Mitigations

  datatype Op = ReviewOp(decision: Decision) | WithdrawOp | ExecuteOp

  // What a call still has to do: save the row it holds; for an execution then also read the session, save
  // it, and save the completed row.
  datatype Next = SaveMove | SaveExecuting | GetSession | SaveSession | SaveDone
  {
    predicate SavesRow() { SaveMove? || SaveExecuting? || SaveDone? }
  }

  datatype Job = Job(d: Mitigation, next: Next, session: Session)

  datatype World = World(db: Db, jobs: map<nat, Job>)

  datatype Action =
    | Submit(id: string, sessionID: string, kind: Kind, target: string)
    | Begin(client: nat, id: string, op: Op)
    | Proceed(client: nat, fails: bool)  // the next query or transaction of a call
    | SessionChange(s: Session)  // other services write sessions too

  function TargetOf(op: Op): Option<MitState> {
    match op
    case ReviewOp(Approve) => Some(Issued)
    case ReviewOp(Reject) => Some(Refused)
    case ReviewOp(OtherDecision) => None
    case WithdrawOp => Some(Withdrawn)
    case ExecuteOp => Some(Executing)
  }

  predicate Busy(w: World, id: string) {
    exists client :: client in w.jobs && w.jobs[client].d.id == id
  }

  function SubmitTx(db: Db, id: string, sessionID: string, kind: Kind, target: string): Db {
    SaveTx(db, Mitigation(id, sessionID, kind, target, if sessionID in db.active then Lost else Pending, 1))
  }

  /** With serial, a call on a mitigation starts only when no other call on it is in flight. */
  function Step(serial: bool, w: World, a: Action): World {
    match a
    case Submit(id, sessionID, kind, target) =>
      if id !in w.db.mits && sessionID in w.db.sessions
      then w.(db := SubmitTx(w.db, id, sessionID, kind, target))
      else w
    case Begin(client, id, op) =>
      if client !in w.jobs && id in w.db.mits && TargetOf(op).Some?
         && ValidMove(w.db.mits[id].state, TargetOf(op).value) && (serial ==> !Busy(w, id))
      then
        var d := Moved(w.db.mits[id], TargetOf(op).value);
        var anySession := Session("", "", Requested, "", "", "", 0, 0, "");
        w.(jobs := w.jobs[client := Job(d, if op.ExecuteOp? then SaveExecuting else SaveMove, anySession)])
      else w
    case Proceed(client, fails) =>
      if client !in w.jobs then w
      else if fails then w.(jobs := w.jobs - {client})
      else
        var j := w.jobs[client];
        (match j.next
        case SaveMove => w.(db := SaveTx(w.db, j.d), jobs := w.jobs - {client})
        case SaveExecuting => w.(db := SaveTx(w.db, j.d), jobs := w.jobs[client := j.(next := GetSession)])
        case GetSession =>
          if j.d.sessionID in w.db.sessions
          then
            var session := Applied(w.db.sessions[j.d.sessionID], j.d);
            w.(jobs := w.jobs[client := j.(next := SaveSession, session := session)])
          else w.(jobs := w.jobs - {client})
        case SaveSession =>
          w.(db := w.db.(sessions := w.db.sessions[j.d.sessionID := j.session]),
             jobs := w.jobs[client := j.(next := SaveDone, d := Moved(j.d, Done))])
        case SaveDone => w.(db := SaveTx(w.db, j.d), jobs := w.jobs - {client}))
    case SessionChange(s) => w.(db := w.db.(sessions := w.db.sessions[s.id := s]))
  }

  function Run(serial: bool, w: World, acts: seq<Action>): World
    decreases |acts|
  {
    if acts == [] then w else Run(serial, Step(serial, w, acts[0]), acts[1..])
  }

  const START: World := World(Db(map[], map[], map[]), map[])

  /** The row a call is about to save is a legal move from the row that is stored. */
  ghost predicate JobOk(db: Db, j: Job) {
    && j.d.id in db.mits && db.mits[j.d.id].sessionID == j.d.sessionID
    && (IsActive(j.d.state) ==> IsActive(db.mits[j.d.id].state))
  }

  ghost predicate Inv(w: World) {
    && Agree(w.db)
    && (forall client :: client in w.jobs ==> JobOk(w.db, w.jobs[client]))
    && (forall c, d :: c in w.jobs && d in w.jobs && c != d ==> w.jobs[c].d.id != w.jobs[d].d.id)
  }

  lemma SaveKeepsInv(w: World, client: nat, jobs: map<nat, Job>)
    requires Inv(w) && client in w.jobs
    requires forall c :: c in jobs ==> c in w.jobs && (c != client ==> jobs[c] == w.jobs[c])
    requires client in jobs ==>
               jobs[client].d.id == w.jobs[client].d.id && JobOk(SaveTx(w.db, w.jobs[client].d), jobs[client])
    ensures Inv(w.(db := SaveTx(w.db, w.jobs[client].d), jobs := jobs))
  {
    var d := w.jobs[client].d;
    assert JobOk(w.db, w.jobs[client]);
    SaveKeepsAgreeExactly(w.db, d);
    hide Agree;
    forall c | c in jobs
      ensures JobOk(SaveTx(w.db, d), jobs[c])
    {
      assert JobOk(w.db, w.jobs[c]);
    }
  }

  lemma StepKeepsInv(w: World, a: Action)
    requires Inv(w)
    ensures Inv(Step(true, w, a))
  {
    match a {
      case Submit(id, sessionID, kind, target) => SubmitKeepsInv(w, a);
      case Begin(client, id, op) => BeginKeepsInv(w, client, id, op);
      case Proceed(client, fails) => ProceedKeepsInv(w, client, fails);
      case SessionChange(s) =>
    }
  }

  lemma SubmitKeepsInv(w: World, a: Action)
    requires Inv(w) && a.Submit?
    ensures Inv(Step(true, w, a))
  {
    if a.id !in w.db.mits && a.sessionID in w.db.sessions {
      var d := Mitigation(a.id, a.sessionID, a.kind, a.target, if a.sessionID in w.db.active then Lost else Pending, 1);
      SaveKeepsAgreeExactly(w.db, d);
      hide Agree;
      forall c | c in w.jobs
        ensures JobOk(SaveTx(w.db, d), w.jobs[c])
      {
        assert JobOk(w.db, w.jobs[c]);
      }
    }
  }

  lemma BeginKeepsInv(w: World, client: nat, id: string, op: Op)
    requires Inv(w)
    ensures Inv(Step(true, w, Begin(client, id, op)))
  {
    if id in w.db.mits {
      MovesOfCalls(w.db.mits[id].state);
      hide ValidMove;
      var r := Step(true, w, Begin(client, id, op));
      if r != w {
        assert JobOk(r.db, r.jobs[client]);
        assert forall c :: c in w.jobs ==> w.jobs[c].d.id != id;
      }
    }
  }

  lemma SessionsAreNotInAgree(db: Db, sessions: map<string, Session>)
    ensures Agree(db.(sessions := sessions)) <==> Agree(db)
  {
  }

  lemma ProceedKeepsInv(w: World, client: nat, fails: bool)
    requires Inv(w)
    ensures Inv(Step(true, w, Proceed(client, fails)))
  {
    hide Agree;
    if client in w.jobs && !fails {
      var j := w.jobs[client];
      assert JobOk(w.db, j);
      match j.next {
        case SaveMove => SaveKeepsInv(w, client, w.jobs - {client});
        case SaveExecuting => SaveKeepsInv(w, client, w.jobs[client := j.(next := GetSession)]);
        case GetSession =>
        case SaveSession => SessionsAreNotInAgree(w.db, w.db.sessions[j.d.sessionID := j.session]);
        case SaveDone => SaveKeepsInv(w, client, w.jobs - {client});
      }
    }
  }

  lemma {:induction false} RunKeepsInv(w: World, acts: seq<Action>)
    requires Inv(w)
    ensures Inv(Run(true, w, acts))
    decreases |acts|
  {
    hide Inv;
    if acts != [] {
      StepKeepsInv(w, acts[0]);
      RunKeepsInv(Step(true, w, acts[0]), acts[1..]);
    }
  }

  /** In every run in which calls on one mitigation do not overlap, however calls on different ones
      interleave and wherever they are cut off, the index agrees with the table: it lists m for s
      exactly when m belongs to s and is active, so a session has at most one active mitigation and
      the join of GetActiveBySession is a scan. */
  lemma {:induction false} IndexAgreesInEveryRun(acts: seq<Action>, s: string, m: string)
    ensures var db := Run(true, START, acts).db;
            && (s in db.active && db.active[s] == m <==>
                && m in db.mits && db.mits[m].sessionID == s
                && db.mits[m].state in {Pending, UnderReview, Issued, Executing})
            && ActiveJoin(db, s) == ActiveScan(db, s)
            && (forall d, e :: d in ActiveScan(db, s) && e in ActiveScan(db, s) ==> d == e)
  {
    RunKeepsInv(START, acts);
    JoinIsScan(Run(true, START, acts).db, s);
  }

  /** A submission is pending exactly when its session has no active mitigation at that moment. */
  lemma {:induction false} SubmittedIsPendingExactly(acts: seq<Action>, id: string, sessionID: string, kind: Kind,
                                                     target: string)
    requires var db := Run(true, START, acts).db; id !in db.mits && sessionID in db.sessions
    ensures var w := Run(true, START, acts);
            var r := Step(true, w, Submit(id, sessionID, kind, target)).db;
            && id in r.mits && (r.mits[id].state == Pending || r.mits[id].state == Lost)
            && (r.mits[id].state == Pending <==>
                forall m :: m in w.db.mits && w.db.mits[m].sessionID == sessionID ==>
                  w.db.mits[m].state !in {Pending, UnderReview, Issued, Executing})
            && r.mits == w.db.mits[id := Mitigation(id, sessionID, kind, target, r.mits[id].state, 1)]
  {
    RunKeepsInv(START, acts);
  }

  lemma StepNeverRevives(w: World, a: Action, m: string)
    requires Inv(w) && m in w.db.mits && !IsActive(w.db.mits[m].state)
    ensures var db := Step(true, w, a).db; m in db.mits && !IsActive(db.mits[m].state)
  {
    if a.Proceed? && a.client in w.jobs {
      assert JobOk(w.db, w.jobs[a.client]);
    }
  }

  /** A mitigation that is no longer active never becomes active again, although the transition
      table would let a withdrawn one go back to pending. */
  lemma {:induction false} InactiveStaysInactive(before: seq<Action>, after: seq<Action>, m: string)
    requires var db := Run(true, START, before).db; m in db.mits && !IsActive(db.mits[m].state)
    ensures var db := Run(true, START, before + after).db; m in db.mits && !IsActive(db.mits[m].state)
    decreases |after|
  {
    if after == [] {
      assert before + after == before;
    } else {
      var one := before + [after[0]];
      RunKeepsInv(START, before);
      StepNeverRevives(Run(true, START, before), after[0], m);
      RunSnoc(true, START, before, after[0]);
      InactiveStaysInactive(one, after[1..], m);
      assert before + after == one + after[1..];
    }
  }

  lemma {:induction false} RunSnoc(serial: bool, w: World, acts: seq<Action>, a: Action)
    ensures Run(serial, w, acts + [a]) == Step(serial, Run(serial, w, acts), a)
    decreases |acts|
  {
    if acts == [] {
      assert (acts + [a])[1..] == [];
    } else {
      assert (acts + [a])[1..] == acts[1..] + [a];
      RunSnoc(serial, Step(serial, w, acts[0]), acts[1..], a);
    }
  }

  /** A review or a withdrawal that nothing interrupts: the states that let it through, and the row it saves. */
  lemma CallInSteps(w: World, client: nat, id: string, op: Op, fails: bool)
    requires client !in w.jobs && id in w.db.mits && w.db.mits[id].id == id && !op.ExecuteOp?
    ensures var (d, r) := (w.db.mits[id], Step(false, Step(false, w, Begin(client, id, op)), Proceed(client, fails)));
            && r.jobs == w.jobs && r.db.sessions == w.db.sessions
            && r.db.mits ==
               match op
               case ReviewOp(Approve) =>
                 if !fails && d.state in {Pending, UnderReview, Issued}
                 then w.db.mits[id := d.(state := Issued, version := d.version + 1)] else w.db.mits
               case ReviewOp(Reject) =>
                 if !fails && d.state in {Pending, UnderReview, Refused}
                 then w.db.mits[id := d.(state := Refused, version := d.version + 1)] else w.db.mits
               case ReviewOp(OtherDecision) => w.db.mits
               case WithdrawOp =>
                 if !fails && d.state in {Pending, Issued, Executing, Withdrawn}
                 then w.db.mits[id := d.(state := Withdrawn, version := d.version + 1)] else w.db.mits
  {
    MovesOfCalls(w.db.mits[id].state);
    hide ValidMove, UpsertActive, RemoveActive;
    var w1 := Step(false, w, Begin(client, id, op));
    assert w1 != w ==> w1.jobs == w.jobs[client := w1.jobs[client]] && w1.jobs - {client} == w.jobs;
  }

  /** The writes of an execution in flight that nothing interrupts are those of ExecuteCut, one step at a time. */
  lemma ExecutionInSteps(w: World, client: nat, id: string)
    requires client !in w.jobs && CanExecute(w.db, id) && w.db.mits[id].id == id
    ensures var w0 := Step(false, w, Begin(client, id, ExecuteOp));
            var w1 := Step(false, w0, Proceed(client, false));
            var w2 := Step(false, w1, Proceed(client, false));
            var w3 := Step(false, w2, Proceed(client, false));
            var w4 := Step(false, w3, Proceed(client, false));
            && w0.db == ExecuteCut(w.db, id, 0) && w1.db == w2.db == ExecuteCut(w.db, id, 1)
            && w3.db == ExecuteCut(w.db, id, 2) && w4.db == ExecuteCut(w.db, id, 3)
            && w4.jobs == w.jobs
  {
    hide ValidMove, SaveTx, Applied;
    var d := Moved(w.db.mits[id], Executing);
    var saved := SaveTx(w.db, d);
    assert saved.sessions == w.db.sessions by { SaveKeepsSessions(w.db, d); }
    var w0 := Step(false, w, Begin(client, id, ExecuteOp));
    assert w0.jobs == w.jobs[client := w0.jobs[client]] && w0.jobs - {client} == w.jobs;
  }

  lemma SaveKeepsSessions(db: Db, d: Mitigation)
    ensures SaveTx(db, d).sessions == db.sessions
  {
  }

  // ---------- calls that may overlap ----------

  /** In any run a call in flight holds a row that is stored, under the same id and session. */
  ghost predicate Held(w: World) {
    && (forall m :: m in w.db.mits ==> w.db.mits[m].id == m)
    && (forall c :: c in w.jobs ==>
          var d := w.jobs[c].d; d.id in w.db.mits && w.db.mits[d.id].sessionID == d.sessionID)
  }

  lemma {:induction false} RunKeepsHeld(serial: bool, w: World, acts: seq<Action>)
    requires Held(w)
    ensures Held(Run(serial, w, acts))
    decreases |acts|
  {
    if acts != [] {
      StepKeepsHeld(serial, w, acts[0]);
      hide Held, Step;
      RunKeepsHeld(serial, Step(serial, w, acts[0]), acts[1..]);
    }
  }

  lemma StepKeepsHeld(serial: bool, w: World, a: Action)
    requires Held(w)
    ensures Held(Step(serial, w, a))
  {
    hide ValidMove, TargetOf, Applied, UpsertActive, RemoveActive;
  }

  /** The row that an action writes to the table of mitigations. */
  function Written(w: World, a: Action): Option<Mitigation> {
    match a
    case Submit(id, sessionID, kind, target) =>
      if id in w.db.mits || sessionID !in w.db.sessions then None
      else Some(Mitigation(id, sessionID, kind, target, if sessionID in w.db.active then Lost else Pending, 1))
    case Proceed(client, fails) =>
      if client !in w.jobs || fails || !w.jobs[client].next.SavesRow() then None else Some(w.jobs[client].d)
    case _ => None
  }

  lemma StepWrites(serial: bool, w: World, a: Action)
    ensures var db := Step(serial, w, a).db; var d := Written(w, a);
            db == (if d.None? then w.db else SaveTx(w.db, d.value)).(sessions := db.sessions)
  {
    hide ValidMove, TargetOf, Applied;
  }

  /** A call in flight saves an active row although its session's entry is another mitigation's. */
  predicate Usurps(w: World, a: Action) {
    && a.Proceed? && a.client in w.jobs && !a.fails && w.jobs[a.client].next.SavesRow()
    && var d := w.jobs[a.client].d;
       IsActive(d.state) && d.sessionID in w.db.active && w.db.active[d.sessionID] != d.id
  }

  lemma StepKeepsIndexExactly(serial: bool, w: World, a: Action)
    requires Held(w) && Agree(w.db)
    ensures Agree(Step(serial, w, a).db) <==> !Usurps(w, a)
  {
    StepWrites(serial, w, a);
    var r, d := Step(serial, w, a).db, Written(w, a);
    var db := if d.None? then w.db else SaveTx(w.db, d.value);
    SessionsAreNotInAgree(db, r.sessions);
    if d.Some? {
      SaveKeepsAgreeExactly(w.db, d.value);
    }
  }

  /** With calls overlapping in any way, the index is right at every moment of a run exactly when no
      call saves an active row while its session's entry is another mitigation's. */
  lemma {:induction false} IndexIsRightExactly(serial: bool, acts: seq<Action>)
    ensures (forall k :: 0 <= k <= |acts| ==> Agree(Run(serial, START, acts[..k]).db)) <==>
            (forall k :: 0 <= k < |acts| ==> !Usurps(Run(serial, START, acts[..k]), acts[k]))
    decreases |acts|
  {
    hide Agree, Usurps, Run, Step, Held;
    var n := |acts| - 1;
    if n == -1 {
      assert acts[..0] == [];
      StartAgrees(serial);
    } else {
      var before := acts[..n];
      IndexIsRightExactly(serial, before);
      assert forall k :: 0 <= k <= n ==> before[..k] == acts[..k];
      LastKeepsIndexExactly(serial, before, acts[n]);
      assert acts[..n + 1] == before + [acts[n]];
    }
  }

  lemma {:induction false} LastKeepsIndexExactly(serial: bool, before: seq<Action>, a: Action)
    ensures Agree(Run(serial, START, before).db) ==>
              (Agree(Run(serial, START, before + [a]).db) <==> !Usurps(Run(serial, START, before), a))
  {
    RunKeepsHeld(serial, START, before);
    hide Agree, Usurps, Run, Step, Held;
    RunSnoc(serial, START, before, a);
    var w := Run(serial, START, before);
    if Agree(w.db) {
      StepKeepsIndexExactly(serial, w, a);
    }
  }

  lemma {:induction false} StartAgrees(serial: bool)
    ensures Agree(Run(serial, START, []).db)
  {
  }

  /** With calls overlapping in any way, an action makes an inactive mitigation active again exactly
      when it is the write of a call that holds that row in an active state. */
  lemma {:induction false} RevivedExactly(serial: bool, acts: seq<Action>, a: Action, m: string)
    requires var db := Run(serial, START, acts).db; m in db.mits && !IsActive(db.mits[m].state)
    ensures var w := Run(serial, START, acts);
            var db := Step(serial, w, a).db;
            && m in db.mits
            && (IsActive(db.mits[m].state) <==>
                && a.Proceed? && a.client in w.jobs && !a.fails && w.jobs[a.client].next.SavesRow()
                && w.jobs[a.client].d.id == m && IsActive(w.jobs[a.client].d.state))
  {
    StepWrites(serial, Run(serial, START, acts), a);
  }

  // ---------- what overlapping calls do ----------

  function Row(id: string, s: MitState, version: int): Mitigation {
    Mitigation(id, "s", Throttle, "", s, version)
  }

  /** The rule that calls on one mitigation must not overlap is needed. An execution that has read its
      row is overtaken by a withdrawal; a new submission then takes the free index entry, and the
      execution saves its row as executing: two active mitigations on one session, one unlisted. */
  lemma OverlappingCallsBreakTheIndex() returns (acts: seq<Action>)
    ensures var db := Run(false, START, acts).db;
            && !Agree(db)
            && "m" in db.mits && "n" in db.mits && IsActive(db.mits["m"].state) && IsActive(db.mits["n"].state)
            && db.mits["m"].sessionID == db.mits["n"].sessionID == "s"
            && ActiveJoin(db, "s") == {db.mits["n"]}
  {
    var session := Session("s", "", Negotiating, "", "", "", 0, 1, "");
    var setup := [SessionChange(session), Submit("m", "s", Throttle, ""),
                  Begin(0, "m", ReviewOp(Approve)), Proceed(0, false)];
    var clash := [Begin(1, "m", ExecuteOp), Begin(2, "m", WithdrawOp), Proceed(2, false),
                  Submit("n", "s", Throttle, ""), Proceed(1, false)];
    acts := setup + clash;
    RunConcat(false, START, setup, clash);
    var w0 := RunFour(START, setup);
    assert clash[..4] + [clash[4]] == clash;
    RunSnoc(false, w0, clash[..4], clash[4]);
    var w1 := RunFour(w0, clash[..4]);
    hide Run, Step, Agree;
    Approved(session);
    Overtaken(w0);
    TwoActive(w1);
  }

  lemma Approved(session: Session)
    requires session.id == "s"
    ensures Step(false, Step(false, Step(false, Step(false, START, SessionChange(session)),
              Submit("m", "s", Throttle, "")), Begin(0, "m", ReviewOp(Approve))), Proceed(0, false))
            == World(Db(map["m" := Row("m", Issued, 2)], map["s" := "m"], map["s" := session]), map[])
  {
    MovesOfCalls(Pending);
    hide ValidMove;
  }

  lemma Overtaken(w: World)
    requires w.db.mits == map["m" := Row("m", Issued, 2)] && w.db.active == map["s" := "m"] && "s" in w.db.sessions
    requires w.jobs == map[]
    ensures var r := Step(false, Step(false, Step(false, Step(false, w, Begin(1, "m", ExecuteOp)),
                       Begin(2, "m", WithdrawOp)), Proceed(2, false)), Submit("n", "s", Throttle, ""));
            && r.db.active == map["s" := "n"] && r.db.sessions == w.db.sessions
            && r.db.mits == map["m" := Row("m", Withdrawn, 3), "n" := Row("n", Pending, 1)]
            && 1 in r.jobs && r.jobs[1].d == Row("m", Executing, 3) && r.jobs[1].next == SaveExecuting
  {
    MovesOfCalls(Issued);
    hide ValidMove;
  }

  lemma TwoActive(w: World)
    requires w.db.active == map["s" := "n"] && "s" in w.db.sessions
    requires w.db.mits == map["m" := Row("m", Withdrawn, 3), "n" := Row("n", Pending, 1)]
    requires 1 in w.jobs && w.jobs[1].d == Row("m", Executing, 3) && w.jobs[1].next == SaveExecuting
    ensures var db := Step(false, w, Proceed(1, false)).db;
            && db.mits == map["m" := Row("m", Executing, 3), "n" := Row("n", Pending, 1)]
            && !Agree(db) && ActiveJoin(db, "s") == {Row("n", Pending, 1)}
  {
    var db := Step(false, w, Proceed(1, false)).db;
    assert db.mits == map["m" := Row("m", Executing, 3), "n" := Row("n", Pending, 1)];
    assert db.active == map["s" := "n"];
    assert IsActive(db.mits["m"].state) && db.active[db.mits["m"].sessionID] != "m";
  }

  /** Overlapping calls can also undo a withdrawal while the index stays right: an execution that has
      read its row is overtaken by the withdrawal and then saves the row as executing. */
  lemma OverlappingCallsUndoAWithdrawal() returns (before: seq<Action>, a: Action)
    ensures var db := Run(false, START, before).db;
            var r := Run(false, START, before + [a]).db;
            && Agree(db) && "m" in db.mits && db.mits["m"].state == Withdrawn
            && Agree(r) && "m" in r.mits && r.mits["m"].state == Executing && ActiveJoin(r, "s") == {r.mits["m"]}
  {
    var session := Session("s", "", Negotiating, "", "", "", 0, 1, "");
    var setup := [SessionChange(session), Submit("m", "s", Throttle, ""),
                  Begin(0, "m", ReviewOp(Approve)), Proceed(0, false)];
    var clash := [Begin(1, "m", ExecuteOp), Begin(2, "m", WithdrawOp), Proceed(2, false)];
    a := Proceed(1, false);
    before := setup + clash;
    RunConcat(false, START, setup, clash);
    RunSnoc(false, START, before, a);
    var w0 := RunFour(START, setup);
    var w1 := RunThree(w0, clash);
    hide Run, Step, Agree;
    Approved(session);
    WithdrawnUnseen(w0);
    ExecutingAgain(w1);
  }

  lemma WithdrawnUnseen(w: World)
    requires w.db.mits == map["m" := Row("m", Issued, 2)] && w.db.active == map["s" := "m"] && "s" in w.db.sessions
    requires w.jobs == map[]
    ensures var r := Step(false, Step(false, Step(false, w, Begin(1, "m", ExecuteOp)),
                       Begin(2, "m", WithdrawOp)), Proceed(2, false));
            && r.db.active == map[] && r.db.sessions == w.db.sessions
            && r.db.mits == map["m" := Row("m", Withdrawn, 3)]
            && 1 in r.jobs && r.jobs[1].d == Row("m", Executing, 3) && r.jobs[1].next == SaveExecuting
  {
    MovesOfCalls(Issued);
    hide ValidMove;
  }

  lemma ExecutingAgain(w: World)
    requires w.db.active == map[] && "s" in w.db.sessions && w.db.mits == map["m" := Row("m", Withdrawn, 3)]
    requires 1 in w.jobs && w.jobs[1].d == Row("m", Executing, 3) && w.jobs[1].next == SaveExecuting
    ensures var db := Step(false, w, Proceed(1, false)).db;
            && Agree(w.db) && Agree(db)
            && db.mits == map["m" := Row("m", Executing, 3)] && ActiveJoin(db, "s") == {Row("m", Executing, 3)}
  {
    var db := Step(false, w, Proceed(1, false)).db;
    assert db.mits == map["m" := Row("m", Executing, 3)];
    assert db.active == map["s" := "m"];
  }

  lemma RunThree(w: World, a: seq<Action>) returns (r: World)
    requires |a| == 3
    ensures r == Run(false, w, a) == Step(false, Step(false, Step(false, w, a[0]), a[1]), a[2])
  {
    r := Run(false, w, a);
    assert a == [] + [a[0]] + [a[1]] + [a[2]];
    RunSnoc(false, w, [], a[0]);
    RunSnoc(false, w, [] + [a[0]], a[1]);
    RunSnoc(false, w, [] + [a[0]] + [a[1]], a[2]);
  }

  lemma {:induction false} RunConcat(serial: bool, w: World, a: seq<Action>, b: seq<Action>)
    ensures Run(serial, w, a + b) == Run(serial, Run(serial, w, a), b)
    decreases |a|
  {
    if a == [] {
      assert a + b == b;
    } else {
      assert (a + b)[1..] == a[1..] + b;
      RunConcat(serial, Step(serial, w, a[0]), a[1..], b);
    }
  }

  lemma RunFour(w: World, a: seq<Action>) returns (r: World)
    requires |a| == 4
    ensures r == Run(false, w, a) == Step(false, Step(false, Step(false, Step(false, w, a[0]), a[1]), a[2]), a[3])
  {
    r := Run(false, w, a);
    assert a == [] + [a[0]] + [a[1]] + [a[2]] + [a[3]];
    RunSnoc(false, w, [], a[0]);
    RunSnoc(false, w, [] + [a[0]], a[1]);
    RunSnoc(false, w, [] + [a[0]] + [a[1]], a[2]);
    RunSnoc(false, w, [] + [a[0]] + [a[1]] + [a[2]], a[3]);
  }
}

/** Mitigation requests and the index of active ones: internal/domain/disposition.go,
    internal/storage/sqlite_disposition.go and internal/service/mitigation.go, one call at a time. */
module Mitigations {
  import opened StateMachines
  import opened Sessions

  datatype MitState = Pending | UnderReview | Issued | Executing | Done | Refused | Withdrawn | Lost

  const MITIGATION_MACHINE: StateMachine<MitState> := StateMachine(Pending, {
      (Pending, UnderReview), (Pending, Issued), (Pending, Refused),
      (UnderReview, Issued), (UnderReview, Refused),
      (Issued, Executing), (Executing, Done),
      (Issued, Withdrawn), (Executing, Withdrawn), (Pending, Withdrawn),
      (Pending, Lost), (UnderReview, Lost), (Withdrawn, Pending)})

  /** ValidateMitigationTransition. */
  predicate ValidMove(from: MitState, to: MitState) {
    MITIGATION_MACHINE.Validates(from, to)
  }

  predicate IsActive(s: MitState) {
    s == Pending || s == UnderReview || s == Issued || s == Executing
  }

  datatype Kind = Fallback | Throttle | StopCharge | OtherKind(name: string)

  datatype Mitigation = Mitigation(id: string, sessionID: string, kind: Kind, target: string,
                                     state: MitState, version: int)

  // active is the table active_mitigations, keyed by session.
  datatype Db = Db(mits: map<string, Mitigation>, active: map<string, string>, sessions: map<string, Session>)

  datatype Error = Invalid | NotFound | BadTransition | Failed

  datatype Result<T> = Ok(value: T) | Err(error: Error)

  /** INSERT OR IGNORE: a session that has an entry keeps it. */
  function UpsertActive(active: map<string, string>, session: string, id: string): map<string, string> {
    if session in active then active else active[session := id]
  }

  function RemoveActive(active: map<string, string>, session: string, id: string): map<string, string> {
    if session in active && active[session] == id then active - {session} else active
  }

  function SaveTx(db: Db, d: Mitigation): Db {
    db.(mits := db.mits[d.id := d],
        active := if IsActive(d.state) then UpsertActive(db.active, d.sessionID, d.id)
                  else RemoveActive(db.active, d.sessionID, d.id))
  }

  /** The index lists m for s exactly when m belongs to s and is in an active state. */
  ghost predicate Agree(db: Db) {
    && (forall m :: m in db.mits ==> db.mits[m].id == m)
    && (forall s :: s in db.active ==>
          var m := db.active[s]; m in db.mits && db.mits[m].sessionID == s && IsActive(db.mits[m].state))
    && (forall m :: m in db.mits && IsActive(db.mits[m].state) ==>
          db.mits[m].sessionID in db.active && db.active[db.mits[m].sessionID] == m)
  }

  /** Exactly when saving a row keeps the index right: an active row must find its session's entry
      free or its own. SaveTx itself does not look. */
  lemma SaveKeepsAgreeExactly(db: Db, d: Mitigation)
    requires Agree(db) && (d.id in db.mits ==> db.mits[d.id].sessionID == d.sessionID)
    ensures Agree(SaveTx(db, d)) <==>
            (IsActive(d.state) ==> d.sessionID !in db.active || db.active[d.sessionID] == d.id)
  {
    var r := SaveTx(db, d);
    if IsActive(d.state) && d.sessionID in db.active && db.active[d.sessionID] != d.id {
      assert d.id in r.mits && r.active[d.sessionID] != d.id;
    }
  }

  /** The JOIN of GetActiveBySession, and the scan it stands for. */
  ghost function ActiveJoin(db: Db, s: string): set<Mitigation> {
    set m | m in db.mits && s in db.active && db.active[s] == m :: db.mits[m]
  }

  ghost function ActiveScan(db: Db, s: string): set<Mitigation> {
    set m | m in db.mits && db.mits[m].sessionID == s && IsActive(db.mits[m].state) :: db.mits[m]
  }

  lemma JoinIsScan(db: Db, s: string)
    requires Agree(db)
    ensures ActiveJoin(db, s) == ActiveScan(db, s)
    ensures s in db.active <==> ActiveScan(db, s) != {}
    ensures forall d, e :: d in ActiveScan(db, s) && e in ActiveScan(db, s) ==> d == e
  {
    if s in db.active {
      assert db.mits[db.active[s]] in ActiveScan(db, s);
    }
  }

  // ---------- the writes of one Execute ----------

  function Applied(session: Session, d: Mitigation): Session {
    session.(state := match d.kind
                      case Throttle => ThermalThrottled
                      case Fallback => ProtocolFallback
                      case StopCharge => Rejected
                      case OtherKind(_) => session.state,
             firmware := if d.kind == Fallback && d.target != "" then d.target else session.firmware,
             mitigationID := d.id,
             version := session.version + 1)
  }

  predicate CanExecute(db: Db, id: string) {
    id in db.mits && ValidMove(db.mits[id].state, Executing)
  }

  /** What an attempt leaves behind when it is cut off before its write number cut (0, 1 or 2), by an
      error or by the end of the process; with cut >= 3 it runs through. */
  function ExecuteCut(db: Db, id: string, cut: nat): Db {
    if !CanExecute(db, id) || cut == 0 then db
    else
      var d := db.mits[id].(state := Executing, version := db.mits[id].version + 1);
      var db1 := SaveTx(db, d);
      if cut == 1 || d.sessionID !in db.sessions then db1
      else
        var db2 := db1.(sessions := db1.sessions[d.sessionID := Applied(db1.sessions[d.sessionID], d)]);
        if cut == 2 then db2
        else SaveTx(db2, d.(state := Done, version := d.version + 1))
  }

  function Attempts(db: Db, id: string, cuts: seq<nat>): Db {
    if cuts == [] then db else ExecuteCut(Attempts(db, id, cuts[..|cuts| - 1]), id, cuts[|cuts| - 1])
  }

  /** The first stage writes of an execution of db's mitigation, with any version counters. */
  function Shape(db: Db, id: string, stage: nat, mitVersion: int, sessionVersion: int): Db
    requires id in db.mits && db.mits[id].sessionID in db.sessions
  {
    var d := db.mits[id];
    var s := d.sessionID;
    Db(if stage == 0 then db.mits
       else db.mits[id := d.(state := if stage >= 3 then Done else Executing, version := mitVersion)],
       if stage >= 3 then RemoveActive(db.active, s, id) else db.active,
       if stage >= 2 then db.sessions[s := Applied(db.sessions[s], d).(version := sessionVersion)] else db.sessions)
  }

  lemma ShapeCanExecute(db: Db, id: string, stage: nat, mv: int, sv: int)
    requires CanExecute(db, id) && db.mits[id].sessionID in db.sessions
    ensures CanExecute(Shape(db, id, stage, mv, sv), id) <==> stage < 3
  {
  }

  lemma ExecutableIsListed(db: Db, id: string)
    requires Agree(db) && CanExecute(db, id)
    ensures var s := db.mits[id].sessionID; s in db.active && db.active[s] == id && db.mits[id].id == id
  {
  }

  lemma AppliedTwice(session: Session, d: Mitigation, e: Mitigation, version: int)
    requires e.(state := d.state, version := d.version) == d
    ensures Applied(Applied(session, d).(version := version), e) == Applied(session, d).(version := version + 1)
    ensures Applied(session, e) == Applied(session, d)
    ensures Applied(session, d).version == session.version + 1
  {
  }

  /** Another attempt only ever adds the writes that were missing. */
  lemma CutOfShape(db: Db, id: string, stage: nat, mv: int, sv: int, cut: nat) returns (stage': nat, mv': int, sv': int)
    requires Agree(db) && CanExecute(db, id) && db.mits[id].sessionID in db.sessions && stage <= 3
    ensures stage <= stage' <= 3 && (cut >= 3 ==> stage' == 3)
    ensures ExecuteCut(Shape(db, id, stage, mv, sv), id, cut) == Shape(db, id, stage', mv', sv')
  {
    ShapeCanExecute(db, id, stage, mv, sv);
    ExecutableIsListed(db, id);
    hide CanExecute, Agree, Applied;
    var r := Shape(db, id, stage, mv, sv);
    stage', mv', sv' := stage, mv, sv;
    if cut > 0 && stage < 3 {
      stage' := if stage > cut then stage else if cut > 3 then 3 else cut;
      mv' := r.mits[id].version + if cut >= 3 then 2 else 1;
      var s := db.mits[id].sessionID;
      sv' := r.sessions[s].version + if cut >= 2 then 1 else 0;
      var d := db.mits[id].(state := Executing, version := r.mits[id].version + 1);
      AppliedTwice(db.sessions[s], db.mits[id], d, sv);
      var after, expected := ExecuteCut(r, id, cut), Shape(db, id, stage', mv', sv');
      assert after.active == expected.active;
      assert after.sessions == expected.sessions;
      assert after.mits == expected.mits;
    }
  }

  lemma {:induction false} AttemptsHaveShape(db: Db, id: string, cuts: seq<nat>) returns (stage: nat, mv: int, sv: int)
    requires Agree(db) && CanExecute(db, id) && db.mits[id].sessionID in db.sessions
    ensures stage <= 3 && Attempts(db, id, cuts) == Shape(db, id, stage, mv, sv)
  {
    if cuts == [] {
      stage, mv, sv := 0, 0, 0;
    } else {
      stage, mv, sv := AttemptsHaveShape(db, id, cuts[..|cuts| - 1]);
      stage, mv, sv := CutOfShape(db, id, stage, mv, sv, cuts[|cuts| - 1]);
    }
  }

  /** The database with the version counters of one mitigation and one session blanked out. */
  function Unversioned(db: Db, id: string, s: string): Db
    requires id in db.mits && s in db.sessions
  {
    db.(mits := db.mits[id := db.mits[id].(version := 0)],
        sessions := db.sessions[s := db.sessions[s].(version := 0)])
  }

  /** Restartable: any number of attempts, each cut off after any of its writes, and then one that
      runs through leave the same mitigation, session and index as one uninterrupted run; only the
      version counters tell them apart. */
  lemma {:induction false} RestartedExecutionIsOneRun(db: Db, id: string, cuts: seq<nat>)
    requires Agree(db) && CanExecute(db, id) && db.mits[id].sessionID in db.sessions
    ensures var s := db.mits[id].sessionID;
            var r := ExecuteCut(Attempts(db, id, cuts), id, 3);
            var once := ExecuteCut(db, id, 3);
            && id in r.mits && s in r.sessions && id in once.mits && s in once.sessions
            && r.mits[id].state == Done && r.sessions[s].mitigationID == id
            && Unversioned(r, id, s) == Unversioned(once, id, s)
    ensures var (d, s) := (db.mits[id], db.mits[id].sessionID);
            var (r, was) := (ExecuteCut(Attempts(db, id, cuts), id, 3), db.sessions[s]);
            && id in r.mits && s in r.sessions
            && r.mits == db.mits[id := d.(state := Done, version := r.mits[id].version)]
            && r.active == db.active - {s}
            && r.sessions == db.sessions[s := r.sessions[s]]
            && match d.kind
               case Throttle =>
                 r.sessions[s] == was.(state := ThermalThrottled, mitigationID := id, version := r.sessions[s].version)
               case Fallback =>
                 r.sessions[s] == was.(state := ProtocolFallback, mitigationID := id, version := r.sessions[s].version,
                                       firmware := if d.target != "" then d.target else was.firmware)
               case StopCharge =>
                 r.sessions[s] == was.(state := Rejected, mitigationID := id, version := r.sessions[s].version)
               case OtherKind(_) => r.sessions[s] == was.(mitigationID := id, version := r.sessions[s].version)
  {
    var stage, mv, sv := AttemptsHaveShape(db, id, cuts);
    stage, mv, sv := CutOfShape(db, id, stage, mv, sv, 3);
    assert Shape(db, id, 0, 0, 0) == db;
    var stage1, mv1, sv1 := CutOfShape(db, id, 0, 0, 0, 3);
    ExecutableIsListed(db, id);
    hide ExecuteCut, Attempts, CanExecute, Agree;
    SameShape(db, id, mv, sv, mv1, sv1);
    LastShape(db, id, mv, sv);
  }

  /** The database after all writes of an execution: each column of the session by the kind of mitigation. */
  lemma LastShape(db: Db, id: string, mv: int, sv: int)
    requires id in db.mits && db.mits[id].id == id && db.mits[id].sessionID in db.sessions
    requires db.mits[id].sessionID in db.active && db.active[db.mits[id].sessionID] == id
    ensures var (d, s) := (db.mits[id], db.mits[id].sessionID);
            var (r, was) := (Shape(db, id, 3, mv, sv), db.sessions[s]);
            && r.mits == db.mits[id := d.(state := Done, version := mv)]
            && r.active == db.active - {s}
            && s in r.sessions && r.sessions == db.sessions[s := r.sessions[s]] && r.sessions[s].version == sv
            && match d.kind
               case Throttle => r.sessions[s] == was.(state := ThermalThrottled, mitigationID := id, version := sv)
               case Fallback =>
                 r.sessions[s] == was.(state := ProtocolFallback, mitigationID := id, version := sv,
                                       firmware := if d.target != "" then d.target else was.firmware)
               case StopCharge => r.sessions[s] == was.(state := Rejected, mitigationID := id, version := sv)
               case OtherKind(_) => r.sessions[s] == was.(mitigationID := id, version := sv)
  {
  }

  lemma SameShape(db: Db, id: string, mv: int, sv: int, mv1: int, sv1: int)
    requires id in db.mits && db.mits[id].id == id && db.mits[id].sessionID in db.sessions
    ensures var s := db.mits[id].sessionID;
            var r, once := Shape(db, id, 3, mv, sv), Shape(db, id, 3, mv1, sv1);
            && r.mits[id].state == Done && r.sessions[s].mitigationID == id
            && Unversioned(r, id, s) == Unversioned(once, id, s)
  {
  }

  // ---------- the calls ----------

  datatype Decision = Approve | Reject | OtherDecision

  function Moved(d: Mitigation, to: MitState): Mitigation {
    d.(state := to, version := d.version + 1)
  }

  /** The moves the calls ask for, as the table allows them. */
  lemma MovesOfCalls(s: MitState)
    ensures ValidMove(s, Issued) <==> s in {Pending, UnderReview, Issued}
    ensures ValidMove(s, Refused) <==> s in {Pending, UnderReview, Refused}
    ensures ValidMove(s, Withdrawn) <==> s in {Pending, Issued, Executing, Withdrawn}
    ensures ValidMove(s, Executing) <==> s in {Issued, Executing}
  {
  }

  /** A move that makes no inactive row active keeps the index right. */
  lemma MoveKeepsAgree(db: Db, id: string, to: MitState)
    requires Agree(db) && id in db.mits && (IsActive(to) ==> IsActive(db.mits[id].state))
    ensures Agree(SaveTx(db, Moved(db.mits[id], to)))
  {
    SaveKeepsAgreeExactly(db, Moved(db.mits[id], to));
  }

  /** MitigationService on its tables. Every method is one call that nothing interrupts; fails stands
      for an error of the database on the write. */
  class Service {
    var mits: map<string, Mitigation>
    var active: map<string, string>
    var sessions: map<string, Session>

    ghost function State(): Db
      reads this
    {
      Db(mits, active, sessions)
    }

    constructor (sessions: map<string, Session>)
      ensures State() == Db(map[], map[], sessions) && Agree(State())
    {
      this.mits, this.active, this.sessions := map[], map[], sessions;
    }

    method Save(d: Mitigation, fails: bool) returns (ok: bool)
      modifies this`mits, this`active
      ensures ok <==> !fails
      ensures State() == if ok then SaveTx(old(State()), d) else old(State())
      ensures ok ==> mits == old(mits)[d.id := d]
      ensures ok && d.state in {Pending, UnderReview, Issued, Executing} ==>
                active == if d.sessionID in old(active) then old(active) else old(active)[d.sessionID := d.id]
      ensures ok && d.state !in {Pending, UnderReview, Issued, Executing} ==>
                active == if d.sessionID in old(active) && old(active)[d.sessionID] == d.id
                          then old(active) - {d.sessionID} else old(active)
    {
      if fails {
        return false;
      }
      mits := mits[d.id := d];
      if IsActive(d.state) {
        if d.sessionID !in active {
          active := active[d.sessionID := d.id];
        }
      } else if d.sessionID in active && active[d.sessionID] == d.id {
        active := active - {d.sessionID};
      }
      return true;
    }

    /** Submit, one transaction. id is the fresh uuid. The row is pending if and only if its session
        has no active mitigation, and lost otherwise. */
    method Submit(id: string, sessionID: string, kind: Kind, target: string, submitter: string, fails: bool)
      returns (r: Result<Mitigation>)
      requires Agree(State()) && id !in mits
      modifies this`mits, this`active
      ensures Agree(State())
      ensures r.Ok? <==>
              sessionID != "" && kind != OtherKind("") && submitter != "" && sessionID in old(sessions) && !fails
      ensures r == Err(Invalid) <==> sessionID == "" || kind == OtherKind("") || submitter == ""
      ensures r == Err(NotFound) <==> r != Err(Invalid) && sessionID !in old(sessions)
      ensures r.Ok? ==> r.value == Mitigation(id, sessionID, kind, target, r.value.state, 1)
      ensures r.Ok? ==> State() == SaveTx(old(State()), r.value)
      ensures r.Ok? ==> r.value.state == Pending || r.value.state == Lost
      ensures r.Ok? ==>
                (r.value.state == Pending <==>
                 forall m :: m in old(mits) && old(mits)[m].sessionID == sessionID ==>
                   old(mits)[m].state !in {Pending, UnderReview, Issued, Executing})
      ensures r.Err? && r.error != Invalid && r.error != NotFound ==> r == Err(Failed)
      ensures r.Err? ==> State() == old(State())
    {
      JoinIsScan(State(), sessionID);
      if sessionID == "" || kind == OtherKind("") || submitter == "" {
        return Err(Invalid);
      }
      if sessionID !in sessions {
        return Err(NotFound);
      }
      var disp := Mitigation(id, sessionID, kind, target, Pending, 1);
      var activeCount := if sessionID in active then 1 else 0;
      if activeCount > 0 {
        disp := disp.(state := Lost);
      }
      SaveKeepsAgreeExactly(State(), disp);
      var ok := Save(disp, fails);
      r := if ok then Ok(disp) else Err(Failed);
    }

    method Review(id: string, decision: Decision, fails: bool) returns (r: Result<Mitigation>)
      requires Agree(State())
      modifies this`mits, this`active
      ensures Agree(State())
      ensures r.Ok? <==>
              && id in old(mits) && !fails
              && ((decision == Approve && old(mits)[id].state in {Pending, UnderReview, Issued})
                  || (decision == Reject && old(mits)[id].state in {Pending, UnderReview, Refused}))
      ensures r == Err(NotFound) <==> id !in old(mits)
      ensures r == Err(Invalid) <==> id in old(mits) && decision == OtherDecision
      ensures r == Err(BadTransition) <==>
              && id in old(mits)
              && ((decision == Approve && old(mits)[id].state !in {Pending, UnderReview, Issued})
                  || (decision == Reject && old(mits)[id].state !in {Pending, UnderReview, Refused}))
      ensures r.Ok? ==>
                r.value == old(mits)[id].(state := if decision == Approve then Issued else Refused,
                                          version := old(mits)[id].version + 1)
      ensures State() == if r.Ok? then SaveTx(old(State()), r.value) else old(State())
    {
      hide Agree, SaveTx;
      if id !in mits {
        return Err(NotFound);
      }
      var disp := mits[id];
      MovesOfCalls(disp.state);
      hide ValidMove;
      var target: MitState;
      match decision {
        case Approve => target := Issued;
        case Reject => target := Refused;
        case OtherDecision => return Err(Invalid);
      }
      if !ValidMove(disp.state, target) {
        return Err(BadTransition);
      }
      disp := disp.(state := target);
      disp := disp.(version := disp.version + 1);
      MoveKeepsAgree(State(), id, target);
      var ok := Save(disp, fails);
      r := if ok then Ok(disp) else Err(Failed);
    }

    method Withdraw(id: string, fails: bool) returns (r: Result<Mitigation>)
      requires Agree(State())
      modifies this`mits, this`active
      ensures Agree(State())
      ensures r.Ok? <==> id in old(mits) && !fails && old(mits)[id].state in {Pending, Issued, Executing, Withdrawn}
      ensures r == Err(NotFound) <==> id !in old(mits)
      ensures r == Err(BadTransition) <==>
                id in old(mits) && old(mits)[id].state !in {Pending, Issued, Executing, Withdrawn}
      ensures r.Ok? ==> r.value == old(mits)[id].(state := Withdrawn, version := old(mits)[id].version + 1)
      ensures State() == if r.Ok? then SaveTx(old(State()), r.value) else old(State())
    {
      hide Agree, SaveTx;
      if id !in mits {
        return Err(NotFound);
      }
      var disp := mits[id];
      MovesOfCalls(disp.state);
      hide ValidMove;
      if !ValidMove(disp.state, Withdrawn) {
        return Err(BadTransition);
      }
      disp := disp.(state := Withdrawn);
      disp := disp.(version := disp.version + 1);
      MoveKeepsAgree(State(), id, Withdrawn);
      var ok := Save(disp, fails);
      r := if ok then Ok(disp) else Err(Failed);
    }

    /** executeInternal, cut off before its write number cut: the executing row is saved first, then the
        session, which the kind of mitigation changes, and the completed row last. */
    method ExecuteInternal(id: string, cut: nat) returns (r: Result<Mitigation>)
      modifies this
      ensures State() == ExecuteCut(old(State()), id, cut)
      ensures r.Ok? <==>
              && id in old(mits) && old(mits)[id].state in {Issued, Executing}
              && cut >= 3 && old(mits)[id].sessionID in old(sessions)
      ensures r == Err(BadTransition) <==> id in old(mits) && old(mits)[id].state !in {Issued, Executing}
      ensures r == Err(NotFound) <==>
                || id !in old(mits)
                || (old(mits)[id].state in {Issued, Executing} && cut > 0 && old(mits)[id].sessionID !in old(sessions))
      ensures r.Ok? ==> r.value == old(mits)[id].(state := Done, version := old(mits)[id].version + 2)
      ensures id !in old(mits) || old(mits)[id].state !in {Issued, Executing} || cut == 0 ==> State() == old(State())
      ensures id in old(mits) && old(mits)[id].state in {Issued, Executing} && cut > 0 ==>
                var (d, s) := (old(mits)[id], old(mits)[id].sessionID);
                && mits == old(mits)[d.id := if r.Ok? then d.(state := Done, version := d.version + 2)
                                             else d.(state := Executing, version := d.version + 1)]
                && active == (if r.Ok? then
                                if s in old(active) && old(active)[s] == d.id then old(active) - {s} else old(active)
                              else if s in old(active) then old(active) else old(active)[s := d.id])
                && (cut == 1 || s !in old(sessions) ==> sessions == old(sessions))
                && (cut >= 2 && s in old(sessions) ==>
                      && s in sessions && sessions == old(sessions)[s := sessions[s]]
                      && var was := old(sessions)[s];
                         match d.kind
                         case Throttle =>
                           sessions[s] == was.(state := ThermalThrottled, mitigationID := d.id,
                                               version := was.version + 1)
                         case Fallback =>
                           sessions[s] == was.(state := ProtocolFallback, mitigationID := d.id,
                                               version := was.version + 1,
                                               firmware := if d.target != "" then d.target else was.firmware)
                         case StopCharge =>
                           sessions[s] == was.(state := Rejected, mitigationID := d.id, version := was.version + 1)
                         case OtherKind(_) =>
                           sessions[s] == was.(mitigationID := d.id, version := was.version + 1))
    {
      if id in mits { MovesOfCalls(mits[id].state); }
      hide ValidMove;
      if id !in mits {
        return Err(NotFound);
      }
      var disp := mits[id];
      if !ValidMove(disp.state, Executing) {
        return Err(BadTransition);
      }
      disp := disp.(state := Executing);
      disp := disp.(version := disp.version + 1);
      var ok := Save(disp, cut == 0);
      if !ok {
        return Err(Failed);
      }
      if disp.sessionID !in sessions {
        return Err(NotFound);
      }
      if cut == 1 {
        return Err(Failed);
      }
      var session := sessions[disp.sessionID];
      match disp.kind {
        case Throttle => session := session.(state := ThermalThrottled);
        case Fallback =>
          session := session.(state := ProtocolFallback);
          if disp.target != "" {
            session := session.(firmware := disp.target);
          }
        case StopCharge => session := session.(state := Rejected);
        case OtherKind(_) =>
      }
      session := session.(mitigationID := disp.id);
      session := session.(version := session.version + 1);
      sessions := sessions[disp.sessionID := session];
      disp := disp.(state := Done);
      disp := disp.(version := disp.version + 1);
      ok := Save(disp, cut == 2);
      r := if ok then Ok(disp) else Err(Failed);
    }

    /** GetActiveBySession: the rows of the join, which are the rows of a scan and at most one. */
    method GetActiveBySession(s: string) returns (items: seq<Mitigation>)
      requires Agree(State())
      ensures (set d | d in items) == ActiveScan(State(), s)
      ensures forall m :: m in mits ==>
                (mits[m] in items <==>
                 mits[m].sessionID == s && mits[m].state in {Pending, UnderReview, Issued, Executing})
      ensures |items| <= 1
    {
      JoinIsScan(State(), s);
      items := [];
      var rows := mits.Keys;
      while rows != {}
        invariant rows <= mits.Keys
        invariant forall d :: d in items <==>
          exists m :: m in mits && m !in rows && s in active && active[s] == m && mits[m] == d
        invariant |items| <= 1
        invariant items != [] ==> s in active && active[s] !in rows
        decreases rows
      {
        var m :| m in rows;
        rows := rows - {m};
        if s in active && active[s] == m {
          items := items + [mits[m]];
        }
      }
      assert (set d | d in items) == ActiveJoin(State(), s);
      assert forall d :: d in items <==> d in ActiveScan(State(), s);
    }
  }
}

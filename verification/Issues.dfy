/** The issue workflow of internal/charging (domain.go, service.go) over the version-conditional
    UPDATE of internal/storage/sqlite_charging.go. */
module Issues {
  datatype IssueState = Open | Assigned | Mitigated | Certified | RetestRequired

  datatype Issue = Issue(id: string, productID: string, kind: string, description: string, state: IssueState,
                         submittedBy: string, assignee: string, evidence: string, version: int)

  datatype Error = NotFound | InvalidState | MissingEvidence | Forbidden | Conflict | Duplicate

  datatype Result<T> = Ok(value: T) | Err(error: Error)

  predicate CanTransition(from: IssueState, next: IssueState) {
    || from == next
    || match from
       case Open => next == Assigned
       case Assigned => next == Mitigated
       case Mitigated => next == Certified || next == RetestRequired
       case RetestRequired => next == Assigned
       case Certified => false
  }

  // One service call after authentication: user is the caller's id.
  datatype Op =
    | Assign(engineer: string)
    | Mitigate(user: string, proof: string)
    | Certify(proof: string)

  function Target(op: Op): IssueState {
    match op
    case Assign(_) => Assigned
    case Mitigate(_, _) => Mitigated
    case Certify(_) => Certified
  }

  /** The checks that come before the row is read. */
  predicate WellFormed(op: Op) {
    op.Assign? || op.proof != ""
  }

  /** What the service checks on the row it has read. */
  function Check(row: Issue, op: Op): Result<()> {
    if op.Mitigate? && row.assignee != op.user && row.assignee != "" then Err(Forbidden)
    else if !CanTransition(row.state, Target(op)) then Err(InvalidState)
    else Ok(())
  }

  // The arguments of TransitionIssue: the row as read, the next state, assignee and evidence ("" keeps the old one).
  datatype Write = Write(read: Issue, next: IssueState, assignTo: string, proof: string)

  function WriteFor(row: Issue, op: Op): Write {
    match op
    case Assign(engineer) => Write(row, Assigned, engineer, "")
    case Mitigate(user, proof) => Write(row, Mitigated, user, proof)
    case Certify(proof) => Write(row, Certified, "", proof)
  }

  /** The SET clause of the UPDATE, on the row that is stored. */
  function Updated(row: Issue, w: Write): Issue {
    row.(state := w.next,
         assignee := if w.assignTo == "" then row.assignee else w.assignTo,
         evidence := if w.proof == "" then row.evidence else w.proof,
         version := row.version + 1)
  }

  /** Which calls a row lets through, and what each of them leaves of it. */
  lemma CallExactly(row: Issue, op: Op)
    ensures WellFormed(op) && Check(row, op).Ok? <==>
            match op
            case Assign(_) => row.state in {Open, Assigned, RetestRequired}
            case Mitigate(user, proof) =>
              proof != "" && row.state in {Assigned, Mitigated} && (row.assignee == user || row.assignee == "")
            case Certify(proof) => proof != "" && row.state in {Mitigated, Certified}
    ensures WellFormed(op) ==>
              Updated(row, WriteFor(row, op)) ==
              match op
              case Assign(e) =>
                row.(state := Assigned, version := row.version + 1,
                     assignee := if e != "" then e else row.assignee)
              case Mitigate(user, proof) =>
                row.(state := Mitigated, version := row.version + 1, evidence := proof,
                     assignee := if user != "" then user else row.assignee)
              case Certify(proof) => row.(state := Certified, version := row.version + 1, evidence := proof)
  {
  }

  predicate Matches(table: map<string, Issue>, w: Write) {
    w.read.id in table && table[w.read.id].version == w.read.version
  }

  predicate ValidReport(issue: Issue) {
    issue.id != "" && issue.kind != "" && issue.description != ""
  }

  function Reported(issue: Issue, user: string): Issue {
    issue.(submittedBy := user, state := Open, version := 1)
  }

  /** The issue table; fields are changed by INSERT and UPDATE only. */
  class IssueStore {
    var issues: map<string, Issue>

    constructor ()
      ensures issues == map[]
    {
      issues := map[];
    }

    method CreateIssue(h: Issue) returns (r: Result<()>)
      modifies this
      ensures r == if h.id in old(issues) then Err(Duplicate) else Ok(())
      ensures issues == if r.Ok? then old(issues)[h.id := h] else old(issues)
    {
      if h.id in issues {
        return Err(Duplicate);
      }
      issues := issues[h.id := h];
      r := Ok(());
    }

    method GetIssue(id: string) returns (r: Result<Issue>)
      ensures r == if id in issues then Ok(issues[id]) else Err(NotFound)
    {
      r := if id in issues then Ok(issues[id]) else Err(NotFound);
    }

    method TransitionIssue(w: Write) returns (r: Result<()>)
      modifies this
      ensures r == if Matches(old(issues), w) then Ok(()) else Err(Conflict)
      ensures issues == if r.Ok? then old(issues)[w.read.id := Updated(old(issues)[w.read.id], w)] else old(issues)
      ensures r.Ok? <==> w.read.id in old(issues) && old(issues)[w.read.id].version == w.read.version
      ensures r.Ok? ==>
                var (was, now) := (old(issues)[w.read.id], issues[w.read.id]);
                && now == was.(state := w.next, assignee := now.assignee, evidence := now.evidence,
                               version := was.version + 1)
                && (w.assignTo == "" ==> now.assignee == was.assignee)
                && (w.assignTo != "" ==> now.assignee == w.assignTo)
                && (w.proof == "" ==> now.evidence == was.evidence) && (w.proof != "" ==> now.evidence == w.proof)
    {
      if w.read.id in issues {
        var row := issues[w.read.id];
        if row.version == w.read.version {
          row := row.(state := w.next);
          if w.assignTo != "" {
            row := row.(assignee := w.assignTo);
          }
          if w.proof != "" {
            row := row.(evidence := w.proof);
          }
          row := row.(version := row.version + 1);
          issues := issues[w.read.id := row];
          return Ok(());
        }
      }
      r := Err(Conflict);
    }
  }

  /** The service. A call without interference either fails a check and changes nothing, or commits
      and raises the version by one; it never meets a conflict. */
  class Service {
    const repo: IssueStore

    constructor (repo: IssueStore)
      ensures this.repo == repo
    {
      this.repo := repo;
    }

    method ReportIssue(user: string, permitted: bool, productExists: bool, issue: Issue) returns (r: Result<Issue>)
      modifies repo
      ensures r.Ok? <==> permitted && productExists && ValidReport(issue) && issue.id !in old(repo.issues)
      ensures r == Err(Forbidden) <==> !permitted
      ensures r == Err(NotFound) <==> permitted && !productExists
      ensures r == Err(InvalidState) <==>
              permitted && productExists && (issue.id == "" || issue.kind == "" || issue.description == "")
      ensures r.Err? && r.error != Forbidden && r.error != NotFound && r.error != InvalidState ==>
                r == Err(Duplicate) && issue.id in old(repo.issues)
      ensures r.Ok? ==> r.value == issue.(submittedBy := user, state := Open, version := 1)
                        && repo.issues == old(repo.issues)[issue.id := r.value]
      ensures r.Ok? ==> r.value == Reported(issue, user)
      ensures r.Err? ==> repo.issues == old(repo.issues)
    {
      if !permitted {
        return Err(Forbidden);
      }
      if !productExists {
        return Err(NotFound);
      }
      if issue.id == "" || issue.kind == "" || issue.description == "" {
        return Err(InvalidState);
      }
      var filled := issue.(submittedBy := user, state := Open, version := 1);
      var created := repo.CreateIssue(filled);
      r := if created.Ok? then Ok(filled) else Err(created.error);
    }

    /** AssignIssue, MitigateIssue and CertifyIssue: read, validate, write if the version still matches. An
        assignment stores its engineer, a mitigation its evidence and its user, a certification its evidence;
        an empty engineer or user keeps the stored assignee. */
    method Change(permitted: bool, id: string, op: Op) returns (r: Result<()>)
      requires forall i :: i in repo.issues ==> repo.issues[i].id == i
      modifies repo
      ensures r.Ok? <==> permitted && WellFormed(op) && id in old(repo.issues) && Check(old(repo.issues)[id], op).Ok?
      ensures r.Err? ==> r.error != Conflict && repo.issues == old(repo.issues)
      ensures !permitted ==> r == Err(Forbidden)
      ensures permitted && !WellFormed(op) ==> r == Err(MissingEvidence)
      ensures permitted && WellFormed(op) && id !in old(repo.issues) ==> r == Err(NotFound)
      ensures permitted && WellFormed(op) && id in old(repo.issues) && r.Err? ==> r == Check(old(repo.issues)[id], op)
      ensures r.Ok? ==> id in repo.issues && repo.issues == old(repo.issues)[id := repo.issues[id]]
      ensures r.Ok? ==> repo.issues[id] == Updated(old(repo.issues)[id], WriteFor(old(repo.issues)[id], op))
      ensures r.Ok? <==>
              && permitted && id in old(repo.issues)
              && var was := old(repo.issues)[id];
                 match op
                 case Assign(_) => was.state in {Open, Assigned, RetestRequired}
                 case Mitigate(user, proof) =>
                   proof != "" && was.state in {Assigned, Mitigated} && (was.assignee == user || was.assignee == "")
                 case Certify(proof) => proof != "" && was.state in {Mitigated, Certified}
      ensures r.Ok? ==>
                var (was, now) := (old(repo.issues)[id], repo.issues[id]);
                match op
                case Assign(e) =>
                  now == was.(state := Assigned, version := was.version + 1,
                              assignee := if e != "" then e else was.assignee)
                case Mitigate(user, proof) =>
                  now == was.(state := Mitigated, version := was.version + 1, evidence := proof,
                              assignee := if user != "" then user else was.assignee)
                case Certify(proof) =>
                  now == was.(state := Certified, version := was.version + 1, evidence := proof)
      ensures r == Err(Forbidden) <==>
              || !permitted
              || (op.Mitigate? && op.proof != "" && id in old(repo.issues)
                  && old(repo.issues)[id].assignee != op.user && old(repo.issues)[id].assignee != "")
    {
      if id in repo.issues { CallExactly(repo.issues[id], op); }
      if !permitted {
        return Err(Forbidden);
      }
      if (op.Mitigate? || op.Certify?) && op.proof == "" {
        return Err(MissingEvidence);
      }
      var got := repo.GetIssue(id);
      if got.Err? {
        return Err(got.error);
      }
      var h := got.value;
      if op.Mitigate? && h.assignee != op.user && h.assignee != "" {
        return Err(Forbidden);
      }
      if !CanTransition(h.state, Target(op)) {
        return Err(InvalidState);
      }
      r := repo.TransitionIssue(WriteFor(h, op));
    }
  }
}

/** Any number of clients of the service, each cut between its read and its conditional write. */
module IssueHistory {
  import opened Issues

  // clients: calls that have read and validated and still have to write. history: every committed
  // row of an issue, oldest first.
  datatype World = World(table: map<string, Issue>, clients: map<nat, Write>, history: map<string, seq<Issue>>)

  const EMPTY: World := World(map[], map[], map[])

  datatype Action =
    | Report(user: string, issue: Issue)
    | Read(client: nat, id: string, op: Op)
    | Commit(client: nat)

  function Step(w: World, a: Action): World {
    match a
    case Report(user, issue) =>
      if ValidReport(issue) && issue.id !in w.table
      then
        var row := Reported(issue, user);
        w.(table := w.table[issue.id := row], history := w.history[issue.id := [row]])
      else w
    case Read(client, id, op) =>
      if WellFormed(op) && id in w.table && Check(w.table[id], op).Ok?
      then w.(clients := w.clients[client := WriteFor(w.table[id], op)])
      else w
    case Commit(client) =>
      if client in w.clients
      then
        var c := w.clients[client];
        if Matches(w.table, c) && c.read.id in w.history
        then
          var row := Updated(w.table[c.read.id], c);
          w.(table := w.table[c.read.id := row], clients := w.clients - {client},
             history := w.history[c.read.id := w.history[c.read.id] + [row]])
        else w.(clients := w.clients - {client})
      else w
  }

  function Run(w: World, acts: seq<Action>): World
    decreases |acts|
  {
    if acts == [] then w else Run(Step(w, acts[0]), acts[1..])
  }

  /** next is what one uninterrupted call would have made of row. */
  ghost predicate Atomic(row: Issue, next: Issue) {
    exists op: Op :: WellFormed(op) && Check(row, op).Ok? && next == Updated(row, WriteFor(row, op))
  }

  ghost predicate Serial(id: string, h: seq<Issue>) {
    && h != []
    && h[0].state == Open && h[0].version == 1
    && (forall k :: 0 <= k < |h| ==> h[k].id == id && h[k].version == k + 1)
    && (forall k :: 0 <= k < |h| - 1 ==> Atomic(h[k], h[k + 1]))
  }

  /** A client holds a row that was committed once, with a write that was valid for it. */
  ghost predicate Holds(w: World, c: Write) {
    var id := c.read.id;
    && id in w.history && 1 <= c.read.version <= |w.history[id]|
    && w.history[id][c.read.version - 1] == c.read
    && exists op: Op :: WellFormed(op) && Check(c.read, op).Ok? && c == WriteFor(c.read, op)
  }

  ghost predicate Inv(w: World) {
    && w.table.Keys == w.history.Keys
    && (forall id :: id in w.history ==>
          Serial(id, w.history[id]) && w.table[id] == w.history[id][|w.history[id]| - 1])
    && (forall client :: client in w.clients ==> Holds(w, w.clients[client]))
  }

  /** No lost update and no stale check: the version matches exactly when the whole row is still
      the one that was read and validated. */
  lemma VersionIdentifiesRow(w: World, c: Write)
    requires Inv(w) && Holds(w, c)
    ensures Matches(w.table, c) <==> w.table[c.read.id] == c.read
  {
    var h := w.history[c.read.id];
    assert Serial(c.read.id, h) && h[|h| - 1].version == |h|;
  }

  lemma ReportKeepsInv(w: World, user: string, issue: Issue)
    requires Inv(w)
    ensures Inv(Step(w, Report(user, issue)))
  {
    hide Atomic, Holds, Serial;
    var r := Step(w, Report(user, issue));
    FirstRow(issue, user);
    forall client | client in r.clients
      ensures Holds(r, r.clients[client])
    {
      HoldsLasts(w, r, w.clients[client]);
    }
  }

  lemma FirstRow(issue: Issue, user: string)
    ensures Serial(issue.id, [Reported(issue, user)])
  {
  }

  lemma ReadKeepsInv(w: World, client: nat, id: string, op: Op)
    requires Inv(w)
    ensures Inv(Step(w, Read(client, id, op)))
  {
    hide Atomic, Serial, Check;
    if id in w.table && WellFormed(op) && Check(w.table[id], op).Ok? {
      NowHolds(w, id, op);
      var r := Step(w, Read(client, id, op));
      forall other | other in r.clients
        ensures Holds(r, r.clients[other])
      {
        HoldsLasts(w, r, r.clients[other]);
      }
    }
  }

  lemma NowHolds(w: World, id: string, op: Op)
    requires Inv(w) && id in w.table && WellFormed(op) && Check(w.table[id], op).Ok?
    ensures Holds(w, WriteFor(w.table[id], op))
  {
    hide Atomic, Check;
    assert Serial(id, w.history[id]);
  }

  lemma HeldIsAtomic(w: World, c: Write)
    requires Holds(w, c)
    ensures Atomic(c.read, Updated(c.read, c))
  {
  }

  lemma StepKeepsInv(w: World, a: Action)
    requires Inv(w)
    ensures Inv(Step(w, a))
  {
    match a {
      case Report(user, issue) => ReportKeepsInv(w, user, issue);
      case Read(client, id, op) => ReadKeepsInv(w, client, id, op);
      case Commit(client) => CommitKeepsInv(w, client);
    }
  }

  lemma CommitKeepsInv(w: World, client: nat)
    requires Inv(w)
    ensures Inv(Step(w, Commit(client)))
  {
    hide Atomic, Serial, Holds;
    var r := Step(w, Commit(client));
    if client in w.clients && Matches(w.table, w.clients[client]) {
      var c := w.clients[client];
      var id := c.read.id;
      VersionIdentifiesRow(w, c);
      HeldIsAtomic(w, c);
      SerialSnoc(id, w.history[id], Updated(c.read, c));
    }
    forall other | other in r.clients
      ensures Holds(r, r.clients[other])
    {
      HoldsLasts(w, r, w.clients[other]);
    }
  }

  lemma HoldsLasts(w: World, r: World, c: Write)
    requires Holds(w, c) && w.history.Keys <= r.history.Keys
    requires forall id :: id in w.history ==> w.history[id] <= r.history[id]
    ensures Holds(r, c)
  {
  }

  lemma SerialSnoc(id: string, h: seq<Issue>, next: Issue)
    requires Serial(id, h) && Atomic(h[|h| - 1], next) && next.id == id && next.version == h[|h| - 1].version + 1
    ensures Serial(id, h + [next])
  {
    hide Atomic;
    var more := h + [next];
    forall k | 0 <= k < |more| - 1
      ensures Atomic(more[k], more[k + 1])
    {
      if k < |h| - 1 { assert Atomic(h[k], h[k + 1]); }
    }
  }

  lemma {:induction false} RunKeepsInv(w: World, acts: seq<Action>)
    requires Inv(w)
    ensures Inv(Run(w, acts))
    decreases |acts|
  {
    if acts != [] {
      StepKeepsInv(w, acts[0]);
      RunKeepsInv(Step(w, acts[0]), acts[1..]);
    }
  }

  function Rank(s: IssueState): nat {
    match s
    case Open => 0
    case Assigned => 1
    case Mitigated => 2
    case Certified => 3
    case RetestRequired => 4
  }

  /** Linearizable: whatever the interleaving, the committed rows of an issue are those of its calls
      run one after the other without interruption, and the table shows the last one. */
  lemma {:induction false} CommitsAreSerial(acts: seq<Action>, id: string)
    requires id in Run(EMPTY, acts).table
    ensures var w := Run(EMPTY, acts);
            && id in w.history && w.history[id] != []
            && w.table[id] == w.history[id][|w.history[id]| - 1]
            && w.table[id].version == 1 + (|w.history[id]| - 1)
            && forall k :: 0 <= k < |w.history[id]| - 1 ==> Atomic(w.history[id][k], w.history[id][k + 1])
  {
    RunKeepsInv(EMPTY, acts);
    assert Serial(id, Run(EMPTY, acts).history[id]);
  }

  /** Every committed row but the first is the one before it with the columns of one call that it lets through. */
  lemma CommittedStepIsACall(acts: seq<Action>, id: string, k: nat) returns (op: Op)
    requires id in Run(EMPTY, acts).history && k < |Run(EMPTY, acts).history[id]| - 1
    ensures var h := Run(EMPTY, acts).history[id];
            var (row, next) := (h[k], h[k + 1]);
            match op
            case Assign(e) =>
              && row.state in {Open, Assigned}
              && next == row.(state := Assigned, version := row.version + 1,
                              assignee := if e != "" then e else row.assignee)
            case Mitigate(user, proof) =>
              && row.state in {Assigned, Mitigated} && proof != "" && (row.assignee == user || row.assignee == "")
              && next == row.(state := Mitigated, version := row.version + 1, evidence := proof,
                              assignee := if user != "" then user else row.assignee)
            case Certify(proof) =>
              && row.state in {Mitigated, Certified} && proof != ""
              && next == row.(state := Certified, version := row.version + 1, evidence := proof)
  {
    CommitsAreSerial(acts, id) by { RunKeepsInv(EMPTY, acts); }
    ProgressNeverFalls(acts, id);
    var h := Run(EMPTY, acts).history[id];
    assert Atomic(h[k], h[k + 1]);
    op :| WellFormed(op) && Check(h[k], op).Ok? && h[k + 1] == Updated(h[k], WriteFor(h[k], op));
    CallExactly(h[k], op);
    hide Run, Check, Updated, WriteFor, Atomic;
  }

  /** A write is accepted exactly when the row it was validated on is still the stored one. */
  lemma {:induction false} CommitExactlyWhenUnchanged(acts: seq<Action>, client: nat)
    requires client in Run(EMPTY, acts).clients
    ensures var w := Run(EMPTY, acts);
            var c := w.clients[client];
            && c.read.id in w.table
            && (Step(w, Commit(client)).table != w.table <==> w.table[c.read.id] == c.read)
            && (Step(w, Commit(client)).history != w.history <==> w.table[c.read.id] == c.read)
  {
    RunKeepsInv(EMPTY, acts);
    var w := Run(EMPTY, acts);
    var c := w.clients[client];
    assert Holds(w, c);
    VersionIdentifiesRow(w, c);
    var r := Step(w, Commit(client));
    if Matches(w.table, c) {
      assert r.table[c.read.id].version == w.table[c.read.id].version + 1;
      assert |r.history[c.read.id]| == |w.history[c.read.id]| + 1;
    }
  }

  lemma {:induction false} ClientWaits(w: World, between: seq<Action>, client: nat, c: Write)
    requires client in w.clients && w.clients[client] == c
    requires forall k :: 0 <= k < |between| ==>
               between[k] != Commit(client) && (between[k].Read? ==> between[k].client != client)
    ensures var r := Run(w, between); client in r.clients && r.clients[client] == c
    decreases |between|
  {
    if between != [] {
      hide WellFormed, Check, WriteFor, Updated, Matches, Reported;
      ClientWaits(Step(w, between[0]), between[1..], client, c);
    }
  }

  lemma {:induction false} RunConcat(w: World, a: seq<Action>, b: seq<Action>)
    ensures Run(w, a + b) == Run(Run(w, a), b)
    decreases |a|
  {
    if a == [] {
      assert a + b == b;
    } else {
      assert (a + b)[1..] == a[1..] + b;
      RunConcat(Step(w, a[0]), a[1..], b);
    }
  }

  /** One call, cut between its read and its write, with anything of the others in between. If the row it has
      read lets the call through, its write stores the columns of the call on that row when nobody has
      changed it, and nothing at all when somebody has. */
  lemma {:induction false} CallStoresItsColumns(before: seq<Action>, client: nat, id: string, op: Op,
                                                between: seq<Action>)
    requires forall k :: 0 <= k < |between| ==>
               between[k] != Commit(client) && (between[k].Read? ==> between[k].client != client)
    ensures var w0 := Run(EMPTY, before).table;
            var w := Run(EMPTY, before + [Read(client, id, op)] + between);
            var r := Step(w, Commit(client)).table;
            && id in w0
            && (match op
                case Assign(_) => w0[id].state in {Open, Assigned, RetestRequired}
                case Mitigate(user, proof) =>
                  && proof != "" && w0[id].state in {Assigned, Mitigated}
                  && (w0[id].assignee == user || w0[id].assignee == "")
                case Certify(proof) => proof != "" && w0[id].state in {Mitigated, Certified}) ==>
              var row := w0[id];
              && id in w.table && id in r && r == w.table[id := r[id]]
              && (w.table[id] != row ==> r[id] == w.table[id])
              && (w.table[id] == row ==>
                    r[id] == match op
                             case Assign(e) =>
                               row.(state := Assigned, version := row.version + 1,
                                    assignee := if e != "" then e else row.assignee)
                             case Mitigate(user, proof) =>
                               row.(state := Mitigated, version := row.version + 1, evidence := proof,
                                    assignee := if user != "" then user else row.assignee)
                             case Certify(proof) =>
                               row.(state := Certified, version := row.version + 1, evidence := proof))
  {
    var w0 := Run(EMPTY, before);
    if id in w0.table {
      var row := w0.table[id];
      CallExactly(row, op);
      hide CanTransition, Check;
      if WellFormed(op) && Check(row, op).Ok? {
        CallInParts(before, client, id, op, between);
      }
    }
  }

  lemma {:induction false} CallInParts(before: seq<Action>, client: nat, id: string, op: Op, between: seq<Action>)
    requires var w0 := Run(EMPTY, before).table; id in w0 && WellFormed(op) && Check(w0[id], op).Ok?
    requires forall k :: 0 <= k < |between| ==>
               between[k] != Commit(client) && (between[k].Read? ==> between[k].client != client)
    ensures var row := Run(EMPTY, before).table[id];
            var w := Run(EMPTY, before + [Read(client, id, op)] + between);
            var r := Step(w, Commit(client)).table;
            && id in w.table && id in r
            && r == w.table[id := if w.table[id] == row then Updated(row, WriteFor(row, op)) else w.table[id]]
  {
    hide Check, WriteFor, Updated, Matches, Inv, WellFormed;
    var w0 := Run(EMPTY, before);
    var row := w0.table[id];
    RunConcat(EMPTY, before + [Read(client, id, op)], between);
    RunConcat(EMPTY, before, [Read(client, id, op)]);
    OneStep(w0, Read(client, id, op));
    var w1 := Step(w0, Read(client, id, op));
    var w := Run(w1, between);
    RunKeepsInv(EMPTY, before) by { NothingReported(); }
    RowHasItsID(w0, id);
    RunKeepsInv(EMPTY, before + [Read(client, id, op)] + between) by { NothingReported(); }
    hide Run;
    assert w1.clients[client] == WriteFor(row, op);
    ClientWaits(w1, between, client, WriteFor(row, op));
    CommitOf(w, client, row, op);
  }

  lemma NothingReported()
    ensures Inv(EMPTY)
  {
  }

  lemma {:induction false} OneStep(w: World, a: Action)
    ensures Run(w, [a]) == Step(w, a)
  {
    assert [a][1..] == [];
  }

  lemma RowHasItsID(w: World, id: string)
    requires Inv(w) && id in w.table
    ensures w.table[id].id == id
  {
    assert Serial(id, w.history[id]);
  }

  lemma CommitOf(w: World, client: nat, row: Issue, op: Op)
    requires Inv(w) && client in w.clients && w.clients[client] == WriteFor(row, op)
    ensures var r := Step(w, Commit(client)).table;
            && row.id in w.table && row.id in r
            && r == w.table[row.id := if w.table[row.id] == row then Updated(row, WriteFor(row, op))
                                      else w.table[row.id]]
  {
    var c := w.clients[client];
    assert Holds(w, c);
    VersionIdentifiesRow(w, c);
    hide Holds, Serial, Updated;
    if w.table[row.id] != row {
      assert w.table[row.id := w.table[row.id]] == w.table;
    }
  }

  /** A report is filed under its id, open and at version 1, exactly when its fields are set and its id is
      new; nothing else of the table changes. */
  lemma ReportFilesExactly(w: World, user: string, issue: Issue)
    ensures var r := Step(w, Report(user, issue)).table;
            if issue.id != "" && issue.kind != "" && issue.description != "" && issue.id !in w.table
            then r == w.table[issue.id := issue.(submittedBy := user, state := Open, version := 1)]
            else r == w.table
  {
  }

  /** What one uninterrupted call may do to a row of progress at most certified. */
  lemma AtomicProgress(row: Issue, next: Issue)
    requires Atomic(row, next) && Rank(row.state) <= 3
    ensures CanTransition(row.state, next.state) && next.state != RetestRequired
    ensures Rank(row.state) <= Rank(next.state) <= Rank(row.state) + 1 && next.version == row.version + 1
    ensures (Rank(row.state) >= 2 ==> row.evidence != "") ==> (Rank(next.state) >= 2 ==> next.evidence != "")
    ensures row.assignee != "" ==>
              next.assignee != "" && (next.state != Assigned ==> next.assignee == row.assignee)
    ensures next.description == row.description && next.productID == row.productID
            && next.submittedBy == row.submittedBy
    ensures next.state == Assigned ==> next.evidence == row.evidence
    ensures next.state == Certified ==> next.assignee == row.assignee && next.evidence != ""
  {
  }

  /** Along the committed rows every step is allowed by CanTransition, progress never falls and never
      skips a stage, retest_required is never reached, evidence is there from mitigated on, and once
      an engineer is assigned only an assignment replaces them. */
  lemma {:induction false} ProgressNeverFalls(acts: seq<Action>, id: string)
    requires id in Run(EMPTY, acts).history
    ensures var h := Run(EMPTY, acts).history[id];
            && h != [] && h[0].state == Open
            && (forall k :: 0 <= k < |h| ==>
                h[k].state != RetestRequired && (Rank(h[k].state) >= 2 ==> h[k].evidence != ""))
            && (forall k :: 0 <= k < |h| - 1 ==>
                  && CanTransition(h[k].state, h[k + 1].state)
                  && Rank(h[k].state) <= Rank(h[k + 1].state) <= Rank(h[k].state) + 1
                  && (h[k].assignee != "" && h[k + 1].state != Assigned ==> h[k + 1].assignee == h[k].assignee))
  {
    RunKeepsInv(EMPTY, acts);
    SerialProgress(id, Run(EMPTY, acts).history[id]);
  }

  lemma {:induction false} SerialProgress(id: string, h: seq<Issue>)
    requires Serial(id, h)
    ensures forall k :: 0 <= k < |h| ==> Rank(h[k].state) <= 3 && (Rank(h[k].state) >= 2 ==> h[k].evidence != "")
    ensures forall k :: 0 <= k < |h| - 1 ==>
              && CanTransition(h[k].state, h[k + 1].state)
              && Rank(h[k].state) <= Rank(h[k + 1].state) <= Rank(h[k].state) + 1
              && (h[k].assignee != "" && h[k + 1].state != Assigned ==> h[k + 1].assignee == h[k].assignee)
    decreases |h|
  {
    var n := |h| - 1;
    if n > 0 {
      var front := h[..n];
      assert Serial(id, front) by {
        forall k | 0 <= k < n - 1
          ensures Atomic(front[k], front[k + 1])
        {
          assert Atomic(h[k], h[k + 1]);
        }
      }
      SerialProgress(id, front);
      assert front[n - 1] == h[n - 1];
      assert Atomic(h[n - 1], h[n - 1 + 1]);
      AtomicProgress(h[n - 1], h[n]);
      forall k | 0 <= k < n
        ensures CanTransition(h[k].state, h[k + 1].state)
        ensures Rank(h[k].state) <= Rank(h[k + 1].state) <= Rank(h[k].state) + 1
        ensures h[k].assignee != "" && h[k + 1].state != Assigned ==> h[k + 1].assignee == h[k].assignee
      {
        if k < n - 1 {
          assert front[k] == h[k] && front[k + 1] == h[k + 1];
        }
      }
      forall k | 0 <= k < |h|
        ensures Rank(h[k].state) <= 3 && (Rank(h[k].state) >= 2 ==> h[k].evidence != "")
      {
        if k < n { assert front[k] == h[k]; }
      }
    }
  }
}

/** Runs of session saves. persistWithShard of internal/storage/sqlite.go commits the row first and
    appends the record afterwards, under another lock, so the two are separate steps here. */
module SaveRuns {
  import opened Prelude
  import opened Sessions
  import opened ShardLog
  import opened Recovery

  function LogOf(logs: Logs, shard: string): seq<Record> {
    if shard in logs then logs[shard] else []
  }

  function Appended(logs: Logs, shard: string, r: Record): Logs {
    logs[shard := LogOf(logs, shard) + [r]]
  }

  /** The upsert of a save: all columns but requested_at, which an existing row keeps. */
  function Upserted(t: Table, m: Session): Table {
    t[m.id := if m.id in t then m.(requestedAt := t[m.id].requestedAt) else m]
  }

  // inflight: requests that have committed a row and not yet appended its record. registry and lost are
  // history: lost are the sessions whose last committed row was never appended, because the append failed.
  datatype World = World(table: Table, logs: Logs, registry: Registry, inflight: map<nat, Session>, lost: set<string>)

  const START: World := World(map[], map[], map[], map[], {})

  datatype Action =
    | Commit(client: nat, m: Session)
    | AppendRecord(client: nat, written: bool, ts: string)
    | AppendOther(shard: string, kind: string, body: string, ts: string)

  predicate Pending(w: World, id: string) {
    exists c :: c in w.inflight && w.inflight[c].id == id
  }

  /** The last committed row of the session has been appended. */
  predicate Settled(w: World, id: string) {
    !Pending(w, id) && id !in w.lost
  }

  ghost predicate CanCommit(serial: bool, w: World, client: nat, m: Session) {
    && client !in w.inflight && !NumberTaken(w.table, m)
    && (m.id in w.registry ==> Fits(w.registry, m))
    && (serial ==> !Pending(w, m.id))
  }

  /** One step. A save that would change a session's number or shard is not a step of this model. With
      serial, a session is saved again only after the append of its save before; saves of different
      sessions interleave in any case, also within a shard. */
  ghost function Step(serial: bool, w: World, a: Action): World {
    match a
    case Commit(client, m) =>
      if CanCommit(serial, w, client, m)
      then World(Upserted(w.table, m), w.logs, w.registry[m.id := (m.number, m.shard)],
                 w.inflight[client := m], w.lost - {m.id})
      else w
    case AppendRecord(client, written, ts) =>
      if client !in w.inflight then w
      else
        var m := w.inflight[client];
        if written
        then w.(logs := Appended(w.logs, m.shard, SessionRecord(m, ts)), inflight := w.inflight - {client})
        else w.(inflight := w.inflight - {client}, lost := w.lost + {m.id})
    case AppendOther(shard, kind, body, ts) =>
      w.(logs := Appended(w.logs, shard, OtherRecord(kind, body, ts)))
  }

  ghost function Run(serial: bool, w: World, acts: seq<Action>): World
    decreases |acts|
  {
    if acts == [] then w else Run(serial, Step(serial, w, acts[0]), acts[1..])
  }

  // ---------- what every run keeps ----------

  ghost predicate Inv(w: World) {
    && OneToOne(w.registry) && w.registry.Keys == w.table.Keys
    && FitsTable(w.registry, w.table) && FitsLogs(w.registry, w.logs)
    && (forall c :: c in w.inflight ==> Fits(w.registry, w.inflight[c]))
  }

  ghost predicate Grown(reg: Registry, later: Registry) {
    forall id :: id in reg ==> id in later && later[id] == reg[id]
  }

  lemma FitsLater(reg: Registry, later: Registry, shard: string, rs: seq<Record>, more: seq<Record>)
    requires FitsLog(reg, shard, rs) && Grown(reg, later) && FitsLog(later, shard, more)
    ensures FitsLog(later, shard, rs + more)
  {
    var all := rs + more;
    forall i | 0 <= i < |all| && all[i].SessionRecord?
      ensures Fits(later, all[i].m) && all[i].m.shard == shard
    {
      assert all[i] == if i < |rs| then rs[i] else more[i - |rs|];
    }
  }

  lemma AppendedFits(reg: Registry, logs: Logs, shard: string, rec: Record)
    requires FitsLogs(reg, logs) && FitsLog(reg, shard, [rec])
    ensures FitsLogs(reg, Appended(logs, shard, rec))
  {
    hide FitsLog;
    NoRecordsFit(reg, shard);
    FitsLater(reg, reg, shard, LogOf(logs, shard), [rec]);
  }

  lemma LogsFitLater(reg: Registry, later: Registry, logs: Logs)
    requires FitsLogs(reg, logs) && Grown(reg, later)
    ensures FitsLogs(later, logs)
  {
    hide FitsLog, Grown;
    forall s | s in logs
      ensures FitsLog(later, s, logs[s])
    {
      NoRecordsFit(later, s);
      FitsLater(reg, later, s, logs[s], []);
      assert logs[s] + [] == logs[s];
    }
  }

  lemma NoRecordsFit(reg: Registry, shard: string)
    ensures FitsLog(reg, shard, [])
  {
  }

  lemma CommittedFits(serial: bool, w: World, client: nat, m: Session)
    requires Inv(w) && CanCommit(serial, w, client, m)
    ensures var r := Step(serial, w, Commit(client, m));
            OneToOne(r.registry) && Grown(w.registry, r.registry) && FitsTable(r.registry, r.table)
  {
    hide FitsLogs, Pending, OneToOne, FitsTable;
    NumberStaysOnce(w.registry, w.table, m);
    UpsertedFits(w.registry, w.table, m);
  }

  lemma NumberStaysOnce(reg: Registry, t: Table, m: Session)
    requires OneToOne(reg) && reg.Keys == t.Keys && FitsTable(reg, t) && !NumberTaken(t, m)
    ensures OneToOne(reg[m.id := (m.number, m.shard)])
  {
    assert forall id :: id in reg ==> reg[id].0 == t[id].number;
  }

  lemma UpsertedFits(reg: Registry, t: Table, m: Session)
    requires FitsTable(reg, t)
    ensures FitsTable(reg[m.id := (m.number, m.shard)], Upserted(t, m))
  {
  }

  lemma StepKeepsInv(serial: bool, w: World, a: Action)
    requires Inv(w)
    ensures Inv(Step(serial, w, a))
  {
    hide OneToOne, FitsTable, FitsLogs, Appended, NumberTaken, Pending;
    match a {
      case Commit(client, m) =>
        if CanCommit(serial, w, client, m) {
          CommittedFits(serial, w, client, m);
          LogsFitLater(w.registry, Step(serial, w, a).registry, w.logs);
        }
      case AppendRecord(client, _, ts) =>
        if client in w.inflight {
          AppendedFits(w.registry, w.logs, w.inflight[client].shard, SessionRecord(w.inflight[client], ts));
        }
      case AppendOther(shard, kind, body, ts) =>
        AppendedFits(w.registry, w.logs, shard, OtherRecord(kind, body, ts));
    }
  }

  lemma {:induction false} RunKeepsInv(serial: bool, w: World, acts: seq<Action>)
    requires Inv(w)
    ensures Inv(Run(serial, w, acts))
    decreases |acts|
  {
    hide Inv;
    if acts != [] {
      StepKeepsInv(serial, w, acts[0]);
      RunKeepsInv(serial, Step(serial, w, acts[0]), acts[1..]);
    }
  }

  lemma StartIsInv()
    ensures Inv(START)
  {
  }

  // ---------- what serial runs keep ----------

  predicate SameProgress(a: Session, b: Session) {
    a.state == b.state && a.version == b.version && a.handshakeID == b.handshakeID && a.mitigationID == b.mitigationID
  }

  /** The records of a session in its shard. */
  function Records(w: World, id: string): seq<Session>
    requires id in w.table
  {
    SessionsOf(LogOf(w.logs, w.table[id].shard), id)
  }

  /** The last record of the session shows its live progress. */
  predicate RowLogged(w: World, id: string)
    requires id in w.table
  {
    var hs := Records(w, id);
    hs != [] && SameProgress(hs[|hs| - 1], w.table[id])
  }

  /** A session has at most one record in flight, that of its live row. */
  ghost predicate InflightIsLive(w: World) {
    && (forall c :: c in w.inflight ==>
          w.inflight[c].id in w.table && SameProgress(w.inflight[c], w.table[w.inflight[c].id]))
    && (forall c, d :: c in w.inflight && d in w.inflight && c != d ==> w.inflight[c].id != w.inflight[d].id)
  }

  ghost predicate SerialInv(w: World) {
    && Inv(w) && InflightIsLive(w)
    && forall id :: id in w.table && Settled(w, id) ==> RowLogged(w, id)
  }

  lemma {:induction false} SessionsSnoc(rs: seq<Record>, r: Record, id: string)
    ensures SessionsOf(rs + [r], id) == SessionsOf(rs, id) + if r.SessionRecord? && r.m.id == id then [r.m] else []
  {
    assert (rs + [r])[..|rs|] == rs;
  }

  lemma {:induction false} AppendedRecords(logs: Logs, shard: string, rec: Record, at: string, id: string)
    ensures SessionsOf(LogOf(Appended(logs, shard, rec), at), id) ==
            SessionsOf(LogOf(logs, at), id)
            + if at == shard && rec.SessionRecord? && rec.m.id == id then [rec.m] else []
  {
    SessionsSnoc(LogOf(logs, shard), rec, id);
  }

  lemma CommitKeepsRowLogged(w: World, client: nat, m: Session, id: string)
    requires SerialInv(w) && CanCommit(true, w, client, m)
    requires var r := Step(true, w, Commit(client, m)); id in r.table && Settled(r, id)
    ensures RowLogged(Step(true, w, Commit(client, m)), id)
  {
    hide Inv, InflightIsLive, SessionsOf, SameProgress;
    var r := Step(true, w, Commit(client, m));
    assert r.inflight[client] == m;
    assert id != m.id;
    assert forall c :: c in w.inflight ==> r.inflight[c] == w.inflight[c];
    assert Settled(w, id);
  }

  lemma AppendKeepsRowLogged(w: World, client: nat, written: bool, ts: string, id: string)
    requires SerialInv(w) && client in w.inflight
    requires var r := Step(true, w, AppendRecord(client, written, ts)); id in r.table && Settled(r, id)
    ensures RowLogged(Step(true, w, AppendRecord(client, written, ts)), id)
  {
    hide OneToOne, FitsTable, FitsLogs, SessionsOf, SameProgress, Appended, LogOf;
    var r := Step(true, w, AppendRecord(client, written, ts));
    var m := w.inflight[client];
    assert w.table[m.id].shard == m.shard by { ShardOfInflight(w, client); }
    AppendedRecords(w.logs, m.shard, SessionRecord(m, ts), w.table[id].shard, id);
    if id != m.id {
      forall c | c in w.inflight
        ensures w.inflight[c].id != id
      {
        assert c != client ==> c in r.inflight && r.inflight[c] == w.inflight[c];
      }
      assert Settled(w, id);
    }
  }

  lemma ShardOfInflight(w: World, client: nat)
    requires Inv(w) && client in w.inflight
    ensures w.inflight[client].id in w.table && w.table[w.inflight[client].id].shard == w.inflight[client].shard
  {
    hide OneToOne, FitsLogs;
    assert Fits(w.registry, w.inflight[client]);
  }

  lemma OtherKeepsRowLogged(w: World, a: Action, id: string)
    requires SerialInv(w) && a.AppendOther? && id in w.table && Settled(w, id)
    ensures RowLogged(Step(true, w, a), id)
  {
    hide Inv, InflightIsLive, SessionsOf, SameProgress, Appended, LogOf;
    AppendedRecords(w.logs, a.shard, OtherRecord(a.kind, a.body, a.ts), w.table[id].shard, id);
  }

  lemma StepKeepsInflight(w: World, a: Action)
    requires InflightIsLive(w)
    ensures InflightIsLive(Step(true, w, a))
  {
    hide NumberTaken, Fits, Appended;
    var r := Step(true, w, a);
    forall c | c in r.inflight
      ensures r.inflight[c].id in r.table && SameProgress(r.inflight[c], r.table[r.inflight[c].id])
    {
      assert c in w.inflight || (a.Commit? && c == a.client);
    }
  }

  /** In a serial run the log is up to date for every settled session, and the rest is in flight. */
  lemma StepKeepsSerialInv(w: World, a: Action)
    requires SerialInv(w)
    ensures SerialInv(Step(true, w, a))
  {
    hide Inv, InflightIsLive, RowLogged;
    StepKeepsInv(true, w, a);
    StepKeepsInflight(w, a);
    var r := Step(true, w, a);
    forall id | id in r.table && Settled(r, id)
      ensures RowLogged(r, id)
    {
      match a {
        case Commit(client, m) => if CanCommit(true, w, client, m) { CommitKeepsRowLogged(w, client, m, id); }
        case AppendRecord(client, written, ts) =>
          if client in w.inflight { AppendKeepsRowLogged(w, client, written, ts, id); }
        case AppendOther(_, _, _, _) => OtherKeepsRowLogged(w, a, id);
      }
    }
  }

  lemma {:induction false} RunKeepsSerialInv(w: World, acts: seq<Action>)
    requires SerialInv(w)
    ensures SerialInv(Run(true, w, acts))
    decreases |acts|
  {
    hide SerialInv;
    if acts != [] {
      StepKeepsSerialInv(w, acts[0]);
      RunKeepsSerialInv(Step(true, w, acts[0]), acts[1..]);
    }
  }

  // ---------- what recovery restores ----------

  /** In any run, overlapping or not and cut anywhere: replay gives a session its live progress exactly
      when its last appended record shows it. A session without a record is left as it was found. */
  lemma {:induction false} ReplayIsCurrentExactly(serial: bool, acts: seq<Action>, t: Table, order: seq<string>,
                                                  id: string)
    requires var w := Run(serial, START, acts);
             id in w.table && FitsTable(w.registry, t) && forall s :: s in order <==> s in w.logs
    ensures var w := Run(serial, START, acts);
            var r := RecoverAll(t, order, w.logs);
            var hs := Records(w, id);
            && (hs == [] ==> Lookup(r, id) == Lookup(t, id))
            && (hs != [] ==> id in r && (SameProgress(r[id], w.table[id]) <==> SameProgress(hs[|hs| - 1], w.table[id])))
  {
    hide Inv, Run, Step, RecoverAll, SameProgress, FitsTable, Records;
    StartIsInv();
    RunKeepsInv(serial, START, acts);
    ReplayedRow(Run(serial, START, acts), t, order, id);
  }

  /** One session after recovery, in terms of its records. */
  lemma {:induction false} ReplayedRow(w: World, t: Table, order: seq<string>, id: string)
    requires Inv(w) && id in w.table && FitsTable(w.registry, t) && forall s :: s in order <==> s in w.logs
    ensures var r := RecoverAll(t, order, w.logs);
            var hs := Records(w, id);
            && Lookup(r, id) == Recovered(Lookup(t, id), hs)
            && (hs != [] ==> id in r && (forall m :: SameProgress(r[id], m) <==> SameProgress(hs[|hs| - 1], m)))
  {
    hide OneToOne, FitsLogs, RecoverAll, SessionsOf;
    RecoverAllOfSession(w.registry, t, order, w.logs, id);
    NothingSaved(id);
  }

  lemma {:induction false} NothingSaved(id: string)
    ensures SessionsOf([], id) == []
  {
  }

  /** Log and table agree: after any serial run of saves, replaying the shards in any order onto the empty
      table, the live table or any older copy of it gives every settled session its live state, version,
      handshake and mitigation, and the live row comes back unchanged. When all sessions are settled the
      live table comes back as it is. */
  lemma {:induction false} RecoveryRestoresProgress(acts: seq<Action>, t: Table, order: seq<string>)
    requires var w := Run(true, START, acts);
             FitsTable(w.registry, t) && forall s :: s in order <==> s in w.logs
    ensures var w := Run(true, START, acts);
            var r := RecoverAll(t, order, w.logs);
            && r.Keys <= w.table.Keys
            && (forall id :: id in w.table && Settled(w, id) ==>
                  id in r && SameProgress(r[id], w.table[id]) && (t == w.table ==> r[id] == w.table[id]))
            && ((forall id :: id in w.table ==> Settled(w, id)) ==>
                  r.Keys == w.table.Keys && (t == w.table ==> r == w.table))
  {
    hide SerialInv, FitsTable, Run, Step, RecoverAll, SameProgress;
    StartIsSerialInv();
    RunKeepsSerialInv(START, acts);
    var w := Run(true, START, acts);
    var r := RecoverAll(t, order, w.logs);
    forall id
      ensures id in r ==> id in w.table
      ensures id in w.table && Settled(w, id) ==>
                id in r && SameProgress(r[id], w.table[id]) && (t == w.table ==> r[id] == w.table[id])
    {
      RestoredSession(w, t, order, id);
    }
  }

  lemma StartIsSerialInv()
    ensures SerialInv(START)
  {
  }

  lemma {:induction false} RestoredSession(w: World, t: Table, order: seq<string>, id: string)
    requires SerialInv(w) && FitsTable(w.registry, t) && forall s :: s in order <==> s in w.logs
    ensures var r := RecoverAll(t, order, w.logs);
            && (id in r ==> id in w.table)
            && (id in w.table && Settled(w, id) ==>
                  id in r && SameProgress(r[id], w.table[id]) && (t == w.table ==> r[id] == w.table[id]))
  {
    hide OneToOne, FitsLogs, RecoverAll, SessionsOf, InflightIsLive, Settled;
    RecoverAllOfSession(w.registry, t, order, w.logs, id);
    if id in w.table {
      ReplayedRow(w, t, order, id);
      assert Settled(w, id) ==> RowLogged(w, id);
    } else {
      assert Lookup(RecoverAll(t, order, w.logs), id) == None;
    }
  }

  /** What recovery onto the empty table does not restore, exactly, in any run: a session gets the
      progress of its last record and the other columns of its first one, so it comes back in full if and
      only if the last record shows the live progress and the first one had today's other columns. */
  lemma {:induction false} RecoveredFromNothingExactly(serial: bool, acts: seq<Action>, order: seq<string>, id: string)
    requires var w := Run(serial, START, acts); id in w.table && forall s :: s in order <==> s in w.logs
    requires Records(Run(serial, START, acts), id) != []
    ensures var w := Run(serial, START, acts);
            var r := RecoverAll(map[], order, w.logs);
            var hs := Records(w, id);
            && id in r && r[id] == WithProgress(hs[0], hs[|hs| - 1])
            && (r[id] == w.table[id] <==>
                  && SameProgress(hs[|hs| - 1], w.table[id])
                  && hs[0].firmware == w.table[id].firmware && hs[0].requestedAt == w.table[id].requestedAt)
  {
    hide Run, Step, RecoverAll, SessionsOf, OneToOne, FitsLog;
    StartIsInv();
    RunKeepsInv(serial, START, acts);
    var w := Run(serial, START, acts);
    ReplayedRow(w, map[], order, id);
    NothingSaved(id);
    FirstFits(w.registry, w.table[id].shard, w.logs[w.table[id].shard], id);
  }

  lemma {:induction false} FirstFits(reg: Registry, shard: string, rs: seq<Record>, id: string)
    requires FitsLog(reg, shard, rs)
    ensures forall k :: 0 <= k < |SessionsOf(rs, id)| ==>
              SessionsOf(rs, id)[k].id == id && Fits(reg, SessionsOf(rs, id)[k])
  {
    if rs != [] {
      FirstFits(reg, shard, rs[..|rs| - 1], id);
    }
  }
}

/** The store as an object: saves of sqlite_entities.go with the append of sqlite.go, RecoverFromShards of
    recovery.go, and the files that runs of saves leave on disk. */
module RecoveryService {
  import opened Prelude
  import opened Sessions
  import opened ShardLog
  import opened Recovery
  import opened SaveRuns

  datatype Report = Report(totalShards: nat, rebuiltShards: nat, damaged: seq<string>, totalRecords: nat, errors: nat)

  type Files = map<Path, Bytes>

  function AppendedFile(files: Files, path: Path, line: Bytes): Files {
    files[path := (if path in files then files[path] else []) + line + [NEWLINE]]
  }

  /** Recovering the files a directory listing names, one after the other; a file whose name leads to
      a path that does not exist is damaged and changes nothing. */
  ghost function RecoverEntries(c: Codec, files: Files, t: Table, entries: seq<Path>): Table {
    if entries == [] then t
    else
      var before := RecoverEntries(c, files, t, entries[..|entries| - 1]);
      var path := ShardPath(ShardOfFile(entries[|entries| - 1]));
      if path in files then Replay(before, Decoded(c, Lines(files[path]))) else before
  }

  // How the records of other tables replay: true where their INSERT succeeds.
  type Accepts = Record -> bool

  ghost predicate Replays(accepts: Accepts, t: Table, r: Record) {
    match r
    case SessionRecord(m, _) => !NumberTaken(t, m)
    case OtherRecord(_, _, _) => accepts(r)
  }

  /** How many of the lines are counted as records; each of the others is reported as an error. */
  ghost function Counted(c: Codec, accepts: Accepts, t: Table, lines: seq<Bytes>): (n: nat)
    ensures n <= |lines|
  {
    if lines == [] then 0
    else
      var front := lines[..|lines| - 1];
      Counted(c, accepts, t, front)
      + match c.decode(lines[|lines| - 1])
        case Some(r) => if Replays(accepts, Replay(t, Decoded(c, front)), r) then 1 else 0
        case None => 0
  }

  /** The report on the files of a directory listing. */
  ghost function ReportOf(c: Codec, accepts: Accepts, files: Files, t: Table, entries: seq<Path>): (r: Report)
    ensures r.totalShards == |entries| == r.rebuiltShards + |r.damaged|
  {
    if entries == [] then Report(0, 0, [], 0, 0)
    else
      var front, shardID := entries[..|entries| - 1], ShardOfFile(entries[|entries| - 1]);
      var r := ReportOf(c, accepts, files, t, front);
      if ShardPath(shardID) in files then
        WithShard(r.(totalShards := r.totalShards + 1),
                  Counted(c, accepts, RecoverEntries(c, files, t, front), Lines(files[ShardPath(shardID)])),
                  |Lines(files[ShardPath(shardID)])|)
      else r.(totalShards := r.totalShards + 1, damaged := r.damaged + [shardID], errors := r.errors + 1)
  }

  /** How many lines the listed files have, a file that is not found counting as one. */
  function LinesListed(files: Files, entries: seq<Path>): nat {
    if entries == [] then 0
    else
      var n := |entries| - 1;
      var path := ShardPath(ShardOfFile(entries[n]));
      LinesListed(files, entries[..n]) + if path in files then |Lines(files[path])| else 1
  }

  /** Nothing is left out of a report: every line of every listed file is a record or an error, and so is every
      file that is not found. */
  lemma {:induction false} ReportAccounts(c: Codec, accepts: Accepts, files: Files, t: Table, entries: seq<Path>)
    ensures var r := ReportOf(c, accepts, files, t, entries);
            && r.totalShards == |entries| == r.rebuiltShards + |r.damaged|
            && r.totalRecords + r.errors == LinesListed(files, entries)
            && |r.damaged| <= r.errors
  {
    hide Lines, Counted, RecoverEntries, ShardOfFile, ShardPath;
    if entries != [] {
      ReportAccounts(c, accepts, files, t, entries[..|entries| - 1]);
    }
  }

  /** The damaged shards are exactly those whose file is not found. */
  lemma {:induction false} DamagedExactly(c: Codec, accepts: Accepts, files: Files, t: Table, entries: seq<Path>,
                                          s: string)
    ensures s in ReportOf(c, accepts, files, t, entries).damaged <==>
            ShardPath(s) !in files && exists k :: 0 <= k < |entries| && ShardOfFile(entries[k]) == s
  {
    hide Lines, Counted, RecoverEntries, ShardOfFile, ShardPath;
    if entries != [] {
      var n := |entries| - 1;
      var front := entries[..n];
      DamagedExactly(c, accepts, files, t, front, s);
      if k :| 0 <= k < n && ShardOfFile(entries[k]) == s {
        assert front[k] == entries[k];
      }
      if k :| 0 <= k < n && ShardOfFile(front[k]) == s {
        assert front[k] == entries[k];
      }
    }
  }

  function WithShard(r: Report, counted: nat, lines: nat): Report
    requires counted <= lines
  {
    Report(r.totalShards, r.rebuiltShards + 1, r.damaged, r.totalRecords + counted, r.errors + lines - counted)
  }

  class Store {
    const codec: Codec
    const accepts: Accepts
    var table: Table
    var files: Files

    constructor (codec: Codec, accepts: Accepts)
      ensures this.codec == codec && this.accepts == accepts && table == map[] && files == map[]
    {
      this.codec, this.accepts := codec, accepts;
      table, files := map[], map[];
    }

    method CheckNumber(m: Session) returns (taken: bool)
      ensures taken <==> NumberTaken(table, m)
      ensures taken <==> exists id :: id in table && id != m.id && table[id].number == m.number
    {
      taken := false;
      var rows := table.Keys;
      while rows != {}
        invariant rows <= table.Keys
        invariant taken <==> exists id :: id in table && id !in rows && id != m.id && table[id].number == m.number
        decreases rows
      {
        var id :| id in rows;
        rows := rows - {id};
        if id != m.id && table[id].number == m.number {
          taken := true;
        }
      }
    }

    /** The transaction of Save: fails stands for an error of the database. */
    method CommitSession(m: Session, fails: bool) returns (ok: bool)
      modifies this`table
      ensures ok <==> !fails && !NumberTaken(old(table), m)
      ensures table == if ok then Upserted(old(table), m) else old(table)
      ensures ok <==> !fails && forall id :: id in old(table) && id != m.id ==> old(table)[id].number != m.number
      ensures ok && m.id in old(table) ==> table == old(table)[m.id := m.(requestedAt := old(table)[m.id].requestedAt)]
      ensures ok && m.id !in old(table) ==> table == old(table)[m.id := m]
    {
      var taken := CheckNumber(m);
      if fails || taken {
        return false;
      }
      var row := m;
      if m.id in table {
        row := row.(requestedAt := table[m.id].requestedAt);
      }
      table := table[m.id := row];
      return true;
    }

    /** appendShardRecord. written says whether the append succeeds; nobody looks at the error. */
    method AppendShardRecord(shardID: string, r: Record, written: bool)
      modifies this`files
      ensures files == if written then AppendedFile(old(files), ShardPath(shardID), codec.encode(r)) else old(files)
      ensures written ==>
                var path := ShardPath(shardID);
                files == old(files)[path := (if path in old(files) then old(files)[path] else [])
                                            + codec.encode(r) + [10]]
    {
      if written {
        var path := ShardPath(shardID);
        var data := if path in files then files[path] else [];
        files := files[path := data + codec.encode(r) + [NEWLINE]];
      }
    }

    /** A save that nothing interrupts: the row is committed first, and the reply says nothing about the
        append that follows. */
    method SaveSession(m: Session, fails: bool, written: bool, ts: string) returns (ok: bool)
      modifies this
      ensures ok <==> !fails && !NumberTaken(old(table), m)
      ensures table == if ok then Upserted(old(table), m) else old(table)
      ensures files == if ok && written
                       then AppendedFile(old(files), ShardPath(m.shard), codec.encode(SessionRecord(m, ts)))
                       else old(files)
    {
      ok := CommitSession(m, fails);
      if ok {
        AppendShardRecord(m.shard, SessionRecord(m, ts), written);
      }
    }

    method ReplayRecord(r: Record) returns (ok: bool)
      modifies this`table
      ensures ok <==> Replays(accepts, old(table), r)
      ensures table == ReplayOne(old(table), r)
      ensures r.OtherRecord? ==> (ok <==> accepts(r)) && table == old(table)
      ensures r.SessionRecord? ==>
                (ok <==> forall id :: id in old(table) && id != r.m.id ==> old(table)[id].number != r.m.number)
      ensures r.SessionRecord? && !ok ==> table == old(table)
      ensures r.SessionRecord? && ok ==>
                table == old(table)[r.m.id :=
                  if r.m.id !in old(table) then r.m
                  else old(table)[r.m.id].(state := r.m.state, version := r.m.version,
                                           handshakeID := r.m.handshakeID, mitigationID := r.m.mitigationID)]
    {
      if r.OtherRecord? {
        return accepts(r);
      }
      var m := r.m;
      var taken := CheckNumber(m);
      if taken {
        return false;
      }
      if m.id in table {
        var row := table[m.id];
        row := row.(state := m.state, version := m.version);
        row := row.(handshakeID := m.handshakeID, mitigationID := m.mitigationID);
        table := table[m.id := row];
      } else {
        table := table[m.id := m];
      }
      return true;
    }

    /** recoverShard. Every line is either counted as a record or reported as an error. */
    method RecoverShard(data: Bytes, report: Report) returns (r: Report)
      modifies this`table
      ensures table == Replay(old(table), Decoded(codec, Lines(data)))
      ensures r == WithShard(report, Counted(codec, accepts, old(table), Lines(data)), |Lines(data)|)
    {
      hide Lines, Decoded, Replay, ReplayOne, Counted;
      r := report;
      var lines := SplitLines(data);
      NothingToReplay(codec, accepts, lines, table);
      for i := 0 to |lines|
        invariant table == Replay(old(table), Decoded(codec, lines[..i]))
        invariant r == report.(totalRecords := r.totalRecords, errors := r.errors)
        invariant r.totalRecords == report.totalRecords + Counted(codec, accepts, old(table), lines[..i])
        invariant r.errors == report.errors + i - Counted(codec, accepts, old(table), lines[..i])
      {
        var rec := codec.decode(lines[i]);
        ReplayLine(codec, accepts, lines, i, old(table));
        if rec.None? {
          r := r.(errors := r.errors + 1);
        } else {
          var ok := ReplayRecord(rec.value);
          r := if ok then r.(totalRecords := r.totalRecords + 1) else r.(errors := r.errors + 1);
        }
      }
      assert lines[..|lines|] == lines;
      r := r.(rebuiltShards := r.rebuiltShards + 1);
    }

    /** RecoverFromShards on the files that the directory walk lists. */
    method RecoverFromShards(entries: seq<Path>) returns (report: Report)
      modifies this`table
      ensures table == RecoverEntries(codec, files, old(table), entries)
      ensures report == ReportOf(codec, accepts, files, old(table), entries)
    {
      hide Lines, Decoded, Replay, Counted, ShardOfFile, ShardPath;
      report := Report(0, 0, [], 0, 0);
      for i := 0 to |entries|
        invariant table == RecoverEntries(codec, files, old(table), entries[..i])
        invariant report == ReportOf(codec, accepts, files, old(table), entries[..i])
      {
        assert entries[..i + 1][..i] == entries[..i];
        var shardID := ShardOfFile(entries[i]);
        report := report.(totalShards := report.totalShards + 1);
        var path := ShardPath(shardID);
        if path in files {
          report := RecoverShard(files[path], report);
        } else {
          report := report.(damaged := report.damaged + [shardID], errors := report.errors + 1);
        }
      }
      assert entries[..|entries|] == entries;
    }
  }

  lemma {:induction false} NothingToReplay(c: Codec, accepts: Accepts, lines: seq<Bytes>, t: Table)
    ensures Replay(t, Decoded(c, lines[..0])) == t && Counted(c, accepts, t, lines[..0]) == 0
  {
  }

  lemma {:induction false} ReplayLine(c: Codec, accepts: Accepts, lines: seq<Bytes>, i: nat, t: Table)
    requires i < |lines|
    ensures var before := Replay(t, Decoded(c, lines[..i]));
            Replay(t, Decoded(c, lines[..i + 1])) ==
            match c.decode(lines[i]) case Some(r) => ReplayOne(before, r) case None => before
    ensures var before := Replay(t, Decoded(c, lines[..i]));
            Counted(c, accepts, t, lines[..i + 1]) == Counted(c, accepts, t, lines[..i]) +
            match c.decode(lines[i]) case Some(r) => if Replays(accepts, before, r) then 1 else 0 case None => 0
  {
    hide Replay, Decoded;
    assert lines[..i + 1] == lines[..i] + [lines[i]] && lines[..i + 1][..i] == lines[..i];
    DecodedSnoc(c, lines[..i], lines[i]);
    var before := Decoded(c, lines[..i]);
    if c.decode(lines[i]).Some? {
      ReplaySnoc(t, before, c.decode(lines[i]).value);
    } else {
      assert before + [] == before;
    }
  }

  /** The records of a shard that replay: every session record, and what else is accepted. */
  function Replayable(accepts: Accepts, rs: seq<Record>): nat {
    if rs == [] then 0
    else
      Replayable(accepts, rs[..|rs| - 1]) + if rs[|rs| - 1].SessionRecord? || accepts(rs[|rs| - 1]) then 1 else 0
  }

  /** Recovery never refuses a session record that a run of saves has logged. */
  lemma {:induction false} SessionRecordsAlwaysReplay(c: Codec, accepts: Accepts, reg: Registry, t: Table,
                                                       shard: string, rs: seq<Record>)
    requires Faithful(c) && OneToOne(reg) && FitsTable(reg, t) && FitsLog(reg, shard, rs)
    ensures Counted(c, accepts, t, Encoded(c, rs)) == Replayable(accepts, rs)
  {
    hide Faithful, Replay, Decoded, SessionsOf, OneToOne, FitsTable, NumberTaken, Encoded;
    if rs != [] {
      var front, last := rs[..|rs| - 1], rs[|rs| - 1];
      SessionRecordsAlwaysReplay(c, accepts, reg, t, shard, front);
      EncodedLast(c, rs);
      DecodedUndoesEncoded(c, front);
      ReplayOfSession(reg, t, shard, front, "");
      if last.SessionRecord? {
        NumberIsFree(reg, Replay(t, front), last.m);
      }
    }
  }

  lemma NumberIsFree(reg: Registry, t: Table, m: Session)
    requires OneToOne(reg) && FitsTable(reg, t) && Fits(reg, m)
    ensures !NumberTaken(t, m)
  {
  }

  lemma {:induction false} ReplaySnoc(t: Table, rs: seq<Record>, r: Record)
    ensures Replay(t, rs + [r]) == ReplayOne(Replay(t, rs), r)
  {
    assert (rs + [r])[..|rs|] == rs;
  }

  /** The files hold exactly the logs, one file a shard. */
  ghost predicate FilesHold(c: Codec, files: Files, logs: Logs) {
    forall s :: s in logs ==> SplitID(s).1 != "" && ShardPath(s) in files && files[ShardPath(s)] == FileOf(c, logs[s])
  }

  /** Walking the files of the shards is RecoverAll on their logs, so what Recovery proves about logs
      holds for the bytes on disk. Shards without a protocol are excluded: their file is not found. */
  lemma {:induction false} WalkIsRecoverAll(c: Codec, files: Files, logs: Logs, t: Table, order: seq<string>)
    requires Faithful(c) && FilesHold(c, files, logs) && forall s :: s in order ==> s in logs
    ensures RecoverEntries(c, files, t, Paths(order)) == RecoverAll(t, order, logs)
  {
    hide Faithful, FilesHold, SplitID, ShardPath, ShardOfFile, Lines, Decoded, Replay;
    if order != [] {
      var n := |order| - 1;
      WalkIsRecoverAll(c, files, logs, t, order[..n]);
      assert Paths(order)[..n] == Paths(order[..n]);
      FileOfShard(c, files, logs, order[n]);
    }
  }

  lemma {:induction false} FileOfShard(c: Codec, files: Files, logs: Logs, s: string)
    requires Faithful(c) && FilesHold(c, files, logs) && s in logs
    ensures var path := ShardPath(ShardOfFile(ShardPath(s)));
            path == ShardPath(s) && path in files && Decoded(c, Lines(files[path])) == logs[s]
  {
    hide SplitID, ShardOfFile, Lines, Decoded;
    RecoveryFindsFileExactly(s);
    DecodedUndoesEncoded(c, logs[s]);
    LinesOfWritten(Encoded(c, logs[s]));
  }

  ghost predicate Mirrors(c: Codec, files: Files, logs: Logs) {
    FilesHold(c, files, logs) && forall p :: p in files ==> exists s :: s in logs && ShardPath(s) == p
  }

  /** An append keeps the files and the logs in step. */
  lemma AppendKeepsMirror(c: Codec, files: Files, logs: Logs, shard: string, r: Record)
    requires Mirrors(c, files, logs) && SplitID(shard).1 != ""
    ensures Mirrors(c, AppendedFile(files, ShardPath(shard), c.encode(r)), Appended(logs, shard, r))
  {
    hide SplitID, ShardPath, FileOf;
    var after, later := AppendedFile(files, ShardPath(shard), c.encode(r)), Appended(logs, shard, r);
    if ShardPath(shard) in files {
      var s :| s in logs && ShardPath(s) == ShardPath(shard);
      if s != shard { PathsDiffer(s, shard); }
    }
    FileOfNext(c, LogOf(logs, shard), r);
    forall s | s in logs && s != shard
      ensures ShardPath(s) != ShardPath(shard)
    {
      PathsDiffer(s, shard);
    }
    forall p | p in after
      ensures exists s :: s in later && ShardPath(s) == p
    {
      if p == ShardPath(shard) {
        assert shard in later;
      } else {
        var s :| s in logs && ShardPath(s) == p;
        assert s in later;
      }
    }
  }

  lemma FileOfNext(c: Codec, rs: seq<Record>, r: Record)
    ensures FileOf(c, rs + [r]) == FileOf(c, rs) + c.encode(r) + [NEWLINE]
    ensures FileOf(c, []) == []
  {
    assert Encoded(c, rs + [r])[..|rs|] == Encoded(c, rs);
  }

  /** What one step writes to disk: the record of an append that succeeds. */
  ghost function DiskStep(c: Codec, w: World, files: Files, a: Action): Files {
    match a
    case Commit(_, _) => files
    case AppendRecord(client, written, ts) =>
      if client in w.inflight && written
      then AppendedFile(files, ShardPath(w.inflight[client].shard), c.encode(SessionRecord(w.inflight[client], ts)))
      else files
    case AppendOther(shard, kind, body, ts) =>
      AppendedFile(files, ShardPath(shard), c.encode(OtherRecord(kind, body, ts)))
  }

  /** The files that a run leaves on disk. */
  ghost function DiskAfter(serial: bool, c: Codec, w: World, files: Files, acts: seq<Action>): Files
    decreases |acts|
  {
    if acts == [] then files
    else DiskAfter(serial, c, Step(serial, w, acts[0]), DiskStep(c, w, files, acts[0]), acts[1..])
  }

  /** The shard that the action names has a protocol. */
  predicate HasProtocol(a: Action) {
    match a
    case Commit(_, m) => SplitID(m.shard).1 != ""
    case AppendRecord(_, _, _) => true
    case AppendOther(shard, _, _, _) => SplitID(shard).1 != ""
  }

  ghost predicate OnDisk(c: Codec, w: World, files: Files) {
    Mirrors(c, files, w.logs) && forall k :: k in w.inflight ==> SplitID(w.inflight[k].shard).1 != ""
  }

  lemma StepOnDisk(serial: bool, c: Codec, w: World, files: Files, a: Action)
    requires OnDisk(c, w, files) && HasProtocol(a)
    ensures OnDisk(c, Step(serial, w, a), DiskStep(c, w, files, a))
  {
    hide Mirrors, SplitID, ShardPath, AppendedFile, Appended, NumberTaken, Pending;
    match a {
      case Commit(_, _) =>
      case AppendRecord(client, written, ts) =>
        if client in w.inflight {
          AppendKeepsMirror(c, files, w.logs, w.inflight[client].shard, SessionRecord(w.inflight[client], ts));
        }
      case AppendOther(shard, kind, body, ts) =>
        AppendKeepsMirror(c, files, w.logs, shard, OtherRecord(kind, body, ts));
    }
  }

  lemma {:induction false} DiskMirrorsLogs(serial: bool, c: Codec, w: World, files: Files, acts: seq<Action>)
    requires OnDisk(c, w, files) && forall k :: 0 <= k < |acts| ==> HasProtocol(acts[k])
    ensures OnDisk(c, Run(serial, w, acts), DiskAfter(serial, c, w, files, acts))
    decreases |acts|
  {
    hide OnDisk, HasProtocol, Step, DiskStep;
    if acts != [] {
      StepOnDisk(serial, c, w, files, acts[0]);
      DiskMirrorsLogs(serial, c, Step(serial, w, acts[0]), DiskStep(c, w, files, acts[0]), acts[1..]);
    }
  }

  lemma NothingOnDisk(c: Codec)
    ensures OnDisk(c, START, map[])
  {
  }

  function Paths(order: seq<string>): seq<Path> {
    seq(|order|, i requires 0 <= i < |order| => ShardPath(order[i]))
  }

  /** Walking the bytes that any run leaves on disk, overlapping or not and cut anywhere, is replaying its
      logs; so all that is proved about replay holds for the files. */
  lemma {:induction false} DiskWalkIsReplay(serial: bool, c: Codec, acts: seq<Action>, t: Table, order: seq<string>)
    requires Faithful(c) && forall k :: 0 <= k < |acts| ==> HasProtocol(acts[k])
    requires forall s :: s in order ==> s in Run(serial, START, acts).logs
    ensures RecoverEntries(c, DiskAfter(serial, c, START, map[], acts), t, Paths(order)) ==
            RecoverAll(t, order, Run(serial, START, acts).logs)
  {
    hide Run, DiskAfter, RecoverEntries, RecoverAll, Faithful, SplitID, ShardPath, HasProtocol, FilesHold;
    NothingOnDisk(c);
    DiskMirrorsLogs(serial, c, START, map[], acts);
    WalkIsRecoverAll(c, DiskAfter(serial, c, START, map[], acts), Run(serial, START, acts).logs, t, order);
  }

  /** End to end: the bytes that a serial run of saves leaves on disk, walked in any order onto the empty,
      the live or an older table, give every settled session its live progress; when all are settled the
      live table comes back as it is. */
  lemma {:induction false} RecoveryFromDisk(c: Codec, acts: seq<Action>, t: Table, order: seq<string>)
    requires Faithful(c) && forall k :: 0 <= k < |acts| ==> HasProtocol(acts[k])
    requires FitsTable(Run(true, START, acts).registry, t)
    requires forall s :: s in order <==> s in Run(true, START, acts).logs
    ensures var w := Run(true, START, acts);
            var r := RecoverEntries(c, DiskAfter(true, c, START, map[], acts), t, Paths(order));
            && r.Keys <= w.table.Keys
            && (forall id :: id in w.table && Settled(w, id) ==> id in r && SameProgress(r[id], w.table[id]))
            && ((forall id :: id in w.table ==> Settled(w, id)) ==>
                  r.Keys == w.table.Keys && (t == w.table ==> r == w.table))
  {
    hide Run, DiskAfter, RecoverEntries, RecoverAll, Faithful, HasProtocol, FitsTable, SameProgress, Settled;
    DiskWalkIsReplay(true, c, acts, t, order);
    RecoveryRestoresProgress(acts, t, order);
  }

  lemma PathsDiffer(a: string, b: string)
    requires SplitID(a).1 != "" && SplitID(b).1 != "" && a != b
    ensures ShardPath(a) != ShardPath(b)
  {
    PathDeterminesShard(a);
    PathDeterminesShard(b);
  }

  lemma PathDeterminesShard(s: string)
    requires SplitID(s).1 != ""
    ensures s == ShardPath(s).dir + "_" + ShardPath(s).name[..|ShardPath(s).name| - 6]
  {
    assert s == SplitID(s).0 + "_" + SplitID(s).1;
    assert ShardPath(s).name[..|ShardPath(s).name| - 6] == SplitID(s).1;
  }
}

/** Rebuilding the session table from the shard logs: internal/storage/recovery.go, on records and on bytes. */
module Recovery {
  import opened Prelude
  import opened Sessions
  import opened ShardLog

  type Table = map<string, Session>

  // A line of a shard file, with the time ts at which it was appended; only session records touch the
  // session table.
  datatype Record = SessionRecord(m: Session, ts: string) | OtherRecord(kind: string, body: string, ts: string)

  /** session_no is UNIQUE: an insert or upsert that would repeat another row's number fails. */
  ghost predicate NumberTaken(t: Table, m: Session) {
    exists id :: id in t && id != m.id && t[id].number == m.number
  }

  /** The four columns that replaySession writes onto an existing row. */
  function WithProgress(row: Session, m: Session): Session {
    row.(state := m.state, version := m.version, handshakeID := m.handshakeID, mitigationID := m.mitigationID)
  }

  ghost function ReplayOne(t: Table, r: Record): Table {
    match r
    case SessionRecord(m, _) =>
      if NumberTaken(t, m) then t
      else t[m.id := if m.id in t then WithProgress(t[m.id], m) else m]
    case OtherRecord(_, _, _) => t
  }

  /** Replaying the records of a file in order. */
  ghost function Replay(t: Table, rs: seq<Record>): Table {
    if rs == [] then t else ReplayOne(Replay(t, rs[..|rs| - 1]), rs[|rs| - 1])
  }

  type Logs = map<string, seq<Record>>

  /** Recovering shard after shard, in the order in which the directories are read. */
  ghost function RecoverAll(t: Table, order: seq<string>, logs: Logs): Table
    requires forall s :: s in order ==> s in logs
  {
    if order == [] then t
    else Replay(RecoverAll(t, order[..|order| - 1], logs), logs[order[|order| - 1]])
  }

  // ---------- one session at a time ----------

  function SessionsOf(rs: seq<Record>, id: string): seq<Session> {
    if rs == [] then []
    else
      var last := rs[|rs| - 1];
      SessionsOf(rs[..|rs| - 1], id) + if last.SessionRecord? && last.m.id == id then [last.m] else []
  }

  function Lookup(t: Table, id: string): Option<Session> {
    if id in t then Some(t[id]) else None
  }

  /** A row after replaying the records hs of its session: its base is the old row or the first record. */
  function Recovered(row: Option<Session>, hs: seq<Session>): Option<Session> {
    if hs == [] then row
    else Some(WithProgress(if row.Some? then row.value else hs[0], hs[|hs| - 1]))
  }

  // For each session that was ever saved its number and its shard, which never change.
  type Registry = map<string, (string, string)>

  predicate Fits(reg: Registry, m: Session) {
    m.id in reg && reg[m.id] == (m.number, m.shard)
  }

  ghost predicate OneToOne(reg: Registry) {
    forall a, b :: a in reg && b in reg && reg[a].0 == reg[b].0 ==> a == b
  }

  ghost predicate FitsTable(reg: Registry, t: Table) {
    forall id :: id in t ==> t[id].id == id && Fits(reg, t[id])
  }

  ghost predicate FitsLog(reg: Registry, shard: string, rs: seq<Record>) {
    forall i :: 0 <= i < |rs| && rs[i].SessionRecord? ==> Fits(reg, rs[i].m) && rs[i].m.shard == shard
  }

  ghost predicate FitsLogs(reg: Registry, logs: Logs) {
    forall s :: s in logs ==> FitsLog(reg, s, logs[s])
  }

  lemma {:induction false} ReplayOfSession(reg: Registry, t: Table, shard: string, rs: seq<Record>, id: string)
    requires OneToOne(reg) && FitsTable(reg, t) && FitsLog(reg, shard, rs)
    ensures FitsTable(reg, Replay(t, rs))
    ensures Lookup(Replay(t, rs), id) == Recovered(Lookup(t, id), SessionsOf(rs, id))
    ensures SessionsOf(rs, id) != [] ==> id in reg && reg[id].1 == shard
  {
    hide OneToOne, FitsTable, ReplayOne, Recovered;
    if rs == [] {
      NothingReplayed(Lookup(t, id));
    } else {
      var front, last := rs[..|rs| - 1], rs[|rs| - 1];
      ReplayOfSession(reg, t, shard, front, id);
      ReplayOneOfSession(reg, Replay(t, front), last, id);
      var more := if last.SessionRecord? && last.m.id == id then [last.m] else [];
      RecoveredConcat(Lookup(t, id), SessionsOf(front, id), more);
    }
  }

  lemma NothingReplayed(row: Option<Session>)
    ensures Recovered(row, []) == row
  {
  }

  lemma RecoveredConcat(row: Option<Session>, hs: seq<Session>, more: seq<Session>)
    ensures Recovered(row, hs + more) == Recovered(Recovered(row, hs), more)
  {
  }

  lemma ReplayOneOfSession(reg: Registry, t: Table, r: Record, id: string)
    requires OneToOne(reg) && FitsTable(reg, t) && (r.SessionRecord? ==> Fits(reg, r.m))
    ensures FitsTable(reg, ReplayOne(t, r))
    ensures Lookup(ReplayOne(t, r), id) ==
            Recovered(Lookup(t, id), if r.SessionRecord? && r.m.id == id then [r.m] else [])
  {
    if r.SessionRecord? {
      hide OneToOne, FitsTable, NumberTaken;
      ReplayOneFits(reg, t, r.m, r.ts);
    }
  }

  lemma ReplayOneFits(reg: Registry, t: Table, m: Session, ts: string)
    requires OneToOne(reg) && FitsTable(reg, t) && Fits(reg, m)
    ensures FitsTable(reg, ReplayOne(t, SessionRecord(m, ts)))
    ensures ReplayOne(t, SessionRecord(m, ts)) == t[m.id := if m.id in t then WithProgress(t[m.id], m) else m]
  {
  }

  lemma {:induction false} RecoverAllOfSession(reg: Registry, t: Table, order: seq<string>, logs: Logs, id: string)
    requires OneToOne(reg) && FitsTable(reg, t) && FitsLogs(reg, logs)
    requires forall s :: s in order ==> s in logs
    ensures FitsTable(reg, RecoverAll(t, order, logs))
    ensures Lookup(RecoverAll(t, order, logs), id) ==
            if id in reg && reg[id].1 in order then Recovered(Lookup(t, id), SessionsOf(logs[reg[id].1], id))
            else Lookup(t, id)
  {
    if order != [] {
      var n := |order| - 1;
      RecoverAllOfSession(reg, t, order[..n], logs, id);
      ReplayOfSession(reg, RecoverAll(t, order[..n], logs), order[n], logs[order[n]], id);
    }
  }

  /** The order in which shards are visited, and how often, does not matter: recovery is idempotent
      and order-independent from any table that knows its sessions by the same numbers and shards. */
  lemma {:induction false} RecoveryIgnoresOrder(reg: Registry, t: Table, one: seq<string>, other: seq<string>,
                                                logs: Logs)
    requires OneToOne(reg) && FitsTable(reg, t) && FitsLogs(reg, logs)
    requires (forall s :: s in one ==> s in logs) && (forall s :: s in one <==> s in other)
    ensures RecoverAll(t, one, logs) == RecoverAll(t, other, logs)
    ensures RecoverAll(RecoverAll(t, one, logs), other, logs) == RecoverAll(t, one, logs)
  {
    var a, b := RecoverAll(t, one, logs), RecoverAll(t, other, logs);
    RecoverAllOfSession(reg, t, one, logs, "");
    var c := RecoverAll(a, other, logs);
    forall id
      ensures Lookup(a, id) == Lookup(b, id) == Lookup(c, id)
    {
      RecoverAllOfSession(reg, t, one, logs, id);
      RecoverAllOfSession(reg, t, other, logs, id);
      RecoverAllOfSession(reg, a, other, logs, id);
    }
    SameLookups(a, b);
    SameLookups(c, a);
  }

  lemma SameLookups(a: Table, b: Table)
    requires forall id :: Lookup(a, id) == Lookup(b, id)
    ensures a == b
  {
    assert forall id :: id in a <==> Lookup(a, id).Some?;
    assert forall id :: id in b <==> Lookup(b, id).Some?;
    assert forall id :: id in a ==> Lookup(a, id) == Some(a[id]) && Lookup(b, id) == Some(b[id]);
  }

  // ---------- bytes ----------

  // JSON: what Marshal gives for a record, and what Unmarshal makes of a line.
  datatype Codec = Codec(encode: Record -> Bytes, decode: Bytes -> Option<Record>)

  /** Encoding is one line, decoding undoes it, and no proper prefix of an encoding decodes. */
  ghost predicate Faithful(c: Codec) {
    && (forall r :: IsRecord(c.encode(r)) && c.decode(c.encode(r)) == Some(r))
    && (forall r, p :: p < c.encode(r) ==> c.decode(p) == None)
  }

  function Encoded(c: Codec, rs: seq<Record>): (e: seq<Bytes>)
    ensures |e| == |rs|
  {
    seq(|rs|, i requires 0 <= i < |rs| => c.encode(rs[i]))
  }

  /** The records among the lines; a line that does not parse is passed over. */
  function Decoded(c: Codec, lines: seq<Bytes>): seq<Record> {
    if lines == [] then []
    else
      Decoded(c, lines[..|lines| - 1])
      + match c.decode(lines[|lines| - 1]) case Some(r) => [r] case None => []
  }

  /** The file of a shard holds its records. */
  function FileOf(c: Codec, rs: seq<Record>): Bytes {
    Written(Encoded(c, rs))
  }

  lemma {:induction false} DecodedSnoc(c: Codec, lines: seq<Bytes>, line: Bytes)
    ensures Decoded(c, lines + [line]) == Decoded(c, lines) + match c.decode(line) case Some(r) => [r] case None => []
  {
    assert (lines + [line])[..|lines|] == lines;
  }

  lemma {:induction false} DecodedConcat(c: Codec, a: seq<Bytes>, b: seq<Bytes>)
    ensures Decoded(c, a + b) == Decoded(c, a) + Decoded(c, b)
  {
    if b == [] {
      assert a + b == a && Decoded(c, a) + [] == Decoded(c, a);
    } else {
      var front, last := b[..|b| - 1], b[|b| - 1];
      assert a + b == a + front + [last] && b == front + [last];
      DecodedConcat(c, a, front);
      DecodedSnoc(c, a + front, last);
      DecodedSnoc(c, front, last);
    }
  }

  /** Lines that do not parse have no effect, wherever they stand. */
  lemma {:induction false} UnparseableLinesHaveNoEffect(c: Codec, a: seq<Bytes>, junk: seq<Bytes>, b: seq<Bytes>,
                                                        t: Table)
    requires forall line :: line in junk ==> c.decode(line) == None
    ensures Replay(t, Decoded(c, a + junk + b)) == Replay(t, Decoded(c, a + b))
  {
    JunkDecodes(c, junk);
    DecodedConcat(c, a + junk, b);
    DecodedConcat(c, a, junk);
    DecodedConcat(c, a, b);
    assert Decoded(c, a) + [] == Decoded(c, a);
  }

  lemma {:induction false} JunkDecodes(c: Codec, junk: seq<Bytes>)
    requires forall line :: line in junk ==> c.decode(line) == None
    ensures Decoded(c, junk) == []
  {
    if junk != [] {
      JunkDecodes(c, junk[..|junk| - 1]);
    }
  }

  lemma {:induction false} DecodedUndoesEncoded(c: Codec, rs: seq<Record>)
    requires Faithful(c)
    ensures AreRecords(Encoded(c, rs)) && Decoded(c, Encoded(c, rs)) == rs
  {
    if rs != [] {
      hide Faithful, Decoded, IsRecord, Encoded;
      var front, last := rs[..|rs| - 1], rs[|rs| - 1];
      DecodedUndoesEncoded(c, front);
      EncodedLast(c, rs);
      DecodedSnoc(c, Encoded(c, front), c.encode(last));
      assert rs == front + [last];
    }
  }

  lemma EncodedLast(c: Codec, rs: seq<Record>)
    requires Faithful(c) && rs != []
    ensures var n := |rs| - 1;
            && Encoded(c, rs) == Encoded(c, rs[..n]) + [c.encode(rs[n])]
            && IsRecord(c.encode(rs[n])) && c.decode(c.encode(rs[n])) == Some(rs[n])
  {
    hide IsRecord;
  }

  /** A crash at any byte of a shard file loses a tail of the records and nothing else: what recovery
      reads is exactly the records all of whose bytes, but for a last newline, had reached the file. */
  lemma TornFileRecoversAPrefix(c: Codec, rs: seq<Record>, n: nat) returns (k: nat)
    requires Faithful(c) && n <= |FileOf(c, rs)|
    ensures k <= |rs| && Decoded(c, Lines(FileOf(c, rs)[..n])) == rs[..k]
    ensures |FileOf(c, rs[..k])| <= n + 1
    ensures k < |rs| ==> n + 1 < |FileOf(c, rs[..k + 1])|
  {
    hide Lines, Decoded, Written;
    var es := Encoded(c, rs);
    DecodedUndoesEncoded(c, rs);
    var torn;
    k, torn := LinesOfTornFile(es, n);
    assert es[..k] == Encoded(c, rs[..k]);
    DecodedUndoesEncoded(c, rs[..k]);
    if torn == [] {
      assert es[..k] + [] == es[..k];
      if k < |rs| {
        NextRecord(c, rs, k);
      }
    } else {
      DecodedSnoc(c, es[..k], torn);
      NextRecord(c, rs, k);
      if torn == es[k] {
        assert rs[..k + 1] == rs[..k] + [rs[k]];
        k := k + 1;
        if k < |rs| {
          NextRecord(c, rs, k);
        }
      } else {
        assert torn < c.encode(rs[k]);
      }
    }
  }

  lemma NextRecord(c: Codec, rs: seq<Record>, k: nat)
    requires Faithful(c) && k < |rs|
    ensures FileOf(c, rs[..k + 1]) == FileOf(c, rs[..k]) + c.encode(rs[k]) + [NEWLINE]
    ensures |c.encode(rs[k])| > 0
  {
    var a, b := Encoded(c, rs[..k]), Encoded(c, rs[..k + 1]);
    assert b[..k] == a && b[k] == c.encode(rs[k]);
  }
}

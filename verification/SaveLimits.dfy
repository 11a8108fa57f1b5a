/** Runs that show where log and table part: overlapping saves, a crash between commit and append, a
    failed append, and columns that replay does not restore. */
module SaveLimits {
  import opened Prelude
  import opened Sessions
  import opened Recovery
  import opened SaveRuns

  const SHARD := "day_p"
  const NOW := ""
  const OLD: Session := Session("s", "n", Negotiating, "", "", "fw1", 0, 1, SHARD)
  const NEW: Session := Session("s", "n", Charging, "", "", "fw2", 0, 2, SHARD)

  lemma {:induction false} RunSnoc(serial: bool, w: World, acts: seq<Action>, a: Action)
    ensures Run(serial, w, acts + [a]) == Step(serial, Run(serial, w, acts), a)
    decreases |acts|
  {
    if acts == [] {
      assert (acts + [a])[1..] == [];
    } else {
      assert (acts + [a])[1..] == acts[1..] + [a];
      RunSnoc(serial, Step(serial, w, acts[0]), acts[1..], a);
    }
  }

  /** The first save is committed and appended. */
  lemma SavedOnce(serial: bool) returns (acts: seq<Action>)
    ensures Run(serial, START, acts) ==
            World(map["s" := OLD], map[SHARD := [SessionRecord(OLD, NOW)]], map["s" := ("n", SHARD)], map[], {})
  {
    acts := [Commit(0, OLD)] + [AppendRecord(0, true, NOW)];
    RunSnoc(serial, START, [], Commit(0, OLD));
    RunSnoc(serial, START, [Commit(0, OLD)], AppendRecord(0, true, NOW));
    assert [] + [Commit(0, OLD)] == [Commit(0, OLD)];
    assert Run(serial, START, []) == START;
    assert Step(serial, START, Commit(0, OLD)) ==
           World(map["s" := OLD], map[], map["s" := ("n", SHARD)], map[0 := OLD], {});
    assert [] + [SessionRecord(OLD, NOW)] == [SessionRecord(OLD, NOW)];
    assert map[0 := OLD] - {0} == map[];
  }

  /** And the second save is committed. */
  lemma CommittedTwice(serial: bool) returns (acts: seq<Action>)
    ensures Run(serial, START, acts) ==
            World(map["s" := NEW], map[SHARD := [SessionRecord(OLD, NOW)]], map["s" := ("n", SHARD)], map[1 := NEW], {})
  {
    var once := SavedOnce(serial);
    acts := once + [Commit(1, NEW)];
    RunSnoc(serial, START, once, Commit(1, NEW));
    var w := Run(serial, START, once);
    hide Run;
    assert !Pending(w, "s") && !NumberTaken(w.table, NEW) && Fits(w.registry, NEW);
  }

  lemma OneRecord(m: Session)
    ensures SessionsOf([SessionRecord(m, NOW)], m.id) == [m]
  {
    assert [SessionRecord(m, NOW)][..0] == [];
  }

  lemma TwoRecords(m: Session, n: Session)
    requires m.id == n.id
    ensures SessionsOf([SessionRecord(m, NOW), SessionRecord(n, NOW)], m.id) == [m, n]
  {
    OneRecord(m);
    SessionsSnoc([SessionRecord(m, NOW)], SessionRecord(n, NOW), m.id);
    assert [SessionRecord(m, NOW)] + [SessionRecord(n, NOW)] == [SessionRecord(m, NOW), SessionRecord(n, NOW)];
  }

  /** A crash between the commit and the append: recovery of the live table puts the older row back, also
      in a serial run. */
  lemma CrashBeforeAppendGoesBack() returns (acts: seq<Action>)
    ensures var w := Run(true, START, acts);
            && w.logs.Keys == {SHARD} && "s" in w.table && Pending(w, "s")
            && var r := RecoverAll(w.table, [SHARD], w.logs); "s" in r && r["s"].version < w.table["s"].version
  {
    acts := CommittedTwice(true);
    var w := Run(true, START, acts);
    GoesBack(true, acts);
    assert w.inflight[1].id == "s";
  }

  /** So does an append that fails: its error is not looked at. */
  lemma FailedAppendGoesBack() returns (acts: seq<Action>)
    ensures var w := Run(true, START, acts);
            && w.logs.Keys == {SHARD} && "s" in w.table && w.inflight == map[]
            && var r := RecoverAll(w.table, [SHARD], w.logs); "s" in r && r["s"].version < w.table["s"].version
  {
    var twice := CommittedTwice(true);
    acts := twice + [AppendRecord(1, false, NOW)];
    RunSnoc(true, START, twice, AppendRecord(1, false, NOW));
    assert Run(true, START, acts).inflight == map[];
    GoesBack(true, acts);
  }

  /** The last record of the session is the older one. */
  lemma {:induction false} GoesBack(serial: bool, acts: seq<Action>)
    requires var w := Run(serial, START, acts);
             && w.table == map["s" := NEW] && w.registry == map["s" := ("n", SHARD)]
             && w.logs == map[SHARD := [SessionRecord(OLD, NOW)]]
    ensures var w := Run(serial, START, acts);
            var r := RecoverAll(w.table, [SHARD], w.logs); "s" in r && r["s"].version == 1
  {
    OneRecord(OLD);
    StartIsInv();
    RunKeepsInv(serial, START, acts);
    var w := Run(serial, START, acts);
    assert FitsTable(w.registry, w.table);
    hide Run, RecoverAll, SessionsOf;
    ReplayedRow(w, w.table, [SHARD], "s");
  }

  /** Two overlapping saves that commit in one order and append in the other: nothing is in flight any more,
      no append has failed, and recovery of the live table puts the older row back. */
  lemma OverlappingSavesGoBack() returns (acts: seq<Action>)
    ensures var w := Run(false, START, acts);
            && w.inflight == map[] && w.lost == {} && w.logs.Keys == {SHARD} && "s" in w.table
            && var r := RecoverAll(w.table, [SHARD], w.logs); "s" in r && r["s"].version < w.table["s"].version
  {
    var first := [Commit(0, OLD)] + [Commit(1, NEW)];
    RunSnoc(false, START, [], Commit(0, OLD));
    RunSnoc(false, START, [Commit(0, OLD)], Commit(1, NEW));
    assert [] + [Commit(0, OLD)] == [Commit(0, OLD)] && Run(false, START, []) == START;
    var w1 := Step(false, START, Commit(0, OLD));
    assert w1 == World(map["s" := OLD], map[], map["s" := ("n", SHARD)], map[0 := OLD], {});
    var w2 := Step(false, w1, Commit(1, NEW));
    assert w2 == World(map["s" := NEW], map[], map["s" := ("n", SHARD)], map[0 := OLD, 1 := NEW], {});
    var third := first + [AppendRecord(1, true, NOW)];
    acts := third + [AppendRecord(0, true, NOW)];
    RunSnoc(false, START, first, AppendRecord(1, true, NOW));
    RunSnoc(false, START, third, AppendRecord(0, true, NOW));
    hide Run, RecoverAll, SessionsOf, NumberTaken;
    AppendedInReverse(w2);
    StartIsInv();
    RunKeepsInv(false, START, acts);
    var w := Run(false, START, acts);
    TwoRecords(NEW, OLD);
    assert FitsTable(w.registry, w.table);
    ReplayedRow(w, w.table, [SHARD], "s");
  }

  lemma AppendedInReverse(w: World)
    requires w.logs == map[] && w.inflight == map[0 := OLD, 1 := NEW] && w.lost == {}
    ensures Step(false, Step(false, w, AppendRecord(1, true, NOW)), AppendRecord(0, true, NOW)) ==
            w.(logs := map[SHARD := [SessionRecord(NEW, NOW), SessionRecord(OLD, NOW)]], inflight := map[])
  {
    var r := Step(false, w, AppendRecord(1, true, NOW));
    assert [] + [SessionRecord(NEW, NOW)] == [SessionRecord(NEW, NOW)];
    assert r.logs == map[SHARD := [SessionRecord(NEW, NOW)]] && r.inflight == map[0 := OLD];
    assert [SessionRecord(NEW, NOW)] + [SessionRecord(OLD, NOW)] == [SessionRecord(NEW, NOW), SessionRecord(OLD, NOW)];
  }

  /** Both saves are committed and appended, one after the other. */
  lemma SavedTwice() returns (acts: seq<Action>)
    ensures Run(true, START, acts) ==
            World(map["s" := NEW], map[SHARD := [SessionRecord(OLD, NOW), SessionRecord(NEW, NOW)]],
                  map["s" := ("n", SHARD)], map[], {})
  {
    var twice := CommittedTwice(true);
    acts := twice + [AppendRecord(1, true, NOW)];
    RunSnoc(true, START, twice, AppendRecord(1, true, NOW));
    hide Run;
    assert [SessionRecord(OLD, NOW)] + [SessionRecord(NEW, NOW)] == [SessionRecord(OLD, NOW), SessionRecord(NEW, NOW)];
    assert map[1 := NEW] - {1} == map[];
  }

  /** A later save changed a column that replay does not touch: recovery from nothing brings the old one. */
  lemma FirmwareIsNotRestored() returns (acts: seq<Action>)
    ensures var w := Run(true, START, acts);
            && w.inflight == map[] && w.lost == {} && w.logs.Keys == {SHARD} && "s" in w.table
            && var r := RecoverAll(map[], [SHARD], w.logs);
               "s" in r && r["s"].version == w.table["s"].version && r["s"].firmware != w.table["s"].firmware
  {
    hide Run, RecoverAll, SessionsOf, SameProgress;
    acts := SavedTwice();
    TwoRecords(OLD, NEW);
    RecoveredFromNothingExactly(true, acts, [SHARD], "s");
  }
}

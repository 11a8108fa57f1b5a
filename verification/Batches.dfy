/** Batch processing with compensation: internal/service/batch.go, one attempt on values. */
module BatchSpec {
  import opened Prelude
  import opened StateMachines
  import opened Sessions

  datatype BatchState = BatchPending | Processing | Succeeded | RolledBack | BatchCompleted

  const BATCH_MACHINE: StateMachine<BatchState> := StateMachine(BatchPending, {
      (BatchPending, Processing), (Processing, Succeeded), (Processing, RolledBack),
      (RolledBack, Processing), (Succeeded, BatchCompleted)})

  datatype ItemState = ItemPending | ItemSucceeded | ItemFailed | ItemRolledBack

  datatype Item = Item(sessionID: string, state: ItemState)

  datatype Batch = Batch(state: BatchState, total: nat, succeeded: nat, failed: nat, version: int)

  type Table = map<string, Session>

  predicate Processable(s: Session) {
    s.state == Negotiating || s.state == Charging
  }

  /** processItem: fault stands for an error of its read or of its write. */
  predicate ItemOk(sessions: Table, item: Item, fault: bool) {
    !fault && item.sessionID in sessions && Processable(sessions[item.sessionID])
  }

  function Charged(sessions: Table, id: string): Table
    requires id in sessions
  {
    sessions[id := sessions[id].(state := Charging, version := sessions[id].version + 1)]
  }

  /** compensateItem. */
  function Compensated(sessions: Table, id: string): Table {
    if id in sessions && sessions[id].state == Charging
    then sessions[id := sessions[id].(state := Negotiating, version := sessions[id].version + 1)]
    else sessions
  }

  /** The first loop of ProcessBatch; items that had succeeded before are passed over. */
  function ProcessAll(items: seq<Item>, sessions: Table, faults: seq<bool>): (r: (seq<Item>, Table))
    requires |faults| == |items|
    ensures |r.0| == |items|
  {
    if items == [] then ([], sessions)
    else
      var n := |items| - 1;
      var (done, s) := ProcessAll(items[..n], sessions, faults[..n]);
      var (item, s') := ProcessNext(items[n], s, faults[n]);
      (done + [item], s')
  }

  /** One round of that loop. */
  function ProcessNext(item: Item, s: Table, fault: bool): (Item, Table) {
    if item.state == ItemSucceeded then (item, s)
    else if ItemOk(s, item, fault) then (item.(state := ItemSucceeded), Charged(s, item.sessionID))
    else (item.(state := ItemFailed), s)
  }

  lemma {:induction false} ProcessPrefix(items: seq<Item>, sessions: Table, faults: seq<bool>, i: nat)
    requires |faults| == |items| && i < |items|
    ensures var (done, s) := ProcessAll(items[..i], sessions, faults[..i]);
            var (item, s') := ProcessNext(items[i], s, faults[i]);
            ProcessAll(items[..i + 1], sessions, faults[..i + 1]) == (done + [item], s')
  {
    assert items[..i + 1][..i] == items[..i] && faults[..i + 1][..i] == faults[..i];
  }

  lemma {:induction false} ProcessNone(items: seq<Item>, sessions: Table, faults: seq<bool>)
    requires |faults| == |items|
    ensures ProcessAll(items[..0], sessions, faults[..0]) == ([], sessions)
    ensures AllSucceeded([]) && Marked(items, [], {}) && [] + items[0..] == items
  {
    assert [] + items[0..] == items;
  }

  /** Whether an item was processed by this attempt, and not by an earlier one. */
  predicate Hit(before: Item, after: Item) {
    before.state != ItemSucceeded && after.state == ItemSucceeded
  }

  /** The second loop: undo the items of this attempt. */
  function CompensateAll(before: seq<Item>, after: seq<Item>, sessions: Table): (r: (seq<Item>, Table))
    requires |before| == |after|
    ensures |r.0| == |after|
  {
    if before == [] then ([], sessions)
    else
      var n := |before| - 1;
      var (saved, s) := CompensateAll(before[..n], after[..n], sessions);
      var (item, s') := CompensateNext(before[n], after[n], s);
      (saved + [item], s')
  }

  function CompensateNext(before: Item, after: Item, s: Table): (Item, Table) {
    if Hit(before, after) then (after.(state := ItemRolledBack), Compensated(s, after.sessionID)) else (after, s)
  }

  lemma {:induction false} CompensatePrefix(before: seq<Item>, after: seq<Item>, sessions: Table, i: nat)
    requires |before| == |after| && i < |after|
    ensures var (saved, s) := CompensateAll(before[..i], after[..i], sessions);
            var (item, s') := CompensateNext(before[i], after[i], s);
            CompensateAll(before[..i + 1], after[..i + 1], sessions) == (saved + [item], s')
  {
    assert before[..i + 1][..i] == before[..i] && after[..i + 1][..i] == after[..i];
  }

  lemma {:induction false} CompensateNone(before: seq<Item>, after: seq<Item>, sessions: Table)
    requires |before| == |after|
    ensures CompensateAll(before[..0], after[..0], sessions) == ([], sessions)
  {
  }

  function CountSucceeded(items: seq<Item>): (n: nat)
    ensures n <= |items|
    ensures n == |items| <==> forall i :: 0 <= i < |items| ==> items[i].state == ItemSucceeded
  {
    if items == [] then 0
    else CountSucceeded(items[..|items| - 1]) + if items[|items| - 1].state == ItemSucceeded then 1 else 0
  }

  predicate AllSucceeded(items: seq<Item>) {
    forall i :: 0 <= i < |items| ==> items[i].state == ItemSucceeded
  }

  lemma SucceededSnoc(items: seq<Item>, item: Item)
    ensures AllSucceeded(items + [item]) <==> AllSucceeded(items) && item.state == ItemSucceeded
  {
    var more := items + [item];
    assert forall i :: 0 <= i < |items| ==> more[i] == items[i];
    assert more[|items|] == item;
  }

  /** processedThisAttempt holds the positions this attempt has processed, among those it has tried. */
  ghost predicate Marked(items: seq<Item>, done: seq<Item>, processed: set<nat>) {
    && |done| <= |items|
    && forall k :: k in processed <==> 0 <= k < |done| && Hit(items[k], done[k])
  }

  lemma MarkedNext(items: seq<Item>, done: seq<Item>, processed: set<nat>)
    requires Marked(items, done, processed) && |done| < |items|
    ensures forall item :: Hit(items[|done|], item) ==> Marked(items, done + [item], processed + {|done|})
    ensures forall item :: !Hit(items[|done|], item) ==> Marked(items, done + [item], processed)
  {
  }

  lemma PassedOverNext(item: Item, s: Table, fault: bool)
    requires item.state == ItemSucceeded
    ensures ProcessNext(item, s, fault) == (item, s) && !Hit(item, item)
  {
  }

  lemma ReplaceNext(done: seq<Item>, items: seq<Item>, item: Item)
    requires |done| < |items|
    ensures (done + items[|done|..])[|done| := item] == done + [item] + items[|done| + 1..]
    ensures item == items[|done|] ==> done + items[|done|..] == done + [item] + items[|done| + 1..]
  {
  }

  /** How many items of this attempt processed session s. */
  function Hits(before: seq<Item>, after: seq<Item>, s: string): nat
    requires |before| == |after|
  {
    if before == [] then 0
    else
      var n := |before| - 1;
      Hits(before[..n], after[..n], s) + if Hit(before[n], after[n]) && after[n].sessionID == s then 1 else 0
  }

  /** A whole attempt on a batch that may be processed: the batch, the persisted items, the sessions. */
  function Attempt(b: Batch, items: seq<Item>, sessions: Table, faults: seq<bool>): (r: (Batch, seq<Item>, Table))
    requires |faults| == |items|
    ensures |r.1| == |items|
  {
    var (done, charged) := ProcessAll(items, sessions, faults);
    Settled(b.(state := Processing, version := b.version + 1), items, done, charged)
  }

  /** The rest of an attempt once all items have been tried. */
  function Settled(b: Batch, items: seq<Item>, done: seq<Item>, charged: Table): (r: (Batch, seq<Item>, Table))
    requires |done| == |items|
    ensures |r.1| == |items|
  {
    if AllSucceeded(done)
    then (b.(state := BatchCompleted, succeeded := |items|, version := b.version + 2), done, charged)
    else
      var (saved, undone) := CompensateAll(items, done, charged);
      var n := CountSucceeded(done);
      (b.(state := RolledBack, succeeded := n, failed := |items| - n, version := b.version + 1), saved, undone)
  }

  // ---------- what an attempt does to one session ----------

  function AfterHits(s: Session, hits: nat): Session {
    if hits == 0 then s else s.(state := Charging, version := s.version + hits)
  }

  lemma {:induction false} ProcessedSession(items: seq<Item>, sessions: Table, faults: seq<bool>, s: string)
    requires |faults| == |items|
    ensures var (done, charged) := ProcessAll(items, sessions, faults);
            && charged.Keys == sessions.Keys
            && (forall i :: 0 <= i < |items| ==> done[i].sessionID == items[i].sessionID)
            && (forall i :: 0 <= i < |items| ==> done[i].state == ItemSucceeded || done[i].state == ItemFailed)
            && (s in sessions ==> charged[s] == AfterHits(sessions[s], Hits(items, done, s)))
            && (Hits(items, done, s) > 0 ==> s in sessions && Processable(sessions[s]))
  {
    ProcessedItems(items, sessions, faults);
    ChargedByHits(items, sessions, faults, s);
    hide *;
  }

  lemma {:induction false} ChargedByHits(items: seq<Item>, sessions: Table, faults: seq<bool>, s: string)
    requires |faults| == |items|
    ensures var (done, charged) := ProcessAll(items, sessions, faults);
            && charged.Keys == sessions.Keys
            && (s in sessions ==> charged[s] == AfterHits(sessions[s], Hits(items, done, s)))
            && (Hits(items, done, s) > 0 ==> s in sessions && Processable(sessions[s]))
  {
    hide ProcessNext, Hit, AfterHits, Processable;
    if items == [] {
      NoHits(if s in sessions then Some(sessions[s]) else None);
    } else {
      var n := |items| - 1;
      ChargedByHits(items[..n], sessions, faults[..n], s);
      var (front, t) := ProcessAll(items[..n], sessions, faults[..n]);
      var (item, r) := ProcessNext(items[n], t, faults[n]);
      var h := Hits(items[..n], front, s);
      assert ProcessAll(items, sessions, faults) == (front + [item], r);
      NextOnSession(items[n], t, faults[n], s);
      HitsSnoc(items[..n], front, items[n], item, s);
      assert items == items[..n] + [items[n]];
      if s in sessions { OneMoreHit(sessions[s], h); }
      hide Hits, ProcessAll;
    }
  }

  lemma NoHits(s: Option<Session>)
    ensures s.Some? ==> AfterHits(s.value, 0) == s.value
  {
  }

  lemma OneMoreHit(s: Session, h: nat)
    ensures AfterHits(AfterHits(s, h), 1) == AfterHits(s, h + 1)
    ensures h == 0 ==> AfterHits(s, h) == s
  {
  }

  lemma {:induction false} ProcessedItems(items: seq<Item>, sessions: Table, faults: seq<bool>)
    requires |faults| == |items|
    ensures var done := ProcessAll(items, sessions, faults).0;
            && (forall i :: 0 <= i < |items| ==> done[i].sessionID == items[i].sessionID)
            && (forall i :: 0 <= i < |items| ==> done[i].state == ItemSucceeded || done[i].state == ItemFailed)
  {
    if items != [] {
      var n := |items| - 1;
      ProcessedItems(items[..n], sessions, faults[..n]);
      var (front, t) := ProcessAll(items[..n], sessions, faults[..n]);
      var (item, r) := ProcessNext(items[n], t, faults[n]);
      assert ProcessAll(items, sessions, faults).0 == front + [item];
      NextOnSession(items[n], t, faults[n], "");
      hide ProcessNext, ProcessAll;
    }
  }

  /** One round of the first loop on one session. */
  lemma NextOnSession(item: Item, t: Table, fault: bool, s: string)
    ensures var (after, r) := ProcessNext(item, t, fault);
            var hit := Hit(item, after) && after.sessionID == s;
            && r.Keys == t.Keys && after.sessionID == item.sessionID
            && (after.state == ItemSucceeded || after.state == ItemFailed)
            && (hit ==> s in t && Processable(t[s]))
            && (s in t ==> r[s] == if hit then AfterHits(t[s], 1) else t[s])
  {
  }

  lemma {:induction false} HitsSnoc(before: seq<Item>, after: seq<Item>, b: Item, a: Item, s: string)
    requires |before| == |after|
    ensures Hits(before + [b], after + [a], s) ==
            Hits(before, after, s) + if Hit(b, a) && a.sessionID == s then 1 else 0
  {
    assert (before + [b])[..|before|] == before && (after + [a])[..|after|] == after;
  }

  function AfterUndo(s: Session, hits: nat): Session {
    if hits > 0 && s.state == Charging then s.(state := Negotiating, version := s.version + 1) else s
  }

  lemma {:induction false} CompensatedSession(before: seq<Item>, after: seq<Item>, sessions: Table, s: string)
    requires |before| == |after|
    ensures var (saved, undone) := CompensateAll(before, after, sessions);
            && undone.Keys == sessions.Keys
            && (forall i :: 0 <= i < |after| ==>
                  saved[i] == if Hit(before[i], after[i]) then after[i].(state := ItemRolledBack) else after[i])
            && (s in sessions ==> undone[s] == AfterUndo(sessions[s], Hits(before, after, s)))
  {
    if before != [] {
      var n := |before| - 1;
      CompensatedSession(before[..n], after[..n], sessions, s);
    }
  }

  // ---------- the attempt in terms of what goes into it ----------

  /** Item i ends the first loop as succeeded: it had succeeded before, or nothing stands in its way now. */
  predicate Succeeds(items: seq<Item>, sessions: Table, faults: seq<bool>, i: int)
    requires |faults| == |items| && 0 <= i < |items|
  {
    items[i].state == ItemSucceeded || ItemOk(sessions, items[i], faults[i])
  }

  /** Some item stands in the way of completion. */
  ghost predicate Blocked(items: seq<Item>, sessions: Table, faults: seq<bool>)
    requires |faults| == |items|
  {
    exists i :: 0 <= i < |items| && !Succeeds(items, sessions, faults, i)
  }

  predicate Charges(item: Item, sessions: Table, fault: bool, s: string) {
    item.state != ItemSucceeded && item.sessionID == s && ItemOk(sessions, item, fault)
  }

  /** How many items charge session s in this attempt. */
  function ChargeCount(items: seq<Item>, sessions: Table, faults: seq<bool>, s: string): nat
    requires |faults| == |items|
  {
    if items == [] then 0
    else
      var n := |items| - 1;
      ChargeCount(items[..n], sessions, faults[..n], s) + if Charges(items[n], sessions, faults[n], s) then 1 else 0
  }

  function SuccessCount(items: seq<Item>, sessions: Table, faults: seq<bool>): nat
    requires |faults| == |items|
  {
    if items == [] then 0
    else
      var n := |items| - 1;
      SuccessCount(items[..n], sessions, faults[..n]) + if Succeeds(items, sessions, faults, n) then 1 else 0
  }

  /** Items charged earlier in the attempt do not change what processItem lets through. */
  lemma {:induction false} GuardUnchanged(items: seq<Item>, sessions: Table, faults: seq<bool>, item: Item, fault: bool)
    requires |faults| == |items|
    ensures ItemOk(ProcessAll(items, sessions, faults).1, item, fault) <==> ItemOk(sessions, item, fault)
  {
    hide ProcessAll, Hits;
    ProcessedSession(items, sessions, faults, item.sessionID);
  }

  /** An item succeeds exactly when it had before or its session, as the attempt finds it, may be charged. */
  lemma {:induction false} ItemSucceedsExactly(items: seq<Item>, sessions: Table, faults: seq<bool>, i: nat)
    requires |faults| == |items| && i < |items|
    ensures ProcessAll(items, sessions, faults).0[i].state == ItemSucceeded <==> Succeeds(items, sessions, faults, i)
    ensures Succeeds(items, sessions, faults, i) <==>
            || items[i].state == ItemSucceeded
            || (!faults[i] && items[i].sessionID in sessions
                && sessions[items[i].sessionID].state in {Negotiating, Charging})
  {
    var n := |items| - 1;
    if i < n {
      ItemSucceedsExactly(items[..n], sessions, faults[..n], i);
    } else {
      GuardUnchanged(items[..n], sessions, faults[..n], items[n], faults[n]);
    }
  }

  lemma {:induction false} HitsAreCharges(items: seq<Item>, sessions: Table, faults: seq<bool>, s: string)
    requires |faults| == |items|
    ensures Hits(items, ProcessAll(items, sessions, faults).0, s) == ChargeCount(items, sessions, faults, s)
  {
    if items != [] {
      var n := |items| - 1;
      HitsAreCharges(items[..n], sessions, faults[..n], s);
      GuardUnchanged(items[..n], sessions, faults[..n], items[n], faults[n]);
      assert ProcessAll(items, sessions, faults).0[..n] == ProcessAll(items[..n], sessions, faults[..n]).0;
    }
  }

  lemma {:induction false} SuccessesAreCounted(items: seq<Item>, sessions: Table, faults: seq<bool>)
    requires |faults| == |items|
    ensures CountSucceeded(ProcessAll(items, sessions, faults).0) == SuccessCount(items, sessions, faults)
  {
    if items != [] {
      var n := |items| - 1;
      SuccessesAreCounted(items[..n], sessions, faults[..n]);
      ItemSucceedsExactly(items, sessions, faults, n);
      assert ProcessAll(items, sessions, faults).0[..n] == ProcessAll(items[..n], sessions, faults[..n]).0;
    }
  }

  lemma {:induction false} ChargeCountExactly(items: seq<Item>, sessions: Table, faults: seq<bool>, s: string)
    requires |faults| == |items|
    ensures ChargeCount(items, sessions, faults, s) > 0 <==>
            exists i :: 0 <= i < |items| && Charges(items[i], sessions, faults[i], s)
    ensures ChargeCount(items, sessions, faults, s) > 0 <==>
            && s in sessions && sessions[s].state in {Negotiating, Charging}
            && exists i :: 0 <= i < |items|
                           && items[i].state != ItemSucceeded && items[i].sessionID == s && !faults[i]
  {
    assert forall i :: 0 <= i < |items| ==>
        (Charges(items[i], sessions, faults[i], s) <==>
         && s in sessions && sessions[s].state in {Negotiating, Charging}
         && items[i].state != ItemSucceeded && items[i].sessionID == s && !faults[i]);
    if items != [] {
      var n := |items| - 1;
      ChargeCountExactly(items[..n], sessions, faults[..n], s);
      if i :| 0 <= i < n && Charges(items[i], sessions, faults[i], s) {
        assert Charges(items[..n][i], sessions, faults[..n][i], s);
      }
      if i :| 0 <= i < n && Charges(items[..n][i], sessions, faults[..n][i], s) {
        assert Charges(items[i], sessions, faults[i], s);
      }
    }
  }

  /** An attempt rolls back exactly when some item that had not succeeded before finds its session missing,
      in no state to be charged, or at fault; otherwise it completes the batch. */
  lemma RollsBackExactly(b: Batch, items: seq<Item>, sessions: Table, faults: seq<bool>)
    requires |faults| == |items|
    ensures Attempt(b, items, sessions, faults).0.state == RolledBack <==> Blocked(items, sessions, faults)
    ensures Attempt(b, items, sessions, faults).0.state == BatchCompleted <==> !Blocked(items, sessions, faults)
    ensures Blocked(items, sessions, faults) <==>
            exists i :: 0 <= i < |items| && items[i].state != ItemSucceeded
                        && (faults[i] || items[i].sessionID !in sessions
                            || sessions[items[i].sessionID].state !in {Negotiating, Charging})
  {
    hide ProcessAll, CompensateAll, Succeeds;
    var done := ProcessAll(items, sessions, faults).0;
    forall i | 0 <= i < |items|
      ensures done[i].state == ItemSucceeded <==> Succeeds(items, sessions, faults, i)
      ensures !Succeeds(items, sessions, faults, i) <==>
              items[i].state != ItemSucceeded
              && (faults[i] || items[i].sessionID !in sessions
                  || sessions[items[i].sessionID].state !in {Negotiating, Charging})
    {
      ItemSucceedsExactly(items, sessions, faults, i);
    }
  }

  /** Rollback, session by session, for any item list with repetitions and any faults. A session that k > 0
      items of this attempt charge ends negotiating, k + 1 versions later, also when it was charging
      before; every other session is untouched. So whatever was negotiating still is, and whatever was
      neither negotiating nor charging has not changed at all. */
  lemma {:induction false} RollbackExactly(b: Batch, items: seq<Item>, sessions: Table, faults: seq<bool>, s: string)
    requires |faults| == |items| && s in sessions && Blocked(items, sessions, faults)
    ensures var r := Attempt(b, items, sessions, faults);
            var k := ChargeCount(items, sessions, faults, s);
            && r.0.state == RolledBack && r.2.Keys == sessions.Keys
            && r.2[s] == (if k == 0 then sessions[s]
                          else sessions[s].(state := Negotiating, version := sessions[s].version + k + 1))
            && (sessions[s].state == Negotiating ==> r.2[s].state == Negotiating)
            && (sessions[s].state !in {Negotiating, Charging} ==> r.2[s] == sessions[s])
  {
    hide ProcessAll, CompensateAll, Hits, ChargeCount;
    RollsBackExactly(b, items, sessions, faults);
    ProcessedSession(items, sessions, faults, s);
    HitsAreCharges(items, sessions, faults, s);
    var (done, charged) := ProcessAll(items, sessions, faults);
    CompensatedSession(items, done, charged, s);
  }

  /** Which charging sessions a rolled-back attempt demotes to negotiating: exactly those that one of the
      items still to be done names without a fault. */
  lemma DemotedExactly(b: Batch, items: seq<Item>, sessions: Table, faults: seq<bool>, s: string)
    requires |faults| == |items| && s in sessions && sessions[s].state == Charging && Blocked(items, sessions, faults)
    ensures var r := Attempt(b, items, sessions, faults).2;
            && s in r && (r[s].state == Negotiating || r[s] == sessions[s])
            && (r[s].state == Negotiating <==>
                exists i :: 0 <= i < |items| &&
                            items[i].state != ItemSucceeded && items[i].sessionID == s && !faults[i])
  {
    hide Attempt, ChargeCount, Blocked;
    RollbackExactly(b, items, sessions, faults, s);
    ChargeCountExactly(items, sessions, faults, s);
    assert forall i :: 0 <= i < |items| ==>
        (Charges(items[i], sessions, faults[i], s) <==>
         items[i].state != ItemSucceeded && items[i].sessionID == s && !faults[i]);
  }

  /** A batch of a charging session and of one that does not exist takes the charging one out of charging. */
  lemma ChargingSessionIsDemoted(b: Batch, session: Session)
    requires session.id == "a" && session.state == Charging
    ensures var r := Attempt(b, [Item("a", ItemPending), Item("b", ItemPending)], map["a" := session], [false, false]);
            r.0.state == RolledBack && "a" in r.2 && r.2["a"].state == Negotiating
  {
    var items, faults := [Item("a", ItemPending), Item("b", ItemPending)], [false, false];
    var sessions := map["a" := session];
    hide Attempt;
    assert !Succeeds(items, sessions, faults, 1);
    RollsBackExactly(b, items, sessions, faults);
    assert items[0].sessionID == "a" && !faults[0];
    DemotedExactly(b, items, sessions, faults, "a");
  }

  /** A rolled-back attempt counts every item once, at least one as failed. The items it counts as succeeded
      are those that nothing stood in the way of, of which it persists the ones of this attempt as rolled
      back and leaves the earlier ones as they are; the others are persisted as failed. */
  lemma {:induction false} RollbackCounts(b: Batch, items: seq<Item>, sessions: Table, faults: seq<bool>)
    requires |faults| == |items| && Blocked(items, sessions, faults)
    ensures var r := Attempt(b, items, sessions, faults);
            && r.0.state == RolledBack
            && r.0.succeeded == SuccessCount(items, sessions, faults)
            && r.0.succeeded + r.0.failed == |items| && r.0.failed >= 1
            && forall i :: 0 <= i < |items| ==>
                 r.1[i] == if items[i].state == ItemSucceeded then items[i]
                           else if !faults[i] && items[i].sessionID in sessions
                                   && sessions[items[i].sessionID].state in {Negotiating, Charging}
                           then items[i].(state := ItemRolledBack)
                           else items[i].(state := ItemFailed)
    ensures Attempt(b, items, sessions, faults).0 ==
            b.(state := RolledBack, succeeded := SuccessCount(items, sessions, faults),
               failed := |items| - SuccessCount(items, sessions, faults), version := b.version + 2)
    ensures SuccessCount(items, sessions, faults) ==
            |set i | 0 <= i < |items|
                     && (items[i].state == ItemSucceeded
                         || (!faults[i] && items[i].sessionID in sessions
                             && sessions[items[i].sessionID].state in {Negotiating, Charging}))|
  {
    SuccessesInPlain(items, sessions, faults);
    RollsBackExactly(b, items, sessions, faults);
    SuccessesAreCounted(items, sessions, faults);
    RolledBackItems(b, items, sessions, faults);
    hide ProcessAll, CompensateAll, SuccessCount, Blocked, AllSucceeded, Succeeds;
  }

  lemma RolledBackItems(b: Batch, items: seq<Item>, sessions: Table, faults: seq<bool>)
    requires |faults| == |items| && Blocked(items, sessions, faults)
    ensures var r := Attempt(b, items, sessions, faults);
            forall i :: 0 <= i < |items| ==>
              r.1[i] == if items[i].state == ItemSucceeded then items[i]
                        else if !faults[i] && items[i].sessionID in sessions
                                && sessions[items[i].sessionID].state in {Negotiating, Charging}
                        then items[i].(state := ItemRolledBack)
                        else items[i].(state := ItemFailed)
  {
    RollsBackExactly(b, items, sessions, faults);
    hide ProcessAll, CompensateAll, Blocked, CountSucceeded, AllSucceeded;
    var (done, charged) := ProcessAll(items, sessions, faults);
    CompensatedSession(items, done, charged, "");
    forall i | 0 <= i < |items|
      ensures done[i] ==
              if items[i].state == ItemSucceeded then items[i]
              else if !faults[i] && items[i].sessionID in sessions
                      && sessions[items[i].sessionID].state in {Negotiating, Charging}
              then items[i].(state := ItemSucceeded)
              else items[i].(state := ItemFailed)
    {
      TriedItem(items, sessions, faults, i);
    }
  }

  /** What the first loop makes of one item. */
  lemma {:induction false} TriedItem(items: seq<Item>, sessions: Table, faults: seq<bool>, i: nat)
    requires |faults| == |items| && i < |items|
    ensures ProcessAll(items, sessions, faults).0[i] ==
            if items[i].state == ItemSucceeded then items[i]
            else if !faults[i] && items[i].sessionID in sessions
                    && sessions[items[i].sessionID].state in {Negotiating, Charging}
            then items[i].(state := ItemSucceeded)
            else items[i].(state := ItemFailed)
  {
    hide ProcessAll, Hits;
    ProcessedSession(items, sessions, faults, "");
    PassedOver(items, sessions, faults);
    ItemSucceedsExactly(items, sessions, faults, i);
  }

  lemma {:induction false} SuccessesInPlain(items: seq<Item>, sessions: Table, faults: seq<bool>)
    requires |faults| == |items|
    ensures SuccessCount(items, sessions, faults) ==
            |set i | 0 <= i < |items|
                     && (items[i].state == ItemSucceeded
                         || (!faults[i] && items[i].sessionID in sessions
                             && sessions[items[i].sessionID].state in {Negotiating, Charging}))|
  {
    var good := set i | 0 <= i < |items|
                        && (items[i].state == ItemSucceeded
                            || (!faults[i] && items[i].sessionID in sessions
                                && sessions[items[i].sessionID].state in {Negotiating, Charging}));
    if items == [] {
      assert good == {};
    } else {
      var n := |items| - 1;
      SuccessesInPlain(items[..n], sessions, faults[..n]);
      var front := set i | 0 <= i < |items[..n]|
                           && (items[..n][i].state == ItemSucceeded
                               || (!faults[..n][i] && items[..n][i].sessionID in sessions
                                   && sessions[items[..n][i].sessionID].state in {Negotiating, Charging}));
      assert good == front + if Succeeds(items, sessions, faults, n) then {n} else {};
    }
  }

  lemma {:induction false} PassedOver(items: seq<Item>, sessions: Table, faults: seq<bool>)
    requires |faults| == |items|
    ensures var done := ProcessAll(items, sessions, faults).0;
            forall i :: 0 <= i < |items| && items[i].state == ItemSucceeded ==> done[i] == items[i]
  {
    if items != [] {
      var n := |items| - 1;
      PassedOver(items[..n], sessions, faults[..n]);
    }
  }

  /** A completed attempt leaves all items succeeded, and every session charging that an item of this
      attempt names, one version later for each such item; when no item had succeeded before, these are
      the sessions of all items. */
  lemma {:induction false} CompletionCharges(b: Batch, items: seq<Item>, sessions: Table, faults: seq<bool>)
    requires |faults| == |items| && !Blocked(items, sessions, faults)
    ensures var r := Attempt(b, items, sessions, faults);
            && r.0 == b.(state := BatchCompleted, succeeded := |items|, version := b.version + 3)
            && (forall i :: 0 <= i < |items| ==> r.1[i].state == ItemSucceeded) && AllSucceeded(r.1)
            && (forall i :: 0 <= i < |items| ==> r.1[i].sessionID == items[i].sessionID)
            && (forall i :: 0 <= i < |items| && items[i].state != ItemSucceeded ==>
                  var s := items[i].sessionID;
                  && s in sessions && s in r.2
                  && r.2[s] == sessions[s].(state := Charging,
                                            version := sessions[s].version + ChargeCount(items, sessions, faults, s)))
  {
    hide ProcessAll, CompensateAll, ChargeCount, Hits;
    RollsBackExactly(b, items, sessions, faults);
    ProcessedSession(items, sessions, faults, "");
    var (done, charged) := ProcessAll(items, sessions, faults);
    forall i | 0 <= i < |items| && items[i].state != ItemSucceeded
      ensures items[i].sessionID in sessions && items[i].sessionID in charged
      ensures var s := items[i].sessionID;
              charged[s] == sessions[s].(state := Charging,
                                         version := sessions[s].version + ChargeCount(items, sessions, faults, s))
    {
      ChargedItem(items, sessions, faults, i);
    }
  }

  /** Completed or rolled back, an attempt leaves alone every session that no item still to be done names
      without a fault, and every session that is neither negotiating nor charging; and it rolls back if an
      item still to be done names one of the latter. */
  lemma OtherSessionsStay(b: Batch, items: seq<Item>, sessions: Table, faults: seq<bool>, s: string)
    requires |faults| == |items| && s in sessions
    ensures var r := Attempt(b, items, sessions, faults);
            && r.2.Keys == sessions.Keys
            && (sessions[s].state !in {Negotiating, Charging} ==> r.2[s] == sessions[s])
            && ((forall i :: 0 <= i < |items| && items[i].state != ItemSucceeded && items[i].sessionID == s ==>
                   faults[i]) ==> r.2[s] == sessions[s])
            && (sessions[s].state !in {Negotiating, Charging}
                && (exists i :: 0 <= i < |items| && items[i].state != ItemSucceeded && items[i].sessionID == s) ==>
                  r.0.state == RolledBack)
  {
    RollsBackExactly(b, items, sessions, faults);
    ChargeCountExactly(items, sessions, faults, s);
    HitsAreCharges(items, sessions, faults, s);
    ProcessedSession(items, sessions, faults, s);
    hide ChargeCount, Charges, ProcessAll, Hits, Blocked, CompensateAll;
    if Blocked(items, sessions, faults) {
      RollbackExactly(b, items, sessions, faults, s);
    }
  }

  lemma {:induction false} ChargedItem(items: seq<Item>, sessions: Table, faults: seq<bool>, i: nat)
    requires |faults| == |items| && i < |items| && items[i].state != ItemSucceeded
             && Succeeds(items, sessions, faults, i)
    ensures var (charged, s) := (ProcessAll(items, sessions, faults).1, items[i].sessionID);
            && s in sessions && s in charged
            && charged[s] == sessions[s].(state := Charging,
                                          version := sessions[s].version + ChargeCount(items, sessions, faults, s))
  {
    hide ProcessAll, ChargeCount, Hits;
    var s := items[i].sessionID;
    ProcessedSession(items, sessions, faults, s);
    HitsAreCharges(items, sessions, faults, s);
    ChargeCountExactly(items, sessions, faults, s);
    assert Charges(items[i], sessions, faults[i], s);
  }
}

/** BatchService on its tables. */
module Batches {
  import opened BatchSpec
  import opened Sessions

  datatype Outcome = NotFound | BadTransition | ListFailed | Processed(b: Batch)

  /** ValidateBatchTransition to processing. */
  predicate MayProcess(s: BatchState) {
    BATCH_MACHINE.Validates(s, Processing)
  }

  lemma MayProcessExactly(s: BatchState)
    ensures MayProcess(s) <==> s in {BatchPending, Processing, RolledBack}
  {
  }

  lemma AttemptInPlain(b: Batch, list: seq<Item>, sessions: Table, faults: seq<bool>)
    requires |faults| == |list|
    ensures var r := Attempt(b, list, sessions, faults);
            && (r.0.state == BatchCompleted || r.0.state == RolledBack)
            && (r.0.state == RolledBack <==>
                exists i :: 0 <= i < |list| && list[i].state != ItemSucceeded
                            && (faults[i] || list[i].sessionID !in sessions
                                || sessions[list[i].sessionID].state !in {Negotiating, Charging}))
            && (r.0.state == BatchCompleted ==>
                  r.0 == b.(state := BatchCompleted, succeeded := |list|, version := b.version + 3))
            && (r.0.state == RolledBack ==>
                  r.0 == b.(state := RolledBack, succeeded := r.0.succeeded, failed := |list| - r.0.succeeded,
                            version := b.version + 2))
            && r.2.Keys == sessions.Keys
            && forall s :: s in sessions && sessions[s].state !in {Negotiating, Charging} ==> r.2[s] == sessions[s]
  {
    RollsBackExactly(b, list, sessions, faults);
    hide Attempt, Blocked;
    if Blocked(list, sessions, faults) {
      RollbackCounts(b, list, sessions, faults);
    } else {
      CompletionCharges(b, list, sessions, faults);
    }
    AttemptKeepsKeys(b, list, sessions, faults);
    forall s | s in sessions && sessions[s].state !in {Negotiating, Charging}
      ensures Attempt(b, list, sessions, faults).2[s] == sessions[s]
    {
      OtherSessionsStay(b, list, sessions, faults, s);
    }
  }

  lemma AttemptKeepsKeys(b: Batch, list: seq<Item>, sessions: Table, faults: seq<bool>)
    requires |faults| == |list|
    ensures Attempt(b, list, sessions, faults).2.Keys == sessions.Keys
  {
    ProcessedSession(list, sessions, faults, "");
    var (done, charged) := ProcessAll(list, sessions, faults);
    CompensatedSession(list, done, charged, "");
    hide ProcessAll, CompensateAll;
  }

  class BatchService {
    var batches: map<string, Batch>
    var items: map<string, seq<Item>>  // the items of a batch in the order ListItems returns them
    var sessions: Table

    ghost predicate Valid()
      reads this
    {
      batches.Keys == items.Keys
    }

    constructor (sessions: Table)
      ensures Valid() && batches == map[] && this.sessions == sessions
    {
      batches, items := map[], map[];
      this.sessions := sessions;
    }

    /** CreateBatch for sessions ids; id is the fresh uuid. batchSaved says whether the batch row is saved and
        savedItems how many item rows are before one fails. A missing session or a failing save ends the
        call with an error, but the batch and the items before it stay. */
    method CreateBatch(id: string, wellFormed: bool, ids: seq<string>, batchSaved: bool, savedItems: nat)
      returns (ok: bool)
      requires Valid() && id !in batches
      modifies this`batches, this`items
      ensures Valid()
      ensures ok <==>
              && wellFormed && batchSaved && |ids| <= savedItems
              && forall i :: 0 <= i < |ids| ==> ids[i] in sessions
      ensures !wellFormed || !batchSaved ==> batches == old(batches) && items == old(items)
      ensures wellFormed && batchSaved ==>
                && batches == old(batches)[id := Batch(BatchPending, |ids|, 0, 0, 1)]
                && id in items && items == old(items)[id := items[id]] && |items[id]| <= |ids|
                && (forall i :: 0 <= i < |items[id]| ==>
                    items[id][i] == Item(ids[i], ItemPending) && ids[i] in sessions)
                && |items[id]| <= savedItems
                && (|items[id]| < |ids| ==> ids[|items[id]|] !in sessions || |items[id]| == savedItems)
    {
      if !wellFormed || !batchSaved {
        return false;
      }
      batches := batches[id := Batch(BatchPending, |ids|, 0, 0, 1)];
      items := items[id := []];
      var n := 0;
      while n < |ids|
        invariant 0 <= n <= |ids| && n <= savedItems
        invariant batches == old(batches)[id := Batch(BatchPending, |ids|, 0, 0, 1)]
        invariant id in items && items == old(items)[id := items[id]] && |items[id]| == n
        invariant forall i :: 0 <= i < n ==> items[id][i] == Item(ids[i], ItemPending) && ids[i] in sessions
      {
        if ids[n] !in sessions || n == savedItems {
          return false;
        }
        items := items[id := items[id] + [Item(ids[n], ItemPending)]];
        n := n + 1;
      }
      return true;
    }

    method ProcessItem(id: string, fault: bool) returns (ok: bool)
      modifies this`sessions
      ensures ok <==> ItemOk(old(sessions), Item(id, ItemPending), fault)
      ensures sessions == if ok then Charged(old(sessions), id) else old(sessions)
      ensures ok <==> !fault && id in old(sessions) && old(sessions)[id].state in {Negotiating, Charging}
      ensures ok ==>
                sessions == old(sessions)[id := old(sessions)[id].(state := Charging,
                                                                   version := old(sessions)[id].version + 1)]
    {
      if fault || id !in sessions {
        return false;
      }
      var session := sessions[id];
      if session.state != Negotiating && session.state != Charging {
        return false;
      }
      session := session.(state := Charging);
      session := session.(version := session.version + 1);
      sessions := sessions[id := session];
      return true;
    }

    /** One item of the loop: process it and save its row, at position i of the batch. */
    method TryItem(id: string, i: nat, item: Item, fault: bool) returns (after: Item, ok: bool)
      requires id in items && i < |items[id]| && item.state != ItemSucceeded
      modifies this`items, this`sessions
      ensures (after, sessions) == ProcessNext(item, old(sessions), fault)
      ensures ok <==> Hit(item, after)
      ensures after.state == ItemSucceeded <==> ok
      ensures items == old(items)[id := old(items)[id][i := after]]
    {
      ok := ProcessItem(item.sessionID, fault);
      after := item.(state := if ok then ItemSucceeded else ItemFailed);
      items := items[id := items[id][i := after]];
    }

    method CompensateItem(id: string)
      modifies this`sessions
      ensures sessions == Compensated(old(sessions), id)
      ensures id in old(sessions) && old(sessions)[id].state == Charging ==>
                sessions == old(sessions)[id := old(sessions)[id].(state := Negotiating,
                                                                   version := old(sessions)[id].version + 1)]
      ensures id !in old(sessions) || old(sessions)[id].state != Charging ==> sessions == old(sessions)
    {
      if id in sessions {
        var session := sessions[id];
        if session.state == Charging {
          session := session.(state := Negotiating);
          session := session.(version := session.version + 1);
          sessions := sessions[id := session];
        }
      }
    }

    /** The loop over the items; the item rows are saved as it goes. */
    method ProcessItems(id: string, list: seq<Item>, faults: seq<bool>)
      returns (done: seq<Item>, processed: set<nat>, allSucceeded: bool)
      requires Valid() && id in items && items[id] == list && |faults| == |list|
      modifies this`items, this`sessions
      ensures Valid()
      ensures (done, sessions) == ProcessAll(list, old(sessions), faults)
      ensures items == old(items)[id := done]
      ensures |done| == |list| && Marked(list, done, processed)
      ensures allSucceeded <==> AllSucceeded(done)
    {
      hide ProcessAll, ProcessNext, Hit, AllSucceeded, Marked, Charged, ItemOk;
      done, processed, allSucceeded := [], {}, true;
      ProcessNone(list, sessions, faults);
      while |done| < |list|
        invariant |done| <= |list|
        invariant Valid() && id in items && items == old(items)[id := items[id]]
        invariant items[id] == done + list[|done|..]
        invariant (done, sessions) == ProcessAll(list[..|done|], old(sessions), faults[..|done|])
        invariant Marked(list, done, processed)
        invariant allSucceeded <==> AllSucceeded(done)
      {
        var i := |done|;
        var item := list[i];
        ProcessPrefix(list, old(sessions), faults, i);
        MarkedNext(list, done, processed);
        if item.state != ItemSucceeded {
          var ok;
          item, ok := TryItem(id, i, item, faults[i]);
          if ok {
            processed := processed + {i};
          } else {
            allSucceeded := false;
          }
        } else {
          PassedOverNext(item, sessions, faults[i]);
        }
        SucceededSnoc(done, item);
        ReplaceNext(done, list, item);
        done := done + [item];
      }
      assert list[..|list|] == list && faults[..|list|] == faults && done + list[|done|..] == done;
    }

    method CompensateItems(id: string, list: seq<Item>, done: seq<Item>, processed: set<nat>)
      requires Valid() && id in items && items[id] == done && |done| == |list|
      requires Marked(list, done, processed)
      modifies this`items, this`sessions
      ensures Valid()
      ensures id in items && items == old(items)[id := items[id]]
      ensures (items[id], sessions) == CompensateAll(list, done, old(sessions))
    {
      hide CompensateAll;
      var i := 0;
      CompensateNone(list, done, sessions);
      while i < |done|
        invariant 0 <= i <= |done|
        invariant Valid() && id in items && items == old(items)[id := items[id]] && |items[id]| == |done|
        invariant (items[id][..i], sessions) == CompensateAll(list[..i], done[..i], old(sessions))
        invariant items[id][i..] == done[i..]
      {
        ghost var before := items[id];
        CompensatePrefix(list, done, old(sessions), i);
        if i in processed {
          CompensateItem(done[i].sessionID);
          var dbItem := items[id][i];
          dbItem := dbItem.(state := ItemRolledBack);
          items := items[id := items[id][i := dbItem]];
        }
        assert items[id][..i + 1] == before[..i] + [items[id][i]];
        i := i + 1;
      }
      assert list[..|list|] == list && done[..|done|] == done && items[id][..|done|] == items[id];
    }

    method Count(done: seq<Item>) returns (succeeded: nat, failed: nat)
      ensures succeeded == CountSucceeded(done) && failed == |done| - succeeded
    {
      succeeded, failed := 0, 0;
      for i := 0 to |done|
        invariant succeeded == CountSucceeded(done[..i]) && failed == i - succeeded
      {
        assert done[..i + 1][..i] == done[..i];
        if done[i].state == ItemSucceeded {
          succeeded := succeeded + 1;
        } else {
          failed := failed + 1;
        }
      }
      assert done[..|done|] == done;
    }

    /** ProcessBatch. faults[i] makes the session read or write of item i fail; listFails the item query. */
    method ProcessBatch(id: string, listFails: bool, faults: seq<bool>) returns (out: Outcome)
      requires Valid() && (id in items ==> |faults| == |items[id]|)
      modifies this
      ensures Valid()
      ensures out.NotFound? <==> id !in old(batches)
      ensures out.BadTransition? <==>
              id in old(batches) && old(batches)[id].state !in {BatchPending, Processing, RolledBack}
      ensures out.NotFound? || out.BadTransition? ==>
                batches == old(batches) && items == old(items) && sessions == old(sessions)
      ensures out.ListFailed? ==> listFails && items == old(items) && sessions == old(sessions)
      ensures out.ListFailed? ==>
                var b := old(batches)[id];
                batches == old(batches)[id := b.(state := Processing, version := b.version + 1)]
      ensures out.Processed? ==> !listFails && id in old(batches)
      ensures out.Processed? ==>
                var r := Attempt(old(batches)[id], old(items)[id], old(sessions), faults);
                out.b == r.0 && batches == old(batches)[id := r.0] && items == old(items)[id := r.1] && sessions == r.2
      ensures out.Processed? ==>
                var (b, list) := (old(batches)[id], old(items)[id]);
                && (out.b.state == BatchCompleted || out.b.state == RolledBack)
                && (out.b.state == RolledBack <==>
                    exists i :: 0 <= i < |list| && list[i].state != ItemSucceeded
                                && (faults[i] || list[i].sessionID !in old(sessions)
                                    || old(sessions)[list[i].sessionID].state !in {Negotiating, Charging}))
                && (out.b.state == BatchCompleted ==>
                      out.b == b.(state := BatchCompleted, succeeded := |list|, version := b.version + 3))
                && (out.b.state == RolledBack ==>
                      out.b == b.(state := RolledBack, succeeded := out.b.succeeded,
                                  failed := |list| - out.b.succeeded, version := b.version + 2))
      ensures out.Processed? ==>
                && sessions.Keys == old(sessions).Keys
                && forall s :: s in old(sessions) && old(sessions)[s].state !in {Negotiating, Charging} ==>
                     sessions[s] == old(sessions)[s]
    {
      hide ProcessAll, Settled, AllSucceeded, Hit, Marked, MayProcess;
      if id !in batches {
        return NotFound;
      }
      var batch := batches[id];
      MayProcessExactly(batch.state);
      if !MayProcess(batch.state) {
        return BadTransition;
      }
      batch := batch.(state := Processing, version := batch.version + 1);
      batches := batches[id := batch];
      if listFails {
        return ListFailed;
      }
      var list := items[id];
      var done, processed, allSucceeded := ProcessItems(id, list, faults);
      batch := Settle(id, batch, list, done, processed, allSucceeded);
      out := Processed(batch);
      AttemptInPlain(old(batches)[id], list, old(sessions), faults);
    }

    /** The end of ProcessBatch: complete the batch, or compensate and roll back. */
    method Settle(id: string, b: Batch, list: seq<Item>, done: seq<Item>, processed: set<nat>, allSucceeded: bool)
      returns (batch: Batch)
      requires Valid() && id in items && items[id] == done && |done| == |list|
      requires Marked(list, done, processed)
      requires allSucceeded <==> AllSucceeded(done)
      modifies this
      ensures Valid()
      ensures var r := Settled(b, list, done, old(sessions));
              batch == r.0 && batches == old(batches)[id := r.0] && items == old(items)[id := r.1] && sessions == r.2
    {
      hide CompensateAll, Hit, AllSucceeded, CountSucceeded;
      batch := b;
      if allSucceeded {
        batch := batch.(state := Succeeded, succeeded := |list|, version := batch.version + 1);
        batches := batches[id := batch];
        batch := batch.(state := BatchCompleted, version := batch.version + 1);
        batches := batches[id := batch];
        assert items == old(items)[id := done];
        return;
      }
      CompensateItems(id, list, done, processed);
      var succeeded, failed := Count(done);
      batch := batch.(state := RolledBack, succeeded := succeeded, failed := failed, version := batch.version + 1);
      batches := batches[id := batch];
    }

    /** BatchProcessorTask of internal/scheduler/tasks.go. */
    method Tick()
      requires Valid()
      modifies this`batches
      ensures Valid() && batches.Keys == old(batches).Keys
      ensures forall id :: id in batches ==>
                batches[id] == if old(batches)[id].state == RolledBack
                               then old(batches)[id].(state := BatchPending, version := old(batches)[id].version + 1)
                               else old(batches)[id]
    {
      var todo := batches.Keys;
      while todo != {}
        invariant todo <= batches.Keys && Valid() && batches.Keys == old(batches).Keys
        invariant forall id :: id in batches ==>
          batches[id] == if id !in todo && old(batches)[id].state == RolledBack
                         then old(batches)[id].(state := BatchPending, version := old(batches)[id].version + 1)
                         else old(batches)[id]
        decreases todo
      {
        var id :| id in todo;
        todo := todo - {id};
        var batch := batches[id];
        if batch.state == RolledBack {
          batch := batch.(state := BatchPending, version := batch.version + 1);
          batches := batches[id := batch];
        }
      }
    }
  }
}

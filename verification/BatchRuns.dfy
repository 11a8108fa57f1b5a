/** Batches over whole runs: creations, uninterrupted attempts, scheduler ticks, and sessions that
    other services change at will in between. */
module BatchRuns {
  import opened StateMachines
  import opened Sessions
  import opened BatchSpec
  import opened Batches

  // completedWith is history: the session table at the moment a batch was completed.
  datatype World = World(batches: map<string, Batch>, items: map<string, seq<Item>>, sessions: Table,
                         completedWith: map<string, Table>)

  const START: World := World(map[], map[], map[], map[])

  datatype Action =
    | Create(id: string, ids: seq<string>, savedItems: nat)
    | Process(id: string, listFails: bool, faults: seq<bool>)
    | Tick
    | SessionChange(s: Session)

  /** The items CreateBatch saves: it stops at the first session that does not exist, and at the first
      item that is not saved. */
  function Created(sessions: Table, ids: seq<string>, savedItems: nat): seq<Item> {
    if ids == [] || ids[0] !in sessions || savedItems == 0 then []
    else [Item(ids[0], ItemPending)] + Created(sessions, ids[1..], savedItems - 1)
  }

  function Ticked(b: Batch): Batch {
    if b.state == RolledBack then b.(state := BatchPending, version := b.version + 1) else b
  }

  function Step(w: World, a: Action): World {
    match a
    case Create(id, ids, savedItems) =>
      if id in w.batches then w
      else w.(batches := w.batches[id := Batch(BatchPending, |ids|, 0, 0, 1)],
              items := w.items[id := Created(w.sessions, ids, savedItems)])
    case Process(id, listFails, faults) =>
      if id !in w.batches || id !in w.items || !MayProcess(w.batches[id].state) || |faults| != |w.items[id]| then w
      else if listFails
      then w.(batches := w.batches[id := w.batches[id].(state := Processing, version := w.batches[id].version + 1)])
      else
        var (b, items, sessions) := Attempt(w.batches[id], w.items[id], w.sessions, faults);
        w.(batches := w.batches[id := b], items := w.items[id := items], sessions := sessions,
           completedWith := if b.state == BatchCompleted then w.completedWith[id := sessions] else w.completedWith)
    case Tick => w.(batches := map id | id in w.batches :: Ticked(w.batches[id]))
    case SessionChange(s) => w.(sessions := w.sessions[s.id := s])
  }

  function Run(w: World, acts: seq<Action>): World
    decreases |acts|
  {
    if acts == [] then w else Run(Step(w, acts[0]), acts[1..])
  }

  /** An item list no attempt has left a success in. */
  predicate NoneSucceeded(items: seq<Item>) {
    forall i :: 0 <= i < |items| ==> items[i].state != ItemSucceeded
  }

  /** Completed: all items succeeded and each one's session was charging. */
  ghost predicate CompletedOk(b: Batch, items: seq<Item>, sessions: Table) {
    && AllSucceeded(items) && b.succeeded == |items|
    && forall i :: 0 <= i < |items| ==>
         items[i].sessionID in sessions && sessions[items[i].sessionID].state == Charging
  }

  ghost predicate BatchOk(w: World, id: string)
    requires id in w.batches && id in w.items
  {
    var b := w.batches[id];
    && b.state != Succeeded
    && (b.state != BatchCompleted ==> NoneSucceeded(w.items[id]))
    && (b.state == RolledBack ==> b.succeeded + b.failed == |w.items[id]| && b.failed >= 1)
    && (b.state == BatchCompleted <==> id in w.completedWith)
    && (b.state == BatchCompleted ==> CompletedOk(b, w.items[id], w.completedWith[id]))
  }

  ghost predicate Inv(w: World) {
    && w.batches.Keys == w.items.Keys
    && w.completedWith.Keys <= w.batches.Keys
    && forall id :: id in w.batches ==> BatchOk(w, id)
  }

  lemma {:induction false} CreatedArePending(sessions: Table, ids: seq<string>, savedItems: nat)
    ensures NoneSucceeded(Created(sessions, ids, savedItems))
  {
    if ids != [] && ids[0] in sessions && savedItems > 0 {
      CreatedArePending(sessions, ids[1..], savedItems - 1);
      var rest := Created(sessions, ids[1..], savedItems - 1);
      assert forall i :: 0 < i < 1 + |rest| ==> ([Item(ids[0], ItemPending)] + rest)[i] == rest[i - 1];
    }
  }

  /** CreateBatch saves an item for each id up to the first one whose session does not exist or whose item is
      not saved, and for all ids when there is none. */
  lemma {:induction false} CreatedExactly(sessions: Table, ids: seq<string>, savedItems: nat)
    ensures var items := Created(sessions, ids, savedItems);
            && |items| <= |ids| && |items| <= savedItems
            && (forall i :: 0 <= i < |items| ==> items[i] == Item(ids[i], ItemPending) && ids[i] in sessions)
            && (|items| < |ids| ==> ids[|items|] !in sessions || |items| == savedItems)
  {
    if ids != [] && ids[0] in sessions && savedItems > 0 {
      CreatedExactly(sessions, ids[1..], savedItems - 1);
      var rest := Created(sessions, ids[1..], savedItems - 1);
      assert forall i :: 0 < i < 1 + |rest| ==> ([Item(ids[0], ItemPending)] + rest)[i] == rest[i - 1];
    }
  }

  /** What a creation leaves: a pending batch at version 1 with its total, the items above, and all else as it
      was; an id that is taken changes nothing. */
  lemma CreateExactly(w: World, id: string, ids: seq<string>, savedItems: nat)
    ensures var r := Step(w, Create(id, ids, savedItems));
            if id in w.batches then r == w
            else
              && r.batches == w.batches[id := Batch(BatchPending, |ids|, 0, 0, 1)] && r.sessions == w.sessions
              && id in r.items && r.items == w.items[id := r.items[id]]
              && (forall i :: 0 <= i < |r.items[id]| ==>
                    i < |ids| && r.items[id][i] == Item(ids[i], ItemPending) && ids[i] in w.sessions)
              && |r.items[id]| <= |ids| && |r.items[id]| <= savedItems
              && (|r.items[id]| < |ids| ==> ids[|r.items[id]|] !in w.sessions || |r.items[id]| == savedItems)
  {
    CreatedExactly(w.sessions, ids, savedItems);
    hide Created;
  }

  /** What an attempt leaves: it ends completed or rolled back, the latter exactly when an item still to be done
      is at fault or has a session that is missing or neither negotiating nor charging; completed, all its
      items have succeeded; sessions in other states, and all other batches, are as they were. */
  lemma ProcessExactly(w: World, id: string, faults: seq<bool>)
    requires id in w.batches && id in w.items && |faults| == |w.items[id]|
    ensures var r := Step(w, Process(id, false, faults));
            var list := w.items[id];
            if w.batches[id].state !in {BatchPending, Processing, RolledBack} then r == w
            else
              && id in r.batches && r.batches == w.batches[id := r.batches[id]]
              && id in r.items && r.items == w.items[id := r.items[id]] && |r.items[id]| == |list|
              && (r.batches[id].state == BatchCompleted || r.batches[id].state == RolledBack)
              && (r.batches[id].state == RolledBack <==>
                  exists i :: 0 <= i < |list| && list[i].state != ItemSucceeded
                              && (faults[i] || list[i].sessionID !in w.sessions
                                  || w.sessions[list[i].sessionID].state !in {Negotiating, Charging}))
              && (r.batches[id].state == BatchCompleted ==>
                    forall i :: 0 <= i < |list| ==> r.items[id][i].state == ItemSucceeded)
              && r.sessions.Keys == w.sessions.Keys
              && forall s :: s in w.sessions && w.sessions[s].state !in {Negotiating, Charging} ==>
                   r.sessions[s] == w.sessions[s]
  {
    MayProcessExactly(w.batches[id].state);
    AttemptInPlain(w.batches[id], w.items[id], w.sessions, faults);
    RollsBackExactly(w.batches[id], w.items[id], w.sessions, faults);
    hide MayProcess, Blocked;
    if !Blocked(w.items[id], w.sessions, faults) {
      CompletionCharges(w.batches[id], w.items[id], w.sessions, faults);
    }
    hide Attempt;
  }

  /** A tick takes every rolled-back batch to pending at its next version, and leaves all else alone. */
  lemma TickExactly(w: World)
    ensures var r := Step(w, Tick);
            && r.items == w.items && r.sessions == w.sessions && r.batches.Keys == w.batches.Keys
            && forall id :: id in w.batches ==>
                 && (w.batches[id].state == RolledBack ==>
                       r.batches[id] == w.batches[id].(state := BatchPending, version := w.batches[id].version + 1))
                 && (w.batches[id].state != RolledBack ==> r.batches[id] == w.batches[id])
  {
  }

  lemma AttemptOk(b: Batch, items: seq<Item>, sessions: Table, faults: seq<bool>)
    requires |faults| == |items| && NoneSucceeded(items)
    ensures var r := Attempt(b, items, sessions, faults);
            && (r.0.state == BatchCompleted || r.0.state == RolledBack)
            && (r.0.state == BatchCompleted ==> CompletedOk(r.0, r.1, r.2))
            && (r.0.state == RolledBack ==>
                NoneSucceeded(r.1) && r.0.succeeded + r.0.failed == |r.1| && r.0.failed >= 1)
  {
    hide Attempt;
    if Blocked(items, sessions, faults) {
      RollbackCounts(b, items, sessions, faults);
    } else {
      CompletionCharges(b, items, sessions, faults);
    }
  }

  lemma StepKeepsInv(w: World, a: Action)
    requires Inv(w)
    ensures Inv(Step(w, a))
  {
    hide Attempt, Created, MayProcess, BatchOk, Ticked;
    var r := Step(w, a);
    forall id | id in r.batches
      ensures id in r.items && BatchOk(r, id)
    {
      match a {
        case Create(_, _, _) => CreateKeepsRow(w, a, id);
        case Process(_, _, _) => ProcessKeepsRow(w, a, id);
        case Tick => SameHistory(w, r, id);
        case SessionChange(_) => SameHistory(w, r, id);
      }
    }
  }

  /** The state of a row may go from rolled back to pending without anything else changing. */
  lemma SameHistory(w: World, r: World, id: string)
    requires id in w.batches && id in w.items && BatchOk(w, id)
    requires id in r.batches && id in r.items && r.items[id] == w.items[id]
    requires r.batches[id] == w.batches[id] || r.batches[id] == Ticked(w.batches[id])
    requires id in r.completedWith <==> id in w.completedWith
    requires id in w.completedWith ==> r.completedWith[id] == w.completedWith[id]
    ensures BatchOk(r, id)
  {
    hide NoneSucceeded, CompletedOk;
  }

  lemma CreateKeepsRow(w: World, a: Action, id: string)
    requires Inv(w) && a.Create? && id in Step(w, a).batches
    ensures id in Step(w, a).items && BatchOk(Step(w, a), id)
  {
    hide Created, NoneSucceeded, CompletedOk;
    CreatedArePending(w.sessions, a.ids, a.savedItems);
    if id in w.batches {
      SameHistory(w, Step(w, a), id);
    }
  }

  lemma ProcessKeepsRow(w: World, a: Action, id: string)
    requires Inv(w) && a.Process? && id in Step(w, a).batches
    ensures id in Step(w, a).items && BatchOk(Step(w, a), id)
  {
    hide Attempt, MayProcess, NoneSucceeded, CompletedOk;
    assert BatchOk(w, id);
    if a.id != id {
      SameHistory(w, Step(w, a), id);
    } else if MayProcess(w.batches[id].state) && |a.faults| == |w.items[id]| {
      MayProcessExactly(w.batches[id].state);
      AttemptOk(w.batches[id], w.items[id], w.sessions, a.faults);
    }
  }

  lemma {:induction false} RunKeepsInv(w: World, acts: seq<Action>)
    requires Inv(w)
    ensures Inv(Run(w, acts))
    decreases |acts|
  {
    hide Inv;
    if acts != [] {
      StepKeepsInv(w, acts[0]);
      RunKeepsInv(Step(w, acts[0]), acts[1..]);
    }
  }

  /** In every run a batch that is not completed has no persisted succeeded item, a rolled-back batch
      accounts for all its items, and a completed batch has only succeeded items, whose sessions were
      all charging when it was completed. */
  lemma {:induction false} BatchesInEveryRun(acts: seq<Action>, id: string)
    requires id in Run(START, acts).batches
    ensures var w := Run(START, acts);
            var b := w.batches[id];
            && id in w.items
            && (b.state != BatchCompleted ==> NoneSucceeded(w.items[id]))
            && (b.state == RolledBack ==> b.succeeded + b.failed == |w.items[id]| && b.failed >= 1)
            && (b.state == BatchCompleted ==>
                  id in w.completedWith && CompletedOk(b, w.items[id], w.completedWith[id]))
  {
    RunKeepsInv(START, acts);
    assert BatchOk(Run(START, acts), id);
  }

  /** Each attempt tries every item again: none is passed over because an earlier attempt did it. */
  lemma {:induction false} RetryVisitsEveryItem(acts: seq<Action>, id: string, faults: seq<bool>)
    requires var w := Run(START, acts);
             && id in w.batches && w.batches[id].state in {BatchPending, Processing, RolledBack}
             && id in w.items && |faults| == |w.items[id]|
    ensures var w := Run(START, acts);
            var done := ProcessAll(w.items[id], w.sessions, faults).0;
            forall i :: 0 <= i < |done| ==>
              var s := w.items[id][i].sessionID;
              done[i].state == if !faults[i] && s in w.sessions && w.sessions[s].state in {Negotiating, Charging}
                               then ItemSucceeded else ItemFailed
  {
    BatchesInEveryRun(acts, id);
    var w := Run(START, acts);
    MayProcessExactly(w.batches[id].state);
    ProcessedSession(w.items[id], w.sessions, faults, "");
    forall i | 0 <= i < |w.items[id]|
      ensures ProcessAll(w.items[id], w.sessions, faults).0[i].state == ItemSucceeded <==>
              var s := w.items[id][i].sessionID;
              !faults[i] && s in w.sessions && w.sessions[s].state in {Negotiating, Charging}
    {
      ItemSucceedsExactly(w.items[id], w.sessions, faults, i);
    }
  }

  lemma StepKeepsCompleted(w: World, a: Action, id: string)
    requires Inv(w) && id in w.batches && w.batches[id].state == BatchCompleted
    ensures var r := Step(w, a);
            && id in r.batches && r.batches[id] == w.batches[id]
            && id in r.items && r.items[id] == w.items[id]
            && id in r.completedWith && r.completedWith[id] == w.completedWith[id]
    ensures a.Process? && a.id == id ==> Step(w, a) == w
  {
    hide Attempt;
    assert BatchOk(w, id);
    MayProcessExactly(w.batches[id].state);
  }

  /** A completed batch is never processed again: whatever follows, its row and its items stay. */
  lemma {:induction false} CompletedIsFinal(before: seq<Action>, after: seq<Action>, id: string)
    requires var w := Run(START, before); id in w.batches && w.batches[id].state == BatchCompleted
    ensures var w, r := Run(START, before), Run(START, before + after);
            && id in r.batches && r.batches[id] == w.batches[id]
            && id in w.items && id in r.items && r.items[id] == w.items[id]
    decreases |after|
  {
    RunKeepsInv(START, before);
    if after == [] {
      assert before + after == before;
    } else {
      StepKeepsCompleted(Run(START, before), after[0], id);
      RunSnoc(START, before, after[0]);
      CompletedIsFinal(before + [after[0]], after[1..], id);
      assert before + after == before + [after[0]] + after[1..];
    }
  }

  lemma {:induction false} RunSnoc(w: World, acts: seq<Action>, a: Action)
    ensures Run(w, acts + [a]) == Step(Run(w, acts), a)
    decreases |acts|
  {
    if acts == [] {
      assert (acts + [a])[1..] == [];
    } else {
      assert (acts + [a])[1..] == acts[1..] + [a];
      RunSnoc(Step(w, acts[0]), acts[1..], a);
    }
  }
}

/** What a connection misses in any run, with overlapping publishers too, exactly. */
module DeliveryAnyOrder {
  import opened BusSpec
  import opened EventLog
  import opened Delivery
  import opened DeliveryGuarantees
  import opened DeliveryLimits
  import opened DeliveryOrder
  import opened DeliveryBooks
  import opened DeliveryFates
  import opened Subscription

  // ---------- whole runs ----------

  lemma {:induction false} RunBooks(ordered: bool, acts: seq<Action>)
    ensures Books(Run(ordered, START, acts), Fans(ordered, acts))
    ensures Wired(Run(ordered, START, acts)) && Buffered(Run(ordered, START, acts))
  {
    hide Books, Wired, Buffered, Step, FannedBy;
    if acts == [] {
      StartBooks(ordered);
    } else {
      var n := |acts| - 1;
      var w := Run(ordered, START, acts[..n]);
      RunBooks(ordered, acts[..n]);
      RunLast(ordered, START, acts[..n], acts[n]);
      assert acts == acts[..n] + [acts[n]];
      StepBooks(ordered, w, acts[n], Fans(ordered, acts[..n]));
      StepWired(ordered, w, acts[n]);
      StepBuffered(ordered, w, acts[n], Fans(ordered, acts[..n]));
    }
  }

  lemma {:induction false} StartBooks(ordered: bool)
    ensures Books(Run(ordered, START, []), []) && Wired(Run(ordered, START, [])) && Buffered(Run(ordered, START, []))
  {
  }

  ghost predicate Tracked(w: World, fans: seq<Event>, m: nat, got: seq<Event>, t: Fates, c: Conn) {
    && Fed(w, fans, m, got, c)
    && Served(w, fans, m, got, t, c)
    && Brought(w.log, if c.phase.Opening? then [] else fans[..m], c)
  }

  lemma StepTracked(ordered: bool, w: World, a: Action, fans: seq<Event>, m: nat, got: seq<Event>, t: Fates, c: nat)
    requires Books(w, fans) && Wired(w) && c < |w.conns| && Tracked(w, fans, m, got, t, w.conns[c])
    ensures c < |Step(ordered, w, a).conns|
    ensures Tracked(Step(ordered, w, a), fans + FannedBy(ordered, w, a), if Registers(w, a, c) then |fans| else m,
                    got + Taken(w, a, c), Told(ordered, w, a, c, t), Step(ordered, w, a).conns[c])
  {
    hide Books, Wired, Step, FannedBy, Brought, Dealt;
    StepFed(ordered, w, a, fans, m, got, c);
    StepServed(ordered, w, a, fans, m, got, t, c);
    StepBrought(ordered, w, a, fans, m, c);
  }

  lemma ConnectTracked(ordered: bool, w: World, a: Action, fans: seq<Event>, m: nat)
    requires |w.conns| < |Step(ordered, w, a).conns|
    ensures var r := Step(ordered, w, a);
            |r.conns| == |w.conns| + 1 && Tracked(r, fans, m, [], NOTHING, r.conns[|w.conns|])
  {
    hide After, Ids, InSent;
    assert a.Connect?;
    var r := Step(ordered, w, a);
    assert r.log[0..0] == [];
    NothingWritten(r.log);
  }

  lemma NothingWritten(log: seq<Event>)
    ensures Ids(log[0..0]) == []
  {
  }

  /** In any run: what the channel of a connection delivered and what waits in it is what it accepted of the
      events fanned out since it was registered, each of which has one fate; and the replay has brought, of
      those fanned out before, what it brings. */
  lemma {:induction false} RunTracks(ordered: bool, acts: seq<Action>, c: nat)
    requires c < |Run(ordered, START, acts).conns|
    ensures var w := Run(ordered, START, acts);
            Tracked(w, Fans(ordered, acts), MarkOf(ordered, acts, c), Delivered(ordered, acts, c),
                    FatesOf(ordered, acts, c), w.conns[c])
  {
    hide Step, Tracked, Taken, FannedBy, Registers, Told;
    if acts == [] {
      RunNone(ordered, START);
      assert false;
    } else {
      var n := |acts| - 1;
      var w := Run(ordered, START, acts[..n]);
      RunLast(ordered, START, acts[..n], acts[n]);
      assert acts == acts[..n] + [acts[n]];
      if c < |w.conns| {
        RunTracks(ordered, acts[..n], c);
        RunBooks(ordered, acts[..n]);
        StepTracked(ordered, w, acts[n], Fans(ordered, acts[..n]), MarkOf(ordered, acts[..n], c),
                    Delivered(ordered, acts[..n], c), FatesOf(ordered, acts[..n], c), c);
      } else {
        ConnectTracked(ordered, w, acts[n], Fans(ordered, acts), MarkOf(ordered, acts, c));
        LiveIsFold(ordered, acts[..n], c);
        NotConnectedYet(w, acts[n], c, Delivered(ordered, acts[..n], c));
        NoFatesYet(ordered, acts, c);
        assert Delivered(ordered, acts, c) == [] && c == |w.conns|;
      }
    }
  }

  lemma NotConnectedYet(w: World, a: Action, c: nat, es: seq<Event>)
    requires c >= |w.conns| && Follows(w, c, es)
    ensures es == [] && Taken(w, a, c) == []
  {
  }

  lemma {:induction false} NoFatesYet(ordered: bool, acts: seq<Action>, c: nat)
    requires acts != [] && c >= |Run(ordered, START, acts[..|acts| - 1]).conns|
    ensures FatesOf(ordered, acts, c) == NOTHING
  {
    hide Step;
    var n := |acts| - 1;
    var before := acts[..n];
    if n > 0 {
      RunLast(ordered, START, before[..n - 1], before[n - 1]);
      assert before == before[..n - 1] + [before[n - 1]];
      ConnsGrow(ordered, Run(ordered, START, before[..n - 1]), before[n - 1]);
      NoFatesYet(ordered, before, c);
    }
  }

  lemma ConnsGrow(ordered: bool, w: World, a: Action)
    ensures |w.conns| <= |Step(ordered, w, a).conns|
  {
    hide DropAll, FanOutEvent, RegisterSub, ReceiveFrom, FullIds, ListAfter, After, InSent, LiveStep;
  }

  // ---------- where events are, and what of them is written ----------

  /** Of what had been fanned out before Register, the replay query brings all that is new. */
  ghost predicate InTime(log: seq<Event>, before: seq<Event>, after: int) {
    forall i :: 0 <= i < |log| && log[i] in before && log[i].id > after ==> |After(log[..i + 1], after)| <= REPLAY_LIMIT
  }

  /** Every new event that the channel delivers has been replayed or comes before all greater ones. */
  ghost predicate NoneOvertaken(c: Conn, got: seq<Event>) {
    forall k :: 0 <= k < |got| && got[k].id > c.afterID ==> got[k].id in c.replayed || IsRecord(c.afterID, got, k)
  }

  /** The logged events that a connection has not been delivered: fanned out before it registered, waiting in
      its channel, in flight, refused by the full channel, or fanned out when it was no longer listed. */
  ghost predicate Undelivered(before: seq<Event>, buffer: seq<Event>, inflight: seq<Event>, t: Fates, e: Event) {
    e in before || e in buffer || e in inflight || e in t.refused || e in t.unheard
  }

  /** Each logged event is in one place only. */
  ghost predicate Placed(log: seq<Event>, before: seq<Event>, got: seq<Event>, buffer: seq<Event>,
                         inflight: seq<Event>, t: Fates)
  {
    && DistinctIds(got)
    && (forall e :: e in log <==> e in got || Undelivered(before, buffer, inflight, t, e))
    && Apart(got, before) && Apart(got, buffer) && Apart(got, inflight)
    && Apart(got, t.refused) && Apart(got, t.unheard)
    && Apart(before, buffer) && Apart(before, inflight) && Apart(before, t.refused) && Apart(before, t.unheard)
    && Apart(buffer, inflight) && Apart(buffer, t.refused) && Apart(buffer, t.unheard)
    && Apart(inflight, t.refused) && Apart(inflight, t.unheard) && Apart(t.refused, t.unheard)
  }

  lemma EachInOnePlace(w: World, fans: seq<Event>, m: nat, got: seq<Event>, t: Fates, c: Conn)
    requires Books(w, fans) && Served(w, fans, m, got, t, c) && !c.phase.Opening?
    ensures m <= |fans| && c.handle < |w.bus.chans|
    ensures Placed(w.log, fans[..m], got, w.bus.chans[c.handle].buffer, w.inflight, t)
  {
    var before, since, buffer := fans[..m], fans[m..], w.bus.chans[c.handle].buffer;
    hide DistinctIds, Ascending;
    assert fans == before + since;
    PartsAreApart(fans, w.inflight);
    PartsAreApart(before, since);
    PartsAreApart(got, buffer);
    assert forall e :: e in t.accepted <==> e in got || e in buffer;
    assert forall e :: e in fans <==> e in before || e in since;
    assert forall e :: e in fans + w.inflight <==> e in fans || e in w.inflight;
    hide Books, Dealt;
    assert forall e :: e in since <==> e in got || e in buffer || e in t.refused || e in t.unheard;
  }

  lemma SameId(log: seq<Event>, i: nat, j: nat)
    requires Ascending(log) && i < |log| && j < |log|
    ensures log[i].id == log[j].id ==> i == j
  {
  }

  /** What a live connection has written: the replayed rows, and the records of what was delivered. */
  lemma {:induction false} WrittenInBooks(w: World, before: seq<Event>, got: seq<Event>, c: Conn, i: nat)
    requires Ascending(w.log) && Brought(w.log, before, c) && c.phase.Live? && i < |w.log| && w.log[i].id > c.afterID
    requires c.live == LiveFold(c.afterID, got).0
    ensures w.log[i].id in c.replayed <==> i < c.replayEnd
    ensures w.log[i].id in c.live <==>
            exists k :: 0 <= k < |got| && got[k].id == w.log[i].id && IsRecord(c.afterID, got, k)
  {
    hide LiveFold, Covers, IsRecord, Ascending, ReplayOk;
    FoldWritesRecords(c.afterID, got, w.log[i].id);
    ReplayedInBooks(w.log, c.afterID, c.start, c.replayEnd, c.replayed, i);
  }

  lemma ReplayedInBooks(log: seq<Event>, after: int, start: nat, end: nat, replayed: seq<int>, i: nat)
    requires Ascending(log) && ReplayOk(log, after, start, end, replayed) && start + |replayed| == end
    requires i < |log| && log[i].id > after
    ensures log[i].id in replayed <==> i < end
  {
    hide Ascending;
    assert forall k :: 0 <= k < |replayed| ==> replayed[k] == log[start + k].id;
    if i < end {
      assert replayed[i - start] == log[i].id;
    }
    if log[i].id in replayed {
      var k :| 0 <= k < |replayed| && replayed[k] == log[i].id;
      SameId(log, start + k, i);
    }
  }

  lemma {:induction false} DeliveredWritten(w: World, before: seq<Event>, got: seq<Event>, c: Conn, i: nat, k: nat)
    requires Ascending(w.log) && Brought(w.log, before, c) && c.phase.Live? && c.live == LiveFold(c.afterID, got).0
    requires DistinctIds(got) && i < |w.log| && w.log[i].id > c.afterID && k < |got| && w.log[i] == got[k]
    ensures w.log[i].id in c.live <==> IsRecord(c.afterID, got, k)
  {
    WrittenInBooks(w, before, got, c, i);
    hide LiveFold, IsRecord, Ascending, ReplayOk, Covers;
    assert forall j :: 0 <= j < |got| && got[j].id == got[k].id ==> j == k;
  }

  lemma {:induction false} UndeliveredWritten(w: World, before: seq<Event>, got: seq<Event>, c: Conn, i: nat)
    requires Ascending(w.log) && Brought(w.log, before, c) && c.phase.Live? && c.live == LiveFold(c.afterID, got).0
    requires (forall e :: e in got ==> e in w.log) && i < |w.log| && w.log[i].id > c.afterID && w.log[i] !in got
    ensures w.log[i].id !in c.live
  {
    WrittenInBooks(w, before, got, c, i);
    forall k | 0 <= k < |got|
      ensures got[k].id != w.log[i].id
    {
      assert got[k] in w.log;
      var j :| 0 <= j < |w.log| && w.log[j] == got[k];
      SameId(w.log, i, j);
    }
  }

  /** In any run a new event has been written twice exactly when the replay query returned it and the channel
      delivered it ahead of all greater ones; and never three times. */
  lemma {:induction false} WrittenTwiceExactly(ordered: bool, acts: seq<Action>, c: nat, i: nat)
    requires var w := Run(ordered, START, acts);
             c < |w.conns| && w.conns[c].phase.Live? && i < |w.log| && w.log[i].id > w.conns[c].afterID
    ensures var w := Run(ordered, START, acts);
            var (conn, got) := (w.conns[c], Delivered(ordered, acts, c));
            && Increasing(conn.afterID, conn.replayed) && Increasing(conn.afterID, conn.live)
            && (w.log[i].id in conn.replayed && w.log[i].id in conn.live <==>
                && i < conn.replayEnd
                && exists k :: 0 <= k < |got| && got[k] == w.log[i] && IsRecord(conn.afterID, got, k))
  {
    hide Run, Fans, MarkOf, Delivered, FatesOf, LiveFold, After;
    RunBooks(ordered, acts);
    RunTracks(ordered, acts, c);
    LiveIsFold(ordered, acts, c);
    AllDeliveredIsWrittenExactly(ordered, acts, c);
    TwiceExactly(Run(ordered, START, acts), Fans(ordered, acts), MarkOf(ordered, acts, c),
                 Delivered(ordered, acts, c), FatesOf(ordered, acts, c), Run(ordered, START, acts).conns[c], i);
  }

  lemma {:induction false} TwiceExactly(w: World, fans: seq<Event>, m: nat, got: seq<Event>, t: Fates, c: Conn, i: nat)
    requires Books(w, fans) && Tracked(w, fans, m, got, t, c) && c.phase.Live?
    requires c.live == LiveFold(c.afterID, got).0 && i < |w.log| && w.log[i].id > c.afterID
    ensures Increasing(c.afterID, c.replayed)
    ensures w.log[i].id in c.replayed && w.log[i].id in c.live <==>
            && i < c.replayEnd
            && exists k :: 0 <= k < |got| && got[k] == w.log[i] && IsRecord(c.afterID, got, k)
  {
    EachInOnePlace(w, fans, m, got, t, c);
    WrittenInBooks(w, fans[..m], got, c, i);
    ReplayIncreases(w.log, c.afterID, c.start, c.replayEnd, c.replayed);
    hide Books, Tracked, LiveFold, IsRecord, Increasing, Undelivered;
    if w.log[i] in got {
      var k :| 0 <= k < |got| && got[k] == w.log[i];
      DeliveredWritten(w, fans[..m], got, c, i, k);
    } else {
      UndeliveredWritten(w, fans[..m], got, c, i);
    }
  }

  lemma ReplayIncreases(log: seq<Event>, after: int, start: nat, end: nat, replayed: seq<int>)
    requires Ascending(log) && ReplayOk(log, after, start, end, replayed)
    ensures Increasing(after, replayed)
  {
    assert forall k :: 0 <= k < |replayed| ==> replayed[k] == log[start + k].id;
  }

  // ---------- what is missed ----------

  /** What has been refused or not heard of and is new has been replayed. */
  ghost predicate RefusedReplayed(c: Conn, t: Fates) {
    forall e :: e in t.refused || e in t.unheard ==> e.id <= c.afterID || e.id in c.replayed
  }

  /** Nothing missed, and exactly when, in any run: every logged event above the starting id of a live
      connection is written, buffered or in flight if and only if of those fanned out before it registered
      none is more than REPLAY_LIMIT new ids up in the log, of those its channel delivered none comes after a
      greater one without having been replayed, and all that its channel was full for or no longer listed for
      have been replayed. To a connected one nothing of that last kind has happened. */
  lemma {:induction false} NothingMissedExactly(ordered: bool, acts: seq<Action>, c: nat)
    requires var w := Run(ordered, START, acts); c < |w.conns| && w.conns[c].phase.Live?
    ensures var w := Run(ordered, START, acts);
            var (conn, got, t) := (w.conns[c], Delivered(ordered, acts, c), FatesOf(ordered, acts, c));
            && conn.handle < |w.bus.chans| && MarkOf(ordered, acts, c) <= |Fans(ordered, acts)|
            && ((forall i :: 0 <= i < |w.log| && w.log[i].id > conn.afterID ==> InHand(w, conn, i)) <==>
                && InTime(w.log, Fans(ordered, acts)[..MarkOf(ordered, acts, c)], conn.afterID)
                && NoneOvertaken(conn, got) && RefusedReplayed(conn, t))
            && (Connected(w, conn) ==> t.refused == [] && t.unheard == [])
  {
    hide Run, Fans, MarkOf, Delivered, FatesOf, LiveFold, InTime, Connected, NoneOvertaken,
         RefusedReplayed;
    RunBooks(ordered, acts);
    RunTracks(ordered, acts, c);
    LiveIsFold(ordered, acts, c);
    MissedExactly(Run(ordered, START, acts), Fans(ordered, acts), MarkOf(ordered, acts, c), Delivered(ordered, acts, c),
                  FatesOf(ordered, acts, c), Run(ordered, START, acts).conns[c]);
  }

  lemma {:induction false} MissedExactly(w: World, fans: seq<Event>, m: nat, got: seq<Event>, t: Fates, c: Conn)
    requires Books(w, fans) && Tracked(w, fans, m, got, t, c) && c.phase.Live?
    requires c.live == LiveFold(c.afterID, got).0
    ensures m <= |fans| && c.handle < |w.bus.chans|
    ensures (forall i :: 0 <= i < |w.log| && w.log[i].id > c.afterID ==> InHand(w, c, i)) <==>
            InTime(w.log, fans[..m], c.afterID) && NoneOvertaken(c, got) && RefusedReplayed(c, t)
    ensures Connected(w, c) ==> t.refused == [] && t.unheard == []
  {
    var before, buffer := fans[..m], w.bus.chans[c.handle].buffer;
    EachInOnePlace(w, fans, m, got, t, c);
    if Connected(w, c) { ConnectedHears(w, fans, m, got, t, c); }
    forall i | 0 <= i < |w.log| && w.log[i].id > c.afterID
      ensures InHand(w, c, i) <==> NotMissed(w, c, before, got, t, i)
    {
      InHandExactly(w, before, got, t, c, i);
    }
    hide Books, Tracked, LiveFold, InHand, Connected;
    MissedInParts(w, c, before, got, buffer, t);
  }

  /** One logged event, by the place it is in. */
  ghost predicate NotMissed(w: World, c: Conn, before: seq<Event>, got: seq<Event>, t: Fates, i: nat)
    requires i < |w.log|
  {
    var e := w.log[i];
    && (e in before ==> |After(w.log[..i + 1], c.afterID)| <= REPLAY_LIMIT)
    && (forall k :: 0 <= k < |got| && got[k] == e ==> e.id in c.replayed || IsRecord(c.afterID, got, k))
    && (e in t.refused || e in t.unheard ==> e.id in c.replayed)
  }

  lemma {:induction false} InHandExactly(w: World, before: seq<Event>, got: seq<Event>, t: Fates, c: Conn, i: nat)
    requires Ascending(w.log) && Brought(w.log, before, c) && c.phase.Live? && c.live == LiveFold(c.afterID, got).0
    requires c.handle < |w.bus.chans| && Placed(w.log, before, got, w.bus.chans[c.handle].buffer, w.inflight, t)
    requires i < |w.log| && w.log[i].id > c.afterID
    ensures InHand(w, c, i) <==> NotMissed(w, c, before, got, t, i)
  {
    var e := w.log[i];
    WrittenInBooks(w, before, got, c, i);
    if e in got {
      forall k | 0 <= k < |got| && got[k] == e
        ensures e.id in c.live <==> IsRecord(c.afterID, got, k)
      {
        DeliveredWritten(w, before, got, c, i, k);
      }
      var k :| 0 <= k < |got| && got[k] == e;
      hide LiveFold, After, IsRecord, Ascending, ReplayOk, DistinctIds;
    } else {
      UndeliveredWritten(w, before, got, c, i);
      hide LiveFold, After, IsRecord, Ascending, ReplayOk, DistinctIds;
      assert e in w.log;
    }
  }

  lemma MissedInParts(w: World, c: Conn, before: seq<Event>, got: seq<Event>, buffer: seq<Event>, t: Fates)
    requires Placed(w.log, before, got, buffer, w.inflight, t)
    ensures (forall i :: 0 <= i < |w.log| && w.log[i].id > c.afterID ==> NotMissed(w, c, before, got, t, i)) <==>
            InTime(w.log, before, c.afterID) && NoneOvertaken(c, got) && RefusedReplayed(c, t)
  {
    hide After, IsRecord, DistinctIds, Apart;
    if forall i :: 0 <= i < |w.log| && w.log[i].id > c.afterID ==> NotMissed(w, c, before, got, t, i) {
      forall k | 0 <= k < |got| && got[k].id > c.afterID
        ensures got[k].id in c.replayed || IsRecord(c.afterID, got, k)
      {
        assert got[k] in w.log;
        var i :| 0 <= i < |w.log| && w.log[i] == got[k];
      }
      forall e | e in t.refused || e in t.unheard
        ensures e.id <= c.afterID || e.id in c.replayed
      {
        assert e in w.log;
        var i :| 0 <= i < |w.log| && w.log[i] == e;
      }
    }
  }

  /** Fan-outs in id order miss nothing of what is in time, whatever else the publishers do. */
  lemma {:induction false} FanOutsInOrderMissNothing(ordered: bool, acts: seq<Action>, c: nat)
    requires var w := Run(ordered, START, acts);
             c < |w.conns| && w.conns[c].phase.Live? && Connected(w, w.conns[c])
    requires var (fans, m) := (Fans(ordered, acts), MarkOf(ordered, acts, c));
             && m <= |fans|
             && (forall p, q :: m <= p < q < |fans| ==> fans[p].id < fans[q].id)
             && InTime(Run(ordered, START, acts).log, fans[..m], Run(ordered, START, acts).conns[c].afterID)
    ensures var w := Run(ordered, START, acts);
            forall i :: 0 <= i < |w.log| && w.log[i].id > w.conns[c].afterID ==> InHand(w, w.conns[c], i)
  {
    hide Run, Fans, MarkOf, Delivered, FatesOf, InTime, Brought, Served;
    RunTracks(ordered, acts, c);
    NothingMissedExactly(ordered, acts, c);
    var w, got := Run(ordered, START, acts), Delivered(ordered, acts, c);
    var since := Fans(ordered, acts)[MarkOf(ordered, acts, c)..];
    assert got + w.bus.chans[w.conns[c].handle].buffer == since;
    assert forall k :: 0 <= k < |got| ==> got[k] == since[k];
  }
}

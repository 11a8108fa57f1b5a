/** What a subscriber of internal/service/subscription.go can rely on, over every run of Delivery. */
module DeliveryGuarantees {
  import opened BusSpec
  import opened EventLog
  import opened Delivery
  import opened Prelude

  ghost predicate Increasing(after: int, ids: seq<int>) {
    && (forall k :: 0 <= k < |ids| ==> after < ids[k])
    && (forall j, k :: 0 <= j < k < |ids| ==> ids[j] < ids[k])
  }

  lemma StartIsInv()
    ensures Inv(START)
  {
  }

  lemma ReachableConn(acts: seq<Action>, c: nat) returns (w: World)
    requires c < |Run(true, START, acts).conns|
    ensures w == Run(true, START, acts) && Inv(w) && Ascending(w.log) && OneConn(w, w.conns[c])
  {
    StartIsInv();
    RunKeepsInv(START, acts);
    w := Run(true, START, acts);
  }

  /** The events a connection has written, by position in the log. */
  ghost predicate Replayed(c: Conn, i: int) {
    c.start <= i < c.start + |c.replayed|
  }

  ghost predicate SentLive(log: seq<Event>, c: Conn, i: int) {
    c.mark <= i < c.mark + c.received && i < |log| && log[i].id > c.afterID
  }

  /** The new ids of a stretch of the log are those of a final part of it. */
  lemma NewIds(log: seq<Event>, a: nat, b: nat, after: int) returns (first: nat)
    requires Ascending(log) && a <= b <= |log|
    ensures a <= first <= b && Ids(After(log[a..b], after)) == Ids(log[first..b])
    ensures forall i :: a <= i < b ==> (log[i].id > after <==> i >= first)
  {
    var seen := log[a..b];
    AfterIsSuffix(seen, after);
    hide After;
    first := b - |After(seen, after)|;
    assert After(seen, after) == log[first..b];
    forall i | a <= i < b
      ensures log[i].id > after <==> i >= first
    {
      assert seen[i - a] == log[i];
    }
  }

  /** Both parts of what was written are stretches of the log. */
  lemma ByPosition(log: seq<Event>, fanned: nat, c: Conn) returns (first: nat)
    requires Ascending(log) && ConnOk(log, fanned, c)
    ensures c.mark + c.received <= |log| && c.start + |c.replayed| <= |log|
    ensures forall k :: 0 <= k < |c.replayed| ==> c.replayed[k] == log[c.start + k].id
    ensures c.mark <= first && first + |c.live| == c.mark + c.received
    ensures forall k :: 0 <= k < |c.live| ==> c.live[k] == log[first + k].id
    ensures forall i :: c.mark <= i < c.mark + c.received ==> (log[i].id > c.afterID <==> i >= first)
    ensures forall i :: 0 <= i < c.start + |c.replayed| ==> (log[i].id > c.afterID <==> i >= c.start)
  {
    hide Backlog, After, Ascending;
    first := NewIds(log, c.mark, c.mark + c.received, c.afterID);
  }

  lemma WrittenByPosition(log: seq<Event>, fanned: nat, c: Conn, i: nat)
    requires Ascending(log) && ConnOk(log, fanned, c) && i < |log|
    ensures log[i].id in c.replayed <==> Replayed(c, i)
    ensures log[i].id in c.live <==> SentLive(log, c, i)
  {
    hide ConnOk;
    var first := ByPosition(log, fanned, c);
    if Replayed(c, i) {
      assert c.replayed[i - c.start] == log[i].id;
    }
    if SentLive(log, c, i) {
      assert c.live[i - first] == log[i].id;
    }
  }

  ghost predicate InHand(w: World, c: Conn, i: nat)
    requires i < |w.log| && c.handle < |w.bus.chans|
  {
    || w.log[i].id in c.Written()
    || w.log[i] in w.bus.chans[c.handle].buffer
    || w.log[i] in w.inflight
  }

  /** No gap, and exactly when: while a live connection stays registered, every logged event above
      its starting id is written, buffered or on its way, if and only if at most 500 of them
      had already been fanned out when it registered. */
  lemma {:induction false} NoGapExactly(acts: seq<Action>, c: nat)
    requires var w := Run(true, START, acts);
             && c < |w.conns| && w.conns[c].phase.Live?
             && w.conns[c].handle < |w.bus.chans|
             && w.bus.chans[w.conns[c].handle].closes == 0 && w.conns[c].sub !in w.toEvict
    ensures var w := Run(true, START, acts);
            (forall i :: 0 <= i < |w.log| && w.log[i].id > w.conns[c].afterID ==> InHand(w, w.conns[c], i))
            <==> Backlog(w.log, w.conns[c]) <= 500
  {
    var w := ReachableConn(acts, c);
    var conn := w.conns[c];
    hide BusInv;
    if Backlog(w.log, conn) <= REPLAY_LIMIT {
      forall i | 0 <= i < |w.log| && w.log[i].id > conn.afterID
        ensures InHand(w, conn, i)
      {
        EventInHand(w, conn, i);
      }
    } else {
      var i := LostEvent(w, conn);
      assert !InHand(w, conn, i);
    }
  }

  lemma EventInHand(w: World, c: Conn, i: nat)
    requires LogOk(w) && OneConn(w, c) && c.phase.Live? && i < |w.log| && w.log[i].id > c.afterID
    requires w.bus.chans[c.handle].closes == 0 && c.sub !in w.toEvict
    requires Backlog(w.log, c) <= REPLAY_LIMIT
    ensures InHand(w, c, i)
  {
    WrittenByPosition(w.log, Fanned(w), c, i);
    var from := c.mark + c.received;
    var buffer := w.bus.chans[c.handle].buffer;
    if from <= i < Fanned(w) {
      assert buffer[i - from] == w.log[i];
    }
  }

  lemma LostPosition(log: seq<Event>, fanned: nat, c: Conn) returns (i: nat)
    requires Ascending(log) && ConnOk(log, fanned, c) && c.phase.Live? && Backlog(log, c) > REPLAY_LIMIT
    ensures c.replayEnd <= i < c.mark && i < |log| && log[i].id > c.afterID && !Replayed(c, i)
  {
    hide After, Backlog, ReplayOk;
    AfterIsSuffix(log, c.afterID);
    BacklogBySuffix(log, c);
    var p := |log| - |After(log, c.afterID)|;
    i := if p < c.replayEnd then c.replayEnd else p;
  }

  lemma LostEvent(w: World, c: Conn) returns (i: nat)
    requires LogOk(w) && OneConn(w, c) && c.phase.Live?
    requires Backlog(w.log, c) > REPLAY_LIMIT
    ensures i < |w.log| && w.log[i].id > c.afterID && !InHand(w, c, i)
  {
    i := LostPosition(w.log, Fanned(w), c);
    hide ConnOk;
    WrittenByPosition(w.log, Fanned(w), c, i);
    var buffer := w.bus.chans[c.handle].buffer;
    assert forall k :: 0 <= k < |buffer| ==> buffer[k] == w.log[c.mark + c.received + k];
  }

  /** Live ids are strictly increasing, start above the starting id and end at lastSentID. */
  lemma {:induction false} LiveIdsIncrease(acts: seq<Action>, c: nat)
    requires c < |Run(true, START, acts).conns|
    ensures var conn := Run(true, START, acts).conns[c];
            && Increasing(conn.afterID, conn.live)
            && (conn.phase.Live? ==> conn.lastSent == LastOf(conn.afterID, conn.live))
  {
    var w := ReachableConn(acts, c);
    LiveIsIncreasing(w.log, Fanned(w), w.conns[c]);
  }

  lemma LiveIsIncreasing(log: seq<Event>, fanned: nat, c: Conn)
    requires Ascending(log) && ConnOk(log, fanned, c)
    ensures Increasing(c.afterID, c.live)
    ensures c.phase.Live? ==> c.lastSent == LastOf(c.afterID, c.live)
  {
    hide Backlog, ReplayOk, Ids, After, Increasing;
    NewIdsIncrease(log[c.mark..c.mark + c.received], c.afterID);
  }

  lemma {:induction false} NewIdsIncrease(seen: seq<Event>, after: int)
    requires Ascending(seen)
    ensures Increasing(after, Ids(After(seen, after)))
  {
    hide After;
    AfterIsSuffix(seen, after);
  }

  /** Each event is written at most twice, and twice exactly when it was fanned out after Register
      and logged before the replay query: the replay does not advance lastSentID. */
  lemma {:induction false} DuplicatesExactly(acts: seq<Action>, c: nat, i: nat)
    requires var w := Run(true, START, acts); c < |w.conns| && i < |w.log|
    requires Run(true, START, acts).conns[c].phase.Live?
    ensures var w := Run(true, START, acts);
            var conn := w.conns[c];
            && Increasing(conn.afterID, conn.replayed) && Increasing(conn.afterID, conn.live)
            && (w.log[i].id in conn.replayed && w.log[i].id in conn.live
                <==> w.log[i].id > conn.afterID && conn.mark <= i < Min(conn.replayEnd, conn.mark + conn.received))
  {
    var w := ReachableConn(acts, c);
    var conn := w.conns[c];
    WrittenByPosition(w.log, Fanned(w), conn, i);
    LiveIdsIncrease(acts, c);
    var first := ByPosition(w.log, Fanned(w), conn);
  }

  // ---------- starting points and checkpoints ----------

  /** A connection starts at the larger of its subscriber's checkpoint and its header, with nothing written. */
  lemma ConnectStartsAtLarger(ordered: bool, w: World, sub: string, header: Option<int>)
    ensures var r := Step(ordered, w, Connect(sub, header));
            if sub in w.checkpoint && (header.Some? ==> InSent(w, sub, header.value)) then
              && |r.conns| == |w.conns| + 1 && r.conns[..|w.conns|] == w.conns
              && var c := r.conns[|w.conns|];
                 && c.sub == sub && c.phase.Opening? && c.Written() == []
                 && c.afterID >= w.checkpoint[sub] && (header.Some? ==> c.afterID >= header.value)
                 && (c.afterID == w.checkpoint[sub] || header == Some(c.afterID))
            else r == w
  {
    hide InSent;
  }

  /** What moves a checkpoint: a live connection of the subscriber that leaves and whose save succeeds, to the
      id it has sent last; and nothing else. */
  lemma CheckpointMovesExactly(ordered: bool, w: World, a: Action, sub: string)
    requires sub in w.checkpoint
    ensures var r := Step(ordered, w, a);
            && sub in r.checkpoint
            && r.checkpoint[sub] ==
               if a.Leave? && a.saved && a.c < |w.conns| && w.conns[a.c].phase.Live? && w.conns[a.c].sub == sub
               then w.conns[a.c].lastSent else w.checkpoint[sub]
  {
    hide DropAll, FanOutEvent, RegisterSub, ReceiveFrom, FullIds, ListAfter, After, InSent, LiveStep, AboveLog;
  }

  // ---------- resuming ----------

  /** No connection had more than REPLAY_LIMIT events behind it when it registered. */
  ghost predicate WithinLimit(w: World) {
    forall c :: 0 <= c < |w.conns| && !w.conns[c].phase.Opening? ==> Backlog(w.log, w.conns[c]) <= REPLAY_LIMIT
  }

  /** Whatever a connection has written last, it has by then written all that is needed below it. */
  lemma WrittenIsPrefixClosed(log: seq<Event>, fanned: nat, c: Conn, k: nat, i: nat)
    requires Ascending(log) && ConnOk(log, fanned, c) && Backlog(log, c) <= REPLAY_LIMIT
    requires k < |c.Written()| && i < |log| && c.afterID < log[i].id <= c.Written()[k]
    ensures log[i].id in c.Written()[..k + 1]
    ensures !AboveLog(log, c.Written()[k]) && c.Written()[k] > c.afterID
  {
    hide ConnOk, Backlog;
    var first := ByPosition(log, fanned, c);
    FullReplayBeforeLive(log, fanned, c);
    var ids := c.Written();
    if k < |c.replayed| {
      assert ids[k] == log[c.start + k].id;
      assert ids[i - c.start] == log[i].id;
    } else {
      var j := k - |c.replayed|;
      assert ids[k] == log[first + j].id;
      if i < c.replayEnd {
        assert ids[i - c.start] == log[i].id;
      } else {
        assert ids[|c.replayed| + i - first] == log[i].id;
      }
    }
  }

  lemma FullReplayBeforeLive(log: seq<Event>, fanned: nat, c: Conn)
    requires ConnOk(log, fanned, c) && Backlog(log, c) <= REPLAY_LIMIT
    ensures c.live != [] ==> c.mark <= c.replayEnd == c.start + |c.replayed|
  {
    hide ReplayOk, Backlog;
    assert c.received == 0 ==> After(log[c.mark..c.mark], c.afterID) == [];
  }

  lemma WrittenIsLogged(log: seq<Event>, fanned: nat, c: Conn, id: int)
    requires Ascending(log) && ConnOk(log, fanned, c) && id in c.Written()
    ensures !AboveLog(log, id)
  {
    hide ConnOk;
    var first := ByPosition(log, fanned, c);
    var k :| 0 <= k < |c.Written()| && c.Written()[k] == id;
    var at := if k < |c.replayed| then c.start + k else first + k - |c.replayed|;
    assert id == log[at].id;
  }

  /** Resuming after id skips nothing: all events in (base, id] have been written for the subscriber. */
  ghost predicate SafePoint(w: World, sub: string, id: int)
    requires sub in w.base
  {
    && (id <= w.base[sub] || !AboveLog(w.log, id))
    && forall i :: 0 <= i < |w.log| && w.base[sub] < w.log[i].id <= id ==> InSent(w, sub, w.log[i].id)
  }

  ghost predicate KnownSubs(w: World) {
    && w.base.Keys == w.checkpoint.Keys
    && forall c :: 0 <= c < |w.conns| ==> w.conns[c].sub in w.base
  }

  ghost predicate Resumable(w: World) {
    && KnownSubs(w)
    && (WithinLimit(w) ==>
          && (forall c :: 0 <= c < |w.conns| ==> SafePoint(w, w.conns[c].sub, w.conns[c].afterID))
          && (forall sub :: sub in w.checkpoint ==> SafePoint(w, sub, w.checkpoint[sub])))
  }

  /** Any written id is a safe point when the connection itself started from one. */
  lemma WrittenIsSafe(w: World, c: nat, id: int)
    requires Inv(w) && KnownSubs(w) && WithinLimit(w) && c < |w.conns| && id in w.conns[c].Written()
    requires SafePoint(w, w.conns[c].sub, w.conns[c].afterID)
    ensures SafePoint(w, w.conns[c].sub, id)
  {
    var conn := w.conns[c];
    assert OneConn(w, conn);
    WrittenIsLogged(w.log, Fanned(w), conn, id);
    var k :| 0 <= k < |conn.Written()| && conn.Written()[k] == id;
    forall i | 0 <= i < |w.log| && w.base[conn.sub] < w.log[i].id <= id
      ensures InSent(w, conn.sub, w.log[i].id)
    {
      if w.log[i].id > conn.afterID {
        WrittenIsPrefixClosed(w.log, Fanned(w), conn, k, i);
      }
    }
  }

  ghost predicate Grows(c: Conn, d: Conn) {
    && d.sub == c.sub && d.afterID == c.afterID
    && (!c.phase.Opening? ==> !d.phase.Opening? && d.mark == c.mark)
    && c.replayed <= d.replayed && c.live <= d.live
  }

  lemma GrownWritten(c: Conn, d: Conn, id: int)
    requires Grows(c, d) && id in c.Written()
    ensures id in d.Written()
  {
    if id in c.replayed {
      assert id in d.replayed;
    } else {
      assert id in d.live;
    }
  }

  /** What the step of one connection may change about the rest of the world. */
  ghost predicate Extends(w: World, r: World) {
    && w.log <= r.log && |w.conns| <= |r.conns| && w.base.Keys <= r.base.Keys
    && (forall sub :: sub in w.base ==> r.base[sub] == w.base[sub])
    && (forall c :: 0 <= c < |w.conns| ==> Grows(w.conns[c], r.conns[c]))
  }

  lemma StepExtends(w: World, a: Action)
    requires KnownSubs(w)
    ensures Extends(w, Step(true, w, a))
  {
    hide Step, Grows, KnownSubs;
    StepKeepsHistory(w, a);
    var r := Step(true, w, a);
    forall c | 0 <= c < |w.conns|
      ensures Grows(w.conns[c], r.conns[c])
    {
      StepGrows(w, a, c);
    }
  }

  lemma StepKeepsHistory(w: World, a: Action)
    requires KnownSubs(w)
    ensures var r := Step(true, w, a);
            && w.log <= r.log && |w.conns| <= |r.conns| && w.base.Keys <= r.base.Keys
            && forall sub :: sub in w.base ==> r.base[sub] == w.base[sub]
  {
    hide DropAll, FanOutEvent, RegisterSub, ReceiveFrom, FullIds, ListAfter, After, InSent, AboveLog, LiveStep;
  }

  lemma StepGrows(w: World, a: Action, c: nat)
    requires c < |w.conns|
    ensures c < |Step(true, w, a).conns| && Grows(w.conns[c], Step(true, w, a).conns[c])
  {
    hide DropAll, FanOutEvent, RegisterSub, ReceiveFrom, FullIds, ListAfter, After, InSent, AboveLog;
  }

  lemma StepKnowsSubs(w: World, a: Action)
    requires KnownSubs(w)
    ensures KnownSubs(Step(true, w, a))
  {
    hide DropAll, FanOutEvent, RegisterSub, ReceiveFrom, FullIds, ListAfter, After, InSent, AboveLog;
  }

  lemma LimitLasts(w: World, r: World)
    requires Inv(w) && Extends(w, r) && WithinLimit(r)
    ensures WithinLimit(w)
  {
    hide BusInv, ChanOk, ConnOk, Backlog, LogOk;
    forall c | 0 <= c < |w.conns| && !w.conns[c].phase.Opening?
      ensures Backlog(w.log, w.conns[c]) <= REPLAY_LIMIT
    {
      assert OneConn(w, w.conns[c]);
      BacklogLasts(w.log, r.log, Fanned(w), w.conns[c], r.conns[c]);
    }
  }

  lemma BacklogLasts(log: seq<Event>, longer: seq<Event>, fanned: nat, c: Conn, d: Conn)
    requires ConnOk(log, fanned, c) && log <= longer && d.mark == c.mark && d.afterID == c.afterID
    ensures Backlog(longer, d) == Backlog(log, c)
  {
    hide ReplayOk, After, Ids;
    assert longer[..c.mark] == log[..c.mark];
  }

  lemma SafePointLasts(w: World, r: World, sub: string, id: int)
    requires Extends(w, r) && Ascending(r.log) && sub in w.base && SafePoint(w, sub, id)
    ensures SafePoint(r, sub, id)
  {
    assert forall i :: 0 <= i < |w.log| ==> r.log[i] == w.log[i];
    forall i | 0 <= i < |r.log| && r.base[sub] < r.log[i].id <= id
      ensures InSent(r, sub, r.log[i].id)
    {
      assert i < |w.log|;
      var c :| 0 <= c < |w.conns| && w.conns[c].sub == sub && w.log[i].id in w.conns[c].Written();
      GrownWritten(w.conns[c], r.conns[c], w.log[i].id);
      assert r.conns[c].sub == sub && r.log[i].id in r.conns[c].Written();
    }
    if id > r.base[sub] {
      assert !AboveLog(r.log, w.log[|w.log| - 1].id);
    }
  }

  lemma StepKeepsResumable(w: World, a: Action)
    requires Inv(w) && Resumable(w)
    ensures Resumable(Step(true, w, a))
  {
    hide Inv, Step, SafePoint, KnownSubs;
    var r := Step(true, w, a);
    StepExtends(w, a);
    StepKnowsSubs(w, a);
    StepKeepsInv(w, a);
    if WithinLimit(r) {
      LimitLasts(w, r);
      forall c | 0 <= c < |r.conns|
        ensures r.conns[c].sub in r.base && SafePoint(r, r.conns[c].sub, r.conns[c].afterID)
      {
        ConnStaysSafe(w, a, c);
      }
      forall sub | sub in r.checkpoint
        ensures sub in r.base && SafePoint(r, sub, r.checkpoint[sub])
      {
        CheckpointStaysSafe(w, a, sub);
      }
    }
  }

  lemma ConnStaysSafe(w: World, a: Action, c: nat)
    requires Inv(w) && Inv(Step(true, w, a)) && Resumable(w) && WithinLimit(w) && Extends(w, Step(true, w, a))
    requires c < |Step(true, w, a).conns|
    ensures var r := Step(true, w, a); r.conns[c].sub in r.base && SafePoint(r, r.conns[c].sub, r.conns[c].afterID)
  {
    hide Step, SafePoint, BusInv, OneConn, TwoConns, Backlog;
    var r := Step(true, w, a);
    if c < |w.conns| {
      assert Grows(w.conns[c], r.conns[c]);
      SafePointLasts(w, r, w.conns[c].sub, w.conns[c].afterID);
    } else {
      StartIsSafe(w, a);
      SafePointLasts(w, r, r.conns[c].sub, r.conns[c].afterID);
    }
  }

  lemma CheckpointStaysSafe(w: World, a: Action, sub: string)
    requires Inv(w) && Inv(Step(true, w, a)) && Resumable(w) && WithinLimit(w) && Extends(w, Step(true, w, a))
    requires sub in Step(true, w, a).checkpoint
    ensures var r := Step(true, w, a); sub in r.base && SafePoint(r, sub, r.checkpoint[sub])
  {
    hide SafePoint, BusInv, OneConn, TwoConns, Backlog, DropAll, FanOutEvent, RegisterSub, ReceiveFrom,
         FullIds, ListAfter, After, InSent;
    var r := Step(true, w, a);
    if sub in w.checkpoint && r.checkpoint[sub] == w.checkpoint[sub] {
      SafePointLasts(w, r, sub, w.checkpoint[sub]);
    } else if sub in w.checkpoint {
      SavedIsSafe(w, a, sub);
      SafePointLasts(w, r, sub, r.checkpoint[sub]);
    } else {
      NewCheckpointIsSafe(w, a, sub);
    }
  }

  lemma NewCheckpointIsSafe(w: World, a: Action, sub: string)
    requires KnownSubs(w) && sub !in w.checkpoint && sub in Step(true, w, a).checkpoint
    ensures var r := Step(true, w, a); sub in r.base && SafePoint(r, sub, r.checkpoint[sub])
  {
    assert a.Ensure?;
  }

  /** A new connection starts from the checkpoint or from an id the client says it was sent. */
  lemma StartIsSafe(w: World, a: Action)
    requires Inv(w) && Resumable(w) && WithinLimit(w) && |Step(true, w, a).conns| > |w.conns|
    ensures var conn := Step(true, w, a).conns[|w.conns|]; conn.sub in w.base && SafePoint(w, conn.sub, conn.afterID)
    ensures |Step(true, w, a).conns| == |w.conns| + 1
  {
    hide Inv;
    assert a.Connect?;
    if a.header.Some? {
      var c :| 0 <= c < |w.conns| && w.conns[c].sub == a.sub && a.header.value in w.conns[c].Written();
      WrittenIsSafe(w, c, a.header.value);
    }
  }

  /** A checkpoint that is saved is the lastSentID of a live connection. */
  lemma SavedIsSafe(w: World, a: Action, sub: string)
    requires Inv(w) && Resumable(w) && WithinLimit(w) && sub in w.checkpoint
    requires sub in Step(true, w, a).checkpoint && Step(true, w, a).checkpoint[sub] != w.checkpoint[sub]
    ensures SafePoint(w, sub, Step(true, w, a).checkpoint[sub])
  {
    hide BusInv, ChanOk, ConnOk, ReplayOk, SafePoint, Backlog, DropAll, FanOutEvent, RegisterSub, ReceiveFrom,
         FullIds, ListAfter;
    assert a.Leave?;
    var conn := w.conns[a.c];
    assert OneConn(w, conn);
    LiveIsIncreasing(w.log, Fanned(w), conn);
    if conn.lastSent != conn.afterID {
      assert conn.live[|conn.live| - 1] == conn.lastSent;
      WrittenIsSafe(w, a.c, conn.lastSent);
    }
  }

  lemma {:induction false} RunKeepsResumable(w: World, acts: seq<Action>)
    requires Inv(w) && Resumable(w)
    ensures Inv(Run(true, w, acts)) && Resumable(Run(true, w, acts))
    decreases |acts|
  {
    hide Inv, Resumable;
    if acts != [] {
      StepKeepsInv(w, acts[0]);
      StepKeepsResumable(w, acts[0]);
      RunKeepsResumable(Step(true, w, acts[0]), acts[1..]);
    }
  }

  lemma LiveLeavesNoHole(log: seq<Event>, fanned: nat, c: Conn)
    requires Ascending(log) && ConnOk(log, fanned, c) && Backlog(log, c) <= REPLAY_LIMIT && c.phase.Live?
    ensures forall i :: 0 <= i < |log| && c.afterID < log[i].id <= c.lastSent ==> log[i].id in c.Written()
  {
    LiveIsIncreasing(log, fanned, c);
    hide ConnOk, Ascending, Backlog, Increasing;
    if c.lastSent > c.afterID {
      var k := |c.Written()| - 1;
      assert c.Written()[k] == c.lastSent;
      forall i | 0 <= i < |log| && c.afterID < log[i].id <= c.lastSent
        ensures log[i].id in c.Written()
      {
        WrittenIsPrefixClosed(log, fanned, c, k, i);
      }
    }
  }

  /** Safe resume: in every run with ordered fan-outs and any number of connections, however each ended and
      whether or not its checkpoint was saved, a connection starts with nothing above the
      subscriber's first checkpoint left unsent, and what it has sent live leaves no hole either. */
  lemma {:induction false} ResumeNeverSkips(acts: seq<Action>, c: nat)
    requires var w := Run(true, START, acts); c < |w.conns| && WithinLimit(w)
    ensures var w := Run(true, START, acts);
            var conn := w.conns[c];
            && conn.sub in w.base
            && (forall i :: 0 <= i < |w.log| && w.base[conn.sub] < w.log[i].id <= conn.afterID
                  ==> InSent(w, conn.sub, w.log[i].id))
            && (conn.phase.Live? ==>
                  (forall i :: 0 <= i < |w.log| && conn.afterID < w.log[i].id <= conn.lastSent
                     ==> w.log[i].id in conn.Written()))
  {
    hide Run, Inv, SafePoint, ConnOk, ChanOk, Backlog;
    StartIsResumable();
    RunKeepsResumable(START, acts);
    var w := ReachableConn(acts, c);
    SafePointMeans(w, w.conns[c].sub, w.conns[c].afterID);
    if w.conns[c].phase.Live? {
      LiveLeavesNoHole(w.log, Fanned(w), w.conns[c]);
    }
  }

  lemma StartIsResumable()
    ensures Inv(START) && Resumable(START)
  {
  }

  lemma SafePointMeans(w: World, sub: string, id: int)
    requires sub in w.base && SafePoint(w, sub, id)
    ensures forall i :: 0 <= i < |w.log| && w.base[sub] < w.log[i].id <= id ==> InSent(w, sub, w.log[i].id)
  {
  }

  /** At least once, end to end: nothing above the first checkpoint is ever lost to a subscriber that
      is connected. Every such event has been written by one of its connections, or waits in the
      channel of the current one, or is being published. */
  lemma {:induction false} NothingIsLost(acts: seq<Action>, c: nat, i: nat)
    requires var w := Run(true, START, acts);
             && c < |w.conns| && WithinLimit(w) && i < |w.log|
             && w.conns[c].phase.Live? && w.conns[c].handle < |w.bus.chans|
             && w.bus.chans[w.conns[c].handle].closes == 0 && w.conns[c].sub !in w.toEvict
    requires var w := Run(true, START, acts); w.conns[c].sub in w.base && w.log[i].id > w.base[w.conns[c].sub]
    ensures var w := Run(true, START, acts);
            || InSent(w, w.conns[c].sub, w.log[i].id)
            || w.log[i] in w.bus.chans[w.conns[c].handle].buffer
            || w.log[i] in w.inflight
  {
    ResumeNeverSkips(acts, c);
    var w := ReachableConn(acts, c);
    if w.log[i].id > w.conns[c].afterID {
      EventInHand(w, w.conns[c], i);
    }
  }
}

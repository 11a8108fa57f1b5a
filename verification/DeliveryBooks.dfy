/** The books of Delivery: where every logged event is, when publishers overlap as they like. One step. */
module DeliveryBooks {
  import opened BusSpec
  import opened EventLog
  import opened Delivery
  import opened DeliveryGuarantees
  import opened DeliveryLimits
  import opened DeliveryOrder

  /** The event that the step fans out, if any. */
  ghost function FannedBy(ordered: bool, w: World, a: Action): seq<Event> {
    if a.FanOut? && a.i < |w.inflight| && (ordered ==> a.i == 0 && w.toEvict == {}) then [w.inflight[a.i]] else []
  }

  /** All events fanned out in the run, in order. */
  ghost function Fans(ordered: bool, acts: seq<Action>): seq<Event> {
    if acts == [] then []
    else
      var n := |acts| - 1;
      Fans(ordered, acts[..n]) + FannedBy(ordered, Run(ordered, START, acts[..n]), acts[n])
  }

  ghost predicate Registers(w: World, a: Action, c: nat) {
    a == RegisterConn(c) && c < |w.conns| && w.conns[c].phase.Opening?
  }

  /** How many events had been fanned out when connection c registered. */
  ghost function MarkOf(ordered: bool, acts: seq<Action>, c: nat): nat {
    if acts == [] then 0
    else
      var n := |acts| - 1;
      if Registers(Run(ordered, START, acts[..n]), acts[n], c) then |Fans(ordered, acts[..n])|
      else MarkOf(ordered, acts[..n], c)
  }

  // ---------- each event is fanned out once ----------

  ghost predicate DistinctIds(es: seq<Event>) {
    forall i, j :: 0 <= i < j < |es| ==> es[i].id != es[j].id
  }

  lemma PartsAreApart(a: seq<Event>, b: seq<Event>)
    requires DistinctIds(a + b)
    ensures DistinctIds(a) && DistinctIds(b) && forall x, y :: x in a && y in b ==> x.id != y.id
  {
    assert forall i :: 0 <= i < |a| ==> (a + b)[i] == a[i];
    forall i, j | 0 <= i < |b| && 0 <= j < |b| && i < j
      ensures b[i].id != b[j].id
    {
      assert (a + b)[|a| + i] == b[i] && (a + b)[|a| + j] == b[j];
    }
    forall x, y | x in a && y in b
      ensures x.id != y.id
    {
      var i :| 0 <= i < |a| && a[i] == x;
      var j :| 0 <= j < |b| && b[j] == y;
      assert (a + b)[i] == x && (a + b)[|a| + j] == y;
    }
  }

  /** The logged events are those that have been fanned out and those in flight, each once. */
  ghost predicate Books(w: World, fans: seq<Event>) {
    && Ascending(w.log)
    && DistinctIds(fans + w.inflight)
    && forall e :: e in w.log <==> e in fans + w.inflight
  }

  lemma AppendKeepsBooks(w: World, fans: seq<Event>, e: Event)
    requires Books(w, fans) && AboveLog(w.log, e.id)
    ensures Books(w.(log := w.log + [e], inflight := w.inflight + [e]), fans)
  {
    AboveAll(w.log, e.id);
    var old_, new_ := fans + w.inflight, fans + (w.inflight + [e]);
    assert new_ == old_ + [e];
    forall i, j | 0 <= i < j < |new_|
      ensures new_[i].id != new_[j].id
    {
      assert old_[i] in w.log;
    }
  }

  lemma AboveAll(log: seq<Event>, id: int)
    requires Ascending(log) && AboveLog(log, id)
    ensures forall e :: e in log ==> e.id < id
  {
  }

  lemma MoveKeepsBooks(fans: seq<Event>, inflight: seq<Event>, i: nat)
    requires i < |inflight| && DistinctIds(fans + inflight)
    ensures var moved := (fans + [inflight[i]]) + (inflight[..i] + inflight[i + 1..]);
            DistinctIds(moved) && forall e :: e in moved <==> e in fans + inflight
  {
    var was, now := fans + inflight, (fans + [inflight[i]]) + (inflight[..i] + inflight[i + 1..]);
    var n := |fans|;
    assert |now| == |was|;
    forall k | 0 <= k < |now|
      ensures now[k] == was[From(n, i, k)]
    {
    }
    forall j, k | 0 <= j < k < |now|
      ensures now[j].id != now[k].id
    {
      assert From(n, i, j) != From(n, i, k);
    }
    forall e
      ensures e in now <==> e in was
    {
      if e in was {
        var k :| 0 <= k < |was| && was[k] == e;
        assert now[To(n, i, k)] == e;
      }
    }
  }

  /** Where the k-th event comes from when the i-th one in flight moves up behind the first n. */
  function From(n: nat, i: nat, k: nat): nat {
    if k == n then n + i else if n < k <= n + i then k - 1 else k
  }

  function To(n: nat, i: nat, k: nat): nat {
    if k == n + i then n else if n <= k < n + i then k + 1 else k
  }

  lemma StepBooks(ordered: bool, w: World, a: Action, fans: seq<Event>)
    requires Books(w, fans)
    ensures Books(Step(ordered, w, a), fans + FannedBy(ordered, w, a))
  {
    hide DropAll, FanOutEvent, RegisterSub, ReceiveFrom, FullIds, ListAfter, After, InSent, LiveStep, DistinctIds;
    assert fans + [] == fans;
    match a {
      case Append(e) => if AboveLog(w.log, e.id) { AppendKeepsBooks(w, fans, e); }
      case FanOut(i) => if i < |w.inflight| { MoveKeepsBooks(fans, w.inflight, i); }
      case _ =>
    }
  }

  // ---------- channels of distinct connections ----------

  ghost predicate HandleOk(w: World, c: Conn) {
    !c.phase.Opening? ==> c.handle < |w.bus.chans| && w.bus.chans[c.handle].owner == c.sub
  }

  ghost predicate Wired(w: World) {
    && BusInv(w.bus)
    && (forall c :: 0 <= c < |w.conns| ==> HandleOk(w, w.conns[c]))
    && (forall c, d :: 0 <= c < d < |w.conns| ==> TwoConns(w.conns[c], w.conns[d]))
  }

  lemma StepBus(ordered: bool, w: World, a: Action)
    requires BusInv(w.bus)
    ensures BusInv(Step(ordered, w, a).bus)
  {
    hide ListAfter, After, InSent, LiveStep, BusInv;
    match a {
      case FanOut(i) => if i < |w.inflight| { FanOutKeepsInv(w.bus, w.inflight[i]); }
      case Evict(ids, _) => DropKeepsInv(w.bus, ids);
      case RegisterConn(c) => if c < |w.conns| { RegisterKeepsInv(w.bus, w.conns[c].sub); }
      case Recv(c) => if CanRecv(w, c) { BusStepKeepsInv(w.bus, Receive(w.conns[c].handle)); }
      case UnregisterConn(c) => if c < |w.conns| { DropKeepsInv(w.bus, {w.conns[c].sub}); }
      case _ =>
    }
  }

  /** What a step does to a channel that exists: it may close it, take from it or add to it. */
  lemma StepChannel(ordered: bool, w: World, a: Action, h: nat)
    requires BusInv(w.bus) && h < |w.bus.chans|
    ensures var (ch, now) := (w.bus.chans[h], Step(ordered, w, a).bus.chans);
            && |w.bus.chans| <= |now| && now[h].owner == ch.owner
            && (now[h].closes == 0 ==> ch.closes == 0)
            && (!a.FanOut? && !a.Recv? ==> now[h].buffer == ch.buffer)
  {
    hide ListAfter, After, InSent, LiveStep;
  }

  /** A connection keeps its subscriber and its channel; it gets its channel, a new one, by registering. */
  lemma StepHandle(ordered: bool, w: World, a: Action, c: nat)
    requires c < |Step(ordered, w, a).conns|
    ensures var (r, conn) := (Step(ordered, w, a), Step(ordered, w, a).conns[c]);
            && |w.conns| <= |r.conns|
            && (c >= |w.conns| ==> conn.phase.Opening?)
            && (c < |w.conns| ==> conn.sub == w.conns[c].sub)
            && (c < |w.conns| && !w.conns[c].phase.Opening? ==>
                  !conn.phase.Opening? && conn.handle == w.conns[c].handle)
            && (c < |w.conns| && w.conns[c].phase.Opening? && !conn.phase.Opening? ==>
                  && a == RegisterConn(c) && conn.handle == |w.bus.chans| < |r.bus.chans|
                  && r.bus.chans[conn.handle].owner == conn.sub)
  {
    hide FanOutEvent, ReceiveFrom, FullIds, ListAfter, After, InSent, LiveStep;
  }

  lemma StepWired(ordered: bool, w: World, a: Action)
    requires Wired(w)
    ensures Wired(Step(ordered, w, a))
  {
    StepBus(ordered, w, a);
    hide BusInv, Step;
    var r := Step(ordered, w, a);
    forall c | 0 <= c < |r.conns|
      ensures HandleOk(r, r.conns[c])
    {
      StepHandle(ordered, w, a, c);
      if c < |w.conns| && !w.conns[c].phase.Opening? {
        assert HandleOk(w, w.conns[c]);
        StepChannel(ordered, w, a, w.conns[c].handle);
      }
    }
    forall c, d | 0 <= c < d < |r.conns|
      ensures TwoConns(r.conns[c], r.conns[d])
    {
      StepHandle(ordered, w, a, c);
      StepHandle(ordered, w, a, d);
      if d < |w.conns| {
        assert HandleOk(w, w.conns[c]) && HandleOk(w, w.conns[d]) && TwoConns(w.conns[c], w.conns[d]);
      }
    }
  }

  lemma ChannelGains(ordered: bool, w: World, a: Action, h: nat)
    requires h < |w.bus.chans|
    ensures var r := Step(ordered, w, a);
            && h < |r.bus.chans|
            && forall f :: f in r.bus.chans[h].buffer ==> f in w.bus.chans[h].buffer || f in w.inflight
  {
    hide ListAfter, After, InSent, LiveStep;
  }

  /** Only logged events are in channels. */
  ghost predicate Buffered(w: World) {
    forall h, f :: 0 <= h < |w.bus.chans| && f in w.bus.chans[h].buffer ==> f in w.log
  }

  lemma StepBuffered(ordered: bool, w: World, a: Action, fans: seq<Event>)
    requires Books(w, fans) && Buffered(w)
    ensures Buffered(Step(ordered, w, a))
  {
    var r := Step(ordered, w, a);
    NewChannelsAreEmpty(ordered, w, a);
    forall h | 0 <= h < |w.bus.chans|
      ensures forall f :: f in r.bus.chans[h].buffer ==> f in w.bus.chans[h].buffer || f in w.inflight
    {
      ChannelGains(ordered, w, a, h);
    }
    hide DropAll, FanOutEvent, RegisterSub, ReceiveFrom, FullIds, ListAfter, After, InSent, LiveStep, Ascending,
         DistinctIds;
    assert forall f :: f in w.inflight ==> f in fans + w.inflight;
    assert forall f :: f in w.log ==> f in r.log;
  }

  lemma NewChannelsAreEmpty(ordered: bool, w: World, a: Action)
    ensures var r := Step(ordered, w, a);
            && |w.bus.chans| <= |r.bus.chans|
            && forall h :: |w.bus.chans| <= h < |r.bus.chans| ==> r.bus.chans[h].buffer == []
  {
    hide ListAfter, After, InSent, LiveStep;
  }

  // ---------- what an open channel has been given ----------

  /** The connection is registered under an open channel that no publisher is about to evict. */
  ghost predicate Connected(w: World, c: Conn) {
    && !c.phase.Opening? && c.handle < |w.bus.chans|
    && w.bus.chans[c.handle].closes == 0 && c.sub !in w.toEvict
  }

  /** A connected channel has delivered, or still holds, exactly what was fanned out since it registered. */
  ghost predicate Fed(w: World, fans: seq<Event>, m: nat, got: seq<Event>, c: Conn) {
    && (c.phase.Opening? ==> got == [])
    && (!c.phase.Opening? ==> m <= |fans|)
    && (Connected(w, c) ==> got + w.bus.chans[c.handle].buffer == fans[m..])
  }

  lemma StillConnected(ordered: bool, w: World, a: Action, c: Conn)
    requires Wired(w) && HandleOk(w, c) && !c.phase.Opening? && Connected(Step(ordered, w, a), c)
    ensures Connected(w, c)
  {
    StepChannel(ordered, w, a, c.handle);
    if a.Evict? && a.ids <= w.toEvict && c.sub in a.ids {
      EvictCloses(ordered, w, a.ids, a.again, c);
    }
    hide BusInv, DropAll, FanOutEvent, RegisterSub, ReceiveFrom, FullIds, ListAfter, After, InSent, LiveStep;
  }

  lemma EvictCloses(ordered: bool, w: World, ids: set<string>, again: set<string>, c: Conn)
    requires Wired(w) && HandleOk(w, c) && !c.phase.Opening? && w.bus.chans[c.handle].closes == 0 && c.sub in ids
    requires ids <= w.toEvict
    ensures Step(ordered, w, Evict(ids, again)).bus.chans[c.handle].closes > 0
  {
    OpenIsListed(w.bus, c.handle);
  }

  lemma FanOutFeeds(w: World, e: Event, c: Conn)
    requires Wired(w) && HandleOk(w, c) && Connected(w, c) && c.sub !in FullIds(w.bus)
    ensures FanOutEvent(w.bus, e).chans[c.handle].buffer == w.bus.chans[c.handle].buffer + [e]
  {
    OpenIsListed(w.bus, c.handle);
    assert !Full(w.bus, c.sub);
  }

  lemma TakeFeeds(ordered: bool, w: World, c: nat)
    requires CanRecv(w, c)
    ensures var h := w.conns[c].handle;
            var (b, now) := (w.bus.chans[h].buffer, Step(ordered, w, Recv(c)).bus.chans[h].buffer);
            b != [] && [b[0]] + now == b
  {
  }

  lemma OthersTakeElsewhere(ordered: bool, w: World, d: nat, c: nat)
    requires Wired(w) && c < |w.conns| && d < |w.conns| && c != d && !w.conns[c].phase.Opening?
    ensures w.conns[c].handle < |w.bus.chans|
    ensures Step(ordered, w, Recv(d)).bus.chans[w.conns[c].handle].buffer == w.bus.chans[w.conns[c].handle].buffer
  {
    hide BusInv;
    assert HandleOk(w, w.conns[c]);
    assert if c < d then TwoConns(w.conns[c], w.conns[d]) else TwoConns(w.conns[d], w.conns[c]);
  }

  /** One step, for a connection that is registered before it. */
  lemma StepFeeds(ordered: bool, w: World, a: Action, fans: seq<Event>, m: nat, got: seq<Event>, c: nat)
    requires Wired(w) && c < |w.conns| && !w.conns[c].phase.Opening? && Fed(w, fans, m, got, w.conns[c])
    requires Connected(Step(ordered, w, a), w.conns[c])
    ensures var (r, conn) := (Step(ordered, w, a), w.conns[c]);
            got + Taken(w, a, c) + r.bus.chans[conn.handle].buffer == (fans + FannedBy(ordered, w, a))[m..]
  {
    var (r, conn) := (Step(ordered, w, a), w.conns[c]);
    assert HandleOk(w, conn);
    StillConnected(ordered, w, a, conn);
    StepChannel(ordered, w, a, conn.handle);
    hide BusInv, DropAll, FanOutEvent, RegisterSub, ReceiveFrom, FullIds, ListAfter, After, InSent, LiveStep, CanRecv,
         Wired;
    var b, taken, fanned := w.bus.chans[conn.handle].buffer, Taken(w, a, c), FannedBy(ordered, w, a);
    assert (fans + fanned)[m..] == fans[m..] + fanned;
    if a.FanOut? {
      assert got + [] == got;
      if fanned == [] {
        assert fans[m..] + fanned == fans[m..];
      } else {
        FanOutFeeds(w, fanned[0], conn);
        assert got + (b + fanned) == (got + b) + fanned;
      }
    } else {
      assert fans[m..] + fanned == fans[m..];
      if a == Recv(c) && CanRecv(w, c) {
        TakeFeeds(ordered, w, c);
        assert got + taken + r.bus.chans[conn.handle].buffer == got + (taken + r.bus.chans[conn.handle].buffer);
      } else {
        assert got + [] == got;
        if a.Recv? && a.c < |w.conns| && a.c != c { OthersTakeElsewhere(ordered, w, a.c, c); }
      }
    }
  }

  /** What of a connection a step leaves alone. */
  lemma SameConn(ordered: bool, w: World, a: Action, c: nat)
    requires c < |w.conns|
    ensures var r := Step(ordered, w, a);
            && c < |r.conns| && r.conns[c].sub == w.conns[c].sub && r.conns[c].afterID == w.conns[c].afterID
            && (!w.conns[c].phase.Opening? ==> !r.conns[c].phase.Opening? && r.conns[c].handle == w.conns[c].handle)
            && (r.conns[c].phase.Opening? || Registers(w, a, c) <==> w.conns[c].phase.Opening?)
            && (Registers(w, a, c) ==> !r.conns[c].phase.Opening? && r.conns[c].handle == |w.bus.chans|)
  {
    hide DropAll, FanOutEvent, RegisterSub, ReceiveFrom, FullIds, ListAfter, After, InSent, AboveLog, LiveStep;
  }

  lemma StepFed(ordered: bool, w: World, a: Action, fans: seq<Event>, m: nat, got: seq<Event>, c: nat)
    requires Wired(w) && c < |w.conns| && Fed(w, fans, m, got, w.conns[c])
    requires w.conns[c].phase.Opening? ==> Taken(w, a, c) == []
    ensures c < |Step(ordered, w, a).conns|
    ensures Fed(Step(ordered, w, a), fans + FannedBy(ordered, w, a), if Registers(w, a, c) then |fans| else m,
                got + Taken(w, a, c), Step(ordered, w, a).conns[c])
  {
    SameConn(ordered, w, a, c);
    var r := Step(ordered, w, a);
    hide Step, Wired;
    if Registers(w, a, c) {
      NewChannelIsEmpty(ordered, w, c);
      assert got + Taken(w, a, c) + [] == [] && (fans + FannedBy(ordered, w, a))[|fans|..] == [];
    } else if w.conns[c].phase.Opening? {
      assert got + Taken(w, a, c) == [];
    } else if Connected(r, r.conns[c]) {
      StepFeeds(ordered, w, a, fans, m, got, c);
    }
  }

  lemma NewChannelIsEmpty(ordered: bool, w: World, c: nat)
    requires Registers(w, RegisterConn(c), c)
    ensures var r := Step(ordered, w, RegisterConn(c));
            |w.bus.chans| < |r.bus.chans| && r.bus.chans[|w.bus.chans|].buffer == []
  {
  }

  // ---------- what the replay brings ----------

  /** The rows a replay up to position end brings, among the events fanned out before: those with at most
      REPLAY_LIMIT logged ids in (after, id]. */
  ghost predicate Covers(log: seq<Event>, before: seq<Event>, after: int, end: nat) {
    forall i :: 0 <= i < |log| && log[i] in before && log[i].id > after ==>
      (i < end <==> |After(log[..i + 1], after)| <= REPLAY_LIMIT)
  }

  ghost predicate Brought(log: seq<Event>, before: seq<Event>, c: Conn) {
    && ReplayOk(log, c.afterID, c.start, c.replayEnd, c.replayed)
    && (c.phase.Opening? || c.phase.Registered? ==> c.replayed == [] && c.replayEnd == 0)
    && (c.phase.Replaying? ==> c.phase.todo == log[c.start + |c.replayed|..c.replayEnd])
    && (c.phase.Live? ==> c.start + |c.replayed| == c.replayEnd)
    && (c.phase.Replaying? || c.phase.Live? ==> Covers(log, before, c.afterID, c.replayEnd))
  }

  lemma AppendBrings(log: seq<Event>, before: seq<Event>, c: Conn, e: Event)
    requires Brought(log, before, c) && e !in before
    ensures Brought(log + [e], before, c)
  {
    hide After, Ids;
    var big := log + [e];
    forall i | 0 <= i < |log| && big[i].id > c.afterID
      ensures |After(big[..i + 1], c.afterID)| == |After(log[..i + 1], c.afterID)|
    {
      assert big[..i + 1] == log[..i + 1];
    }
    assert big[c.start..c.start + |c.replayed|] == log[c.start..c.start + |c.replayed|];
    assert big[c.start + |c.replayed|..c.replayEnd] == log[c.start + |c.replayed|..c.replayEnd];
  }

  lemma {:induction false} RankOf(log: seq<Event>, after: int, i: nat)
    requires Ascending(log) && i < |log| && log[i].id > after
    ensures |After(log[..i + 1], after)| == i + 1 - (|log| - |After(log, after)|)
  {
    AfterIsSuffix(log, after);
    AfterIsSuffix(log[..i + 1], after);
    hide After, Ascending;
    var p, q := |log| - |After(log, after)|, i + 1 - |After(log[..i + 1], after)|;
    assert log[..i + 1][i] == log[i];
    assert log[..i + 1][q] == log[q];
    assert log[..i + 1][p] == log[p];
  }

  lemma {:induction false} QueryBrings(log: seq<Event>, before: seq<Event>, c: Conn, d: Conn)
    requires Ascending(log) && Brought(log, before, c) && c.phase.Registered?
    requires var rows := ListAfter(log, c.afterID, REPLAY_LIMIT);
             var start := |log| - |After(log, c.afterID)|;
             d == c.(phase := Replaying(rows), start := start, replayEnd := start + |rows|)
    ensures Brought(log, before, d)
  {
    QueryCovers(log, before, c.afterID);
    QueryIsStretch(log, c.afterID, REPLAY_LIMIT);
    hide After, Ascending, Covers, ListAfter;
    assert log[d.start..d.start + 0] == [];
  }

  lemma {:induction false} QueryCovers(log: seq<Event>, before: seq<Event>, after: int)
    requires Ascending(log)
    ensures var rows := ListAfter(log, after, REPLAY_LIMIT);
            Covers(log, before, after, |log| - |After(log, after)| + |rows|)
  {
    hide After, Ascending;
    var end := |log| - |After(log, after)| + |ListAfter(log, after, REPLAY_LIMIT)|;
    forall i | 0 <= i < |log| && log[i].id > after
      ensures i < end <==> |After(log[..i + 1], after)| <= REPLAY_LIMIT
    {
      RankOf(log, after, i);
    }
  }

  lemma WriteBrings(log: seq<Event>, before: seq<Event>, c: Conn, d: Conn)
    requires Brought(log, before, c) && c.phase.Replaying?
    requires var todo := c.phase.todo;
             d == if todo == [] then c.(phase := Live, lastSent := c.afterID)
                  else c.(phase := Replaying(todo[1..]), replayed := c.replayed + [todo[0].id])
    ensures Brought(log, before, d)
  {
    hide After, Ids, Covers;
    var at := c.start + |c.replayed|;
    if c.phase.todo != [] {
      IdsSnoc(log, c.start, at);
      assert c.phase.todo[1..] == log[at + 1..c.replayEnd];
    }
  }

  lemma StepBrought(ordered: bool, w: World, a: Action, fans: seq<Event>, m: nat, c: nat)
    requires Books(w, fans) && c < |w.conns| && (!w.conns[c].phase.Opening? ==> m <= |fans|)
    requires var before := if w.conns[c].phase.Opening? then [] else fans[..m]; Brought(w.log, before, w.conns[c])
    ensures var r := Step(ordered, w, a);
            var all := fans + FannedBy(ordered, w, a);
            var n := if Registers(w, a, c) then |fans| else m;
            && c < |r.conns| && (!r.conns[c].phase.Opening? ==> n <= |all|)
            && Brought(r.log, if r.conns[c].phase.Opening? then [] else all[..n], r.conns[c])
  {
    SameConn(ordered, w, a, c);
    hide DropAll, FanOutEvent, RegisterSub, ReceiveFrom, FullIds, ListAfter, After, InSent, LiveStep, Ids, Covers,
         CanRecv, Ascending;
    var all, conn := fans + FannedBy(ordered, w, a), w.conns[c];
    var before := if conn.phase.Opening? then [] else fans[..m];
    if !conn.phase.Opening? { assert all[..m] == fans[..m]; }
    match a {
      case Append(e) =>
        if AboveLog(w.log, e.id) {
          NotYetFanned(w, fans, e);
          AppendBrings(w.log, before, conn, e);
        }
      case Query(d) =>
        if d == c && conn.phase.Registered? { QueryBrings(w.log, before, conn, Step(ordered, w, a).conns[c]); }
      case WriteReplay(d) =>
        if d == c && conn.phase.Replaying? { WriteBrings(w.log, before, conn, Step(ordered, w, a).conns[c]); }
      case _ =>
    }
  }

  lemma NotYetFanned(w: World, fans: seq<Event>, e: Event)
    requires Books(w, fans) && AboveLog(w.log, e.id)
    ensures e !in fans
  {
    AboveAll(w.log, e.id);
    assert forall f :: f in fans ==> f in fans + w.inflight;
  }
}

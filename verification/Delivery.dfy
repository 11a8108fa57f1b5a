/** The event table of internal/storage/sqlite_event_sub.go: rows in id order. */
module EventLog {
  import opened BusSpec

  ghost predicate Ascending(log: seq<Event>) {
    forall i, j :: 0 <= i < j < |log| ==> log[i].id < log[j].id
  }

  function Ids(es: seq<Event>): seq<int> {
    seq(|es|, i requires 0 <= i < |es| => es[i].id)
  }

  lemma IdsSnoc(log: seq<Event>, a: nat, b: nat)
    requires a <= b < |log|
    ensures Ids(log[a..b + 1]) == Ids(log[a..b]) + [log[b].id]
  {
  }

  /** The rows with id > after. */
  function After(log: seq<Event>, after: int): (r: seq<Event>)
    ensures |r| <= |log|
  {
    if log == [] then []
    else (if log[0].id > after then [log[0]] else []) + After(log[1..], after)
  }

  function ClampLimit(limit: int): nat {
    if limit <= 0 then 100 else if limit > 1000 then 1000 else limit
  }

  function ListAfter(log: seq<Event>, after: int, limit: int): seq<Event> {
    var rows := After(log, after);
    if |rows| <= ClampLimit(limit) then rows else rows[..ClampLimit(limit)]
  }

  /** In a table in id order the rows after an id are a suffix. */
  lemma {:induction false} AfterIsSuffix(log: seq<Event>, after: int)
    requires Ascending(log)
    ensures var p := |log| - |After(log, after)|;
            && After(log, after) == log[p..]
            && forall i :: 0 <= i < |log| ==> (log[i].id > after <==> i >= p)
  {
    hide After;
    if log == [] {
      AllAfter(log, after);
    } else if log[0].id > after {
      assert forall i :: 0 < i < |log| ==> log[0].id < log[i].id;
      AllAfter(log, after);
    } else {
      var rest := log[1..];
      AfterIsSuffix(rest, after);
      assert log == [log[0]] + rest;
      AfterCons(log[0], rest, after);
      var p1 := |rest| - |After(rest, after)|;
      assert log[p1 + 1..] == rest[p1..];
      assert forall i :: 0 < i < |log| ==> log[i] == rest[i - 1];
    }
  }

  /** The query returns a stretch of the table, from the first row after the id up to the clamped limit. */
  lemma {:induction false} QueryIsStretch(log: seq<Event>, after: int, limit: int)
    requires Ascending(log)
    ensures var (rows, p) := (ListAfter(log, after, limit), |log| - |After(log, after)|);
            && 0 <= p <= p + |rows| <= |log| && rows == log[p..p + |rows|]
            && |rows| <= ClampLimit(limit) && (|rows| < ClampLimit(limit) ==> p + |rows| == |log|)
            && forall i :: 0 <= i < |log| ==> (log[i].id > after <==> i >= p)
  {
    AfterIsSuffix(log, after);
    hide After, Ascending;
  }

  lemma {:induction false} AllAfter(log: seq<Event>, after: int)
    requires forall i :: 0 <= i < |log| ==> log[i].id > after
    ensures After(log, after) == log
  {
    if log != [] {
      AllAfter(log[1..], after);
      assert log == [log[0]] + log[1..];
    }
  }

  /** Querying again after the last row of a page brings the rows that follow. */
  lemma NextPage(log: seq<Event>, after: int, limit: int)
    requires Ascending(log) && ListAfter(log, after, limit) != []
    ensures var rows := ListAfter(log, after, limit);
            After(log, rows[|rows| - 1].id) == After(log, after)[|rows|..]
  {
    AfterIsSuffix(log, after);
    var rows := ListAfter(log, after, limit);
    var p, last := |log| - |After(log, after)|, rows[|rows| - 1];
    assert last == log[p + |rows| - 1];
    AfterIsSuffix(log, last.id);
    hide After;
    var q := |log| - |After(log, last.id)|;
    assert q == p + |rows| by {
      assert q < |log| ==> log[q].id > last.id;
      assert p + |rows| < |log| ==> log[p + |rows|].id > last.id;
    }
  }

  lemma {:induction false} AfterCons(e: Event, rest: seq<Event>, after: int)
    ensures After([e] + rest, after) == (if e.id > after then [e] else []) + After(rest, after)
  {
    assert ([e] + rest)[1..] == rest;
  }

  lemma {:induction false} AfterSnoc(log: seq<Event>, e: Event, after: int)
    ensures After(log + [e], after) == After(log, after) + if e.id > after then [e] else []
  {
    if log == [] {
      assert log + [e] == [e] + [];
      AfterCons(e, [], after);
    } else {
      hide After;
      var rest := log[1..];
      AfterSnoc(rest, e, after);
      AfterCons(log[0], rest, after);
      AfterCons(log[0], rest + [e], after);
      assert log + [e] == [log[0]] + (rest + [e]) && log == [log[0]] + rest;
    }
  }
}

/** Publishers, connections and reconnections around one event table: eventbus.go, subscription.go
    and sqlite_event_sub.go as one interleaved machine. */
module Delivery {
  import opened BusSpec
  import opened EventLog
  import opened Prelude

  const REPLAY_LIMIT: nat := 500

  // Where the handler goroutine of one connection stands in HandleSSE.
  datatype Phase =
    | Opening                       // checkpoint and header read, not yet registered
    | Registered                    // in the bus, replay query not yet run
    | Replaying(todo: seq<Event>)   // rows still to be written
    | Live                          // in the select loop
    | Leaving                       // returned, deferred Unregister not yet run
    | Closed

  // Four fields are history: mark is how many logged events had been fanned out at Register, the
  // replay query returned log[start..replayEnd], and the channel has delivered received events.
  datatype Conn = Conn(sub: string, afterID: int, phase: Phase, handle: nat, mark: nat, start: nat,
                       replayEnd: nat, received: nat, replayed: seq<int>, live: seq<int>, lastSent: int)
  {
    /** The ids this connection has written, in order. */
    function Written(): seq<int> { replayed + live }
  }

  // inflight: appended, fan-out still to come. toEvict: found full, eviction still to come.
  // base is history: the checkpoint a subscriber was created with.
  datatype World = World(log: seq<Event>, inflight: seq<Event>, toEvict: set<string>, bus: BusState,
                         conns: seq<Conn>, checkpoint: map<string, int>, base: map<string, int>)

  const START: World := World([], [], {}, EMPTY_BUS, [], map[], map[])

  datatype Action =
    | Ensure(sub: string, start: int)
    | Append(e: Event)
    | FanOut(i: nat)
    | Evict(ids: set<string>, again: set<string>)  // again: also in the list of another publisher
    | Connect(sub: string, header: Option<int>)
    | RegisterConn(c: nat)
    | Query(c: nat)
    | WriteReplay(c: nat)
    | Recv(c: nat)
    | Leave(c: nat, saved: bool)
    | UnregisterConn(c: nat)

  ghost predicate InSent(w: World, sub: string, id: int) {
    exists c :: 0 <= c < |w.conns| && w.conns[c].sub == sub && id in w.conns[c].Written()
  }

  predicate AboveLog(log: seq<Event>, id: int) {
    log == [] || log[|log| - 1].id < id
  }

  /** One select round of the live loop for an incoming event. */
  function LiveStep(live: seq<int>, lastSent: int, id: int): (seq<int>, int) {
    if id > lastSent then (live + [id], id) else (live, lastSent)
  }

  /** One step. A step that is not possible in w leaves it alone. Appends of any number of publishers may
      overlap. With ordered, events are fanned out in id order, each after the evictions of those before
      it, as they are when there is one publisher. */
  ghost function Step(ordered: bool, w: World, a: Action): World {
    match a
    case Ensure(sub, start) =>
      if sub in w.checkpoint then w
      else w.(checkpoint := w.checkpoint[sub := start], base := w.base[sub := start])
    case Append(e) =>
      if AboveLog(w.log, e.id)
      then w.(log := w.log + [e], inflight := w.inflight + [e])
      else w
    case FanOut(i) =>
      if i < |w.inflight| && (ordered ==> i == 0 && w.toEvict == {})
      then w.(inflight := w.inflight[..i] + w.inflight[i + 1..],
              toEvict := w.toEvict + FullIds(w.bus),
              bus := FanOutEvent(w.bus, w.inflight[i]))
      else w
    case Evict(ids, again) =>
      if ids <= w.toEvict
      then w.(bus := DropAll(w.bus, ids), toEvict := w.toEvict - ids + again * ids)
      else w
    case Connect(sub, header) =>
      if sub in w.checkpoint && (header.Some? ==> InSent(w, sub, header.value))
      then
        var after := if header.Some? && header.value > w.checkpoint[sub] then header.value else w.checkpoint[sub];
        w.(conns := w.conns + [Conn(sub, after, Opening, 0, 0, 0, 0, 0, [], [], after)])
      else w
    case RegisterConn(c) =>
      if c < |w.conns| && w.conns[c].phase.Opening?
      then
        var conn := w.conns[c].(phase := Registered, handle := |w.bus.chans|, mark := Fanned(w));
        w.(bus := RegisterSub(w.bus, conn.sub), conns := w.conns[c := conn])
      else w
    case Query(c) =>
      if c < |w.conns| && w.conns[c].phase.Registered?
      then
        var conn := w.conns[c];
        var rows := ListAfter(w.log, conn.afterID, REPLAY_LIMIT);
        var start := |w.log| - |After(w.log, conn.afterID)|;
        w.(conns := w.conns[c := conn.(phase := Replaying(rows), start := start, replayEnd := start + |rows|)])
      else w
    case WriteReplay(c) =>
      if c < |w.conns| && w.conns[c].phase.Replaying?
      then
        var conn := w.conns[c];
        var todo := conn.phase.todo;
        w.(conns := w.conns[c :=
          if todo == [] then conn.(phase := Live, lastSent := conn.afterID)
          else conn.(phase := Replaying(todo[1..]), replayed := conn.replayed + [todo[0].id])])
      else w
    case Recv(c) =>
      if CanRecv(w, c)
      then
        var conn := w.conns[c];
        var (live, lastSent) := LiveStep(conn.live, conn.lastSent, w.bus.chans[conn.handle].buffer[0].id);
        w.(bus := ReceiveFrom(w.bus, conn.handle),
           conns := w.conns[c := conn.(received := conn.received + 1, live := live, lastSent := lastSent)])
      else w
    case Leave(c, saved) =>
      if c < |w.conns| && (w.conns[c].phase.Registered? || w.conns[c].phase.Replaying? || w.conns[c].phase.Live?)
      then
        var conn := w.conns[c];
        w.(conns := w.conns[c := conn.(phase := Leaving)],
           checkpoint := if saved && conn.phase.Live? && conn.sub in w.checkpoint
                         then w.checkpoint[conn.sub := conn.lastSent] else w.checkpoint)
      else w
    case UnregisterConn(c) =>
      if c < |w.conns| && w.conns[c].phase.Leaving?
      then w.(bus := DropAll(w.bus, {w.conns[c].sub}), conns := w.conns[c := w.conns[c].(phase := Closed)])
      else w
  }

  ghost function Run(ordered: bool, w: World, acts: seq<Action>): World
    decreases |acts|
  {
    if acts == [] then w else Run(ordered, Step(ordered, w, acts[0]), acts[1..])
  }

  ghost predicate CanRecv(w: World, c: nat) {
    && c < |w.conns| && w.conns[c].phase.Live?
    && w.conns[c].handle < |w.bus.chans| && w.bus.chans[w.conns[c].handle].buffer != []
  }

  function Fanned(w: World): nat {
    if |w.inflight| <= |w.log| then |w.log| - |w.inflight| else 0
  }

  /** How many events that the connection still needs had already been fanned out at Register. */
  function Backlog(log: seq<Event>, c: Conn): nat
  {
    if c.mark <= |log| then |After(log[..c.mark], c.afterID)| else 0
  }

  // ---------- the invariant ----------

  function LastOf(after: int, ids: seq<int>): int {
    if ids == [] then after else ids[|ids| - 1]
  }

  ghost predicate ReplayOk(log: seq<Event>, after: int, start: nat, end: nat, replayed: seq<int>) {
    && start + |replayed| <= end <= |log|
    && (forall i :: 0 <= i < end ==> (log[i].id > after <==> i >= start))
    && replayed == Ids(log[start..start + |replayed|])
  }

  /** Whatever its phase, a connection has written a stretch of the replayed rows and, once that is
      complete, the newer ones among the events its channel delivered. */
  ghost predicate ConnOk(log: seq<Event>, fanned: nat, c: Conn)
  {
    && c.mark + c.received <= fanned <= |log|
    && ReplayOk(log, c.afterID, c.start, c.replayEnd, c.replayed)
    && c.live == Ids(After(log[c.mark..c.mark + c.received], c.afterID))
    && (c.phase.Opening? || c.phase.Registered? ==> c.replayed == [] && c.received == 0 && c.replayEnd == 0)
    && (c.phase.Replaying? ==> c.received == 0 && c.phase.todo == log[c.start + |c.replayed|..c.replayEnd])
    && (c.phase.Live? ==> c.lastSent == LastOf(c.afterID, c.live))
    && (c.phase.Live? || c.received > 0 ==> c.start + |c.replayed| == c.replayEnd)
    && (c.phase.Replaying? || c.phase.Live? || c.received > 0 ==>
          (Backlog(log, c) <= REPLAY_LIMIT <==> c.mark <= c.replayEnd))
  }

  /** The buffer of a channel is the next stretch of the log; an open channel misses nothing. */
  ghost predicate ChanOk(log: seq<Event>, fanned: nat, ch: Channel, evicting: bool, c: Conn)
  {
    var from := c.mark + c.received;
    && ch.owner == c.sub
    && from + |ch.buffer| <= fanned <= |log|
    && ch.buffer == log[from..from + |ch.buffer|]
    && (ch.closes == 0 && !evicting ==> from + |ch.buffer| == fanned)
  }

  ghost predicate TwoConns(c: Conn, d: Conn) {
    !c.phase.Opening? && !d.phase.Opening? ==> c.handle != d.handle
  }

  ghost predicate OneConn(w: World, c: Conn) {
    && ConnOk(w.log, Fanned(w), c)
    && (!c.phase.Opening? ==>
          && c.handle < |w.bus.chans|
          && ChanOk(w.log, Fanned(w), w.bus.chans[c.handle], c.sub in w.toEvict, c))
  }

  ghost predicate LogOk(w: World) {
    && Ascending(w.log)
    && |w.inflight| <= |w.log| && w.inflight == w.log[Fanned(w)..]
  }

  ghost predicate Inv(w: World) {
    && LogOk(w)
    && BusInv(w.bus)
    && (forall c :: 0 <= c < |w.conns| ==> OneConn(w, w.conns[c]))
    && (forall c, d :: 0 <= c < d < |w.conns| ==> TwoConns(w.conns[c], w.conns[d]))
  }

  // ---------- every step keeps it ----------

  lemma AppendConn(log: seq<Event>, e: Event, fanned: nat, c: Conn)
    requires ConnOk(log, fanned, c)
    ensures ConnOk(log + [e], fanned, c)
  {
    hide After, Ids;
    var big := log + [e];
    assert big[..c.mark] == log[..c.mark];
    assert big[c.mark..c.mark + c.received] == log[c.mark..c.mark + c.received];
    assert big[c.start..c.start + |c.replayed|] == log[c.start..c.start + |c.replayed|];
    assert big[c.start + |c.replayed|..c.replayEnd] == log[c.start + |c.replayed|..c.replayEnd];
  }

  lemma StepAppend(w: World, e: Event)
    requires Inv(w)
    ensures Inv(Step(true, w, Append(e)))
  {
    hide ConnOk, BusInv;
    var r := Step(true, w, Append(e));
    if r != w {
      forall i, j | 0 <= i < j < |r.log|
        ensures r.log[i].id < r.log[j].id
      {
        if j == |w.log| && i < |w.log| - 1 { assert w.log[i].id < w.log[|w.log| - 1].id; }
      }
      forall c | 0 <= c < |r.conns|
        ensures OneConn(r, r.conns[c])
      {
        var conn := w.conns[c];
        assert OneConn(w, conn);
        AppendConn(w.log, e, Fanned(w), conn);
        if !conn.phase.Opening? {
          var from := conn.mark + conn.received;
          var n := |w.bus.chans[conn.handle].buffer|;
          assert r.log[from..from + n] == w.log[from..from + n];
        }
      }
    }
  }

  lemma FannedGrows(log: seq<Event>, fanned: nat, c: Conn)
    requires ConnOk(log, fanned, c) && fanned < |log|
    ensures ConnOk(log, fanned + 1, c)
  {
  }

  lemma OpenIsListed(b: BusState, h: nat)
    requires BusInv(b) && h < |b.chans|
    ensures b.chans[h].closes == 0 <==> Listed(b, h)
    ensures Listed(b, h) ==> |b.chans[h].buffer| <= BUFFER_SIZE
  {
  }

  lemma StepFanOut(w: World, i: nat)
    requires Inv(w)
    ensures Inv(Step(true, w, FanOut(i)))
  {
    hide BusInv, OneConn, TwoConns;
    var r := Step(true, w, FanOut(i));
    if r != w {
      FanOutKeepsInv(w.bus, w.inflight[0]);
      assert r.inflight == w.inflight[1..] && Fanned(r) == Fanned(w) + 1;
      forall c | 0 <= c < |r.conns|
        ensures OneConn(r, r.conns[c])
      {
        FanOutConn(w, r, w.conns[c]);
      }
    }
  }

  lemma SliceSnoc(log: seq<Event>, from: nat, n: nat)
    requires from + n < |log|
    ensures log[from..from + (n + 1)] == log[from..from + n] + [log[from + n]]
  {
  }

  lemma FanOutConn(w: World, r: World, c: Conn)
    requires LogOk(w) && BusInv(w.bus) && OneConn(w, c) && w.inflight != [] && w.toEvict == {}
    requires r == Step(true, w, FanOut(0))
    ensures OneConn(r, c)
  {
    hide BusInv, ConnOk, Ascending, DropAll;
    var e := w.inflight[0];
    assert r.inflight == w.inflight[1..] && Fanned(r) == Fanned(w) + 1 && e == w.log[Fanned(w)];
    FannedGrows(w.log, Fanned(w), c);
    if !c.phase.Opening? {
      var ch := w.bus.chans[c.handle];
      var from := c.mark + c.received;
      OpenIsListed(w.bus, c.handle);
      if Listed(w.bus, c.handle) {
        if |ch.buffer| < BUFFER_SIZE {
          SliceSnoc(w.log, from, |ch.buffer|);
        } else {
          assert Full(w.bus, c.sub);
        }
      }
    }
  }

  /** Closing the channels of some subscribers and forgetting who was to be evicted. */
  lemma DropConn(w: World, ids: set<string>, evict: set<string>, c: Conn)
    requires BusInv(w.bus) && OneConn(w, c)
    requires w.toEvict - ids <= evict
    ensures OneConn(w.(bus := DropAll(w.bus, ids), toEvict := evict), c)
  {
    hide BusInv, ConnOk;
    if !c.phase.Opening? {
      OpenIsListed(w.bus, c.handle);
    }
  }

  /** A step that changes one connection, and one channel at most, keeps the invariant when it
      keeps that connection's part of it. */
  lemma ChangeConn(w: World, r: World, c: nat)
    requires Inv(w) && c < |w.conns| && |r.conns| == |w.conns|
    requires r.log == w.log && r.inflight == w.inflight && r.toEvict == w.toEvict && BusInv(r.bus)
    requires forall d :: 0 <= d < |w.conns| && d != c ==> r.conns[d] == w.conns[d] && OneConn(r, w.conns[d])
    requires OneConn(r, r.conns[c])
    requires forall d :: 0 <= d < |w.conns| && d != c ==>
             TwoConns(r.conns[c], w.conns[d]) && TwoConns(w.conns[d], r.conns[c])
    ensures Inv(r)
  {
    hide OneConn, BusInv;
  }

  lemma StepRegister(w: World, c: nat)
    requires Inv(w)
    ensures Inv(Step(true, w, RegisterConn(c)))
  {
    hide BusInv, ConnOk, ChanOk;
    var r := Step(true, w, RegisterConn(c));
    if c < |w.conns| && w.conns[c].phase.Opening? {
      var sub := w.conns[c].sub;
      RegisterKeepsInv(w.bus, sub);
      forall d | 0 <= d < |w.conns| && d != c
        ensures OneConn(r, w.conns[d]) && TwoConns(r.conns[c], w.conns[d]) && TwoConns(w.conns[d], r.conns[c])
      {
        assert OneConn(w, w.conns[d]);
        DropConn(w, {sub}, w.toEvict, w.conns[d]);
      }
      RegisterOne(w, c);
      ChangeConn(w, r, c);
    }
  }

  lemma RegisterOne(w: World, c: nat)
    requires LogOk(w) && c < |w.conns| && w.conns[c].phase.Opening? && ConnOk(w.log, Fanned(w), w.conns[c])
    ensures var r := Step(true, w, RegisterConn(c)); OneConn(r, r.conns[c])
  {
    var r := Step(true, w, RegisterConn(c));
    var conn := r.conns[c];
    assert r.log[conn.mark..conn.mark] == [];
  }

  /** The same for a step of a connection that leaves the bus alone. */
  lemma ChangeQuietly(w: World, c: nat, d: Conn)
    requires Inv(w) && c < |w.conns| && !w.conns[c].phase.Opening? && !d.phase.Opening?
    requires d.sub == w.conns[c].sub && d.handle == w.conns[c].handle
    requires d.mark == w.conns[c].mark && d.received == w.conns[c].received
    requires ConnOk(w.log, Fanned(w), d)
    ensures Inv(w.(conns := w.conns[c := d]))
  {
    hide ConnOk, BusInv;
    var r := w.(conns := w.conns[c := d]);
    assert OneConn(w, w.conns[c]);
    forall b | 0 <= b < |w.conns| && b != c
      ensures TwoConns(d, w.conns[b]) && TwoConns(w.conns[b], d)
    {
      if b < c {
        assert TwoConns(w.conns[b], w.conns[c]);
      } else {
        assert TwoConns(w.conns[c], w.conns[b]);
      }
    }
    forall b | 0 <= b < |w.conns| && b != c
      ensures OneConn(r, w.conns[b])
    {
      assert OneConn(w, w.conns[b]);
    }
    ChangeConn(w, r, c);
  }

  lemma StepQuery(w: World, c: nat)
    requires Inv(w)
    ensures Inv(Step(true, w, Query(c)))
  {
    hide ConnOk, BusInv, ChanOk;
    var r := Step(true, w, Query(c));
    if c < |w.conns| && w.conns[c].phase.Registered? {
      assert OneConn(w, w.conns[c]);
      QueryConn(w.log, Fanned(w), w.conns[c], r.conns[c]);
      ChangeQuietly(w, c, r.conns[c]);
    }
  }

  lemma {:induction false} QueryConn(log: seq<Event>, fanned: nat, c: Conn, d: Conn)
    requires Ascending(log) && ConnOk(log, fanned, c) && c.phase.Registered?
    requires var rows := ListAfter(log, c.afterID, REPLAY_LIMIT);
             var start := |log| - |After(log, c.afterID)|;
             d == c.(phase := Replaying(rows), start := start, replayEnd := start + |rows|)
    ensures ConnOk(log, fanned, d)
  {
    QueryIsStretch(log, c.afterID, REPLAY_LIMIT);
    BacklogBySuffix(log, c);
    SameBacklog(log, c, d);
    hide After, Backlog, Ascending, ListAfter;
    assert log[d.start..d.start + 0] == [];
  }

  lemma {:induction false} BacklogBySuffix(log: seq<Event>, c: Conn)
    requires Ascending(log) && c.mark <= |log|
    ensures var p := |log| - |After(log, c.afterID)|;
            Backlog(log, c) == if c.mark <= p then 0 else c.mark - p
  {
    var p := |log| - |After(log, c.afterID)|;
    AfterIsSuffix(log, c.afterID);
    var early := log[..c.mark];
    AfterIsSuffix(early, c.afterID);
    var q := c.mark - |After(early, c.afterID)|;
    if q < c.mark {
      assert early[q].id > c.afterID && log[q].id > c.afterID;
    }
    if p < c.mark {
      assert log[p].id > c.afterID && early[p].id > c.afterID;
    }
  }

  lemma StepWriteReplay(w: World, c: nat)
    requires Inv(w)
    ensures Inv(Step(true, w, WriteReplay(c)))
  {
    hide ConnOk, BusInv, ChanOk;
    var r := Step(true, w, WriteReplay(c));
    if c < |w.conns| && w.conns[c].phase.Replaying? {
      assert OneConn(w, w.conns[c]);
      WriteReplayConn(w.log, Fanned(w), w.conns[c], r.conns[c]);
      ChangeQuietly(w, c, r.conns[c]);
    }
  }

  lemma NothingNew(log: seq<Event>, mark: nat, after: int)
    requires mark <= |log|
    ensures Ids(After(log[mark..mark + 0], after)) == []
  {
  }

  lemma WriteReplayConn(log: seq<Event>, fanned: nat, c: Conn, d: Conn)
    requires ConnOk(log, fanned, c) && c.phase.Replaying?
    requires var todo := c.phase.todo;
             d == if todo == [] then c.(phase := Live, lastSent := c.afterID)
                  else c.(phase := Replaying(todo[1..]), replayed := c.replayed + [todo[0].id])
    ensures ConnOk(log, fanned, d)
  {
    hide After, Ids, Backlog;
    var at := c.start + |c.replayed|;
    NothingNew(log, c.mark, c.afterID);
    SameBacklog(log, c, d);
    if c.phase.todo != [] {
      IdsSnoc(log, c.start, at);
      assert c.phase.todo[1..] == log[at + 1..c.replayEnd];
    }
  }

  lemma StepRecv(w: World, c: nat)
    requires Inv(w)
    ensures Inv(Step(true, w, Recv(c)))
  {
    hide ConnOk, BusInv;
    var r := Step(true, w, Recv(c));
    if CanRecv(w, c) {
      var conn := w.conns[c];
      assert OneConn(w, conn);
      var ch := w.bus.chans[conn.handle];
      var from := conn.mark + conn.received;
      BusStepKeepsInv(w.bus, Receive(conn.handle));
      assert ch.buffer[0] == w.log[from];
      assert ch.buffer[1..] == w.log[from + 1..from + |ch.buffer|];
      RecvConn(w.log, Fanned(w), conn, r.conns[c]);
      forall b | 0 <= b < |w.conns| && b != c
        ensures OneConn(r, w.conns[b]) && TwoConns(r.conns[c], w.conns[b]) && TwoConns(w.conns[b], r.conns[c])
      {
        assert OneConn(w, w.conns[b]);
        if b < c {
          assert TwoConns(w.conns[b], conn);
        } else {
          assert TwoConns(conn, w.conns[b]);
        }
      }
      ChangeConn(w, r, c);
    }
  }

  lemma RecvConn(log: seq<Event>, fanned: nat, c: Conn, d: Conn)
    requires Ascending(log) && ConnOk(log, fanned, c) && c.phase.Live? && c.mark + c.received < fanned
    requires var (live, lastSent) := LiveStep(c.live, c.lastSent, log[c.mark + c.received].id);
             d == c.(received := c.received + 1, live := live, lastSent := lastSent)
    ensures ConnOk(log, fanned, d)
  {
    hide ReplayOk, After, Ids, Backlog;
    var at := c.mark + c.received;
    var seen := log[c.mark..at];
    assert log[c.mark..at + 1] == seen + [log[at]];
    assert c.received > 0 ==> seen[c.received - 1].id < log[at].id;
    LiveStepKeepsNew(seen, log[at], c.afterID);
    SameBacklog(log, c, d);
  }

  lemma SameBacklog(log: seq<Event>, c: Conn, d: Conn)
    requires d.mark == c.mark && d.afterID == c.afterID
    ensures Backlog(log, d) == Backlog(log, c)
  {
  }

  /** The live loop, fed with a stretch of the log, writes the ids above afterID. */
  lemma {:induction false} LiveStepKeepsNew(seen: seq<Event>, e: Event, after: int)
    requires Ascending(seen) && (seen != [] ==> seen[|seen| - 1].id < e.id)
    ensures var old_ := Ids(After(seen, after));
            var new_ := Ids(After(seen + [e], after));
            LiveStep(old_, LastOf(after, old_), e.id) == (new_, LastOf(after, new_))
  {
    AfterSnoc(seen, e, after);
    LastLiveId(seen, after);
    var kept := After(seen, after);
    if e.id > after {
      assert Ids(kept + [e]) == Ids(kept) + [e.id];
    } else {
      assert kept + [] == kept;
    }
  }

  /** The last kept id of a stretch of the log is its last id, unless nothing in it is new. */
  lemma {:induction false} LastLiveId(seen: seq<Event>, after: int)
    requires Ascending(seen)
    ensures LastOf(after, Ids(After(seen, after))) ==
            if seen != [] && seen[|seen| - 1].id > after then seen[|seen| - 1].id else after
  {
    AfterIsSuffix(seen, after);
  }

  lemma LeaveConn(log: seq<Event>, fanned: nat, c: Conn)
    requires ConnOk(log, fanned, c) && (c.phase.Registered? || c.phase.Replaying? || c.phase.Live?)
    ensures ConnOk(log, fanned, c.(phase := Leaving))
  {
    hide ReplayOk, After, Ids, Backlog;
    SameBacklog(log, c, c.(phase := Leaving));
  }

  lemma StepLeave(w: World, c: nat, saved: bool)
    requires Inv(w)
    ensures Inv(Step(true, w, Leave(c, saved)))
  {
    hide ConnOk, BusInv, ChanOk;
    var r := Step(true, w, Leave(c, saved));
    if c < |w.conns| && (w.conns[c].phase.Registered? || w.conns[c].phase.Replaying? || w.conns[c].phase.Live?) {
      assert OneConn(w, w.conns[c]);
      LeaveConn(w.log, Fanned(w), w.conns[c]);
      ChangeQuietly(w, c, r.conns[c]);
      CheckpointsAreNotInInv(w.(conns := r.conns), r);
    }
  }

  lemma CheckpointsAreNotInInv(w: World, r: World)
    requires Inv(w) && r == w.(checkpoint := r.checkpoint, base := r.base)
    ensures Inv(r)
  {
    hide ConnOk, BusInv, ChanOk;
    forall c | 0 <= c < |r.conns|
      ensures OneConn(r, r.conns[c])
    {
      assert OneConn(w, w.conns[c]);
    }
  }

  lemma StepUnregister(w: World, c: nat)
    requires Inv(w)
    ensures Inv(Step(true, w, UnregisterConn(c)))
  {
    hide BusInv, ChanOk;
    if c < |w.conns| && w.conns[c].phase.Leaving? {
      var ids := {w.conns[c].sub};
      var dropped := w.(bus := DropAll(w.bus, ids));
      DropInv(w, ids, w.toEvict);
      assert OneConn(dropped, dropped.conns[c]);
      ChangeQuietly(dropped, c, w.conns[c].(phase := Closed));
    }
  }

  lemma DropInv(w: World, ids: set<string>, evict: set<string>)
    requires Inv(w)
    requires w.toEvict - ids <= evict
    ensures Inv(w.(bus := DropAll(w.bus, ids), toEvict := evict))
  {
    hide OneConn, BusInv;
    DropKeepsInv(w.bus, ids);
    forall c | 0 <= c < |w.conns|
      ensures OneConn(w.(bus := DropAll(w.bus, ids), toEvict := evict), w.conns[c])
    {
      DropConn(w, ids, evict, w.conns[c]);
    }
  }

  lemma StepConnect(w: World, sub: string, header: Option<int>)
    requires Inv(w)
    ensures Inv(Step(true, w, Connect(sub, header)))
  {
    hide BusInv, ChanOk, ConnOk, InSent;
    var r := Step(true, w, Connect(sub, header));
    if r != w {
      NewConn(w.log, Fanned(w), r.conns[|w.conns|]);
    }
    forall c | 0 <= c < |w.conns|
      ensures OneConn(r, r.conns[c])
    {
      assert OneConn(w, w.conns[c]);
    }
  }

  lemma NewConn(log: seq<Event>, fanned: nat, c: Conn)
    requires fanned <= |log| && c == Conn(c.sub, c.afterID, Opening, 0, 0, 0, 0, 0, [], [], c.afterID)
    ensures ConnOk(log, fanned, c)
  {
    assert log[0..0] == [];
  }

  lemma StepKeepsInv(w: World, a: Action)
    requires Inv(w)
    ensures Inv(Step(true, w, a))
  {
    hide Inv;
    match a {
      case Ensure(sub, start) => CheckpointsAreNotInInv(w, Step(true, w, a));
      case Append(e) => StepAppend(w, e);
      case FanOut(i) => StepFanOut(w, i);
      case Evict(ids, again) => if ids <= w.toEvict { DropInv(w, ids, w.toEvict - ids + again * ids); }
      case Connect(sub, header) => StepConnect(w, sub, header);
      case RegisterConn(c) => StepRegister(w, c);
      case Query(c) => StepQuery(w, c);
      case WriteReplay(c) => StepWriteReplay(w, c);
      case Recv(c) => StepRecv(w, c);
      case Leave(c, saved) => StepLeave(w, c, saved);
      case UnregisterConn(c) => StepUnregister(w, c);
    }
  }

  lemma {:induction false} RunKeepsInv(w: World, acts: seq<Action>)
    requires Inv(w)
    ensures Inv(Run(true, w, acts))
    decreases |acts|
  {
    hide Inv;
    if acts != [] {
      StepKeepsInv(w, acts[0]);
      RunKeepsInv(Step(true, w, acts[0]), acts[1..]);
    }
  }
}

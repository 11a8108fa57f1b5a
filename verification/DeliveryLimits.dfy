/** Runs that show what the guarantees of DeliveryGuarantees do not cover. */
module DeliveryLimits {
  import opened BusSpec
  import opened EventLog
  import opened Delivery
  import opened DeliveryGuarantees
  import opened Prelude

  const A_LIVE_CONN: seq<Action> := [Ensure("s", 0), Connect("s", None), RegisterConn(0), Query(0), WriteReplay(0)]

  lemma {:induction false} RunConcat(ordered: bool, w: World, a: seq<Action>, b: seq<Action>)
    ensures Run(ordered, w, a + b) == Run(ordered, Run(ordered, w, a), b)
    decreases |a|
  {
    if a == [] {
      assert a + b == b;
    } else {
      assert (a + b)[1..] == a[1..] + b;
      RunConcat(ordered, Step(ordered, w, a[0]), a[1..], b);
    }
  }

  lemma {:induction false} RunLast(ordered: bool, w: World, acts: seq<Action>, a: Action)
    ensures Run(ordered, w, acts + [a]) == Step(ordered, Run(ordered, w, acts), a)
  {
    RunConcat(ordered, w, acts, [a]);
    var r := Run(ordered, w, acts);
    assert [a][1..] == [];
    assert Run(ordered, r, [a]) == Run(ordered, Step(ordered, r, a), []);
  }

  /** One subscriber, one connection, live and with nothing logged yet. */
  lemma {:induction false} ALiveConn(ordered: bool)
    ensures Run(ordered, START, A_LIVE_CONN) ==
            World([], [], {}, BusState(map["s" := 0], [Channel("s", [], 0)]),
                  [Conn("s", 0, Live, 0, 0, 0, 0, 0, [], [], 0)], map["s" := 0], map["s" := 0])
  {
    hide Run, Step;
    var acts := A_LIVE_CONN;
    assert acts[..1] == [] + [acts[0]] && acts[..2] == acts[..1] + [acts[1]] && acts[..3] == acts[..2] + [acts[2]];
    assert acts[..4] == acts[..3] + [acts[3]] && acts == acts[..4] + [acts[4]];
    RunNone(ordered, START);
    RunLast(ordered, START, [], acts[0]);
    RunLast(ordered, START, acts[..1], acts[1]);
    RunLast(ordered, START, acts[..2], acts[2]);
    RunLast(ordered, START, acts[..3], acts[3]);
    RunLast(ordered, START, acts[..4], acts[4]);
    OpeningSteps(ordered);
    ReplaySteps(ordered);
  }

  lemma {:induction false} RunNone(ordered: bool, w: World)
    ensures Run(ordered, w, []) == w
  {
  }

  const OPENED: Conn := Conn("s", 0, Opening, 0, 0, 0, 0, 0, [], [], 0)
  const ONE_SUB: BusState := BusState(map["s" := 0], [Channel("s", [], 0)])
  const REGISTERED: World := World([], [], {}, ONE_SUB, [OPENED.(phase := Registered)], map["s" := 0], map["s" := 0])

  lemma OpeningSteps(ordered: bool)
    ensures Step(ordered, Step(ordered, Step(ordered, START, Ensure("s", 0)), Connect("s", None)), RegisterConn(0)) ==
            REGISTERED
  {
    assert RegisterSub(EMPTY_BUS, "s") == ONE_SUB;
    assert Step(ordered, START, Ensure("s", 0)) == START.(checkpoint := map["s" := 0], base := map["s" := 0]);
  }

  lemma ReplaySteps(ordered: bool)
    ensures Step(ordered, Step(ordered, REGISTERED, Query(0)), WriteReplay(0)) ==
            REGISTERED.(conns := [OPENED.(phase := Live)])
  {
    assert Step(ordered, REGISTERED, Query(0)).conns == [OPENED.(phase := Replaying([]))];
  }

  /** A run continued by two more steps, and by three. */
  lemma {:induction false} RunTwo(ordered: bool, w: World, acts: seq<Action>, a: Action, b: Action)
    ensures Run(ordered, w, acts + [a, b]) == Step(ordered, Step(ordered, Run(ordered, w, acts), a), b)
  {
    assert acts + [a, b] == acts + [a] + [b];
    RunLast(ordered, w, acts, a);
    RunLast(ordered, w, acts + [a], b);
  }

  /** Two publishers whose fan-outs run in the opposite order of their appends: the subscriber is
      connected throughout, behind by nothing, and the first event never reaches it. */
  lemma ConcurrentPublishersLoseAnEvent() returns (acts: seq<Action>)
    ensures var w := Run(false, START, acts);
            && |w.conns| == 1 && w.conns[0].phase.Live? && Backlog(w.log, w.conns[0]) == 0
            && w.bus.chans == [Channel("s", [], 0)] && w.inflight == [] && w.toEvict == {}
            && w.log == [Event(1, ""), Event(2, "")] && w.conns[0].Written() == [2]
  {
    ALiveConn(false);
    var w := Run(false, START, A_LIVE_CONN);
    var e, f := Event(1, ""), Event(2, "");
    var appended := A_LIVE_CONN + [Append(e), Append(f)];
    RunTwo(false, START, A_LIVE_CONN, Append(e), Append(f));
    var w1 := Run(false, START, appended);
    assert w1 == w.(log := [e, f], inflight := [e, f]);
    var fanned := appended + [FanOut(1), FanOut(0)];
    RunTwo(false, START, appended, FanOut(1), FanOut(0));
    var w2 := Run(false, START, fanned);
    FanOutToOne(w1, e, f);
    assert w2 == w.(log := [e, f], bus := BusState(map["s" := 0], [Channel("s", [f, e], 0)]));
    RunTwo(false, START, fanned, Recv(0), Recv(0));
    acts := fanned + [Recv(0), Recv(0)];
    hide Run, Step;
    ReceiveBoth(w2, e, f);
  }

  lemma FanOutToOne(w: World, e: Event, f: Event)
    requires w.bus == BusState(map["s" := 0], [Channel("s", [], 0)]) && w.inflight == [e, f] && w.toEvict == {}
    ensures Step(false, Step(false, w, FanOut(1)), FanOut(0)) ==
            w.(inflight := [], bus := BusState(map["s" := 0], [Channel("s", [f, e], 0)]))
  {
    FanOutSingle([], f);
    FanOutSingle([f], e);
    assert Step(false, w, FanOut(1)).inflight == [e];
    assert [f] + [e] == [f, e] && [] + [f] == [f];
  }

  lemma FanOutSingle(buffer: seq<Event>, e: Event)
    requires |buffer| < BUFFER_SIZE
    ensures var b := BusState(map["s" := 0], [Channel("s", buffer, 0)]);
            FullIds(b) == {} && FanOutEvent(b, e) == b.(chans := [Channel("s", buffer + [e], 0)])
  {
    var b := BusState(map["s" := 0], [Channel("s", buffer, 0)]);
    assert FanOutEvent(b, e).chans[0] == Channel("s", buffer + [e], 0);
    assert FanOutEvent(b, e).chans == [Channel("s", buffer + [e], 0)];
  }

  lemma ReceiveBoth(w: World, e: Event, f: Event)
    requires e.id == 1 && f.id == 2
    requires w.bus == BusState(map["s" := 0], [Channel("s", [f, e], 0)])
    requires w.conns == [Conn("s", 0, Live, 0, 0, 0, 0, 0, [], [], 0)]
    ensures Step(false, Step(false, w, Recv(0)), Recv(0)) ==
            w.(bus := BusState(map["s" := 0], [Channel("s", [], 0)]),
               conns := [Conn("s", 0, Live, 0, 0, 0, 0, 2, [], [2], 2)])
  {
    assert [f, e][1..] == [e] && [e][1..] == [] && [] + [2] == [2];
    var w1 := Step(false, w, Recv(0));
    assert w1.bus.chans == [Channel("s", [e], 0)];
    assert w1.conns == [Conn("s", 0, Live, 0, 0, 0, 0, 1, [], [2], 2)];
    var w2 := Step(false, w1, Recv(0));
    assert w2.bus.chans == [Channel("s", [], 0)];
  }

  /** A reconnecting subscriber is thrown out by the connection it replaces, whose deferred Unregister names
      the subscriber and not its own channel: its new channel is
      closed although nothing was published. */
  lemma ReconnectIsEvictedByItsPredecessor() returns (acts: seq<Action>)
    ensures UnregisterConn(1) !in acts
    ensures (forall ids, again :: Evict(ids, again) !in acts) && forall e :: Append(e) !in acts
    ensures var w := Run(true, START, acts);
            && |w.conns| == 2 && w.conns[1].phase.Registered? && w.conns[1].handle == 1
            && |w.bus.chans| == 2 && w.bus.chans[1].closes == 1
  {
    ALiveConn(true);
    var again := A_LIVE_CONN + [Connect("s", None), RegisterConn(1)];
    acts := again + [Leave(0, false), UnregisterConn(0)];
    RunTwo(true, START, A_LIVE_CONN, Connect("s", None), RegisterConn(1));
    RunTwo(true, START, again, Leave(0, false), UnregisterConn(0));
    hide Run, Step;
    Reconnect(Run(true, START, A_LIVE_CONN));
    PredecessorLeaves(Run(true, START, again));
  }

  lemma Reconnect(w: World)
    requires w.bus == BusState(map["s" := 0], [Channel("s", [], 0)]) && w.inflight == []
    requires |w.conns| == 1 && w.conns[0].sub == "s" && w.conns[0].phase.Live? && "s" in w.checkpoint
    ensures var r := Step(true, Step(true, w, Connect("s", None)), RegisterConn(1));
            && |r.conns| == 2 && r.conns[0] == w.conns[0] && r.conns[1].phase.Registered? && r.conns[1].handle == 1
            && r.bus.subs == map["s" := 1] && |r.bus.chans| == 2 && r.bus.chans[1] == Channel("s", [], 0)
  {
  }

  lemma PredecessorLeaves(w: World)
    requires |w.conns| == 2 && w.conns[0].sub == "s" && w.conns[0].phase.Live?
    requires w.bus.subs == map["s" := 1] && |w.bus.chans| == 2 && w.bus.chans[1] == Channel("s", [], 0)
    ensures var r := Step(true, Step(true, w, Leave(0, false)), UnregisterConn(0));
            && |r.conns| == 2 && r.conns[1] == w.conns[1] && |r.bus.chans| == 2 && r.bus.chans[1].closes == 1
  {
    assert Listed(w.bus, 1);
  }

  // ---------- more behind than a replay brings ----------

  /** The first n events. */
  function Numbered(n: nat): seq<Event> {
    seq(n, i requires 0 <= i < n => Event(i + 1, ""))
  }

  function Published(n: nat): World {
    World(Numbered(n), [], {}, EMPTY_BUS, [], map["s" := 0], map["s" := 0])
  }

  /** Any number of events can be published while nobody is connected. */
  lemma {:induction false} PublishedToNobody(n: nat) returns (acts: seq<Action>)
    ensures Run(true, START, acts) == Published(n)
  {
    if n == 0 {
      acts := [] + [Ensure("s", 0)];
      RunNone(true, START);
      RunLast(true, START, [], Ensure("s", 0));
    } else {
      var before := PublishedToNobody(n - 1);
      var e := Event(n, "");
      acts := before + [Append(e), FanOut(0)];
      RunTwo(true, START, before, Append(e), FanOut(0));
      hide Run, Step, Published;
      OneMoreToNobody(n);
    }
  }

  lemma OneMoreToNobody(n: nat)
    requires n > 0
    ensures Step(true, Step(true, Published(n - 1), Append(Event(n, ""))), FanOut(0)) == Published(n)
  {
    var e := Event(n, "");
    assert Numbered(n) == Numbered(n - 1) + [e];
    hide Numbered;
    var w := Step(true, Published(n - 1), Append(e));
    assert [] + [e] == [e] && [e][..0] + [e][1..] == [];
    assert w == Published(n - 1).(log := Numbered(n), inflight := [e]);
    assert FullIds(EMPTY_BUS) == {} && FanOutEvent(EMPTY_BUS, e) == EMPTY_BUS;
  }

  function Behind(n: nat): Conn
    requires n > REPLAY_LIMIT
  {
    Conn("s", 0, Replaying(Numbered(n)[..REPLAY_LIMIT]), 0, n, 0, REPLAY_LIMIT, 0, [], [], 0)
  }

  /** A subscriber that connects then is given the first 500 of them to replay. */
  lemma ConnectsBehind(n: nat) returns (acts: seq<Action>)
    requires n > REPLAY_LIMIT
    ensures Run(true, START, acts) == Published(n).(bus := ONE_SUB, conns := [Behind(n)])
  {
    var before := PublishedToNobody(n);
    var registered := before + [Connect("s", None), RegisterConn(0)];
    RunTwo(true, START, before, Connect("s", None), RegisterConn(0));
    acts := registered + [Query(0)];
    RunLast(true, START, registered, Query(0));
    hide Run;
    var w := Published(n);
    assert RegisterSub(EMPTY_BUS, "s") == ONE_SUB;
    var w2 := w.(bus := ONE_SUB, conns := [OPENED.(phase := Registered, mark := n)]);
    assert Step(true, w, Connect("s", None)).conns == [OPENED];
    assert Step(true, Step(true, w, Connect("s", None)), RegisterConn(0)) == w2;
    AllAfter(Numbered(n), 0);
    assert Step(true, w2, Query(0)).conns == [Behind(n)];
  }

  function Rounds(n: nat): seq<Action> {
    seq(n, i => WriteReplay(0))
  }

  /** Writing all the rows of a replay and going live. */
  lemma {:induction false} ReplayToTheEnd(w: World, c: Conn)
    requires w.conns == [c] && c.phase.Replaying?
    ensures Run(true, w, Rounds(|c.phase.todo| + 1)) ==
            w.(conns := [c.(phase := Live, lastSent := c.afterID, replayed := c.replayed + Ids(c.phase.todo))])
    decreases |c.phase.todo|
  {
    var todo := c.phase.todo;
    var r := Step(true, w, WriteReplay(0));
    assert Rounds(|todo| + 1)[1..] == Rounds(|todo|);
    if todo == [] {
      assert c.replayed + Ids(todo) == c.replayed;
      assert r.conns == [c.(phase := Live, lastSent := c.afterID)];
    } else {
      var d := c.(phase := Replaying(todo[1..]), replayed := c.replayed + [todo[0].id]);
      assert r == w.(conns := [d]);
      ReplayToTheEnd(r, d);
      assert c.replayed + Ids(todo) == d.replayed + Ids(todo[1..]);
    }
  }

  /** A subscriber that was 501 events behind when it connected, after its replay. */
  function AfterReplay(): World {
    Published(REPLAY_LIMIT + 1).(bus := ONE_SUB,
      conns := [Behind(REPLAY_LIMIT + 1).(phase := Live, lastSent := 0, replayed := [] + Ids(Numbered(REPLAY_LIMIT)))])
  }

  lemma ReplaysBehind() returns (acts: seq<Action>)
    ensures Run(true, START, acts) == AfterReplay()
  {
    var n := REPLAY_LIMIT + 1;
    var before := ConnectsBehind(n);
    var w := Run(true, START, before);
    acts := before + Rounds(REPLAY_LIMIT + 1);
    RunConcat(true, START, before, Rounds(REPLAY_LIMIT + 1));
    ReplayToTheEnd(w, Behind(n));
    assert Numbered(n)[..REPLAY_LIMIT] == Numbered(REPLAY_LIMIT);
  }

  /** A subscriber that is 501 events behind: it is live, registered and up to date as far as it can tell,
      and the last of these events is neither written nor anywhere on its way. */
  lemma MoreThanAReplayIsLost() returns (acts: seq<Action>)
    ensures var w := Run(true, START, acts);
            && |w.log| == REPLAY_LIMIT + 1 && |w.conns| == 1 && w.conns[0].phase.Live?
            && w.conns[0].handle == 0 && w.bus == ONE_SUB && w.toEvict == {}
            && Backlog(w.log, w.conns[0]) == REPLAY_LIMIT + 1
            && w.log[REPLAY_LIMIT].id > w.conns[0].afterID && !InHand(w, w.conns[0], REPLAY_LIMIT)
  {
    acts := ReplaysBehind();
    hide Run, Numbered;
    BehindLosesTheLast(AfterReplay());
  }

  /** A new connection that names the last id of that replay in its header is given the event that was
      missed. */
  lemma ReconnectBringsTheNext() returns (acts: seq<Action>)
    ensures var w := Run(true, START, acts);
            && |w.log| == REPLAY_LIMIT + 1 && |w.conns| == 2 && w.conns[1].afterID == REPLAY_LIMIT
            && w.conns[1].phase == Replaying([w.log[REPLAY_LIMIT]])
  {
    var before := ReplaysBehind();
    var again := before + [Connect("s", Some(REPLAY_LIMIT)), RegisterConn(1)];
    acts := again + [Query(1)];
    RunTwo(true, START, before, Connect("s", Some(REPLAY_LIMIT)), RegisterConn(1));
    RunLast(true, START, again, Query(1));
    hide Run;
    AsksForTheNext(AfterReplay());
  }

  lemma AsksForTheNext(w: World)
    requires w == AfterReplay()
    ensures var r := Step(true, Step(true, Step(true, w, Connect("s", Some(REPLAY_LIMIT))), RegisterConn(1)), Query(1));
            && r.log == w.log && |r.conns| == 2 && r.conns[1].afterID == REPLAY_LIMIT
            && r.conns[1].phase == Replaying([w.log[REPLAY_LIMIT]])
  {
    assert w.conns[0].Written()[REPLAY_LIMIT - 1] == REPLAY_LIMIT;
    hide Numbered, AfterReplay, Published, After, ListAfter, RegisterSub;
    var c1 := OPENED.(afterID := REPLAY_LIMIT, lastSent := REPLAY_LIMIT);
    var w1 := Step(true, w, Connect("s", Some(REPLAY_LIMIT)));
    AfterReplayHas(w);
    assert InSent(w, "s", REPLAY_LIMIT);
    assert w1 == w.(conns := [w.conns[0], c1]);
    var w2 := Step(true, w1, RegisterConn(1));
    assert w2.log == w.log && |w2.conns| == 2 && w2.conns[1].phase.Registered? && w2.conns[1].afterID == REPLAY_LIMIT;
    OnlyTheLast(w.log);
  }

  lemma AfterReplayHas(w: World)
    requires w == AfterReplay()
    ensures w.log == Numbered(REPLAY_LIMIT + 1) && |w.conns| == 1 && w.conns[0].sub == "s"
            && w.checkpoint == map["s" := 0]
  {
  }

  lemma OnlyTheLast(log: seq<Event>)
    requires log == Numbered(REPLAY_LIMIT + 1)
    ensures |log| == REPLAY_LIMIT + 1 && ListAfter(log, REPLAY_LIMIT, REPLAY_LIMIT) == [log[REPLAY_LIMIT]]
  {
    AfterIsSuffix(log, REPLAY_LIMIT);
    assert log[REPLAY_LIMIT].id == REPLAY_LIMIT + 1 && log[REPLAY_LIMIT - 1].id == REPLAY_LIMIT;
    hide After, Numbered;
    assert After(log, REPLAY_LIMIT) == log[REPLAY_LIMIT..] == [log[REPLAY_LIMIT]];
  }

  lemma BehindLosesTheLast(w: World)
    requires var n := REPLAY_LIMIT + 1;
             && w.log == Numbered(n) && w.inflight == [] && w.bus == ONE_SUB
             && w.conns == [Behind(n).(phase := Live, lastSent := 0, replayed := [] + Ids(Numbered(REPLAY_LIMIT)))]
    ensures |w.log| == REPLAY_LIMIT + 1 && Backlog(w.log, w.conns[0]) == REPLAY_LIMIT + 1
    ensures w.log[REPLAY_LIMIT].id > w.conns[0].afterID && !InHand(w, w.conns[0], REPLAY_LIMIT)
  {
    var n := REPLAY_LIMIT + 1;
    assert w.log[..n] == w.log;
    AllAfter(w.log, 0);
  }

  // ---------- an event that is written twice ----------

  /** An event published between Register and the replay query is both replayed and sent live. */
  lemma AnEventIsWrittenTwice() returns (acts: seq<Action>)
    ensures var w := Run(true, START, acts);
            && |w.conns| == 1 && w.conns[0].phase.Live?
            && w.conns[0].replayed == [1] && w.conns[0].live == [1]
  {
    var e := Event(1, "");
    var registered := [Ensure("s", 0)] + [Connect("s", None), RegisterConn(0)];
    RunNone(true, START);
    RunLast(true, START, [], Ensure("s", 0));
    assert [] + [Ensure("s", 0)] == [Ensure("s", 0)];
    RunTwo(true, START, [Ensure("s", 0)], Connect("s", None), RegisterConn(0));
    OpeningSteps(true);
    var published := registered + [Append(e), FanOut(0)];
    RunTwo(true, START, registered, Append(e), FanOut(0));
    var queried := published + [Query(0)];
    RunLast(true, START, published, Query(0));
    var replayed := queried + Rounds(2);
    RunConcat(true, START, queried, Rounds(2));
    acts := replayed + [Recv(0)];
    RunLast(true, START, replayed, Recv(0));
    hide Run;
    var w := PublishedToOne(e);
    ReplayToTheEnd(w, w.conns[0]);
    ReceiveOne(w.(conns := [w.conns[0].(phase := Live, lastSent := 0, replayed := [] + Ids([e]))]), e);
  }

  /** After Register one event is published, and then the replay query runs. */
  lemma PublishedToOne(e: Event) returns (w: World)
    requires e == Event(1, "")
    ensures w == Step(true, Step(true, Step(true, REGISTERED, Append(e)), FanOut(0)), Query(0))
    ensures w == World([e], [], {}, BusState(map["s" := 0], [Channel("s", [e], 0)]),
                       [OPENED.(phase := Replaying([e]), replayEnd := 1)], map["s" := 0], map["s" := 0])
  {
    var w1 := Step(true, REGISTERED, Append(e));
    assert [] + [e] == [e];
    assert w1 == REGISTERED.(log := [e], inflight := [e]);
    FanOutSingle([], e);
    var w2 := Step(true, w1, FanOut(0));
    assert w2 == w1.(inflight := [], bus := BusState(map["s" := 0], [Channel("s", [e], 0)]));
    w := Step(true, w2, Query(0));
    AllAfter([e], 0);
    assert w.conns == [OPENED.(phase := Replaying([e]), replayEnd := 1)];
  }

  lemma ReceiveOne(w: World, e: Event)
    requires w.bus == BusState(map["s" := 0], [Channel("s", [e], 0)])
    requires |w.conns| == 1 && w.conns[0].phase.Live? && w.conns[0].handle == 0 && w.conns[0].live == []
    requires e.id > w.conns[0].lastSent
    ensures var r := Step(true, w, Recv(0));
            && |r.conns| == 1 && r.conns[0].phase.Live?
            && r.conns[0].replayed == w.conns[0].replayed && r.conns[0].live == [e.id]
  {
  }

  // ---------- a checkpoint above an event that is still to be fanned out ----------

  const FIRST := Event(1, "")
  const SECOND := Event(2, "")
  const TWO_CLOSED: BusState := BusState(map[], [Channel("s", [], 1)])

  /** The later of two events is fanned out first, written, and its id saved as the checkpoint. */
  function SavedAhead(): World {
    World([FIRST, SECOND], [FIRST], {}, TWO_CLOSED,
          [OPENED.(phase := Closed, received := 1, live := [2], lastSent := 2)], map["s" := 2], map["s" := 0])
  }

  lemma SavesAhead() returns (acts: seq<Action>)
    ensures Run(false, START, acts) == SavedAhead()
  {
    ALiveConn(false);
    var a2 := A_LIVE_CONN + [Append(FIRST), Append(SECOND)];
    var a4 := a2 + [FanOut(1), Recv(0)];
    acts := a4 + [Leave(0, true), UnregisterConn(0)];
    RunTwo(false, START, A_LIVE_CONN, Append(FIRST), Append(SECOND));
    RunTwo(false, START, a2, FanOut(1), Recv(0));
    RunTwo(false, START, a4, Leave(0, true), UnregisterConn(0));
    hide Run;
    var w0 := World([], [], {}, ONE_SUB, [OPENED.(phase := Live)], map["s" := 0], map["s" := 0]);
    var w2 := w0.(log := [FIRST, SECOND], inflight := [FIRST, SECOND]);
    assert Step(false, Step(false, w0, Append(FIRST)), Append(SECOND)) == w2;
    var w3 := w2.(inflight := [FIRST], bus := BusState(map["s" := 0], [Channel("s", [SECOND], 0)]));
    SendsSecond(w2);
    var w4 := w3.(bus := ONE_SUB, conns := [OPENED.(phase := Live, received := 1, live := [2], lastSent := 2)]);
    TakesSecond(w3);
    Leaves(w4);
  }

  lemma SendsSecond(w: World)
    requires w.inflight == [FIRST, SECOND] && w.bus == ONE_SUB && w.toEvict == {}
    ensures Step(false, w, FanOut(1)) ==
            w.(inflight := [FIRST], bus := BusState(map["s" := 0], [Channel("s", [SECOND], 0)]))
  {
    FanOutSingle([], SECOND);
    assert [] + [SECOND] == [SECOND];
    assert w.inflight[..1] + w.inflight[2..] == [FIRST];
  }

  lemma TakesSecond(w: World)
    requires w.bus == BusState(map["s" := 0], [Channel("s", [SECOND], 0)]) && w.conns == [OPENED.(phase := Live)]
    ensures Step(false, w, Recv(0)) ==
            w.(bus := ONE_SUB, conns := [OPENED.(phase := Live, received := 1, live := [2], lastSent := 2)])
  {
    assert [SECOND][1..] == [] && [] + [2] == [2];
    assert Step(false, w, Recv(0)).bus.chans == ONE_SUB.chans;
  }

  lemma Leaves(w: World)
    requires w.bus == ONE_SUB && w.checkpoint == map["s" := 0] && |w.conns| == 1 && w.conns[0].phase.Live?
    requires w.conns[0].sub == "s" && w.conns[0].lastSent == 2
    ensures Step(false, Step(false, w, Leave(0, true)), UnregisterConn(0)) ==
            w.(bus := TWO_CLOSED, checkpoint := map["s" := 2], conns := [w.conns[0].(phase := Closed)])
  {
    var r := Step(false, w, Leave(0, true));
    assert r == w.(checkpoint := map["s" := 2], conns := [w.conns[0].(phase := Leaving)]);
    assert DropAll(ONE_SUB, {"s"}).chans == TWO_CLOSED.chans;
    assert DropAll(ONE_SUB, {"s"}).subs == TWO_CLOSED.subs;
  }

  function Resumed(): Conn {
    OPENED.(afterID := 2, lastSent := 2, handle := 1, mark := 1, start := 2, replayEnd := 2)
  }

  /** A subscriber resumes at a checkpoint that was saved while a smaller id was still to be fanned out. Its
      new connection is live and connected, drops that event when it comes, and nobody has been sent it. */
  lemma OvertakenCheckpointSkipsAnEvent() returns (acts: seq<Action>)
    ensures var w := Run(false, START, acts);
            && w.log == [FIRST, SECOND] && w.inflight == [] && w.toEvict == {} && "s" in w.base && w.base["s"] < 1
            && |w.conns| == 2 && w.conns[1].sub == "s" && w.conns[1].phase.Live? && w.conns[1].handle == 1
            && |w.bus.chans| == 2 && w.bus.chans[1] == Channel("s", [], 0)
            && WithinLimit(w) && !InSent(w, "s", 1)
  {
    var a0 := SavesAhead();
    var a2 := a0 + [Connect("s", None), RegisterConn(1)];
    var a4 := a2 + [Query(1), WriteReplay(1)];
    acts := a4 + [FanOut(0), Recv(1)];
    RunTwo(false, START, a0, Connect("s", None), RegisterConn(1));
    RunTwo(false, START, a2, Query(1), WriteReplay(1));
    RunTwo(false, START, a4, FanOut(0), Recv(1));
    hide Run;
    var w4 := ResumesAhead();
    MissesFirst(w4);
  }

  lemma ResumesAhead() returns (w: World)
    ensures var registered := Step(false, Step(false, SavedAhead(), Connect("s", None)), RegisterConn(1));
            w == Step(false, Step(false, registered, Query(1)), WriteReplay(1))
    ensures w == SavedAhead().(bus := BusState(map["s" := 1], [Channel("s", [], 1), Channel("s", [], 0)]),
                               conns := [SavedAhead().conns[0], Resumed().(phase := Live)])
  {
    var w0 := SavedAhead();
    var w1 := Step(false, w0, Connect("s", None));
    assert w1 == w0.(conns := [w0.conns[0], OPENED.(afterID := 2, lastSent := 2)]);
    var w2 := Step(false, w1, RegisterConn(1));
    assert RegisterSub(TWO_CLOSED, "s") == BusState(map["s" := 1], [Channel("s", [], 1), Channel("s", [], 0)]) by {
      assert DropAll(TWO_CLOSED, {"s"}).chans == TWO_CLOSED.chans;
    }
    AfterIsSuffix(w0.log, 2);
    var w3 := Step(false, w2, Query(1));
    assert w3.conns[1] == Resumed().(phase := Replaying([]));
    w := Step(false, w3, WriteReplay(1));
    assert w.conns == [w0.conns[0], Resumed().(phase := Live)];
  }

  lemma MissesFirst(w: World)
    requires w == SavedAhead().(bus := BusState(map["s" := 1], [Channel("s", [], 1), Channel("s", [], 0)]),
                                conns := [SavedAhead().conns[0], Resumed().(phase := Live)])
    ensures var r := Step(false, Step(false, w, FanOut(0)), Recv(1));
            && r == w.(inflight := [], conns := [w.conns[0], w.conns[1].(received := 1)])
            && !InSent(r, "s", 1) && WithinLimit(r)
  {
    assert Listed(w.bus, 1) && !Listed(w.bus, 0);
    var w1 := Step(false, w, FanOut(0));
    assert FullIds(w.bus) == {};
    assert [] + [FIRST] == [FIRST] && [FIRST][1..] == [];
    assert w1.bus.chans == [Channel("s", [], 1), Channel("s", [FIRST], 0)];
    var r := Step(false, w1, Recv(1));
    assert CanRecv(w1, 1) && r.bus.chans[1] == Channel("s", [], 0);
    assert r.bus.chans == w.bus.chans;
    assert r.conns == [w.conns[0], w.conns[1].(received := 1)];
    AfterIsSuffix(w.log[..1], 2);
  }

  // ---------- a send between finding a channel full and evicting it ----------

  /** The live connection takes nothing while n events are published. */
  function Filled(n: nat): World {
    World(Numbered(n), [], {}, BusState(map["s" := 0], [Channel("s", Numbered(n), 0)]), [OPENED.(phase := Live)],
          map["s" := 0], map["s" := 0])
  }

  /** Every fan-out is of the event that has been in flight longest. */
  predicate FansInOrder(acts: seq<Action>) {
    forall a :: a in acts && a.FanOut? ==> a.i == 0
  }

  lemma {:induction false} FillsUp(n: nat) returns (acts: seq<Action>)
    requires n <= BUFFER_SIZE
    ensures Run(false, START, acts) == Filled(n) && FansInOrder(acts)
  {
    if n == 0 {
      acts := A_LIVE_CONN;
      ALiveConn(false);
      assert Numbered(0) == [];
    } else {
      var before := FillsUp(n - 1);
      var e := Event(n, "");
      acts := before + [Append(e), FanOut(0)];
      RunTwo(false, START, before, Append(e), FanOut(0));
      hide Run;
      assert Numbered(n) == Numbered(n - 1) + [e];
      FanOutSingle(Numbered(n - 1), e);
      assert Step(false, Filled(n - 1), Append(e)) == Filled(n - 1).(log := Numbered(n), inflight := [e]);
    }
  }

  /** Two more events are published, the connection taking one in between; the eviction that the first of
      them calls for comes too late. */
  lemma SendsPastEviction() returns (acts: seq<Action>)
    ensures FansInOrder(acts)
    ensures var w := Run(false, START, acts);
            && w.log == Numbered(BUFFER_SIZE + 2) && w.inflight == [] && |w.conns| == 1 && w.checkpoint == map["s" := 0]
            && w.conns[0] == OPENED.(phase := Live, received := 1, live := [1], lastSent := 1)
            && w.bus.subs == map["s" := 0] && w.toEvict == {"s"}
            && w.bus.chans == [Channel("s", Numbered(BUFFER_SIZE)[1..] + [Event(BUFFER_SIZE + 2, "")], 0)]
  {
    var f := Event(BUFFER_SIZE + 2, "");
    var taken := TakesOneWhenFull();
    acts := taken + [Append(f), FanOut(0)];
    RunTwo(false, START, taken, Append(f), FanOut(0));
    hide Run, Numbered;
    SendsAgain(Run(false, START, taken), f);
    NumberedNext(BUFFER_SIZE);
    NumberedNext(BUFFER_SIZE + 1);
  }

  lemma TakesOneWhenFull() returns (taken: seq<Action>)
    ensures FansInOrder(taken)
    ensures var w := Run(false, START, taken);
            && w.log == Numbered(BUFFER_SIZE + 1) && w.inflight == [] && w.checkpoint == map["s" := 0]
            && w.toEvict == {"s"}
            && w.conns == [OPENED.(phase := Live, received := 1, live := [1], lastSent := 1)]
            && w.bus == BusState(map["s" := 0], [Channel("s", Numbered(BUFFER_SIZE)[1..], 0)])
  {
    var before := FillsUp(BUFFER_SIZE);
    var e := Event(BUFFER_SIZE + 1, "");
    var full := before + [Append(e), FanOut(0)];
    taken := full + [Recv(0)];
    RunTwo(false, START, before, Append(e), FanOut(0));
    RunLast(false, START, full, Recv(0));
    hide Run, Numbered;
    FindsFull(Filled(BUFFER_SIZE), e);
    TakesOne(Run(false, START, full));
    NumberedNext(BUFFER_SIZE);
  }

  lemma NumberedNext(n: nat)
    ensures Numbered(n + 1) == Numbered(n) + [Event(n + 1, "")] && |Numbered(n)| == n
    ensures forall i :: 0 <= i < n ==> Numbered(n)[i] == Event(i + 1, "")
  {
  }

  lemma FindsFull(w: World, e: Event)
    requires w == Filled(BUFFER_SIZE) && e == Event(BUFFER_SIZE + 1, "")
    ensures Step(false, Step(false, w, Append(e)), FanOut(0)) == w.(log := w.log + [e], toEvict := {"s"})
  {
    NumberedNext(BUFFER_SIZE);
    hide Numbered;
    var w1 := Step(false, w, Append(e));
    assert w1 == w.(log := w.log + [e], inflight := [e]);
    assert FullIds(w.bus) == {"s"};
    assert FanOutEvent(w.bus, e).chans == w.bus.chans;
  }

  lemma TakesOne(w: World)
    requires |w.bus.chans| == 1 && w.bus.chans[0] == Channel("s", Numbered(BUFFER_SIZE), 0)
    requires w.conns == [OPENED.(phase := Live)]
    ensures Step(false, w, Recv(0)) ==
            w.(bus := w.bus.(chans := [Channel("s", Numbered(BUFFER_SIZE)[1..], 0)]),
               conns := [OPENED.(phase := Live, received := 1, live := [1], lastSent := 1)])
  {
    NumberedNext(BUFFER_SIZE);
    hide Numbered;
    assert [] + [1] == [1];
    assert Step(false, w, Recv(0)).bus.chans == [Channel("s", Numbered(BUFFER_SIZE)[1..], 0)];
  }

  lemma SendsAgain(w: World, f: Event)
    requires w.bus == BusState(map["s" := 0], [Channel("s", Numbered(BUFFER_SIZE)[1..], 0)])
    requires w.inflight == [] && AboveLog(w.log, f.id)
    ensures var r := Step(false, Step(false, w, Append(f)), FanOut(0));
            && r.log == w.log + [f] && r.inflight == [] && r.conns == w.conns && r.checkpoint == w.checkpoint
            && r.bus.subs == w.bus.subs && r.toEvict == w.toEvict
            && r.bus.chans == [Channel("s", Numbered(BUFFER_SIZE)[1..] + [f], 0)]
  {
    NumberedNext(BUFFER_SIZE);
    hide Numbered;
    FanOutSingle(Numbered(BUFFER_SIZE)[1..], f);
    assert Step(false, w, Append(f)).inflight == [f];
  }

  function Takes(n: nat): seq<Action> {
    seq(n, i => Recv(0))
  }

  /** A connection that takes all that waits for it, in increasing order. */
  lemma {:induction false} TakesAll(w: World, b: seq<Event>)
    requires |w.conns| == 1 && w.conns[0].phase.Live? && w.conns[0].handle == 0
    requires |w.bus.chans| == 1 && w.bus.chans[0].buffer == b && Ascending(b)
    requires b != [] ==> b[0].id > w.conns[0].lastSent
    ensures var (r, c) := (Run(false, w, Takes(|b|)), w.conns[0]);
            && r == w.(bus := r.bus, conns := r.conns) && |r.conns| == 1
            && r.conns[0] == c.(received := c.received + |b|,
                              live := c.live + Ids(b), lastSent := LastOf(c.lastSent, Ids(b)))
    decreases |b|
  {
    var c := w.conns[0];
    if b == [] {
      assert c.live + Ids(b) == c.live;
    } else {
      var r := Step(false, w, Recv(0));
      TakesFirst(w, b);
      assert Takes(|b|)[1..] == Takes(|b| - 1);
      var d := r.conns[0];
      TakesAll(r, b[1..]);
      assert c.live + Ids(b) == d.live + Ids(b[1..]);
    }
  }

  lemma TakesFirst(w: World, b: seq<Event>)
    requires |w.conns| == 1 && w.conns[0].phase.Live? && w.conns[0].handle == 0
    requires |w.bus.chans| == 1 && w.bus.chans[0].buffer == b && b != [] && b[0].id > w.conns[0].lastSent
    ensures var (r, c) := (Step(false, w, Recv(0)), w.conns[0]);
            && r == w.(bus := r.bus, conns := r.conns)
            && r.conns == [c.(received := c.received + 1, live := c.live + [b[0].id], lastSent := b[0].id)]
            && |r.bus.chans| == 1 && r.bus.chans[0].buffer == b[1..]
  {
  }

  /** Fan-outs in id order are not enough: an event is sent to a channel between the fan-out that found it
      full and its eviction. The connection writes it and leaves with its id as checkpoint, and the event
      that did not fit below it has been sent to nobody. */
  lemma PendingEvictionLeavesAHole() returns (acts: seq<Action>)
    ensures FansInOrder(acts)
    ensures var w := Run(false, START, acts);
            && |w.log| == BUFFER_SIZE + 2 && w.inflight == [] && w.toEvict == {"s"} && "s" in w.checkpoint
            && w.checkpoint["s"] == BUFFER_SIZE + 2 && w.log[BUFFER_SIZE].id == BUFFER_SIZE + 1
            && !InSent(w, "s", BUFFER_SIZE + 1)
  {
    var before := SendsPastEviction();
    var w := Run(false, START, before);
    var b := Numbered(BUFFER_SIZE)[1..] + [Event(BUFFER_SIZE + 2, "")];
    var all := before + Takes(|b|);
    acts := all + [Leave(0, true)];
    RunConcat(false, START, before, Takes(|b|));
    RunLast(false, START, all, Leave(0, true));
    HoleInBuffer(b);
    TakesAll(w, b);
    NumberedNext(BUFFER_SIZE + 2);
    hide Run, Numbered, Ids;
    LeavesAt(Run(false, START, all));
  }

  lemma HoleInBuffer(b: seq<Event>)
    requires b == Numbered(BUFFER_SIZE)[1..] + [Event(BUFFER_SIZE + 2, "")]
    ensures Ascending(b) && b != [] && b[0].id > 1
    ensures LastOf(1, Ids(b)) == BUFFER_SIZE + 2 && BUFFER_SIZE + 1 !in [1] + Ids(b)
  {
    assert forall k :: 0 <= k < |b| - 1 ==> b[k] == Event(k + 2, "");
  }

  lemma LeavesAt(w: World)
    requires |w.conns| == 1 && w.conns[0].phase.Live? && w.conns[0].sub == "s" && w.checkpoint == map["s" := 0]
    ensures var r := Step(false, w, Leave(0, true));
            && r == w.(conns := r.conns, checkpoint := map["s" := w.conns[0].lastSent])
            && |r.conns| == 1 && r.conns[0].Written() == w.conns[0].Written()
  {
  }
}

/** The power allocator of internal/power/allocation.go on values, and its runs. */
module PowerSpec {
  datatype Port = Port(id: string, maxWatts: int, currentWatts: int, priority: int, enabled: bool)

  datatype Request = Request(allocationID: string, portID: string, watts: int, priority: int)

  datatype Allocation = Allocation(allocationID: string, portID: string, watts: int, priority: int)

  datatype State = State(ports: map<string, Port>, active: map<string, Allocation>, totalCap: int)

  // ---------- sums over tables ----------

  function Watts(ports: map<string, Port>): map<string, int> {
    map id | id in ports :: ports[id].currentWatts
  }

  /** What each allocation of one port (or, with None, of any port) contributes. */
  function Shares(active: map<string, Allocation>, portID: string): map<string, int> {
    map id | id in active :: if active[id].portID == portID then active[id].watts else 0
  }

  function AllShares(active: map<string, Allocation>): map<string, int> {
    map id | id in active :: active[id].watts
  }

  ghost function Total(m: map<string, int>): int
    decreases |m.Keys|
  {
    if m == map[] then 0
    else
      var k :| k in m;
      assert (m - {k}).Keys == m.Keys - {k};
      m[k] + Total(m - {k})
  }

  /** The sum does not depend on the order in which the entries are taken. */
  lemma {:induction false} TotalWithout(m: map<string, int>, k: string)
    requires k in m
    ensures Total(m) == m[k] + Total(m - {k})
    decreases |m.Keys|
  {
    var j :| j in m && Total(m) == m[j] + Total(m - {j});
    if j != k {
      assert (m - {j}).Keys == m.Keys - {j};
      TotalWithout(m - {j}, k);
      assert (m - {k}).Keys == m.Keys - {k};
      TotalWithout(m - {k}, j);
      assert m - {j} - {k} == m - {k} - {j};
    }
  }

  lemma TotalUpdate(m: map<string, int>, k: string, v: int)
    ensures Total(m[k := v]) == Total(m) - (if k in m then m[k] else 0) + v
  {
    var r := m[k := v];
    TotalWithout(r, k);
    if k in m {
      TotalWithout(m, k);
      assert r - {k} == m - {k};
    } else {
      assert r - {k} == m;
    }
  }

  // ---------- one request ----------

  datatype Error = UnknownPort | CapacityFull | Duplicate | Canceled

  datatype Result<T> = Ok(value: T) | Err(error: Error)

  ghost function Used(s: State): int {
    Total(Watts(s.ports))
  }

  /** Whether a new allocation is granted. */
  ghost predicate Grants(s: State, req: Request) {
    && req.allocationID != "" && req.watts > 0 && req.allocationID !in s.active
    && req.portID in s.ports && s.ports[req.portID].enabled
    && s.ports[req.portID].currentWatts + req.watts <= s.ports[req.portID].maxWatts
    && req.watts <= s.ports[req.portID].maxWatts
    && Used(s) + req.watts <= s.totalCap
  }

  function Granted(req: Request): Allocation {
    Allocation(req.allocationID, req.portID, req.watts, req.priority)
  }

  function AddWatts(ports: map<string, Port>, id: string, watts: int): map<string, Port>
    requires id in ports
  {
    ports[id := ports[id].(currentWatts := ports[id].currentWatts + watts)]
  }

  function ClampedAdd(ports: map<string, Port>, id: string, watts: int): map<string, Port>
    requires id in ports
  {
    var w := ports[id].currentWatts + watts;
    ports[id := ports[id].(currentWatts := if w < 0 then 0 else w)]
  }

  datatype Action = Allocate(req: Request, canceled: bool) | Release(id: string)

  ghost function Step(s: State, a: Action): State {
    match a
    case Allocate(req, canceled) =>
      if !canceled && Grants(s, req)
      then s.(ports := AddWatts(s.ports, req.portID, req.watts), active := s.active[req.allocationID := Granted(req)])
      else s
    case Release(id) =>
      if id in s.active && s.active[id].portID in s.ports
      then s.(ports := ClampedAdd(s.ports, s.active[id].portID, -s.active[id].watts), active := s.active - {id})
      else s
  }

  ghost function Run(s: State, acts: seq<Action>): State
    decreases |acts|
  {
    if acts == [] then s else Run(Step(s, acts[0]), acts[1..])
  }

  // ---------- whole runs ----------

  /** What NewAllocator leaves when the given ports start within their limits. */
  ghost predicate Fresh(s: State) {
    && s.active == map[] && s.totalCap > 0
    && forall id :: id in s.ports ==> s.ports[id].id == id && 0 <= s.ports[id].currentWatts <= s.ports[id].maxWatts
  }

  /** A port that draws extra watts on top of what it drew at first. */
  predicate PortOk(first: Port, now: Port, extra: int) {
    now == first.(currentWatts := first.currentWatts + extra) && 0 <= now.currentWatts <= now.maxWatts
  }

  ghost predicate Inv(init: State, s: State) {
    && s.totalCap == init.totalCap && s.ports.Keys == init.ports.Keys
    && (forall id :: id in s.active ==>
          && s.active[id].allocationID == id && s.active[id].watts > 0
          && s.active[id].portID in s.ports && s.ports[s.active[id].portID].enabled)
    && (forall p :: p in s.ports ==> PortOk(init.ports[p], s.ports[p], Total(Shares(s.active, p))))
    && Used(s) == Used(init) + Total(AllShares(s.active))
    && (Used(s) <= s.totalCap || Used(s) <= Used(init))
  }

  lemma SharesAdd(active: map<string, Allocation>, id: string, d: Allocation, p: string)
    requires id !in active
    ensures Total(Shares(active[id := d], p)) == Total(Shares(active, p)) + if d.portID == p then d.watts else 0
    ensures Total(AllShares(active[id := d])) == Total(AllShares(active)) + d.watts
  {
    var v := if d.portID == p then d.watts else 0;
    assert Shares(active[id := d], p) == Shares(active, p)[id := v];
    TotalUpdate(Shares(active, p), id, v);
    assert AllShares(active[id := d]) == AllShares(active)[id := d.watts];
    TotalUpdate(AllShares(active), id, d.watts);
  }

  lemma SharesRemove(active: map<string, Allocation>, id: string, p: string)
    requires id in active
    ensures Total(Shares(active - {id}, p)) ==
            Total(Shares(active, p)) - if active[id].portID == p then active[id].watts else 0
    ensures Total(AllShares(active - {id})) == Total(AllShares(active)) - active[id].watts
  {
    SharesAdd(active - {id}, id, active[id], p);
    assert (active - {id})[id := active[id]] == active;
  }

  /** Sums of non-negative shares are non-negative. */
  lemma {:induction false} SharesNonNegative(m: map<string, int>)
    requires forall k :: k in m ==> m[k] >= 0
    ensures Total(m) >= 0
    decreases |m.Keys|
  {
    if m != map[] {
      var k :| k in m && Total(m) == m[k] + Total(m - {k});
      assert (m - {k}).Keys == m.Keys - {k};
      SharesNonNegative(m - {k});
    }
  }

  lemma UsedAfter(s: State, p: string, ports: map<string, Port>, watts: int)
    requires p in s.ports && ports == AddWatts(s.ports, p, watts)
    ensures Total(Watts(ports)) == Used(s) + watts
  {
    assert Watts(ports) == Watts(s.ports)[p := s.ports[p].currentWatts + watts];
    TotalUpdate(Watts(s.ports), p, s.ports[p].currentWatts + watts);
  }

  /** Changing one port and the shares of the active set by the same amount keeps the books. */
  lemma ChangeKeepsInv(init: State, s: State, r: State, port: string, watts: int)
    requires Inv(init, s) && port in s.ports && r.totalCap == s.totalCap
    requires r.ports == AddWatts(s.ports, port, watts)
    requires 0 <= s.ports[port].currentWatts + watts <= s.ports[port].maxWatts
    requires watts <= 0 || Used(s) + watts <= s.totalCap
    requires forall id :: id in r.active ==>
               && r.active[id].allocationID == id && r.active[id].watts > 0
               && r.active[id].portID in s.ports && s.ports[r.active[id].portID].enabled
    requires forall p :: p in s.ports ==>
               Total(Shares(r.active, p)) == Total(Shares(s.active, p)) + if port == p then watts else 0
    requires Total(AllShares(r.active)) == Total(AllShares(s.active)) + watts
    ensures Inv(init, r)
  {
    hide Total, Watts, Shares, AllShares;
    UsedAfter(s, port, r.ports, watts);
    forall p | p in r.ports
      ensures PortOk(init.ports[p], r.ports[p], Total(Shares(r.active, p)))
    {
      assert PortOk(init.ports[p], s.ports[p], Total(Shares(s.active, p)));
    }
  }

  lemma AllocateKeepsInv(init: State, s: State, req: Request)
    requires Inv(init, s) && Grants(s, req)
    ensures Inv(init, Step(s, Allocate(req, false)))
  {
    hide Total, Shares, AllShares, Used;
    var r := Step(s, Allocate(req, false));
    SharesAdd(s.active, req.allocationID, Granted(req), req.portID);
    forall p | p in s.ports
      ensures Total(Shares(r.active, p)) == Total(Shares(s.active, p)) + if req.portID == p then req.watts else 0
    {
      SharesAdd(s.active, req.allocationID, Granted(req), p);
    }
    ChangeKeepsInv(init, s, r, req.portID, req.watts);
  }

  /** Releasing an active allocation never reaches the clamp at zero. */
  lemma ClampNeverFires(init: State, s: State, id: string)
    requires Inv(init, s) && Fresh(init) && id in s.active
    ensures var a := s.active[id];
            s.ports[a.portID].currentWatts - a.watts >= init.ports[a.portID].currentWatts >= 0
  {
    hide Total, Used, AllShares;
    var p := s.active[id].portID;
    assert PortOk(init.ports[p], s.ports[p], Total(Shares(s.active, p)));
    SharesRemove(s.active, id, p);
    SharesNonNegative(Shares(s.active - {id}, p));
  }

  lemma ReleaseKeepsInv(init: State, s: State, id: string)
    requires Inv(init, s) && Fresh(init) && id in s.active
    ensures Inv(init, Step(s, Release(id)))
  {
    hide Total, Shares, AllShares, Used, Fresh;
    var r := Step(s, Release(id));
    var d := s.active[id];
    ClampNeverFires(init, s, id);
    SharesRemove(s.active, id, d.portID);
    forall p | p in s.ports
      ensures Total(Shares(r.active, p)) == Total(Shares(s.active, p)) + if d.portID == p then -d.watts else 0
    {
      SharesRemove(s.active, id, p);
    }
    ChangeKeepsInv(init, s, r, d.portID, -d.watts);
  }

  lemma {:induction false} RunKeepsInv(init: State, s: State, acts: seq<Action>)
    requires Inv(init, s) && Fresh(init)
    ensures Inv(init, Run(s, acts))
    decreases |acts|
  {
    hide Inv;
    if acts != [] {
      StepKeepsInv(init, s, acts[0]);
      RunKeepsInv(init, Step(s, acts[0]), acts[1..]);
    }
  }

  lemma StepKeepsInv(init: State, s: State, a: Action)
    requires Inv(init, s) && Fresh(init)
    ensures Inv(init, Step(s, a))
  {
    match a {
      case Allocate(req, canceled) =>
        if !canceled && Grants(s, req) {
          AllocateKeepsInv(init, s, req);
        }
      case Release(id) =>
        if id in s.active {
          ReleaseKeepsInv(init, s, id);
        }
    }
  }

  lemma FreshIsInv(init: State)
    requires Fresh(init)
    ensures Inv(init, init)
  {
    assert Shares(init.active, "") == map[] && AllShares(init.active) == map[];
    forall p | p in init.ports
      ensures Total(Shares(init.active, p)) == 0
    {
      assert Shares(init.active, p) == map[];
    }
  }

  /** Conservation: after any requests and releases each port draws its initial watts plus its active
      allocations, within its own limit, a disabled one has none and draws what it drew at first, and the
      whole never exceeds the larger of the capacity and the initial use. */
  lemma {:induction false} ConservationInEveryRun(init: State, acts: seq<Action>)
    requires Fresh(init)
    ensures var s := Run(init, acts);
            && s.ports.Keys == init.ports.Keys
            && (forall p :: p in s.ports ==>
                  && s.ports[p].currentWatts == init.ports[p].currentWatts + Total(Shares(s.active, p))
                  && 0 <= s.ports[p].currentWatts <= s.ports[p].maxWatts
                  && s.ports[p].maxWatts == init.ports[p].maxWatts && s.ports[p].enabled == init.ports[p].enabled)
            && (forall id :: id in s.active ==>
                  && s.active[id].allocationID == id && s.active[id].watts > 0
                  && s.active[id].portID in init.ports && init.ports[s.active[id].portID].enabled)
            && (forall p :: p in s.ports && !init.ports[p].enabled ==> s.ports[p] == init.ports[p])
            && Used(s) == Used(init) + Total(AllShares(s.active))
            && (Used(s) <= init.totalCap || Used(s) <= Used(init))
  {
    FreshIsInv(init);
    RunKeepsInv(init, init, acts);
    var s := Run(init, acts);
    hide Run, Total, Shares, AllShares, Used;
    assert forall p :: p in s.ports ==> PortOk(init.ports[p], s.ports[p], Total(Shares(s.active, p)));
    forall p | p in s.ports && !init.ports[p].enabled
      ensures s.ports[p] == init.ports[p]
    {
      DisabledPortIsIdle(init, s, p);
    }
  }

  lemma DisabledPortIsIdle(init: State, s: State, p: string)
    requires Inv(init, s) && p in s.ports && p in init.ports && !init.ports[p].enabled
    ensures s.ports[p] == init.ports[p]
  {
    hide Total, Used, AllShares;
    assert PortOk(init.ports[p], s.ports[p], Total(Shares(s.active, p)));
    assert forall id :: id in s.active ==> s.active[id].portID != p;
    NoShares(Shares(s.active, p));
  }

  lemma {:induction false} NoShares(m: map<string, int>)
    requires forall k :: k in m ==> m[k] == 0
    ensures Total(m) == 0
    decreases |m.Keys|
  {
    if m != map[] {
      var k :| k in m && Total(m) == m[k] + Total(m - {k});
      assert (m - {k}).Keys == m.Keys - {k};
      NoShares(m - {k});
    }
  }

  function Releases(order: seq<string>): seq<Action> {
    seq(|order|, i requires 0 <= i < |order| => Release(order[i]))
  }

  lemma {:induction false} ReleasedOneByOne(init: State, s: State, order: seq<string>)
    requires Inv(init, s) && Fresh(init)
    ensures Run(s, Releases(order)).active == s.active - set id | id in order
    decreases |order|
  {
    hide PortOk, Used, Shares, AllShares, Total, AddWatts, ClampedAdd;
    if order != [] {
      var acts := Releases(order);
      assert acts[1..] == Releases(order[1..]);
      StepKeepsInv(init, s, acts[0]);
      ReleasedOneByOne(init, Step(s, acts[0]), order[1..]);
      assert order == [order[0]] + order[1..];
    }
  }

  /** Inverse: releasing every active allocation, in any order and whatever came before, restores the
      initial ports exactly. */
  lemma {:induction false} ReleasingAllRestoresPorts(init: State, acts: seq<Action>, order: seq<string>)
    requires Fresh(init) && forall id :: id in Run(init, acts).active ==> id in order
    ensures Run(Run(init, acts), Releases(order)) == init
  {
    hide Inv, Run, Releases;
    FreshIsInv(init);
    RunKeepsInv(init, init, acts);
    var s := Run(init, acts);
    ReleasedOneByOne(init, s, order);
    RunKeepsInv(init, s, Releases(order));
    var r := Run(s, Releases(order));
    assert r.active == map[];
    NothingActive(init, r);
  }

  lemma NothingActive(init: State, r: State)
    requires Inv(init, r) && Fresh(init) && r.active == map[]
    ensures r == init
  {
    hide Used, AllShares;
    forall p | p in init.ports
      ensures r.ports[p] == init.ports[p]
    {
      assert Shares(r.active, p) == map[];
      assert PortOk(init.ports[p], r.ports[p], 0);
    }
    assert r.ports == init.ports;
  }

  /** An allocation and its release cancel out. */
  lemma {:induction false} AllocateThenRelease(init: State, acts: seq<Action>, req: Request)
    requires Fresh(init) && Grants(Run(init, acts), req)
    ensures var s := Run(init, acts); Step(Step(s, Allocate(req, false)), Release(req.allocationID)) == s
  {
    FreshIsInv(init);
    RunKeepsInv(init, init, acts);
    GrantedThenReleased(Run(init, acts), req);
  }

  lemma GrantedThenReleased(s: State, req: Request)
    requires Grants(s, req) && s.ports[req.portID].currentWatts >= 0
    ensures Step(Step(s, Allocate(req, false)), Release(req.allocationID)) == s
  {
    hide Used;
    var p := s.ports[req.portID];
    var one := Step(s, Allocate(req, false));
    var r := Step(one, Release(req.allocationID));
    assert r.ports == s.ports[req.portID := p];
    assert r.active == s.active;
  }
}

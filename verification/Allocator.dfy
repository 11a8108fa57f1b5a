/** The allocator as an object, internal/power/allocation.go. */
module PowerAllocator {
  import opened PowerSpec

  /** The order of sort.Slice in Snapshot: strings, character by character. */
  predicate Before(a: string, b: string) {
    if b == [] then false
    else if a == [] then true
    else a[0] < b[0] || (a[0] == b[0] && Before(a[1..], b[1..]))
  }

  lemma {:induction false} BeforeTotal(a: string, b: string)
    ensures Before(a, b) || Before(b, a) || a == b
    ensures !(Before(a, b) && Before(b, a)) && !Before(a, a)
    decreases |a|
  {
    if a != [] {
      BeforeTotal(a[1..], a[1..]);
      if b != [] {
        BeforeTotal(a[1..], b[1..]);
        if a[0] == b[0] && a[1..] == b[1..] {
          assert a == [a[0]] + a[1..] == [b[0]] + b[1..] == b;
        }
      }
    }
  }

  /** Before is the order of a dictionary: the first difference decides, and a prefix comes first. */
  lemma {:induction false} BeforeIsLexicographic(a: string, b: string)
    ensures Before(a, b) <==>
            exists k :: 0 <= k <= |a| && k < |b| && a[..k] == b[..k] && (k == |a| || a[k] < b[k])
    decreases |a|
  {
    if b != [] && a != [] {
      var (s, t) := (a[1..], b[1..]);
      BeforeIsLexicographic(s, t);
      if k :| 0 <= k <= |s| && k < |t| && s[..k] == t[..k] && (k == |s| || s[k] < t[k]) {
        if a[0] == b[0] {
          assert a[..k + 1] == [a[0]] + s[..k] && b[..k + 1] == [b[0]] + t[..k];
        }
      }
      if k :| 0 < k <= |a| && k < |b| && a[..k] == b[..k] && (k == |a| || a[k] < b[k]) {
        assert a[0] == a[..k][0] == b[..k][0] == b[0];
        assert s[..k - 1] == a[..k][1..] == b[..k][1..] == t[..k - 1];
      }
      assert a[..0] == b[..0];
    } else if b != [] {
      assert a[..0] == b[..0];
    }
  }

  lemma {:induction false} BeforeTransitive(a: string, b: string, c: string)
    requires Before(a, b) && Before(b, c)
    ensures Before(a, c)
    decreases |a|
  {
    if a != [] && a[0] == b[0] == c[0] {
      BeforeTransitive(a[1..], b[1..], c[1..]);
    }
  }

  predicate SortedByID(items: seq<Allocation>) {
    forall i, j :: 0 <= i < j < |items| ==> Before(items[i].allocationID, items[j].allocationID)
  }

  function SumWatts(items: seq<Allocation>): int {
    if items == [] then 0 else items[0].watts + SumWatts(items[1..])
  }

  lemma {:induction false} SumOfInsert(a: seq<Allocation>, x: Allocation, b: seq<Allocation>)
    ensures SumWatts(a + [x] + b) == SumWatts(a + b) + x.watts
  {
    if a == [] {
      assert a + [x] + b == [x] + b && a + b == b && ([x] + b)[1..] == b;
    } else {
      SumOfInsert(a[1..], x, b);
      assert (a + [x] + b)[1..] == a[1..] + [x] + b && (a + b)[1..] == a[1..] + b;
    }
  }

  /** Putting an item between the smaller and the larger ones keeps the order. */
  lemma SortedInsert(items: seq<Allocation>, x: Allocation, i: nat)
    requires SortedByID(items) && i <= |items|
    requires forall k :: 0 <= k < i ==> Before(items[k].allocationID, x.allocationID)
    requires i < |items| ==> Before(x.allocationID, items[i].allocationID)
    ensures SortedByID(items[..i] + [x] + items[i..])
  {
    hide Before;
    forall k | i < k < |items|
      ensures Before(x.allocationID, items[k].allocationID)
    {
      BeforeTransitive(x.allocationID, items[i].allocationID, items[k].allocationID);
    }
  }

  /** One insertion of an insertion sort; sort.Slice stands for any sort. */
  method Insert(items: seq<Allocation>, x: Allocation) returns (r: seq<Allocation>)
    requires SortedByID(items) && forall y :: y in items ==> y.allocationID != x.allocationID
    ensures SortedByID(r) && multiset(r) == multiset(items) + multiset{x}
    ensures SumWatts(r) == SumWatts(items) + x.watts
  {
    hide SortedByID, SumWatts, Before;
    var i := 0;
    while i < |items| && Before(items[i].allocationID, x.allocationID)
      invariant 0 <= i <= |items|
      invariant forall k :: 0 <= k < i ==> Before(items[k].allocationID, x.allocationID)
    {
      i := i + 1;
    }
    if i < |items| {
      BeforeTotal(x.allocationID, items[i].allocationID);
    }
    SortedInsert(items, x, i);
    r := items[..i] + [x] + items[i..];
    assert items == items[..i] + items[i..];
    SumOfInsert(items[..i], x, items[i..]);
  }

  ghost predicate ValidPorts(ports: seq<Port>) {
    && (forall i :: 0 <= i < |ports| ==> ports[i].id != "" && ports[i].maxWatts > 0)
    && (forall i, j :: 0 <= i < j < |ports| ==> ports[i].id != ports[j].id)
  }

  /** The table holds exactly the given ports, which passed NewAllocator's checks. */
  ghost predicate Loaded(ports: seq<Port>, table: map<string, Port>) {
    && ValidPorts(ports)
    && (forall k :: 0 <= k < |ports| ==> ports[k].id in table && table[ports[k].id] == ports[k])
    && (forall id :: id in table ==> id != "" && table[id].id == id && table[id] in ports)
  }

  lemma NothingLoaded()
    ensures Loaded([], map[])
  {
  }

  lemma LoadedNext(ports: seq<Port>, table: map<string, Port>, i: nat)
    requires i < |ports| && Loaded(ports[..i], table)
    ensures if ports[i].id == "" || ports[i].maxWatts <= 0 || ports[i].id in table then !ValidPorts(ports)
            else Loaded(ports[..i + 1], table[ports[i].id := ports[i]])
  {
    assert ports[..i + 1] == ports[..i] + [ports[i]];
    if ports[i].id in table {
      var k :| 0 <= k < i && ports[..i][k] == table[ports[i].id];
      assert ports[k].id == ports[i].id;
    }
  }

  /** The request repeats an allocation that is already active. */
  ghost predicate Repeats(s: State, req: Request) {
    && req.watts > 0 && req.allocationID in s.active
    && s.active[req.allocationID].portID == req.portID && s.active[req.allocationID].watts == req.watts
  }

  /** The items are exactly the rows of the table, each once. */
  ghost predicate Lists(items: seq<Allocation>, active: map<string, Allocation>) {
    && |items| == |active|
    && forall d :: d in items <==> d.allocationID in active && active[d.allocationID] == d
  }

  lemma NothingListed()
    ensures Lists([], map[]) && SortedByID([]) && SumWatts([]) == Total(AllShares(map[]))
  {
    assert AllShares(map[]) == map[];
  }

  lemma NotListed(items: seq<Allocation>, active: map<string, Allocation>, id: string)
    requires Lists(items, active) && id !in active
    ensures forall y :: y in items ==> y.allocationID != id
  {
  }

  lemma ListsNext(items: seq<Allocation>, active: map<string, Allocation>, x: Allocation, r: seq<Allocation>)
    requires Lists(items, active) && x.allocationID !in active
    requires multiset(r) == multiset(items) + multiset{x}
    ensures Lists(r, active[x.allocationID := x])
    ensures Total(AllShares(active[x.allocationID := x])) == Total(AllShares(active)) + x.watts
  {
    hide Total, AllShares;
    SharesAdd(active, x.allocationID, x, "");
    assert |multiset(r)| == |r| && |multiset(items)| == |items|;
    forall d
      ensures d in r <==> d in items || d == x
    {
      assert d in r <==> d in multiset(r);
      assert d in items <==> d in multiset(items);
    }
  }

  lemma ListingInPlain(items: seq<Allocation>, active: map<string, Allocation>)
    requires SortedByID(items) && Lists(items, active)
    ensures |items| == |active| && forall d :: d in items <==> d.allocationID in active && active[d.allocationID] == d
    ensures forall i, j :: 0 <= i < j < |items| ==> Before(items[i].allocationID, items[j].allocationID)
  {
  }

  /** Whatever order the map is walked in, the sorted listing is the same. */
  lemma {:induction false} ListingIsUnique(a: seq<Allocation>, b: seq<Allocation>)
    requires SortedByID(a) && SortedByID(b) && forall d :: d in a <==> d in b
    ensures a == b
    decreases |a|
  {
    if a != [] {
      assert a[0] in b;
    }
    if b != [] {
      assert b[0] in a;
      assert a[0] in b && b[0] in a;
      BeforeTotal(a[0].allocationID, b[0].allocationID);
      assert a[0] == b[0];
      assert a == [a[0]] + a[1..] && b == [b[0]] + b[1..];
      forall d
        ensures d in a[1..] <==> d in b[1..]
      {
        BeforeTotal(a[0].allocationID, a[0].allocationID);
        assert d in a <==> d in b;
      }
      ListingIsUnique(a[1..], b[1..]);
    }
  }

  class Allocator {
    var ports: map<string, Port>
    var active: map<string, Allocation>
    var totalCap: int

    ghost function Value(): State
      reads this
    {
      State(ports, active, totalCap)
    }

    /** Rows are filed under their own ids, as everything in this file leaves them. */
    ghost predicate Valid()
      reads this
    {
      && (forall id :: id in ports ==> id != "" && ports[id].id == id)
      && (forall id :: id in active ==> id != "" && active[id].allocationID == id && active[id].portID in ports)
    }

    constructor Empty(totalCap: int)
      ensures Value() == State(map[], map[], totalCap)
    {
      ports, active := map[], map[];
      this.totalCap := totalCap;
    }

    /** NewAllocator. The initial watts of the ports are taken over unchecked. */
    static method New(totalCap: int, ports: seq<Port>) returns (a: Allocator?)
      ensures a != null <==>
              && totalCap > 0 && ports != []
              && (forall i :: 0 <= i < |ports| ==> ports[i].id != "" && ports[i].maxWatts > 0)
              && forall i, j :: 0 <= i < j < |ports| ==> ports[i].id != ports[j].id
      ensures a != null ==> fresh(a) && a.Valid() && a.active == map[] && a.totalCap == totalCap
      ensures a != null ==> Loaded(ports, a.ports)
      ensures a != null ==>
                && (forall k :: 0 <= k < |ports| ==> ports[k].id in a.ports && a.ports[ports[k].id] == ports[k])
                && forall id :: id in a.ports ==> a.ports[id] in ports
      ensures a != null && (forall p :: p in ports ==> 0 <= p.currentWatts <= p.maxWatts) ==> Fresh(a.Value())
    {
      if totalCap <= 0 || |ports| == 0 {
        return null;
      }
      var b := new Allocator.Empty(totalCap);
      NothingLoaded();
      assert ports[..0] == [];
      for i := 0 to |ports|
        invariant fresh(b) && b.active == map[] && b.totalCap == totalCap
        invariant Loaded(ports[..i], b.ports)
      {
        var port := ports[i];
        LoadedNext(ports, b.ports, i);
        if port.id == "" || port.maxWatts <= 0 || port.id in b.ports {
          return null;
        }
        b.ports := b.ports[port.id := port];
      }
      assert ports[..|ports|] == ports;
      a := b;
    }

    method UsedWatts() returns (used: int)
      ensures used == Used(Value())
    {
      used := 0;
      var todo := ports.Keys;
      ghost var seen: map<string, Port> := map[];
      while todo != {}
        invariant todo <= ports.Keys
        invariant seen == map id | id in ports && id !in todo :: ports[id]
        invariant used == Total(Watts(seen))
        decreases todo
      {
        var id :| id in todo;
        assert Watts(seen[id := ports[id]]) == Watts(seen)[id := ports[id].currentWatts];
        TotalUpdate(Watts(seen), id, ports[id].currentWatts);
        seen := seen[id := ports[id]];
        todo := todo - {id};
        used := used + ports[id].currentWatts;
      }
      assert seen == ports;
    }

    /** Granted requests are booked; repeated, conflicting and rejected ones change nothing. */
    method Allocate(req: Request, canceled: bool) returns (r: Result<Allocation>)
      requires Valid()
      modifies this
      ensures Valid()
      ensures Value() == Step(old(Value()), PowerSpec.Allocate(req, canceled))
      ensures r.Ok? <==> !canceled && (Grants(old(Value()), req) || Repeats(old(Value()), req))
      ensures r.Ok? ==> req.allocationID in active && r.value == active[req.allocationID]
      ensures r.Ok? <==>
              && !canceled && req.allocationID != "" && req.watts > 0
              && if req.allocationID in old(active)
                 then old(active)[req.allocationID].portID == req.portID
                      && old(active)[req.allocationID].watts == req.watts
                 else && req.portID in old(ports) && old(ports)[req.portID].enabled
                      && old(ports)[req.portID].currentWatts + req.watts <= old(ports)[req.portID].maxWatts
                      && req.watts <= old(ports)[req.portID].maxWatts
                      && old(Used(Value())) + req.watts <= totalCap
      ensures r.Err? || req.allocationID in old(active) ==> Value() == old(Value())
      ensures r.Ok? && req.allocationID !in old(active) ==>
                && r.value == Allocation(req.allocationID, req.portID, req.watts, req.priority)
                && active == old(active)[req.allocationID := r.value] && totalCap == old(totalCap)
                && var was := old(ports)[req.portID];
                   ports == old(ports)[req.portID := was.(currentWatts := was.currentWatts + req.watts)]
      ensures r == Err(Canceled) <==> canceled
      ensures r == Err(Duplicate) <==>
              && !canceled && req.watts > 0 && req.allocationID in old(active)
              && (old(active)[req.allocationID].portID != req.portID
                  || old(active)[req.allocationID].watts != req.watts)
      ensures r == Err(UnknownPort) <==>
                && !canceled && req.allocationID != "" && req.watts > 0 && req.allocationID !in old(active)
                && req.portID !in old(ports)
      ensures r == Err(CapacityFull) <==>
                && !canceled
                && (req.allocationID == "" || req.watts <= 0
                    || (req.allocationID !in old(active) && req.portID in old(ports) && !Grants(old(Value()), req)))
    {
      if canceled {
        return Err(Canceled);
      }
      if req.allocationID == "" || req.watts <= 0 {
        return Err(CapacityFull);
      }
      if req.allocationID in active {
        var existing := active[req.allocationID];
        if existing.portID == req.portID && existing.watts == req.watts {
          return Ok(existing);
        }
        return Err(Duplicate);
      }
      if req.portID !in ports {
        return Err(UnknownPort);
      }
      var port := ports[req.portID];
      if !port.enabled || req.watts > port.maxWatts || req.watts + port.currentWatts > port.maxWatts {
        return Err(CapacityFull);
      }
      var used := UsedWatts();
      if used + req.watts > totalCap {
        return Err(CapacityFull);
      }
      port := port.(currentWatts := port.currentWatts + req.watts);
      ports := ports[port.id := port];
      var allocation := Allocation(req.allocationID, req.portID, req.watts, req.priority);
      active := active[req.allocationID := allocation];
      return Ok(allocation);
    }

    method Release(id: string) returns (r: Result<()>)
      requires Valid()
      modifies this
      ensures Valid()
      ensures r == if id in old(active) then Ok(()) else Err(UnknownPort)
      ensures Value() == Step(old(Value()), PowerSpec.Release(id))
      ensures id in old(active) ==>
                var (a, was) := (old(active)[id], old(ports)[old(active)[id].portID]);
                && active == old(active) - {id} && totalCap == old(totalCap)
                && ports == old(ports)[a.portID := was.(currentWatts :=
                     if was.currentWatts >= a.watts then was.currentWatts - a.watts else 0)]
      ensures id !in old(active) ==> Value() == old(Value())
    {
      if id !in active {
        return Err(UnknownPort);
      }
      var allocation := active[id];
      var port := ports[allocation.portID];
      port := port.(currentWatts := port.currentWatts - allocation.watts);
      if port.currentWatts < 0 {
        port := port.(currentWatts := 0);
      }
      ports := ports[port.id := port];
      active := active - {id};
      return Ok(());
    }

    /** The active allocations, each once, strictly sorted by id. */
    method Snapshot() returns (items: seq<Allocation>)
      requires Valid()
      ensures SortedByID(items) && Lists(items, active)
      ensures |items| == |active| && forall d :: d in items <==> d.allocationID in active && active[d.allocationID] == d
      ensures forall i, j :: 0 <= i < j < |items| ==> Before(items[i].allocationID, items[j].allocationID)
      ensures SumWatts(items) == Total(AllShares(active))
    {
      hide SortedByID, SumWatts, Lists, Total, AllShares, Before;
      items := [];
      var todo := active.Keys;
      ghost var seen: map<string, Allocation> := map[];
      NothingListed();
      while todo != {}
        invariant todo <= active.Keys
        invariant seen == map id | id in active && id !in todo :: active[id]
        invariant SortedByID(items) && Lists(items, seen)
        invariant SumWatts(items) == Total(AllShares(seen))
        decreases todo
      {
        var id :| id in todo;
        var d := active[id];
        ghost var before := items;
        NotListed(before, seen, id);
        items := Insert(items, d);
        ListsNext(before, seen, d, items);
        seen := seen[id := d];
        todo := todo - {id};
      }
      assert seen == active;
      ListingInPlain(items, active);
    }
  }
}

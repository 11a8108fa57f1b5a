/** The fast-charge protocol negotiator of internal/protocol/negotiation.go. */
module Negotiation {
  import opened Prelude

  datatype Capability = Capability(name: string, maxWatts: int, voltageMin: int, voltageMax: int, certified: bool)

  datatype Endpoint = Endpoint(id: string, capabilities: seq<Capability>, cableID: string, cableWatts: int,
                               temperatureC: real)

  datatype Request = Request(device: Endpoint, charger: Endpoint, requestedWatts: int, requireStable: bool)

  datatype Agreement = Agreement(protocol: string, watts: int, voltage: int, fallback: bool)

  datatype Error = Canceled | Unsafe | NoCommonProtocol

  datatype Outcome = Ok(value: Agreement) | Err(error: Error)

  // ---------- what is being negotiated ----------

  predicate Usable(c: Capability) {
    c.certified && c.maxWatts > 0
  }

  /** What the charger offers under a name: its last usable entry of that name, 0 without one. */
  function Offer(caps: seq<Capability>, name: string): int
    ensures Offer(caps, name) >= 0
  {
    if caps == [] then 0
    else if caps[|caps| - 1].name == name && Usable(caps[|caps| - 1]) then caps[|caps| - 1].maxWatts
    else Offer(caps[..|caps| - 1], name)
  }

  predicate Refused(req: Request) {
    || req.device.id == "" || req.charger.id == "" || req.requestedWatts <= 0
    || req.device.temperatureC >= 48.0 || req.charger.temperatureC >= 55.0
  }

  /** Device capability i is certified and the charger has a usable entry of the same name. */
  predicate Common(req: Request, i: int) {
    && 0 <= i < |req.device.capabilities| && req.device.capabilities[i].certified
    && Offer(req.charger.capabilities, req.device.capabilities[i].name) > 0
  }

  /** The power both sides are rated for. */
  function Rating(req: Request, i: int): int
    requires 0 <= i < |req.device.capabilities|
  {
    Min(Offer(req.charger.capabilities, req.device.capabilities[i].name), req.device.capabilities[i].maxWatts)
  }

  /** A common capability at that power. */
  function Rated(req: Request, i: int): Capability
    requires 0 <= i < |req.device.capabilities|
  {
    req.device.capabilities[i].(maxWatts := Rating(req, i))
  }

  /** The rating after the request's and, where there is one, the cable's limit. */
  function Clamp(req: Request, watts: int): int {
    var w := Min(watts, req.requestedWatts);
    if req.charger.cableWatts > 0 then Min(req.charger.cableWatts, w) else w
  }

  /** The rating of the charger's first capability, the limit under RequireStable. */
  function Ceiling(req: Request): int {
    if req.charger.capabilities == [] then 0 else req.charger.capabilities[0].maxWatts
  }

  predicate Eligible(req: Request, i: int) {
    Common(req, i) && Rating(req, i) > 0 && (req.requireStable ==> Rating(req, i) <= Ceiling(req))
  }

  predicate Ahead(req: Request, i: int, j: int)
    requires 0 <= i < |req.device.capabilities| && 0 <= j < |req.device.capabilities|
  {
    Rating(req, i) > Rating(req, j) || (Rating(req, i) == Rating(req, j) && i < j)
  }

  /** The best eligible capability: greatest rating, and the device's own order among equals. */
  ghost predicate Best(req: Request, i: int) {
    Eligible(req, i) && forall j :: Eligible(req, j) && j != i ==> Ahead(req, i, j)
  }

  ghost predicate Exceeded(req: Request) {
    req.requireStable && exists j :: Common(req, j) && Rating(req, j) > Ceiling(req)
  }

  // ---------- the steps of the algorithm ----------

  lemma {:induction false} OfferNext(caps: seq<Capability>, k: nat, name: string)
    requires k < |caps|
    ensures Offer(caps[..k + 1], name) ==
            if caps[k].name == name && Usable(caps[k]) then caps[k].maxWatts else Offer(caps[..k], name)
  {
    assert caps[..k + 1][..k] == caps[..k];
  }

  ghost predicate Indexed(caps: seq<Capability>, table: map<string, Capability>) {
    && (forall name :: name in table ==> table[name].maxWatts == Offer(caps, name) > 0)
    && (forall name :: Offer(caps, name) > 0 ==> name in table)
  }

  method IndexCharger(caps: seq<Capability>) returns (charger: map<string, Capability>)
    ensures Indexed(caps, charger)
  {
    charger := map[];
    for k := 0 to |caps|
      invariant Indexed(caps[..k], charger)
    {
      ghost var before := charger;
      if caps[k].certified && caps[k].maxWatts > 0 {
        charger := charger[caps[k].name := caps[k]];
      }
      IndexedNext(caps, k, before);
    }
    assert caps[..|caps|] == caps;
  }

  lemma IndexedNext(caps: seq<Capability>, k: nat, table: map<string, Capability>)
    requires k < |caps| && Indexed(caps[..k], table)
    ensures Indexed(caps[..k + 1], if Usable(caps[k]) then table[caps[k].name := caps[k]] else table)
  {
    forall name: string
      ensures Offer(caps[..k + 1], name) ==
              if caps[k].name == name && Usable(caps[k]) then caps[k].maxWatts else Offer(caps[..k], name)
    {
      OfferNext(caps, k, name);
    }
  }

  /** The candidates are the common capabilities among the device's first n, rated, in device order. */
  ghost predicate Collected(req: Request, n: int, candidates: seq<Capability>, from: seq<int>) {
    && |candidates| == |from|
    && (forall k :: 0 <= k < |from| ==>
          Common(req, from[k]) && from[k] < n && candidates[k] == Rated(req, from[k]))
    && (forall j, k :: 0 <= j < k < |from| ==> from[j] < from[k])
    && (forall i :: 0 <= i < n && Common(req, i) ==> i in from)
  }

  method Join(req: Request, charger: map<string, Capability>)
    returns (candidates: seq<Capability>, ghost from: seq<int>)
    requires Indexed(req.charger.capabilities, charger)
    ensures Collected(req, |req.device.capabilities|, candidates, from)
    ensures forall i :: Common(req, i) ==> Rated(req, i) in candidates
    ensures forall c :: c in candidates ==> exists i :: Common(req, i) && c == Rated(req, i)
  {
    hide Offer;
    var caps := req.device.capabilities;
    candidates, from := [], [];
    for i := 0 to |caps|
      invariant Collected(req, i, candidates, from)
    {
      if caps[i].name in charger && caps[i].certified {
        var other := charger[caps[i].name];
        var candidate := caps[i];
        if other.maxWatts < candidate.maxWatts {
          candidate := candidate.(maxWatts := other.maxWatts);
        }
        candidates, from := candidates + [candidate], from + [i];
      }
    }
    CollectedExactly(req, candidates, from);
  }

  lemma CollectedExactly(req: Request, candidates: seq<Capability>, from: seq<int>)
    requires Collected(req, |req.device.capabilities|, candidates, from)
    ensures forall i :: Common(req, i) ==> Rated(req, i) in candidates
    ensures forall c :: c in candidates ==> exists i :: Common(req, i) && c == Rated(req, i)
  {
    hide Offer, Rating, Rated;
    forall i | Common(req, i)
      ensures Rated(req, i) in candidates
    {
      var k :| 0 <= k < |from| && from[k] == i;
      assert candidates[k] == Rated(req, i);
    }
  }

  predicate Descending(r: seq<Capability>, order: seq<int>)
    requires |r| == |order|
  {
    forall j, k :: 0 <= j < k < |order| ==>
      r[j].maxWatts > r[k].maxWatts || (r[j].maxWatts == r[k].maxWatts && order[j] < order[k])
  }

  lemma DescendingNext(r: seq<Capability>, order: seq<int>, i: nat, x: Capability, n: int)
    requires |r| == |order| && Descending(r, order) && i <= |r| && forall k :: 0 <= k < |order| ==> order[k] < n
    requires forall k :: 0 <= k < i ==> r[k].maxWatts >= x.maxWatts
    requires i < |r| ==> r[i].maxWatts < x.maxWatts
    ensures Descending(r[..i] + [x] + r[i..], order[..i] + [n] + order[i..])
  {
    var s, o := r[..i] + [x] + r[i..], order[..i] + [n] + order[i..];
    forall j, k | 0 <= j < k < |o|
      ensures s[j].maxWatts > s[k].maxWatts || (s[j].maxWatts == s[k].maxWatts && o[j] < o[k])
    {
      InOrderAfterInsert(r, order, i, x, n, j, k);
    }
  }

  lemma InOrderAfterInsert(r: seq<Capability>, order: seq<int>, i: nat, x: Capability, n: int, j: nat, k: nat)
    requires |r| == |order| && Descending(r, order) && i <= |r| && j < k <= |r|
    requires forall k :: 0 <= k < |order| ==> order[k] < n
    requires forall k :: 0 <= k < i ==> r[k].maxWatts >= x.maxWatts
    requires i < |r| ==> r[i].maxWatts < x.maxWatts
    ensures var s, o := r[..i] + [x] + r[i..], order[..i] + [n] + order[i..];
            s[j].maxWatts > s[k].maxWatts || (s[j].maxWatts == s[k].maxWatts && o[j] < o[k])
  {
    if j == i < k - 1 {
      assert r[i].maxWatts >= r[k - 1].maxWatts;
    }
  }

  /** order is a stable descending arrangement of the items: r[k] is items[order[k]]. */
  ghost predicate Arranged(items: seq<Capability>, r: seq<Capability>, order: seq<int>) {
    && |r| == |order|
    && (forall k :: 0 <= k < |order| ==> 0 <= order[k] < |items| && r[k] == items[order[k]])
    && Descending(r, order)
    && (forall i :: 0 <= i < |items| ==> i in order)
  }

  lemma StillIn(order: seq<int>, x: int, i: nat, m: int)
    requires i <= |order| && m in order
    ensures m in order[..i] + [x] + order[i..]
  {
    var k :| 0 <= k < |order| && order[k] == m;
    assert (order[..i] + [x] + order[i..])[if k < i then k else k + 1] == m;
  }

  lemma ArrangedNext(items: seq<Capability>, n: nat, r: seq<Capability>, order: seq<int>, i: nat)
    requires n < |items| && Arranged(items[..n], r, order) && i <= |r|
    requires forall k :: 0 <= k < i ==> r[k].maxWatts >= items[n].maxWatts
    requires i < |r| ==> r[i].maxWatts < items[n].maxWatts
    ensures Arranged(items[..n + 1], r[..i] + [items[n]] + r[i..], order[..i] + [n] + order[i..])
  {
    hide Descending;
    DescendingNext(r, order, i, items[n], n);
    var next := order[..i] + [n] + order[i..];
    assert next[i] == n;
    forall m | 0 <= m < n
      ensures m in next
    {
      assert m in order;
      StillIn(order, n, i, m);
    }
  }

  /** sort.SliceStable by descending power, as an insertion sort. */
  method SortStable(items: seq<Capability>) returns (r: seq<Capability>, ghost order: seq<int>)
    ensures Arranged(items, r, order) && |r| == |items|
  {
    hide Arranged;
    r, order := [], [];
    assert items[..0] == [];
    NothingArranged();
    for n := 0 to |items|
      invariant Arranged(items[..n], r, order) && |r| == |order| == n
    {
      var i := 0;
      while i < |r| && r[i].maxWatts >= items[n].maxWatts
        invariant 0 <= i <= |r|
        invariant forall k :: 0 <= k < i ==> r[k].maxWatts >= items[n].maxWatts
      {
        i := i + 1;
      }
      ArrangedNext(items, n, r, order, i);
      r, order := r[..i] + [items[n]] + r[i..], order[..i] + [n] + order[i..];
    }
    assert items[..|items|] == items;
  }

  lemma NothingArranged()
    ensures Arranged([], [], [])
  {
  }

  /** All common capabilities of the request, best first. */
  ghost predicate Ranked(req: Request, sorted: seq<Capability>, rank: seq<int>) {
    && |sorted| == |rank|
    && (forall k :: 0 <= k < |rank| ==>
          Common(req, rank[k]) && sorted[k] == Rated(req, rank[k]))
    && (forall j, k :: 0 <= j < k < |rank| ==> Ahead(req, rank[j], rank[k]))
    && (forall i :: Common(req, i) ==> i in rank)
  }

  lemma SortedIsRanked(req: Request, candidates: seq<Capability>, from: seq<int>, r: seq<Capability>, order: seq<int>)
      returns (rank: seq<int>)
    requires Collected(req, |req.device.capabilities|, candidates, from) && Arranged(candidates, r, order)
    ensures Ranked(req, r, rank)
  {
    hide Offer, Rating;
    rank := seq(|order|, k requires 0 <= k < |order| => from[order[k]]);
    forall i | Common(req, i)
      ensures i in rank
    {
      InRank(from, order, rank, i);
    }
  }

  lemma InRank(from: seq<int>, order: seq<int>, rank: seq<int>, i: int)
    requires i in from && forall p :: 0 <= p < |from| ==> p in order
    requires |rank| == |order| && forall k :: 0 <= k < |order| ==> 0 <= order[k] < |from| && rank[k] == from[order[k]]
    ensures i in rank
  {
    var p :| 0 <= p < |from| && from[p] == i;
    assert p in order;
    var k :| 0 <= k < |order| && order[k] == p;
    assert rank[k] == i;
  }

  /** The first entry of the ranking that is eligible is the best one. */
  lemma FirstIsBest(req: Request, sorted: seq<Capability>, rank: seq<int>, index: nat)
    requires Ranked(req, sorted, rank) && index < |rank| && Eligible(req, rank[index])
    requires forall k :: 0 <= k < index ==> !Eligible(req, rank[k])
    ensures Best(req, rank[index]) && (index > 0 <==> Exceeded(req))
  {
    hide Offer, Rating;
    if index > 0 {
      assert Ahead(req, rank[0], rank[index]) && !Eligible(req, rank[0]);
    }
    if Exceeded(req) {
      var j :| Common(req, j) && Rating(req, j) > Ceiling(req);
      var k :| 0 <= k < |rank| && rank[k] == j;
      assert k > index ==> Ahead(req, rank[index], rank[k]);
    }
    forall j | Eligible(req, j) && j != rank[index]
      ensures Ahead(req, rank[index], j)
    {
      assert j in rank;
    }
  }

  lemma NoneIsEligible(req: Request, sorted: seq<Capability>, rank: seq<int>)
    requires Ranked(req, sorted, rank) && forall k :: 0 <= k < |rank| ==> !Eligible(req, rank[k])
    ensures forall i :: !Eligible(req, i)
  {
    hide Offer, Rating;
    forall i
      ensures !Eligible(req, i)
    {
      if Common(req, i) {
        assert i in rank;
      }
    }
  }

  // ---------- the same in entries and watts ----------

  /** Device entry j and charger entry l have the same name and are both certified, the charger's has power,
      and it is the last one of the charger to be so. */
  ghost predicate Pair(req: Request, j: int, l: int) {
    && 0 <= j < |req.device.capabilities| && 0 <= l < |req.charger.capabilities|
    && req.device.capabilities[j].certified && req.charger.capabilities[l].certified
    && req.device.capabilities[j].name == req.charger.capabilities[l].name && req.charger.capabilities[l].maxWatts > 0
    && forall k :: l < k < |req.charger.capabilities| && req.charger.capabilities[k].certified
                   && req.charger.capabilities[k].name == req.charger.capabilities[l].name ==>
         req.charger.capabilities[k].maxWatts <= 0
  }

  /** Under RequireStable one of the two must not exceed the charger's first entry. */
  ghost predicate Admitted(req: Request, j: int, l: int) {
    && Pair(req, j, l)
    && (req.requireStable ==>
          || req.device.capabilities[j].maxWatts <= req.charger.capabilities[0].maxWatts
          || req.charger.capabilities[l].maxWatts <= req.charger.capabilities[0].maxWatts)
  }

  /** What the charger offers is its last usable entry. */
  lemma {:induction false} OfferIsLastUsable(caps: seq<Capability>, name: string)
    ensures Offer(caps, name) > 0 ==>
              exists l :: 0 <= l < |caps| && caps[l].name == name && caps[l].certified && caps[l].maxWatts > 0
                          && Offer(caps, name) == caps[l].maxWatts
                          && forall k :: l < k < |caps| && caps[k].certified && caps[k].name == name ==>
                               caps[k].maxWatts <= 0
    ensures forall l :: 0 <= l < |caps| && caps[l].name == name && caps[l].certified && caps[l].maxWatts > 0
                        && (forall k :: l < k < |caps| && caps[k].certified && caps[k].name == name ==>
                              caps[k].maxWatts <= 0) ==>
              Offer(caps, name) == caps[l].maxWatts
  {
    if caps != [] {
      var n := |caps| - 1;
      var front := caps[..n];
      OfferIsLastUsable(front, name);
      if Offer(front, name) > 0 {
        var l :| 0 <= l < n && front[l].name == name && front[l].certified && front[l].maxWatts > 0
                 && Offer(front, name) == front[l].maxWatts
                 && forall k :: l < k < n && front[k].certified && front[k].name == name ==> front[k].maxWatts <= 0;
        assert caps[l] == front[l] && forall k :: 0 <= k < n ==> caps[k] == front[k];
      }
      forall l | 0 <= l < |caps| && caps[l].name == name && caps[l].certified && caps[l].maxWatts > 0
                 && forall k :: l < k < |caps| && caps[k].certified && caps[k].name == name ==> caps[k].maxWatts <= 0
        ensures Offer(caps, name) == caps[l].maxWatts
      {
        if l < n {
          assert front[l] == caps[l] && forall k :: 0 <= k < n ==> caps[k] == front[k];
        }
      }
    }
  }

  /** Common capabilities are the pairs, and the rating is the smaller of the pair's. */
  lemma CommonIsPair(req: Request, j: int)
    ensures Common(req, j) <==> exists l :: Pair(req, j, l)
    ensures forall l :: Pair(req, j, l) ==>
              Offer(req.charger.capabilities, req.device.capabilities[j].name) == req.charger.capabilities[l].maxWatts
  {
    if 0 <= j < |req.device.capabilities| {
      var caps, name := req.charger.capabilities, req.device.capabilities[j].name;
      OfferIsLastUsable(caps, name);
      if Common(req, j) {
        var l :| 0 <= l < |caps| && caps[l].name == name && caps[l].certified && caps[l].maxWatts > 0
                 && Offer(caps, name) == caps[l].maxWatts
                 && forall k :: l < k < |caps| && caps[k].certified && caps[k].name == name ==> caps[k].maxWatts <= 0;
        assert Pair(req, j, l);
      }
    }
  }

  /** An agreement in entries and watts: the limits of the two entries, of the request and of the cable, if it
      has a rating, one of which it reaches; and if that is neither the request nor the cable, no admitted
      pair allows more. */
  lemma AgreementInWatts(req: Request, i: int, watts: int) returns (k: int)
    requires Best(req, i) && !Refused(req) && watts == Clamp(req, Rating(req, i))
    ensures Admitted(req, i, k)
    ensures watts <= req.device.capabilities[i].maxWatts && watts <= req.charger.capabilities[k].maxWatts
    ensures watts <= req.requestedWatts && (req.charger.cableWatts > 0 ==> watts <= req.charger.cableWatts)
    ensures || watts == req.requestedWatts || watts == req.device.capabilities[i].maxWatts
            || watts == req.charger.capabilities[k].maxWatts
            || (req.charger.cableWatts > 0 && watts == req.charger.cableWatts)
    ensures watts < req.requestedWatts && watts != req.charger.cableWatts ==>
              forall j, l :: Admitted(req, j, l) ==>
                req.device.capabilities[j].maxWatts <= watts || req.charger.capabilities[l].maxWatts <= watts
  {
    CommonIsPair(req, i);
    k :| Pair(req, i, k);
    hide Offer;
    forall j, l | Admitted(req, j, l)
      ensures req.device.capabilities[j].maxWatts <= Rating(req, i)
              || req.charger.capabilities[l].maxWatts <= Rating(req, i)
    {
      CommonIsPair(req, j);
      assert j == i || Rating(req, j) <= 0 || (Eligible(req, j) && Ahead(req, i, j));
    }
  }

  lemma NoneAdmitted(req: Request)
    requires forall i :: !Eligible(req, i)
    ensures forall j, l :: Admitted(req, j, l) ==> req.device.capabilities[j].maxWatts <= 0
  {
    forall j, l | Admitted(req, j, l)
      ensures req.device.capabilities[j].maxWatts <= 0
    {
      CommonIsPair(req, j);
      assert !Eligible(req, j);
    }
  }

  /** A fallback in entries: some pair exceeds the charger's first entry on both sides. */
  lemma ExceededInWatts(req: Request)
    requires |req.charger.capabilities| > 0
    ensures Exceeded(req) <==>
            && req.requireStable
            && exists j, l ::
                 && Pair(req, j, l)
                 && req.device.capabilities[j].maxWatts > req.charger.capabilities[0].maxWatts
                 && req.charger.capabilities[l].maxWatts > req.charger.capabilities[0].maxWatts
  {
    forall j: int
      ensures Common(req, j) && Rating(req, j) > Ceiling(req) <==>
              exists l ::
                && Pair(req, j, l)
                && req.device.capabilities[j].maxWatts > req.charger.capabilities[0].maxWatts
                && req.charger.capabilities[l].maxWatts > req.charger.capabilities[0].maxWatts
    {
      CommonIsPair(req, j);
      hide Offer;
    }
    hide Common, Rating, Pair;
  }

  class Negotiator {
    var minimumVoltage: int
    var maximumVoltage: int

    ghost predicate Valid()
      reads this
    {
      0 < minimumVoltage <= maximumVoltage
    }

    constructor Range(minimumVoltage: int, maximumVoltage: int)
      ensures this.minimumVoltage == minimumVoltage && this.maximumVoltage == maximumVoltage
    {
      this.minimumVoltage, this.maximumVoltage := minimumVoltage, maximumVoltage;
    }

    static method New(minimumVoltage: int, maximumVoltage: int) returns (n: Negotiator?)
      ensures n != null <==> 0 < minimumVoltage <= maximumVoltage
      ensures n != null ==>
                fresh(n) && n.Valid() && n.minimumVoltage == minimumVoltage && n.maximumVoltage == maximumVoltage
    {
      if minimumVoltage <= 0 || maximumVoltage < minimumVoltage {
        return null;
      }
      n := new Negotiator.Range(minimumVoltage, maximumVoltage);
    }

    /** An agreement is reached exactly when some common capability is eligible, and then on the best one. */
    method Negotiate(req: Request, canceled: bool) returns (r: Outcome)
      requires Valid()
      ensures canceled <==> r == Err(Canceled)
      ensures r == Err(Unsafe) <==>
              && !canceled
              && (req.device.id == "" || req.charger.id == "" || req.requestedWatts <= 0
                  || req.device.temperatureC >= 48.0 || req.charger.temperatureC >= 55.0)
      ensures r == Err(NoCommonProtocol) <==> !canceled && !Refused(req) && forall i :: !Eligible(req, i)
      ensures r.Ok? ==> r.value.voltage == minimumVoltage && (r.value.fallback <==> Exceeded(req))
      ensures r.Ok? ==> Reached(req, r.value.protocol, r.value.watts)
      ensures r == Err(NoCommonProtocol) ==>
                forall j, l :: Admitted(req, j, l) ==> req.device.capabilities[j].maxWatts <= 0
      ensures r.Ok? ==>
                && 0 < r.value.watts <= req.requestedWatts
                && (req.charger.cableWatts > 0 ==> r.value.watts <= req.charger.cableWatts)
                && exists i, k ::
                     && Admitted(req, i, k) && req.device.capabilities[i].name == r.value.protocol
                     && r.value.watts <= req.device.capabilities[i].maxWatts
                     && r.value.watts <= req.charger.capabilities[k].maxWatts
                     && (r.value.watts == req.requestedWatts || r.value.watts == req.charger.cableWatts
                         || r.value.watts == req.device.capabilities[i].maxWatts
                         || r.value.watts == req.charger.capabilities[k].maxWatts)
      ensures r.Ok? && r.value.watts < req.requestedWatts && r.value.watts != req.charger.cableWatts ==>
                forall j, l :: Admitted(req, j, l) ==>
                  || req.device.capabilities[j].maxWatts <= r.value.watts
                  || req.charger.capabilities[l].maxWatts <= r.value.watts
      ensures r.Ok? ==> (r.value.fallback <==>
                         && req.requireStable
                         && exists j, l ::
                              && Pair(req, j, l)
                              && req.device.capabilities[j].maxWatts > req.charger.capabilities[0].maxWatts
                              && req.charger.capabilities[l].maxWatts > req.charger.capabilities[0].maxWatts)
    {
      hide Offer, Rating, Indexed, Collected, Arranged, Best, Exceeded, Pair, Reached;
      if canceled {
        return Err(Canceled);
      }
      if req.device.id == "" || req.charger.id == "" || req.requestedWatts <= 0 {
        return Err(Unsafe);
      }
      if req.device.temperatureC >= 48.0 || req.charger.temperatureC >= 55.0 {
        return Err(Unsafe);
      }
      var charger := IndexCharger(req.charger.capabilities);
      var candidates, from := Join(req, charger);
      var sorted, order := SortStable(candidates);
      ghost var rank := SortedIsRanked(req, candidates, from, sorted, order);
      if |candidates| == 0 {
        NoneIsEligible(req, sorted, rank);
        NoneAdmitted(req);
        return Err(NoCommonProtocol);
      }
      FirstCapabilityExists(req, rank[0]);
      for index := 0 to |sorted|
        invariant forall k :: 0 <= k < index ==> !Eligible(req, rank[k])
      {
        var cap := sorted[index];
        if cap.maxWatts > req.charger.capabilities[0].maxWatts && req.requireStable {
          continue;
        }
        var watts := req.requestedWatts;
        if watts > cap.maxWatts {
          watts := cap.maxWatts;
        }
        if req.charger.cableWatts > 0 && watts > req.charger.cableWatts {
          watts := req.charger.cableWatts;
        }
        if watts <= 0 {
          continue;
        }
        var voltage := minimumVoltage;
        if voltage > maximumVoltage {
          voltage := maximumVoltage;
        }
        FirstIsBest(req, sorted, rank, index);
        ReachedBy(req, rank[index], cap.name, watts);
        ghost var k := AgreementInWatts(req, rank[index], watts);
        ExceededInWatts(req);
        return Ok(Agreement(cap.name, watts, voltage, index > 0));
      }
      NoneIsEligible(req, sorted, rank);
      NoneAdmitted(req);
      return Err(NoCommonProtocol);
    }
  }

  /** A common capability needs a charger capability, so indexing the first one is in bounds. */
  lemma FirstCapabilityExists(req: Request, i: int)
    requires Common(req, i)
    ensures |req.charger.capabilities| > 0
  {
  }

  /** The protocol and the power of the best eligible capability. */
  ghost predicate Reached(req: Request, protocol: string, watts: int) {
    exists i :: Best(req, i) && protocol == req.device.capabilities[i].name && watts == Clamp(req, Rating(req, i))
  }

  lemma ReachedBy(req: Request, i: int, protocol: string, watts: int)
    requires Best(req, i) && protocol == req.device.capabilities[i].name && watts == Clamp(req, Rating(req, i))
    ensures Reached(req, protocol, watts)
  {
  }

  // ---------- how good the agreement is ----------

  /** Optimality: no eligible capability gives more power, none of the same rating comes earlier on the
      device, and there is no other best one. Without RequireStable that ranges over all common
      capabilities with a positive rating, and nothing is a fallback. */
  lemma AgreementIsOptimal(req: Request, i: int)
    requires Best(req, i) && !Refused(req)
    ensures Clamp(req, Rating(req, i)) > 0
    ensures forall j :: Eligible(req, j) ==>
              && Clamp(req, Rating(req, j)) <= Clamp(req, Rating(req, i))
              && (Rating(req, j) == Rating(req, i) ==> i <= j)
              && (Best(req, j) ==> j == i)
    ensures !req.requireStable ==>
              && !Exceeded(req)
              && forall j :: Common(req, j) ==> Clamp(req, Rating(req, j)) <= Clamp(req, Rating(req, i))
  {
    hide Offer, Rating;
    forall j | Common(req, j) && (Eligible(req, j) || !req.requireStable)
      ensures Clamp(req, Rating(req, j)) <= Clamp(req, Rating(req, i))
    {
      assert j == i || Rating(req, j) <= 0 || Ahead(req, i, j);
    }
  }

  /** Under RequireStable a fallback is exactly an agreement that passed over a stronger capability. */
  lemma StableAgreementStaysBelowCeiling(req: Request, i: int)
    requires Best(req, i) && req.requireStable
    ensures Rating(req, i) <= Ceiling(req) == req.charger.capabilities[0].maxWatts
    ensures Exceeded(req) <==> exists j :: Common(req, j) && Rating(req, j) > Ceiling(req) && Ahead(req, j, i)
  {
    hide Offer, Rating;
    if Exceeded(req) {
      var j :| Common(req, j) && Rating(req, j) > Ceiling(req);
      assert Ahead(req, j, i);
    }
  }

  /** For each name the last usable entry of the charger is also its strongest. */
  predicate LastIsStrongest(caps: seq<Capability>) {
    forall k :: 0 <= k < |caps| && Usable(caps[k]) ==> caps[k].maxWatts <= Offer(caps, caps[k].name)
  }

  /** No certified pair of a device and a charger entry of the same name allows more power. */
  ghost predicate BeatsEveryPair(req: Request, watts: int) {
    forall j, k :: 0 <= j < |req.device.capabilities| && 0 <= k < |req.charger.capabilities| ==>
      req.device.capabilities[j].certified && Usable(req.charger.capabilities[k])
      && req.device.capabilities[j].name == req.charger.capabilities[k].name ==>
        Clamp(req, Min(req.device.capabilities[j].maxWatts, req.charger.capabilities[k].maxWatts)) <= watts
  }

  lemma {:induction false} UsableIsOffered(caps: seq<Capability>, k: nat)
    requires k < |caps| && Usable(caps[k])
    ensures Offer(caps, caps[k].name) > 0
  {
    if k < |caps| - 1 {
      UsableIsOffered(caps[..|caps| - 1], k);
    }
  }

  ghost predicate PairwiseOptimal(req: Request) {
    !req.requireStable && !Refused(req) ==> forall i :: Best(req, i) ==> BeatsEveryPair(req, Clamp(req, Rating(req, i)))
  }

  /** A charger may list a name twice, and only its last entry is used: agreements with it reach the
      most that any pair of entries allows, whatever the device, exactly when the last entries are the
      strongest. */
  lemma PairwiseOptimalExactly(caps: seq<Capability>)
    ensures LastIsStrongest(caps) <==>
            forall req: Request :: req.charger.capabilities == caps ==> PairwiseOptimal(req)
  {
    if LastIsStrongest(caps) {
      forall req: Request | req.charger.capabilities == caps && !req.requireStable && !Refused(req)
        ensures PairwiseOptimal(req)
      {
        forall i | Best(req, i)
          ensures BeatsEveryPair(req, Clamp(req, Rating(req, i)))
        {
          BestBeatsEveryPair(req, i);
        }
      }
    } else {
      var k :| 0 <= k < |caps| && Usable(caps[k]) && caps[k].maxWatts > Offer(caps, caps[k].name);
      var req := WeakLastEntryLosesPower(caps, k);
    }
  }

  lemma BestBeatsEveryPair(req: Request, i: int)
    requires LastIsStrongest(req.charger.capabilities) && !req.requireStable && !Refused(req) && Best(req, i)
    ensures BeatsEveryPair(req, Clamp(req, Rating(req, i)))
  {
    hide Offer;
    AgreementIsOptimal(req, i);
    var device, charger := req.device.capabilities, req.charger.capabilities;
    forall j, k | 0 <= j < |device| && 0 <= k < |charger|
                  && device[j].certified && Usable(charger[k]) && device[j].name == charger[k].name
      ensures Clamp(req, Min(device[j].maxWatts, charger[k].maxWatts)) <= Clamp(req, Rating(req, i))
    {
      UsableIsOffered(charger, k);
      assert Common(req, j);
    }
  }

  lemma WeakLastEntryLosesPower(caps: seq<Capability>, k: nat) returns (req: Request)
    requires k < |caps| && Usable(caps[k]) && caps[k].maxWatts > Offer(caps, caps[k].name)
    ensures req.charger.capabilities == caps && !PairwiseOptimal(req)
  {
    hide Offer;
    UsableIsOffered(caps, k);
    var device := Endpoint("device", [Capability(caps[k].name, caps[k].maxWatts, 5, 20, true)], "", 0, 20.0);
    req := Request(device, Endpoint("charger", caps, "", 0, 20.0), caps[k].maxWatts, false);
    assert Best(req, 0);
    var watts := Clamp(req, Rating(req, 0));
    assert req.device.capabilities[0].name == req.charger.capabilities[k].name;
    assert !BeatsEveryPair(req, watts);
  }
}

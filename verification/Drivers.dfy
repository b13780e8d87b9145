/** Which sources drive a power rail: a breadth-first walk from the rail through everything but sources and ground. */
module Drivers {
  import opened Optional

  datatype Net = Net(id: string, isGround: bool, isPower: bool)

  datatype Part = Part(kind: string, designator: string, value: string, pins: seq<string>)

  datatype Circuit = Circuit(parts: seq<Part>, nets: seq<Net>)

  /** The steady magnitude of a source value, if it has one. */
  type Magnitude = string -> Option<real>

  predicate IsGround(c: Circuit, net: string) {
    exists i | 0 <= i < |c.nets| :: c.nets[i].isGround && c.nets[i].id == net
  }

  /** A named voltage source with a non-zero steady value. */
  ghost predicate Supplies(p: Part, dc: Magnitude) {
    p.kind == "voltage_source" && p.designator != "" && dc(p.value).Some? && dc(p.value).value > 0.0
  }

  // ------------------------------------------------------------------------------------------------------
  // Reaching
  // ------------------------------------------------------------------------------------------------------

  /** One part that is no source joins `a` to `b`. */
  ghost predicate Through(p: Part, a: string, b: string) {
    p.kind != "voltage_source" && a in p.pins && b in p.pins
  }

  ghost predicate Hop(c: Circuit, a: string, b: string) {
    !IsGround(c, b) && exists i :: 0 <= i < |c.parts| && Through(c.parts[i], a, b)
  }

  ghost predicate Path(c: Circuit, p: seq<string>, start: string, net: string) {
    && p != [] && p[0] == start && p[|p| - 1] == net
    && forall i, next :: 0 <= i && next == i + 1 && next < |p| ==> Hop(c, p[i], p[next])
  }

  /** `net` is joined to `start` through parts that are no sources, never by way of ground. */
  ghost predicate Reachable(c: Circuit, start: string, net: string) {
    exists p :: Path(c, p, start, net)
  }

  lemma ReachFurther(c: Circuit, start: string, a: string, b: string)
    requires Reachable(c, start, a) && Hop(c, a, b)
    ensures Reachable(c, start, b)
  {
    var p :| Path(c, p, start, a);
    var q := p + [b];
    forall i, next | 0 <= i && next == i + 1 && next < |q|
      ensures Hop(c, q[i], q[next])
    {
      if next < |p| {
        assert q[i] == p[i] && q[next] == p[next];
        assert Hop(c, p[i], p[next]);
      }
    }
    assert Path(c, q, start, b);
  }

  // ------------------------------------------------------------------------------------------------------
  // The walk
  // ------------------------------------------------------------------------------------------------------

  class RailWalk {
    var visited: set<string>
    var queue: seq<string>
    var drivers: seq<Part>
    var seen: set<string>

    constructor (visited: set<string>, start: string)
      ensures this.visited == visited && queue == [start] && drivers == [] && seen == {}
    {
      this.visited, queue, drivers, seen := visited, [start], [], {};
    }
  }

  /** The sources listed are sources of the given nets, one per designator, and every such source's designator is
      listed. */
  ghost predicate Gathered(c: Circuit, dc: Magnitude, nets: set<string>, drivers: seq<Part>, seen: set<string>) {
    && (forall d :: 0 <= d < |drivers| ==>
        drivers[d] in c.parts && Supplies(drivers[d], dc) && Touches(drivers[d], nets))
    && (forall d :: 0 <= d < |drivers| ==> drivers[d].designator in seen)
    && (forall s :: s in seen ==> exists d :: 0 <= d < |drivers| && drivers[d].designator == s)
    && (forall d, e :: 0 <= d < e < |drivers| ==> drivers[d].designator != drivers[e].designator)
  }

  ghost predicate Touches(p: Part, nets: set<string>) {
    exists n :: n in nets && n in p.pins
  }

  /** Every source of `nets` among the first `k` parts has its designator listed. */
  ghost predicate AllSeen(c: Circuit, dc: Magnitude, k: nat, nets: set<string>, seen: set<string>)
    requires k <= |c.parts|
  {
    forall i :: 0 <= i < k && Supplies(c.parts[i], dc) && Touches(c.parts[i], nets) ==> c.parts[i].designator in seen
  }

  ghost predicate Frontier(c: Circuit, start: string, visited: set<string>, queue: seq<string>, done: set<string>) {
    && (forall n :: n in done || n in queue ==> Reachable(c, start, n))
    && (forall n :: IsGround(c, n) ==> n in visited)
    && (forall n :: n in visited ==> IsGround(c, n) || n in done || n in queue)
    && (start in done || start in queue)
    && done <= visited && (forall n :: n in queue ==> n in visited && n !in done)
    && (forall i, j :: 0 <= i < j < |queue| ==> queue[i] != queue[j])
  }

  /** The nets one hop from `net` through the first `k` parts have been visited. */
  ghost predicate Expanded(c: Circuit, k: nat, net: string, visited: set<string>)
    requires k <= |c.parts|
  {
    forall i, b :: 0 <= i < k && Through(c.parts[i], net, b) ==> b in visited
  }

  ghost predicate AllExpanded(c: Circuit, done: set<string>, visited: set<string>) {
    forall n :: n in done ==> Expanded(c, |c.parts|, n, visited)
  }

  ghost function PinNets(c: Circuit): set<string> {
    set i, j | 0 <= i < |c.parts| && 0 <= j < |c.parts[i].pins| :: c.parts[i].pins[j]
  }

  lemma GatheredMore(c: Circuit, dc: Magnitude, nets: set<string>, net: string, drivers: seq<Part>, seen: set<string>,
                     p: Part)
    requires Gathered(c, dc, nets, drivers, seen) && net in nets
    requires p in c.parts && Supplies(p, dc) && net in p.pins && p.designator !in seen
    ensures Gathered(c, dc, nets, drivers + [p], seen + {p.designator})
  {
    var more := drivers + [p];
    assert more[|drivers|] == p;
    forall s | s in seen + {p.designator}
      ensures exists d :: 0 <= d < |more| && more[d].designator == s
    {
      if s in seen {
        var d :| 0 <= d < |drivers| && drivers[d].designator == s;
        assert more[d].designator == s;
      }
    }
  }

  /** Take every part touching `net`: collect a source, else enqueue the nets behind it. */
  method WalkNetForDrivers(c: Circuit, dc: Magnitude, net: string, w: RailWalk, ghost start: string,
                           ghost done: set<string>)
    requires Frontier(c, start, w.visited, w.queue, done) && net in done && net !in w.queue
    requires AllExpanded(c, done - {net}, w.visited)
    requires Gathered(c, dc, done, w.drivers, w.seen) && AllSeen(c, dc, |c.parts|, done - {net}, w.seen)
    modifies w
    ensures Frontier(c, start, w.visited, w.queue, done) && AllExpanded(c, done, w.visited)
    ensures Gathered(c, dc, done, w.drivers, w.seen) && AllSeen(c, dc, |c.parts|, done, w.seen)
    ensures old(w.visited) <= w.visited
    ensures PinNets(c) - w.visited < PinNets(c) - old(w.visited) || w.queue == old(w.queue)
  {
    hide Frontier, Gathered;
    for k := 0 to |c.parts|
      invariant Frontier(c, start, w.visited, w.queue, done) && old(w.visited) <= w.visited && old(w.seen) <= w.seen
      invariant Expanded(c, k, net, w.visited)
      invariant Gathered(c, dc, done, w.drivers, w.seen) && AllSeen(c, dc, k, {net}, w.seen)
      invariant || PinNets(c) - w.visited < PinNets(c) - old(w.visited)
                || (w.queue == old(w.queue) && w.visited == old(w.visited))
    {
      var p := c.parts[k];
      if net !in p.pins {
        continue;
      }
      if p.kind == "voltage_source" {
        var mag := dc(p.value);
        if mag.Some? && mag.value > 0.0 && p.designator != "" && p.designator !in w.seen {
          GatheredMore(c, dc, done, net, w.drivers, w.seen, p);
          w.seen := w.seen + {p.designator};
          w.drivers := w.drivers + [p];
        }
        continue;
      }
      EnqueuePins(c, k, net, w, start, done);
    }
    SeenAll(c, dc, net, done, old(w.seen), w.seen);
    ExpandedAll(c, net, done, old(w.visited), w.visited);
  }

  lemma ExpandedAll(c: Circuit, net: string, done: set<string>, before: set<string>, visited: set<string>)
    requires AllExpanded(c, done - {net}, before) && before <= visited && Expanded(c, |c.parts|, net, visited)
    ensures AllExpanded(c, done, visited)
  {
    forall n | n in done
      ensures Expanded(c, |c.parts|, n, visited)
    {
      if n != net {
        assert Expanded(c, |c.parts|, n, before);
      }
    }
  }

  lemma SeenAll(c: Circuit, dc: Magnitude, net: string, done: set<string>, before: set<string>, seen: set<string>)
    requires AllSeen(c, dc, |c.parts|, done - {net}, before) && before <= seen && AllSeen(c, dc, |c.parts|, {net}, seen)
    ensures AllSeen(c, dc, |c.parts|, done, seen)
  {
    hide Supplies;
    forall i | 0 <= i < |c.parts| && Supplies(c.parts[i], dc) && Touches(c.parts[i], done)
      ensures c.parts[i].designator in seen
    {
      var n :| n in done && n in c.parts[i].pins;
      if n == net {
        assert Touches(c.parts[i], {net});
      } else {
        assert Touches(c.parts[i], done - {net});
      }
    }
  }

  method EnqueuePins(c: Circuit, k: nat, net: string, w: RailWalk, ghost start: string, ghost done: set<string>)
    requires k < |c.parts| && c.parts[k].kind != "voltage_source" && net in c.parts[k].pins
    requires Frontier(c, start, w.visited, w.queue, done) && net in done
    modifies w`visited, w`queue
    ensures Frontier(c, start, w.visited, w.queue, done) && old(w.visited) <= w.visited
    ensures forall j :: 0 <= j < |c.parts[k].pins| ==> c.parts[k].pins[j] in w.visited
    ensures || PinNets(c) - w.visited < PinNets(c) - old(w.visited)
            || (w.queue == old(w.queue) && w.visited == old(w.visited))
  {
    hide Frontier;
    var p := c.parts[k];
    for j := 0 to |p.pins|
      invariant Frontier(c, start, w.visited, w.queue, done) && old(w.visited) <= w.visited
      invariant forall i :: 0 <= i < j ==> p.pins[i] in w.visited
      invariant || PinNets(c) - w.visited < PinNets(c) - old(w.visited)
                || (w.queue == old(w.queue) && w.visited == old(w.visited))
    {
      var pin := p.pins[j];
      if pin !in w.visited {
        FrontierGrows(c, k, net, start, w.visited, w.queue, done, pin);
        assert pin in PinNets(c);
        w.visited := w.visited + {pin};
        w.queue := w.queue + [pin];
      }
    }
  }

  lemma FrontierGrows(c: Circuit, k: nat, net: string, start: string, visited: set<string>, queue: seq<string>,
                      done: set<string>, pin: string)
    requires k < |c.parts| && c.parts[k].kind != "voltage_source" && net in c.parts[k].pins && pin in c.parts[k].pins
    requires Frontier(c, start, visited, queue, done) && net in done && pin !in visited
    ensures Frontier(c, start, visited + {pin}, queue + [pin], done)
  {
    hide Reachable, IsGround;
    assert Through(c.parts[k], net, pin);
    assert Hop(c, net, pin);
    ReachFurther(c, start, net, pin);
    assert forall n :: n in queue + [pin] <==> n in queue || n == pin;
    assert forall i :: 0 <= i < |queue| ==> queue[i] in queue;
  }

  /** None waits and everything done is expanded, so everything reachable is done. */
  lemma {:induction false} AllReached(c: Circuit, start: string, visited: set<string>, done: set<string>,
                                      p: seq<string>, net: string)
    requires Frontier(c, start, visited, [], done) && AllExpanded(c, done, visited) && Path(c, p, start, net)
    ensures net in done
    decreases |p|
  {
    if |p| > 1 {
      var last := |p| - 1;
      var q := p[..last];
      assert Path(c, q, start, p[last - 1]) by {
        assert forall i, next :: 0 <= i && next == i + 1 && next < |q| ==>
          Hop(c, p[i], p[next]) && q[i] == p[i] && q[next] == p[next];
      }
      AllReached(c, start, visited, done, q, p[last - 1]);
      assert Hop(c, p[last - 1], p[last]);
      assert Expanded(c, |c.parts|, p[last - 1], visited);
    }
  }

  /** Exactly the sources of the reachable nets, once per designator. */
  ghost predicate AreDrivers(c: Circuit, dc: Magnitude, start: string, drivers: seq<Part>) {
    && (forall d :: 0 <= d < |drivers| ==>
        drivers[d] in c.parts && Supplies(drivers[d], dc) && Drives(c, start, drivers[d]))
    && (forall d, e :: 0 <= d < e < |drivers| ==> drivers[d].designator != drivers[e].designator)
    && (forall i :: 0 <= i < |c.parts| && Supplies(c.parts[i], dc) && Drives(c, start, c.parts[i]) ==>
         exists d :: 0 <= d < |drivers| && drivers[d].designator == c.parts[i].designator)
  }

  ghost predicate Drives(c: Circuit, start: string, p: Part) {
    exists n :: n in p.pins && Reachable(c, start, n)
  }

  method DriversOf(c: Circuit, dc: Magnitude, netId: string) returns (drivers: seq<Part>)
    ensures AreDrivers(c, dc, netId, drivers)
  {
    hide Gathered, Supplies, Reachable, IsGround;
    var gnd := set i | 0 <= i < |c.nets| && c.nets[i].isGround :: c.nets[i].id;
    var w := new RailWalk({netId} + gnd, netId);
    ghost var done: set<string> := {};
    StartsAt(c, dc, netId, gnd);
    ghost var todo := PinNets(c) - w.visited;
    while w.queue != []
      invariant Frontier(c, netId, w.visited, w.queue, done) && AllExpanded(c, done, w.visited)
      invariant Gathered(c, dc, done, w.drivers, w.seen) && AllSeen(c, dc, |c.parts|, done, w.seen)
      invariant todo == PinNets(c) - w.visited
      decreases todo, |w.queue|
    {
      var net := w.queue[0];
      Shift(c, netId, w.visited, w.queue, done);
      w.queue := w.queue[1..];
      MoreNets(c, dc, done, net, w.drivers, w.seen);
      assert done + {net} - {net} == done;
      done := done + {net};
      WalkNetForDrivers(c, dc, net, w, netId, done);
      todo := PinNets(c) - w.visited;
    }
    drivers := w.drivers;
    TheyDrive(c, dc, netId, w.visited, done, w.drivers, w.seen);
  }

  lemma StartsAt(c: Circuit, dc: Magnitude, start: string, gnd: set<string>)
    requires gnd == set i | 0 <= i < |c.nets| && c.nets[i].isGround :: c.nets[i].id
    ensures Frontier(c, start, {start} + gnd, [start], {}) && AllExpanded(c, {}, {start} + gnd)
    ensures Gathered(c, dc, {}, [], {}) && AllSeen(c, dc, |c.parts|, {}, {})
  {
    assert Path(c, [start], start, start);
  }

  /** Taking the first net off the queue puts it among the done. */
  lemma Shift(c: Circuit, start: string, visited: set<string>, queue: seq<string>, done: set<string>)
    requires Frontier(c, start, visited, queue, done) && queue != []
    ensures Frontier(c, start, visited, queue[1..], done + {queue[0]}) && queue[0] !in queue[1..] && queue[0] !in done
  {
    hide Reachable, IsGround;
    assert forall n :: n in queue <==> n == queue[0] || n in queue[1..];
  }

  lemma MoreNets(c: Circuit, dc: Magnitude, done: set<string>, net: string, drivers: seq<Part>, seen: set<string>)
    requires Gathered(c, dc, done, drivers, seen)
    ensures Gathered(c, dc, done + {net}, drivers, seen)
  {
    hide Supplies;
    forall d | 0 <= d < |drivers|
      ensures Touches(drivers[d], done + {net})
    {
      var n :| n in done && n in drivers[d].pins;
      assert n in done + {net};
    }
  }

  lemma TheyDrive(c: Circuit, dc: Magnitude, start: string, visited: set<string>, done: set<string>,
                  drivers: seq<Part>, seen: set<string>)
    requires Frontier(c, start, visited, [], done) && AllExpanded(c, done, visited)
    requires Gathered(c, dc, done, drivers, seen) && AllSeen(c, dc, |c.parts|, done, seen)
    ensures AreDrivers(c, dc, start, drivers)
  {
    forall net | Reachable(c, start, net)
      ensures net in done
    {
      var p :| Path(c, p, start, net);
      AllReached(c, start, visited, done, p, net);
    }
    hide Supplies, Reachable, IsGround, AllExpanded;
    forall d | 0 <= d < |drivers|
      ensures Drives(c, start, drivers[d])
    {
      var n :| n in done && n in drivers[d].pins;
      assert Reachable(c, start, n);
    }
    forall i | 0 <= i < |c.parts| && Supplies(c.parts[i], dc) && Drives(c, start, c.parts[i])
      ensures Touches(c.parts[i], done)
    {
      var n :| n in c.parts[i].pins && Reachable(c, start, n);
    }
  }

  // ------------------------------------------------------------------------------------------------------
  // Rails
  // ------------------------------------------------------------------------------------------------------

  datatype Deferral = AlsoGround | Undriven | Ambiguous

  datatype RailStatus = Trusted(driver: string) | Deferred(why: Deferral)

  datatype RailValidation = RailValidation(netId: string, status: RailStatus)

  /** `d` names a source that drives `net`. */
  ghost predicate IsDriver(c: Circuit, dc: Magnitude, net: string, d: string) {
    exists i ::
      0 <= i < |c.parts| && Supplies(c.parts[i], dc) && Drives(c, net, c.parts[i]) && c.parts[i].designator == d
  }

  /** Trusted exactly when the net is not also ground and one designator, the one named, drives it. */
  ghost predicate Judged(c: Circuit, dc: Magnitude, n: Net, v: RailValidation) {
    && v.netId == n.id
    && match v.status
       case Trusted(driver) => !n.isGround && forall d :: IsDriver(c, dc, n.id, d) <==> d == driver
       case Deferred(AlsoGround) => n.isGround
       case Deferred(Undriven) => !n.isGround && forall d :: !IsDriver(c, dc, n.id, d)
       case Deferred(Ambiguous) => !n.isGround && exists d, e ::
         d != e && IsDriver(c, dc, n.id, d) && IsDriver(c, dc, n.id, e)
  }

  lemma NamedByDrivers(c: Circuit, dc: Magnitude, net: string, drivers: seq<Part>, d: string)
    requires AreDrivers(c, dc, net, drivers)
    ensures IsDriver(c, dc, net, d) <==> exists i :: 0 <= i < |drivers| && drivers[i].designator == d
  {
    hide Supplies, Drives;
    if IsDriver(c, dc, net, d) {
      var i :| 0 <= i < |c.parts| && Supplies(c.parts[i], dc) && Drives(c, net, c.parts[i])
        && c.parts[i].designator == d;
    }
    if i :| 0 <= i < |drivers| && drivers[i].designator == d {
      var k :| 0 <= k < |c.parts| && c.parts[k] == drivers[i];
    }
  }

  method ValidateRail(c: Circuit, dc: Magnitude, n: Net) returns (v: RailValidation)
    ensures Judged(c, dc, n, v)
  {
    hide AreDrivers, IsDriver;
    if n.isGround {
      return RailValidation(n.id, Deferred(AlsoGround));
    }
    var drivers := DriversOf(c, dc, n.id);
    forall d
      ensures IsDriver(c, dc, n.id, d) <==> exists i :: 0 <= i < |drivers| && drivers[i].designator == d
    {
      NamedByDrivers(c, dc, n.id, drivers, d);
    }
    if |drivers| == 0 {
      return RailValidation(n.id, Deferred(Undriven));
    }
    if |drivers| > 1 {
      assert drivers[0].designator != drivers[1].designator by {
        DistinctNames(c, dc, n.id, drivers);
      }
      assert IsDriver(c, dc, n.id, drivers[0].designator) && IsDriver(c, dc, n.id, drivers[1].designator);
      return RailValidation(n.id, Deferred(Ambiguous));
    }
    return RailValidation(n.id, Trusted(drivers[0].designator));
  }

  lemma DistinctNames(c: Circuit, dc: Magnitude, net: string, drivers: seq<Part>)
    requires AreDrivers(c, dc, net, drivers)
    ensures forall d, e :: 0 <= d < e < |drivers| ==> drivers[d].designator != drivers[e].designator
  {
  }

  /** The power nets among the first `k`, in order. */
  ghost function PowerNets(c: Circuit, k: nat): seq<Net>
    requires k <= |c.nets|
  {
    if k == 0 then [] else PowerNets(c, k - 1) + if c.nets[k - 1].isPower then [c.nets[k - 1]] else []
  }

  method ValidatePowerRails(c: Circuit, dc: Magnitude) returns (rails: seq<RailValidation>)
    ensures var P := PowerNets(c, |c.nets|);
            |rails| == |P| && forall i :: 0 <= i < |P| ==> Judged(c, dc, P[i], rails[i])
  {
    hide Judged;
    rails := [];
    for k := 0 to |c.nets|
      invariant var P := PowerNets(c, k); |rails| == |P| && forall i :: 0 <= i < |P| ==> Judged(c, dc, P[i], rails[i])
    {
      if c.nets[k].isPower {
        var v := ValidateRail(c, dc, c.nets[k]);
        rails := rails + [v];
      }
    }
  }
}

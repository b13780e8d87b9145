/** Currents as series of frames, per pad and per edge, and the balance they leave at a node. */
module Series {
  import opened Optional
  import opened Graph
  import opened Kirchhoff

  /** One value per frame. */
  type Series = seq<real>

  /** What each node's pads inject; `None` when the simulator cannot say. */
  type PadCurrents = map<nat, Option<Series>>

  ghost predicate ValidPads(pads: PadCurrents, frames: nat) {
    forall v :: v in pads && pads[v].Some? ==> |pads[v].value| == frames
  }

  ghost function PadAt(pads: PadCurrents, v: nat, f: nat): real {
    if v in pads && pads[v].Some? && f < |pads[v].value| then pads[v].value[f] else 0.0
  }

  /** The injections of one frame, node by node. */
  ghost function PadsOf(pads: PadCurrents, n: nat, f: nat): (g: seq<real>)
    ensures |g| == n && forall v :: 0 <= v < n ==> g[v] == PadAt(pads, v, f)
  {
    seq(n, v requires 0 <= v < n => PadAt(pads, v, f))
  }

  ghost predicate ValidRows(rows: seq<Option<Series>>, frames: nat) {
    forall e :: 0 <= e < |rows| && rows[e].Some? ==> |rows[e].value| == frames
  }

  /** The flow of one frame; an edge without a value carries nothing. */
  ghost function FlowAt(rows: seq<Option<Series>>, f: nat): (phi: seq<real>)
    ensures |phi| == |rows|
    ensures forall e :: 0 <= e < |rows| ==>
      phi[e] == if rows[e].Some? && f < |rows[e].value| then rows[e].value[f] else 0.0
  {
    seq(|rows|, e requires 0 <= e < |rows| =>
      if rows[e].Some? && f < |rows[e].value| then rows[e].value[f] else 0.0)
  }

  ghost function NetAt(es: seq<Edge>, rows: seq<Option<Series>>, f: nat, v: nat): real
    requires |rows| == |es|
  {
    Net(es, FlowAt(rows, f), v, |es|)
  }

  function Zero(frames: nat): (z: Series)
    ensures |z| == frames && forall f :: 0 <= f < frames ==> z[f] == 0.0
  {
    seq(frames, _ => 0.0)
  }

  function Plus(x: Series, y: Series): (z: Series)
    requires |x| == |y|
    ensures |z| == |x| && forall f :: 0 <= f < |x| ==> z[f] == x[f] + y[f]
  {
    seq(|x|, f requires 0 <= f < |x| => x[f] + y[f])
  }

  function Scaled(s: real, x: Series): (z: Series)
    ensures |z| == |x| && forall f :: 0 <= f < |x| ==> z[f] == s * x[f]
  {
    seq(|x|, f requires 0 <= f < |x| => s * x[f])
  }

  function OrZero(x: Option<Series>, frames: nat): Series {
    if x.Some? then x.value else Zero(frames)
  }

  /** Giving one valueless edge a value changes each node's balance by that edge alone. */
  lemma NetAfterEdge(es: seq<Edge>, rows: seq<Option<Series>>, e: nat, row: Series, f: nat, v: nat, k: nat)
    requires k <= |es| == |rows| && e < |es| && rows[e] == None && f < |row|
    ensures Net(es, FlowAt(rows[e := Some(row)], f), v, k)
         == Net(es, FlowAt(rows, f), v, k) + if e < k then Leaving(es[e], row[f], v) else 0.0
  {
    if k > 0 {
      NetAfterEdge(es, rows, e, row, f, v, k - 1);
    }
  }
}

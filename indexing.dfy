/**
 * Vertex numbering. Edges are always stored and sent zero-based; the user
 * types and reads them either zero-based or one-based (App.jsx, the
 * storage step of `parseEdgesForBackend` and `mstEdgesDisplay`).
 */
module Indexing {
  import opened Wrappers

  /** The `indexing` setting: `"zero"`, or anything else, which the form treats as one-based. */
  datatype Mode = Zero | One

  /** `{u, v, weight}`. The form only checks that the numbers are not NaN and lie in range,
      so the endpoints are numbers, not necessarily integers. */
  datatype Edge = Edge(u: real, v: real, weight: real)

  /** Smallest and largest vertex number the form accepts, as written in its range message. */
  function LowestId(mode: Mode): int {
    if mode == Zero then 0 else 1
  }

  function HighestId(vCount: int, mode: Mode): int {
    if mode == Zero then vCount - 1 else vCount
  }

  /** The range check of `parseEdgesForBackend` on one typed endpoint. An endpoint that passes it
      is stored as a vertex of the graph, so the graph has at least one vertex. */
  predicate InDisplayRange(x: real, vCount: int, mode: Mode)
    ensures InDisplayRange(x, vCount, mode) ==> vCount >= 1
    ensures InDisplayRange(x, vCount, mode) ==> InInternalRange(ToInternalId(x, mode), vCount)
    // one-based, the typed bounds 1 and `vCount` are stored as 0 and `vCount - 1`
    ensures InDisplayRange(x, vCount, mode) && mode == One ==> ToInternalId(x, mode) <= (vCount - 1) as real
  {
    if mode == Zero then 0.0 <= x && x < vCount as real
    else 1.0 <= x && x <= vCount as real
  }

  /** An internal (zero-based) endpoint refers to a vertex of the graph. */
  predicate InInternalRange(x: real, vCount: int) {
    0.0 <= x < vCount as real
  }

  /** From stored number to displayed number; storing the displayed number gives it back. */
  function ToDisplayId(x: real, mode: Mode): (r: real)
    ensures ToInternalId(r, mode) == x
  {
    if mode == Zero then x else x + 1.0
  }

  /** From typed number to stored number: the lowest number of the numbering becomes 0. */
  function ToInternalId(x: real, mode: Mode): (r: real)
    ensures r == x - LowestId(mode) as real
  {
    if mode == Zero then x else x - 1.0
  }

  /** The conversions are inverse in the other order too. */
  lemma {:induction false} InternalDisplayRoundTrip(x: real, mode: Mode)
    ensures ToDisplayId(ToInternalId(x, mode), mode) == x
  {
  }

  /** In one-based numbering the lowest and highest typed vertex are stored as 0 and `vCount - 1`,
      and shown back as typed. */
  lemma {:induction false} OneBasedBoundaries(vCount: int)
    requires vCount >= 1
    ensures ToInternalId(LowestId(One) as real, One) == 0.0
    ensures ToInternalId(HighestId(vCount, One) as real, One) == (vCount - 1) as real
    ensures ToDisplayId(0.0, One) == LowestId(One) as real
    ensures ToDisplayId((vCount - 1) as real, One) == HighestId(vCount, One) as real
    ensures InDisplayRange(LowestId(One) as real, vCount, One) && InDisplayRange(HighestId(vCount, One) as real, vCount, One)
  {
  }

  /** On whole numbers the two checks accept exactly the same vertices. */
  lemma {:induction false} WholeIdsCorrespond(x: int, vCount: int, mode: Mode)
    ensures InDisplayRange(x as real, vCount, mode) <==> InInternalRange(ToInternalId(x as real, mode), vCount)
    ensures InDisplayRange(x as real, vCount, mode) <==> LowestId(mode) <= x <= HighestId(vCount, mode)
  {
    if x < vCount {
      assert x as real <= (vCount - 1) as real;
    } else {
      assert x as real >= vCount as real;
    }
    if x > vCount {
      assert x as real >= (vCount + 1) as real;
    }
  }

  /** The stored form of a typed edge: the endpoints converted, the weight kept, so that the edge is
      shown back with the numbers that were typed. */
  function StoredEdge(u: real, v: real, w: real, mode: Mode): (r: Edge)
    ensures ToDisplayId(r.u, mode) == u && ToDisplayId(r.v, mode) == v && r.weight == w
  {
    Edge(ToInternalId(u, mode), ToInternalId(v, mode), w)
  }

  /** One edge of `mstEdgesDisplay`: the stored edge as the user numbers vertices. */
  function DisplayEdge(e: Edge, mode: Mode): (r: Edge)
    ensures ToInternalId(r.u, mode) == e.u && ToInternalId(r.v, mode) == e.v && r.weight == e.weight
    ensures mode == Zero ==> r == e
  {
    if mode == Zero then e else Edge(e.u + 1.0, e.v + 1.0, e.weight)
  }

  /** Displaying a stored edge gives back what was typed. */
  lemma {:induction false} DisplayStoredEdge(u: real, v: real, w: real, mode: Mode)
    ensures DisplayEdge(StoredEdge(u, v, w, mode), mode) == Edge(u, v, w)
  {
  }

  /** Storing a displayed edge gives back the stored edge. */
  lemma {:induction false} StoredDisplayEdge(e: Edge, mode: Mode)
    ensures var d := DisplayEdge(e, mode); StoredEdge(d.u, d.v, d.weight, mode) == e
  {
  }

  /** `mstEdgesDisplay`: the result's edges, if there are any, each shown in the user's numbering. */
  function MstEdgesDisplay(edges: Option<seq<Edge>>, mode: Mode): (r: seq<Edge>)
    ensures edges.None? ==> r == []
    ensures edges.Some? ==> |r| == |edges.value|
    ensures edges.Some? ==> forall i :: 0 <= i < |r| ==> StoredEdge(r[i].u, r[i].v, r[i].weight, mode) == edges.value[i]
    ensures edges.Some? && mode == Zero ==> r == edges.value
  {
    match edges
    case None => []
    case Some(es) => seq(|es|, i requires 0 <= i < |es| => DisplayEdge(es[i], mode))
  }
}

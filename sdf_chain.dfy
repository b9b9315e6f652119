/**
 * SDFChain of sdf/sdfchain.h and sdf/sdfchain.cpp: an ordered list of links, each a shape
 * seen through a transform and a combine operator, evaluated as a left fold (`dist`) or
 * searched for its closest link (`minDist`).
 */
module Chain {
  import opened Sdf
  import opened CombineOp

  /** SDFLink (sdfchain.h:7-11). The operator of link 0 is never consulted. */
  datatype Link = Link(s: Shape, t: Transform, c: CombineOp)

  /** DistResult: the smallest link distance and the index of the link that gave it. */
  datatype DistResult = DistResult(distance: real, minIndex: int)

  /** `chain[i].s->dist(chain[i].t(point))`: one link evaluated at its transformed point. */
  function LinkDist(l: Link, point: Vec3): real
  {
    l.s(l.t(point))
  }

  /** The value `dist` computes: link 0 seeds the fold, each later link combines with its own operator. */
  function FoldDist(links: seq<Link>, point: Vec3): real
    requires |links| > 0
    decreases |links|
  {
    var n := |links|;
    if n == 1 then LinkDist(links[0], point)
    else CombinedDist(links[n - 1].c, FoldDist(links[..n - 1], point), LinkDist(links[n - 1], point))
  }

  /**
   * What `minDist` promises: an index in range whose link distance is the result, no larger
   * than any link's, and strictly smaller than every earlier link's (ties go to the lowest index).
   */
  ghost predicate IsMinResult(links: seq<Link>, point: Vec3, r: DistResult)
  {
    && 0 <= r.minIndex < |links|
    && r.distance == LinkDist(links[r.minIndex], point)
    && (forall i :: 0 <= i < |links| ==> r.distance <= LinkDist(links[i], point))
    && (forall i :: 0 <= i < r.minIndex ==> LinkDist(links[i], point) > r.distance)
  }

  class SdfChain {
    /** The `chain` vector. */
    var chain: seq<Link>

    constructor ()
      ensures chain == []
    {
      chain := [];
    }

    /** SDFChain::addLink (sdfchain.cpp:39-42): push_back. */
    method AddLink(l: Link)
      modifies this
      ensures chain == old(chain) + [l]
    {
      chain := chain + [l];
    }

    /** SDFChain::dist (sdfchain.cpp:7-19). An empty chain is not guarded: `distances[0]` is read. */
    method Dist(point: Vec3) returns (d: real)
      requires |chain| > 0
      ensures d == FoldDist(chain, point)
    {
      var numLinks := |chain|;
      var distances := new real[numLinks];
      for i := 0 to numLinks
        invariant forall j :: 0 <= j < i ==> distances[j] == LinkDist(chain[j], point)
      {
        distances[i] := chain[i].s(chain[i].t(point));
      }
      var curDist := distances[0];
      for i := 1 to numLinks
        invariant curDist == FoldDist(chain[..i], point)
      {
        assert chain[..i + 1][..i] == chain[..i];
        curDist := CombinedDist(chain[i].c, curDist, distances[i]);
      }
      assert chain[..numLinks] == chain;
      d := curDist;
    }

    /** SDFChain::minDist (sdfchain.cpp:21-37): argmin with the strict `>` keeping the first minimum. */
    method MinDist(point: Vec3) returns (r: DistResult)
      requires |chain| > 0
      ensures IsMinResult(chain, point, r)
    {
      var numLinks := |chain|;
      var distances := new real[numLinks];
      for i := 0 to numLinks
        invariant forall j :: 0 <= j < i ==> distances[j] == LinkDist(chain[j], point)
      {
        distances[i] := chain[i].s(chain[i].t(point));
      }
      var curDist := distances[0];
      var curMin := 0;
      for i := 1 to numLinks
        invariant 0 <= curMin < i
        invariant curDist == LinkDist(chain[curMin], point)
        invariant forall j :: 0 <= j < i ==> curDist <= LinkDist(chain[j], point)
        invariant forall j :: 0 <= j < curMin ==> LinkDist(chain[j], point) > curDist
      {
        if curDist > distances[i] {
          curDist := distances[i];
          curMin := i;
        }
      }
      r := DistResult(curDist, curMin);
    }
  }

  /** A result meeting the `minDist` promise is unique. */
  lemma MinResultUnique(links: seq<Link>, point: Vec3, r1: DistResult, r2: DistResult)
    requires IsMinResult(links, point, r1) && IsMinResult(links, point, r2)
    ensures r1 == r2
  {
    assert r1.distance == r2.distance;
  }

  /** `minDist` never consults the combine operators: replacing any link's operator keeps its results. */
  lemma MinResultIgnoresOps(links: seq<Link>, point: Vec3, r: DistResult, i: nat, c: CombineOp)
    requires i < |links|
    ensures IsMinResult(links, point, r) <==> IsMinResult(links[i := links[i].(c := c)], point, r)
  {
    var other := links[i := links[i].(c := c)];
    assert forall j :: 0 <= j < |links| ==> LinkDist(other[j], point) == LinkDist(links[j], point);
  }

  /** A one-link chain is that link's distance at its transformed point. */
  lemma FoldDistSingle(l: Link, point: Vec3)
    ensures FoldDist([l], point) == LinkDist(l, point)
  {
  }

  /** The operator of link 0 is never used by `dist`. */
  lemma {:induction false} FoldDistIgnoresFirstOp(links: seq<Link>, point: Vec3, c: CombineOp)
    requires |links| > 0
    ensures FoldDist(links[0 := links[0].(c := c)], point) == FoldDist(links, point)
  {
    var n := |links|;
    var other := links[0 := links[0].(c := c)];
    if n > 1 {
      assert other[..n - 1] == links[..n - 1][0 := links[0].(c := c)];
      FoldDistIgnoresFirstOp(links[..n - 1], point, c);
    }
  }

  /** `dist` is a left fold: appending a link combines the old value with the new link's distance. */
  lemma FoldDistAppend(links: seq<Link>, l: Link, point: Vec3)
    requires |links| > 0
    ensures FoldDist(links + [l], point) == CombinedDist(l.c, FoldDist(links, point), LinkDist(l, point))
  {
    assert (links + [l])[..|links|] == links;
  }

  /**
   * When every link after the first is a hard union, `dist` is the smallest link distance:
   * no larger than any link's and equal to one of them.
   */
  lemma {:induction false} FoldDistAllUnion(links: seq<Link>, point: Vec3)
    requires |links| > 0
    requires forall i :: 1 <= i < |links| ==> links[i].c == Union
    ensures forall i :: 0 <= i < |links| ==> FoldDist(links, point) <= LinkDist(links[i], point)
    ensures exists i :: 0 <= i < |links| && FoldDist(links, point) == LinkDist(links[i], point)
  {
    var n := |links|;
    if n == 1 {
      assert FoldDist(links, point) == LinkDist(links[0], point);
    } else {
      var prefix := links[..n - 1];
      FoldDistAllUnion(prefix, point);
      var w :| 0 <= w < n - 1 && FoldDist(prefix, point) == LinkDist(prefix[w], point);
      var d := FoldDist(links, point);
      assert d == Min(FoldDist(prefix, point), LinkDist(links[n - 1], point));
      assert forall i :: 0 <= i < n - 1 ==> LinkDist(links[i], point) == LinkDist(prefix[i], point);
      if d == LinkDist(links[n - 1], point) {
        assert 0 <= n - 1 < n && d == LinkDist(links[n - 1], point);
      } else {
        assert 0 <= w < n && d == LinkDist(links[w], point);
      }
    }
  }

  /** With only unions after link 0, `dist` agrees with the distance that `minDist` reports. */
  lemma AllUnionDistIsMinDist(links: seq<Link>, point: Vec3, r: DistResult)
    requires forall i :: 1 <= i < |links| ==> links[i].c == Union
    requires IsMinResult(links, point, r)
    ensures FoldDist(links, point) == r.distance
  {
    FoldDistAllUnion(links, point);
    var w :| 0 <= w < |links| && FoldDist(links, point) == LinkDist(links[w], point);
    assert r.distance <= LinkDist(links[w], point);
  }
}

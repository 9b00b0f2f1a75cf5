/** Hairpin arms: each loop is folded in half and projects from the backbone
    as two straight rods of unit bonds, one grown from each anchor, both in
    the loop's direction `u`. */
module Arms {
  import opened Vectors
  import opened Loops

  /** The anchored direction of a loop: the midpoint of its two anchors
      projected onto the plane perpendicular to the helix axis, scaled by
      the inverse of its length. `None` when that length is zero, where
      the floating-point code divides by zero and obtains `nan`. */
  function Direction(a: Vec3, b: Vec3, sqrt: real -> real): (r: Option<Vec3>)
    ensures r.None? <==> sqrt(SqNorm(Radial(a, b))) == 0.0
    ensures r.Some? ==> r.value.z == 0.0
    ensures r.Some? ==> exists c :: c != 0.0 && r.value == Scale(c, Radial(a, b))
  {
    var m := Radial(a, b);
    var len := sqrt(SqNorm(m));
    if len == 0.0 then None
    else
      var u := Vec3(m.x / len, m.y / len, m.z / len);
      assert u == Scale(1.0 / len, m);
      Some(u)
  }

  /** With a true square root the direction has unit length and points the
      same way as the projected midpoint, radially outward from the axis. */
  lemma DirectionOutwardUnit(a: Vec3, b: Vec3, sqrt: real -> real)
    requires forall x :: 0.0 <= x ==> 0.0 <= sqrt(x) && sqrt(x) * sqrt(x) == x
    ensures Direction(a, b, sqrt).Some? ==>
      && (exists c :: c > 0.0 && Direction(a, b, sqrt).value == Scale(c, Radial(a, b)))
      && SqNorm(Direction(a, b, sqrt).value) == 1.0
  {
    var m := Radial(a, b);
    var sq := SqNorm(m);
    assert 0.0 <= m.x * m.x && 0.0 <= m.y * m.y;
    assert 0.0 <= sq;
    var len := sqrt(sq);
    if len != 0.0 {
      assert len > 0.0;
      var u := Vec3(m.x / len, m.y / len, 0.0);
      assert Direction(a, b, sqrt).value == u;
      var ix := 1.0 / len;
      assert u == Scale(ix, m);
      assert ix > 0.0;
      assert len * len == sq;
      assert ix * ix * (len * len) == 1.0;
      assert SqNorm(u) == ix * ix * sq;
    }
  }

  /** The anchors' midpoint with its axial component set to 0. */
  function Radial(a: Vec3, b: Vec3): Vec3
  {
    var mid := Vec3((a.x + b.x) / 2.0, (a.y + b.y) / 2.0, (a.z + b.z) / 2.0);
    Vec3(mid.x, mid.y, 0.0)
  }

  /** The direction does not depend on which anchor is named first, so the
      loop's pair may be taken before or after normalisation. */
  lemma DirectionSymmetric(a: Vec3, b: Vec3, sqrt: real -> real)
    ensures Direction(a, b, sqrt) == Direction(b, a, sqrt)
  {
    assert Radial(a, b) == Radial(b, a);
  }

  /** Number of steps each arm of a loop advances. */
  function Steps(lp: Loop): int
  {
    (lp.end - lp.start) / 2
  }

  /** `after` holds the hairpin of the loop from `s` to `e`, grown from the
      anchors of `before` in direction `u`: the particles from the end
      anchor back to the split point `e - (e - s) / 2` are whole steps of `u`
      from the end anchor, the ones before the split whole steps of `u` from
      the start anchor. When `e - s` is even the split is the loop's middle,
      which therefore belongs to the end arm. */
  predicate OnArms(before: seq<Vec3>, after: seq<Vec3>, s: int, e: int, u: Vec3)
  {
    && 0 <= s <= e < |before| == |after|
    && (forall i :: s < i < e - (e - s) / 2 ==> after[i] == Along(before[s], i - s, u))
    && (forall i :: e - (e - s) / 2 <= i < e ==> after[i] == Along(before[e], e - i, u))
  }

  /** The bond from particle `i` to `i + 1` is `u`. */
  predicate ForwardBond(c: seq<Vec3>, i: int, u: Vec3)
  {
    0 <= i && i + 1 < |c| && c[i + 1] == Add(c[i], u)
  }

  /** The bond from particle `i + 1` to `i` is `u`. */
  predicate BackwardBond(c: seq<Vec3>, i: int, u: Vec3)
  {
    0 <= i && i + 1 < |c| && c[i] == Add(c[i + 1], u)
  }

  /** Grows both arms of one loop, `Steps(lp)` steps each, from its anchors
      in direction `u`. In each step the start arm's particle is written
      first and the end arm's second, so when the loop length is even the
      middle particle, written by both in the last step, takes the end
      arm's value. */
  method PlaceArms(c: seq<Vec3>, lp: Loop, u: Vec3) returns (r: seq<Vec3>)
    requires 0 <= lp.start <= lp.end < |c|
    ensures |r| == |c|
    ensures forall k :: 0 <= k < |c| && !(lp.start < k < lp.end) ==> r[k] == c[k]
    ensures OnArms(c, r, lp.start, lp.end, u)
    ensures forall i :: lp.end - Steps(lp) <= i < lp.end ==> BackwardBond(r, i, u)
    ensures forall i :: lp.start <= i && i + 1 < lp.end - Steps(lp) ==> ForwardBond(r, i, u)
    ensures Length(lp) > 0 && Length(lp) % 2 == 0 ==>
      var mid := lp.start + Length(lp) / 2;
      r[mid] == Add(r[mid + 1], u)
  {
    var s, e, h := lp.start, lp.end, Steps(lp);
    r := c;
    var j := 0;
    while j < h
      invariant 0 <= j <= h
      invariant |r| == |c|
      invariant forall k :: 0 <= k < |c| && !(s < k < e) ==> r[k] == c[k]
      invariant forall i :: e - j <= i < e ==> r[i] == Along(c[e], e - i, u)
      invariant forall i :: s < i <= s + j && i < e - j ==> r[i] == Along(c[s], i - s, u)
    {
      r := r[s + j + 1 := Add(r[s + j], u)];
      r := r[e - j - 1 := Add(r[e - j], u)];
      j := j + 1;
    }
    forall i | e - h <= i < e
      ensures BackwardBond(r, i, u)
    {
    }
    forall i | s <= i && i + 1 < e - h
      ensures ForwardBond(r, i, u)
    {
    }
  }

  /** Along a placed arm the bonds are `u` and, when `u` has no axial
      component, every particle keeps its anchor's height. */
  lemma ArmsStayLevel(before: seq<Vec3>, after: seq<Vec3>, s: int, e: int, u: Vec3)
    requires OnArms(before, after, s, e, u) && u.z == 0.0
    ensures forall i :: s < i < e - (e - s) / 2 ==> after[i].z == before[s].z
    ensures forall i :: e - (e - s) / 2 <= i < e ==> after[i].z == before[e].z
  {
    forall i | s < i < e - (e - s) / 2
      ensures after[i].z == before[s].z
    {
      AlongLevel(before[s], i - s, u);
    }
    forall i | e - (e - s) / 2 <= i < e
      ensures after[i].z == before[e].z
    {
      AlongLevel(before[e], e - i, u);
    }
  }

  /** Every loop whose arms take at least one step has a defined direction
      computed from its anchors in `c`. A loop with adjacent anchors takes
      no step, so its direction, even when undefined, is never used. */
  predicate AllDirected(c: seq<Vec3>, loops: seq<Loop>, sqrt: real -> real)
    requires LoopsValid(loops, |c|)
  {
    forall i :: 0 <= i < |loops| && Steps(loops[i]) > 0 ==>
      Direction(c[loops[i].start], c[loops[i].end], sqrt).Some?
  }

  /** A loop between neighbouring particles needs no direction: whatever
      its anchors, it leaves nothing to place. */
  lemma AdjacentAnchorsNeedNoDirection(c: seq<Vec3>, s: int, sqrt: real -> real)
    requires 0 <= s && s + 1 < |c|
    ensures Steps(Loop(s, s + 1)) == 0
    ensures AllDirected(c, [Loop(s, s + 1)], sqrt)
  {
  }

  /** `OnArms` only reads the anchors of `before` and the interior of
      `after`. */
  lemma OnArmsTransfer(b: seq<Vec3>, b': seq<Vec3>, a: seq<Vec3>, a': seq<Vec3>, s: int, e: int, u: Vec3)
    requires OnArms(b, a, s, e, u)
    requires |b'| == |a'| == |b| && b'[s] == b[s] && b'[e] == b[e]
    requires forall k :: s < k < e ==> a'[k] == a[k]
    ensures OnArms(b', a', s, e, u)
  {
  }

  /** One turn of the loop over loops: the direction of `lp` from its
      anchors in `c`, then its arms. A loop whose arms take no step changes
      nothing and needs no direction; otherwise an undefined direction
      stops the construction. */
  method PlaceLoop(c: seq<Vec3>, lp: Loop, sqrt: real -> real) returns (r: Option<seq<Vec3>>)
    requires 0 <= lp.start < lp.end < |c|
    ensures r.None? <==> Steps(lp) > 0 && Direction(c[lp.start], c[lp.end], sqrt).None?
    ensures r.Some? ==> |r.value| == |c|
    ensures r.Some? ==> forall k :: 0 <= k < |c| && !(lp.start < k < lp.end) ==> r.value[k] == c[k]
    ensures r.Some? && Steps(lp) > 0 ==>
      OnArms(c, r.value, lp.start, lp.end, Direction(c[lp.start], c[lp.end], sqrt).value)
  {
    var u := Direction(c[lp.start], c[lp.end], sqrt);
    if Steps(lp) == 0 {
      return Some(c);
    }
    if u.None? {
      return None;
    }
    var next := PlaceArms(c, lp, u.value);
    return Some(next);
  }

  /** Grows the arms of every loop in order, each loop's direction taken
      from its anchors as they stand when its turn comes. A loop whose arms
      take no step changes nothing, so its direction plays no part. */
  method PlaceAllArms(c: seq<Vec3>, loops: seq<Loop>, sqrt: real -> real) returns (r: Option<seq<Vec3>>)
    requires LoopsValid(loops, |c|)
    ensures r.Some? <==> AllDirected(c, loops, sqrt)
    ensures r.Some? ==> |r.value| == |c|
    ensures r.Some? ==> forall k :: 0 <= k < |c| && !InInterior(loops, k) ==> r.value[k] == c[k]
    ensures r.Some? ==> forall i :: 0 <= i < |loops| && Steps(loops[i]) > 0 ==>
      OnArms(c, r.value, loops[i].start, loops[i].end,
             Direction(c[loops[i].start], c[loops[i].end], sqrt).value)
  {
    LoopsOrdered(loops, |c|);
    var cur := c;
    var i := 0;
    while i < |loops|
      invariant 0 <= i <= |loops|
      invariant |cur| == |c|
      invariant forall k :: 0 <= k < |c| && !InInterior(loops[..i], k) ==> cur[k] == c[k]
      invariant forall k :: 0 <= k < |c| && i < |loops| && loops[i].start <= k ==> cur[k] == c[k]
      invariant ArmsPlaced(c, cur, loops, i, sqrt)
    {
      var lp := loops[i];
      assert cur[lp.start] == c[lp.start] && cur[lp.end] == c[lp.end];
      var placed := PlaceLoop(cur, lp, sqrt);
      if placed.None? {
        assert Steps(loops[i]) > 0 && Direction(c[loops[i].start], c[loops[i].end], sqrt).None?;
        return None;
      }
      var next := placed.value;
      PlacedStep(c, loops, i, cur, next, sqrt);
      FrameStep(c, loops, i, cur, next);
      cur := next;
      i := i + 1;
    }
    assert loops[..i] == loops;
    return Some(cur);
  }

  /** The first `count` loops that take an arm step have a defined direction
      from their anchors in `c`, and `r` holds their arms. */
  predicate ArmsPlaced(c: seq<Vec3>, r: seq<Vec3>, loops: seq<Loop>, count: int, sqrt: real -> real)
    requires LoopsValid(loops, |c|) && count <= |loops|
  {
    forall m :: 0 <= m < count && Steps(loops[m]) > 0 ==>
      && Direction(c[loops[m].start], c[loops[m].end], sqrt).Some?
      && OnArms(c, r, loops[m].start, loops[m].end, Direction(c[loops[m].start], c[loops[m].end], sqrt).value)
  }

  /** Placing loop `i` keeps the arms of the loops before it, which lie
      entirely below its start, and adds its own. */
  lemma PlacedStep(c: seq<Vec3>, loops: seq<Loop>, i: int, cur: seq<Vec3>, next: seq<Vec3>, sqrt: real -> real)
    requires LoopsValid(loops, |c|) && 0 <= i < |loops| && |cur| == |c| && |next| == |c|
    requires forall j, m :: 0 <= j < m < |loops| ==> loops[j].end <= loops[m].start
    requires ArmsPlaced(c, cur, loops, i, sqrt)
    requires cur[loops[i].start] == c[loops[i].start] && cur[loops[i].end] == c[loops[i].end]
    requires forall k :: 0 <= k < |c| && !(loops[i].start < k < loops[i].end) ==> next[k] == cur[k]
    requires Steps(loops[i]) > 0 ==>
      && Direction(cur[loops[i].start], cur[loops[i].end], sqrt).Some?
      && OnArms(cur, next, loops[i].start, loops[i].end, Direction(cur[loops[i].start], cur[loops[i].end], sqrt).value)
    ensures ArmsPlaced(c, next, loops, i + 1, sqrt)
  {
    var lp := loops[i];
    forall m | 0 <= m < i && Steps(loops[m]) > 0
      ensures OnArms(c, next, loops[m].start, loops[m].end,
                     Direction(c[loops[m].start], c[loops[m].end], sqrt).value)
    {
      assert loops[m].end <= lp.start;
      OnArmsTransfer(c, c, cur, next, loops[m].start, loops[m].end,
                     Direction(c[loops[m].start], c[loops[m].end], sqrt).value);
    }
    if Steps(lp) > 0 {
      OnArmsTransfer(cur, c, next, next, lp.start, lp.end, Direction(cur[lp.start], cur[lp.end], sqrt).value);
    }
  }

  /** After loop `i` is placed, the particles outside the interiors of the
      first `i + 1` loops, and all particles from the next loop's start on,
      still hold their values in `c`. */
  lemma FrameStep(c: seq<Vec3>, loops: seq<Loop>, i: int, cur: seq<Vec3>, next: seq<Vec3>)
    requires LoopsValid(loops, |c|) && 0 <= i < |loops| && |cur| == |c| && |next| == |c|
    requires forall k :: 0 <= k < |c| && !InInterior(loops[..i], k) ==> cur[k] == c[k]
    requires forall k :: 0 <= k < |c| && loops[i].start <= k ==> cur[k] == c[k]
    requires forall k :: 0 <= k < |c| && !(loops[i].start < k < loops[i].end) ==> next[k] == cur[k]
    ensures forall k :: 0 <= k < |c| && !InInterior(loops[..i + 1], k) ==> next[k] == c[k]
    ensures forall k :: 0 <= k < |c| && i + 1 < |loops| && loops[i + 1].start <= k ==> next[k] == c[k]
  {
    forall k | 0 <= k < |c| && !InInterior(loops[..i + 1], k)
      ensures next[k] == c[k]
    {
      InteriorOfPrefix(loops, i, k);
    }
  }
}

/** The whole starting conformation of a helical loop brush: backbone
    particles on the helix, loop interiors folded into hairpin arms. */
module Conformation {
  import opened Vectors
  import opened Loops
  import opened Backbone
  import opened Helix
  import opened Arms

  datatype BuildError =
    | ZeroDensity          // the winding divides by the linear density
    | DegenerateHelix      // the winding divides by the turn length
    | DegenerateDirection  // a loop direction divides by its length

  datatype Outcome = Built(coords: seq<Vec3>) | Failed(error: BuildError)

  /** `n` particles at the origin. */
  function Zeros(n: nat): (c: seq<Vec3>)
    ensures |c| == n && forall i :: 0 <= i < n ==> c[i] == Origin
  {
    seq(n, _ => Origin)
  }

  /** Assignment through an index array, `c[idx] = vals`: position `idx[k]`
      receives `vals[k]`, later entries overriding earlier ones for a
      repeated index, and every other position keeps its value. */
  function Scatter(c: seq<Vec3>, idx: seq<int>, vals: seq<Vec3>): (r: seq<Vec3>)
    requires |idx| == |vals|
    requires forall k :: 0 <= k < |idx| ==> 0 <= idx[k] < |c|
    ensures |r| == |c|
    ensures forall p :: 0 <= p < |c| && p !in idx ==> r[p] == c[p]
    ensures forall k :: 0 <= k < |idx| && idx[k] !in idx[k + 1..] ==> r[idx[k]] == vals[k]
    decreases |idx|
  {
    if |idx| == 0 then c
    else
      var r := Scatter(c[idx[0] := vals[0]], idx[1..], vals[1..]);
      assert forall k :: 1 <= k < |idx| ==> idx[k] == idx[1..][k - 1] && idx[k + 1..] == idx[1..][k..];
      r
  }

  /** The chain after the backbone stage: backbone particles on the helix in
      backbone order, loop interiors still at the origin. */
  function BackboneLayer(n: nat, radius: real, step: real, loops: seq<Loop>, density: real, num: Numerics): (c: seq<Vec3>)
    requires LoopsValid(loops, n) && HelixDefined(radius, step, density, num)
    ensures |c| == n
  {
    var bb := BackboneIndices(n, loops);
    BackboneShape(n, loops);
    Scatter(Zeros(n), bb, BackbonePoints(|bb|, radius, step, density, num))
  }

  /** What a finished conformation is: `n` particles; the `k`-th backbone
      index holds the `k`-th helix point; and every loop whose arms take at
      least one step has a defined direction from its two anchors and its
      interior on the two arms grown from those anchors in that direction
      (a loop between neighbouring particles has no interior). */
  predicate IsLoopBrush(coords: seq<Vec3>, n: nat, radius: real, step: real, loops: seq<Loop>,
                        density: real, num: Numerics)
    requires LoopsValid(loops, n) && HelixDefined(radius, step, density, num)
  {
    var bb := BackboneIndices(n, loops);
    var pts := BackbonePoints(|bb|, radius, step, density, num);
    BackboneShape(n, loops);
    && |coords| == n
    && (forall k :: 0 <= k < |bb| ==> coords[bb[k]] == pts[k])
    && AllDirected(coords, loops, num.sqrt)
    && forall i :: 0 <= i < |loops| && Steps(loops[i]) > 0 ==>
         OnArms(coords, coords, loops[i].start, loops[i].end,
                Direction(coords[loops[i].start], coords[loops[i].end], num.sqrt).value)
  }

  /** Builds the starting conformation of `n` particles on a helix of the
      given radius and axial step, with the given loops (each an unordered
      index pair) folded into hairpins, at `density` backbone particles per
      unit of arc length. Backbone jitter is zero and loop directions are
      anchored. */
  method Build(n: nat, radius: real, step: real, pairs: seq<(int, int)>, density: real, num: Numerics)
    returns (out: Outcome)
    requires num.pi > 0.0
    requires LoopsValid(NormalizeAll(pairs), n)
    ensures out == Failed(ZeroDensity) <==> density == 0.0
    ensures out == Failed(DegenerateHelix) <==> density != 0.0 && TurnLength(radius, step, num) == 0.0
    ensures out == Failed(DegenerateDirection) <==>
      HelixDefined(radius, step, density, num) &&
      !AllDirected(BackboneLayer(n, radius, step, NormalizeAll(pairs), density, num), NormalizeAll(pairs), num.sqrt)
    ensures out.Built? ==>
      HelixDefined(radius, step, density, num) &&
      IsLoopBrush(out.coords, n, radius, step, NormalizeAll(pairs), density, num)
  {
    var loops := NormalizeAll(pairs);
    if density == 0.0 {
      return Failed(ZeroDensity);
    }
    if TurnLength(radius, step, num) == 0.0 {
      return Failed(DegenerateHelix);
    }
    var layer := BackboneLayer(n, radius, step, loops, density, num);
    var placed := PlaceAllArms(layer, loops, num.sqrt);
    if placed.None? {
      return Failed(DegenerateDirection);
    }
    var coords := placed.value;
    BrushOfLayer(n, radius, step, loops, density, num, layer, coords);
    return Built(coords);
  }

  /** Growing the arms on the backbone layer yields a loop brush. */
  lemma BrushOfLayer(n: nat, radius: real, step: real, loops: seq<Loop>, density: real, num: Numerics,
                     layer: seq<Vec3>, coords: seq<Vec3>)
    requires LoopsValid(loops, n) && HelixDefined(radius, step, density, num)
    requires layer == BackboneLayer(n, radius, step, loops, density, num)
    requires AllDirected(layer, loops, num.sqrt)
    requires |coords| == n
    requires forall k :: 0 <= k < n && !InInterior(loops, k) ==> coords[k] == layer[k]
    requires forall i :: 0 <= i < |loops| && Steps(loops[i]) > 0 ==>
      OnArms(layer, coords, loops[i].start, loops[i].end,
             Direction(layer[loops[i].start], layer[loops[i].end], num.sqrt).value)
    ensures IsLoopBrush(coords, n, radius, step, loops, density, num)
  {
    LayerOnHelix(n, radius, step, loops, density, num, layer, coords);
    AnchorsOnBackbone(n, loops);
    forall i | 0 <= i < |loops| && Steps(loops[i]) > 0
      ensures OnArms(coords, coords, loops[i].start, loops[i].end,
                     Direction(coords[loops[i].start], coords[loops[i].end], num.sqrt).value)
    {
      var s, e := loops[i].start, loops[i].end;
      assert coords[s] == layer[s] && coords[e] == layer[e];
      OnArmsTransfer(layer, coords, coords, coords, s, e, Direction(layer[s], layer[e], num.sqrt).value);
    }
  }

  /** Particles that keep their backbone-layer value hold the helix points
      in backbone order. */
  lemma LayerOnHelix(n: nat, radius: real, step: real, loops: seq<Loop>, density: real, num: Numerics,
                     layer: seq<Vec3>, coords: seq<Vec3>)
    requires LoopsValid(loops, n) && HelixDefined(radius, step, density, num)
    requires layer == BackboneLayer(n, radius, step, loops, density, num)
    requires |coords| == n
    requires forall k :: 0 <= k < n && !InInterior(loops, k) ==> coords[k] == layer[k]
    ensures var bb := BackboneIndices(n, loops);
      var pts := BackbonePoints(|bb|, radius, step, density, num);
      forall k :: 0 <= k < |bb| ==> 0 <= bb[k] < n && coords[bb[k]] == pts[k]
  {
    var bb := BackboneIndices(n, loops);
    BackboneShape(n, loops);
    IncreasingNoRepeat(bb);
    forall k | 0 <= k < |bb|
      ensures 0 <= bb[k] < n && !InInterior(loops, bb[k])
    {
      assert bb[k] in bb;
    }
  }

  /** A strictly increasing index array never repeats an index, so no write
      through it is overridden. */
  lemma IncreasingNoRepeat(s: seq<int>)
    requires StrictlyIncreasing(s)
    ensures forall k :: 0 <= k < |s| ==> s[k] !in s[k + 1..]
  {
    forall k | 0 <= k < |s|
      ensures s[k] !in s[k + 1..]
    {
      var t := s[k + 1..];
      forall j | 0 <= j < |t|
        ensures t[j] != s[k]
      {
        assert t[j] == s[k + 1 + j];
      }
    }
  }

  /** Without loops the conformation is the bare helix: particle `k` is the
      `k`-th helix point. */
  lemma NoLoopsIsHelix(coords: seq<Vec3>, n: nat, radius: real, step: real, density: real, num: Numerics)
    requires HelixDefined(radius, step, density, num)
    requires IsLoopBrush(coords, n, radius, step, [], density, num)
    ensures coords == BackbonePoints(n, radius, step, density, num)
  {
    BackboneShape(n, []);
    var bb := BackboneIndices(n, []);
    assert forall k :: 0 <= k < n ==> bb[k] == k;
  }

  /** In a loop brush every loop lies flat: each interior particle is at the
      height of the anchor its arm grows from. */
  lemma LoopsLevel(coords: seq<Vec3>, n: nat, radius: real, step: real, loops: seq<Loop>,
                   density: real, num: Numerics)
    requires LoopsValid(loops, n) && HelixDefined(radius, step, density, num)
    requires IsLoopBrush(coords, n, radius, step, loops, density, num)
    ensures forall i, k :: 0 <= i < |loops| && loops[i].start < k < loops[i].end - Steps(loops[i]) ==>
      coords[k].z == coords[loops[i].start].z
    ensures forall i, k :: 0 <= i < |loops| && loops[i].end - Steps(loops[i]) <= k < loops[i].end ==>
      coords[k].z == coords[loops[i].end].z
  {
    forall i | 0 <= i < |loops|
      ensures forall k :: loops[i].start < k < loops[i].end - Steps(loops[i]) ==>
        coords[k].z == coords[loops[i].start].z
      ensures forall k :: loops[i].end - Steps(loops[i]) <= k < loops[i].end ==>
        coords[k].z == coords[loops[i].end].z
    {
      var s, e := loops[i].start, loops[i].end;
      if Steps(loops[i]) > 0 {
        ArmsStayLevel(coords, coords, s, e, Direction(coords[s], coords[e], num.sqrt).value);
      }
    }
  }

  /** A chain of 10 particles with the single loop given as (6, 2): the
      backbone is 0, 1, 2, 6, 7, 8, 9; each arm takes two steps, so the
      middle particle 4 is reached by both arms and ends one step of `u`
      beyond particle 5, on the end arm. */
  lemma TenParticleExample(before: seq<Vec3>, after: seq<Vec3>, u: Vec3)
    requires OnArms(before, after, 2, 6, u)
    ensures NormalizeAll([(6, 2)]) == [Loop(2, 6)]
    ensures BackboneIndices(10, [Loop(2, 6)]) == [0, 1, 2, 6, 7, 8, 9]
    ensures after[3] == Add(before[2], u)
    ensures after[5] == Add(before[6], u)
    ensures after[4] == Add(after[5], u)
  {
    assert Along(before[2], 1, u) == Add(before[2], u);
    assert Along(before[6], 1, u) == Add(before[6], u);
  }
}

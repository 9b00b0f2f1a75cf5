/** The backbone index sequence of a loop brush: the chain indices that are
    not strictly inside any loop, in chain order. It is assembled, as
    `make_helical_loopbrush` does, by concatenating half-open integer ranges: from 0 to the
    first loop's start, from each loop's end to the next loop's start, and
    from the last loop's end to the end of the chain. */
module Backbone {
  import opened Loops

  /** The half-open integer range `lo, lo + 1, ..., hi - 1`; empty when
      `hi <= lo`, as numpy's `arange` is. */
  function Arange(lo: int, hi: int): (r: seq<int>)
    ensures |r| == if lo < hi then hi - lo else 0
    ensures forall i :: 0 <= i < |r| ==> r[i] == lo + i
    ensures forall k :: k in r <==> lo <= k < hi
    decreases hi - lo
  {
    if hi <= lo then [] else [lo] + Arange(lo + 1, hi)
  }

  predicate StrictlyIncreasing(s: seq<int>)
  {
    forall i, j :: 0 <= i < j < |s| ==> s[i] < s[j]
  }

  /** The ranges between consecutive loops, each from a loop's end up to and
      including the next loop's start, concatenated in loop order. */
  function Between(loops: seq<Loop>): seq<int>
  {
    if |loops| < 2 then []
    else Arange(loops[0].end, loops[1].start + 1) + Between(loops[1..])
  }

  /** The backbone of a chain of `n` particles with the given loops: all of
      `0 .. n-1` when there are no loops. */
  function BackboneIndices(n: nat, loops: seq<Loop>): seq<int>
  {
    if |loops| == 0 then Arange(0, n)
    else Arange(0, loops[0].start + 1) + Between(loops) + Arange(loops[|loops| - 1].end, n)
  }

  /** Two increasing sequences joined with the first ending below the start
      of the second give an increasing sequence. */
  lemma ConcatIncreasing(a: seq<int>, b: seq<int>)
    requires StrictlyIncreasing(a) && StrictlyIncreasing(b)
    requires |a| > 0 && |b| > 0 ==> a[|a| - 1] < b[0]
    ensures StrictlyIncreasing(a + b)
  {
    var c := a + b;
    forall i, j | 0 <= i < j < |c|
      ensures c[i] < c[j]
    {
      if j < |a| {
        assert c[i] == a[i] && c[j] == a[j];
      } else if |a| <= i {
        assert c[i] == b[i - |a|] && c[j] == b[j - |a|];
      } else {
        assert c[i] == a[i] <= a[|a| - 1];
        assert b[0] <= b[j - |a|] == c[j];
      }
    }
  }

  /** An index between two consecutive loops (from the end of loop `m - 1`,
      or from the chain start when `m` is 0, up to the start of loop `m`)
      is inside no loop. */
  lemma GapOutsideInteriors(loops: seq<Loop>, n: int, m: int, k: int)
    requires LoopsValid(loops, n) && 0 <= m < |loops|
    requires m > 0 ==> loops[m - 1].end <= k
    requires k <= loops[m].start
    ensures !InInterior(loops, k)
  {
    LoopsOrdered(loops, n);
    forall i | 0 <= i < |loops|
      ensures !(loops[i].start < k < loops[i].end)
    {
      if i < m - 1 {
        assert loops[i].end <= loops[m - 1].start;
      } else if m < i {
        assert loops[m].end <= loops[i].start;
      }
    }
  }

  /** Beyond the first loop, being inside some loop means being inside one
      of the remaining loops. */
  lemma InteriorPastFirst(loops: seq<Loop>, k: int)
    requires |loops| > 0 && loops[0].end <= k
    ensures InInterior(loops, k) <==> InInterior(loops[1..], k)
  {
    var rest := loops[1..];
    if InInterior(loops, k) {
      var i :| 0 <= i < |loops| && loops[i].start < k < loops[i].end;
      assert rest[i - 1] == loops[i];
    }
    if InInterior(rest, k) {
      var i :| 0 <= i < |rest| && rest[i].start < k < rest[i].end;
      assert loops[i + 1] == rest[i];
    }
  }

  /** The part of the backbone from the first loop's end to the end of the
      chain. */
  function Tail(loops: seq<Loop>, n: int): seq<int>
    requires |loops| > 0
  {
    Between(loops) + Arange(loops[|loops| - 1].end, n)
  }

  lemma TailUnfold(loops: seq<Loop>, n: int)
    requires |loops| > 1
    ensures Tail(loops, n) == Arange(loops[0].end, loops[1].start + 1) + Tail(loops[1..], n)
  {
    assert loops[1..][|loops| - 2] == loops[|loops| - 1];
  }

  /** The tail has one element per index from the first loop's end to the
      chain end, less the interiors of the remaining loops. */
  lemma {:induction false} TailLength(loops: seq<Loop>, n: int)
    requires |loops| > 0 && LoopsValid(loops, n)
    ensures |Tail(loops, n)| == n - loops[0].end - InteriorCount(loops[1..])
  {
    if |loops| > 1 {
      var rest := loops[1..];
      ValidSuffix(loops, n);
      TailLength(rest, n);
      TailUnfold(loops, n);
      assert rest[1..] == loops[2..];
    }
  }

  /** The tail holds exactly the indices from the first loop's end to the
      chain end that lie inside no loop. */
  lemma {:induction false} TailMembers(loops: seq<Loop>, n: int)
    requires |loops| > 0 && LoopsValid(loops, n)
    ensures forall k :: k in Tail(loops, n) <==> loops[0].end <= k < n && !InInterior(loops, k)
  {
    if |loops| == 1 {
      forall k | loops[0].end <= k
        ensures !InInterior(loops, k)
      {
        InteriorPastFirst(loops, k);
      }
    } else {
      var rest := loops[1..];
      ValidSuffix(loops, n);
      TailMembers(rest, n);
      TailUnfold(loops, n);
      forall k
        ensures k in Tail(loops, n) <==> loops[0].end <= k < n && !InInterior(loops, k)
      {
        if loops[0].end <= k <= loops[1].start {
          GapOutsideInteriors(loops, n, 1, k);
        } else if loops[1].start < k < loops[1].end {
          assert rest[0].start < k < rest[0].end;
        } else if loops[1].end <= k {
          InteriorPastFirst(loops, k);
        }
      }
    }
  }

  /** The tail is increasing and runs from the first loop's end to `n - 1`. */
  lemma {:induction false} TailIncreasing(loops: seq<Loop>, n: int)
    requires |loops| > 0 && LoopsValid(loops, n)
    ensures var t := Tail(loops, n);
      StrictlyIncreasing(t) && |t| > 0 && t[0] == loops[0].end && t[|t| - 1] == n - 1
  {
    if |loops| > 1 {
      var rest := loops[1..];
      ValidSuffix(loops, n);
      TailIncreasing(rest, n);
      TailUnfold(loops, n);
      ConcatIncreasing(Arange(loops[0].end, loops[1].start + 1), Tail(rest, n));
    }
  }

  /** The backbone is increasing, runs from 0 to `n - 1`, holds exactly the
      indices of the chain outside every loop interior, and so has `n` minus
      the interior count elements; without loops it is `0 .. n-1`. */
  lemma BackboneShape(n: nat, loops: seq<Loop>)
    requires LoopsValid(loops, n)
    ensures var bb := BackboneIndices(n, loops);
      && |bb| == n - InteriorCount(loops)
      && StrictlyIncreasing(bb)
      && (n > 0 ==> bb[0] == 0 && bb[|bb| - 1] == n - 1)
      && (forall k :: k in bb <==> 0 <= k < n && !InInterior(loops, k))
      && (|loops| == 0 ==> bb == seq(n, i => i))
  {
    var bb := BackboneIndices(n, loops);
    if |loops| == 0 {
      assert bb == seq(n, i => i);
    } else {
      TailLength(loops, n);
      TailMembers(loops, n);
      TailIncreasing(loops, n);
      var head := Arange(0, loops[0].start + 1);
      var t := Tail(loops, n);
      assert bb == head + t;
      ConcatIncreasing(head, t);
      forall k
        ensures k in bb <==> 0 <= k < n && !InInterior(loops, k)
      {
        if 0 <= k <= loops[0].start {
          GapOutsideInteriors(loops, n, 0, k);
        } else if loops[0].start < k < loops[0].end {
          assert !(k in head) && !(k in t);
        }
      }
    }
  }

  /** Every loop anchor is a backbone index, and no loop interior index is. */
  lemma AnchorsOnBackbone(n: nat, loops: seq<Loop>)
    requires LoopsValid(loops, n)
    ensures forall i :: 0 <= i < |loops| ==>
      loops[i].start in BackboneIndices(n, loops) && loops[i].end in BackboneIndices(n, loops)
    ensures forall i, k :: 0 <= i < |loops| && loops[i].start < k < loops[i].end ==>
      k !in BackboneIndices(n, loops)
  {
    BackboneShape(n, loops);
    LoopsOrdered(loops, n);
    forall i | 0 <= i < |loops|
      ensures !InInterior(loops, loops[i].start) && !InInterior(loops, loops[i].end)
    {
      forall j | 0 <= j < |loops|
        ensures !(loops[j].start < loops[i].start < loops[j].end)
        ensures !(loops[j].start < loops[i].end < loops[j].end)
      {
        if j < i {
          assert loops[j].end <= loops[i].start;
        } else if i < j {
          assert loops[i].end <= loops[j].start;
        }
      }
    }
  }
}

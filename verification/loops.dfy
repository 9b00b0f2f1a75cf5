/** Loops of the brush: an index pair normalised to (start, end), and the
    ordering and bounds a list of loops must respect for the partition of
    the chain into backbone and loop interiors to be meaningful. */
module Loops {

  /** A loop after normalisation: `start` and `end` are its anchors, the
      particles strictly between them are its interior. */
  datatype Loop = Loop(start: int, end: int)

  function Abs(n: int): nat
  {
    if n < 0 then -n else n
  }

  /** A loop is given as an unordered pair of particle indices; its start is
      the smaller one and its end the larger one. */
  function Normalize(pair: (int, int)): (lp: Loop)
    ensures lp.start <= lp.end
    ensures multiset{lp.start, lp.end} == multiset{pair.0, pair.1}
    ensures Length(lp) == Abs(pair.0 - pair.1)
  {
    if pair.1 < pair.0 then Loop(pair.1, pair.0) else Loop(pair.0, pair.1)
  }

  function NormalizeAll(pairs: seq<(int, int)>): (loops: seq<Loop>)
    ensures |loops| == |pairs|
    ensures forall i :: 0 <= i < |pairs| ==> loops[i] == Normalize(pairs[i])
  {
    seq(|pairs|, i requires 0 <= i < |pairs| => Normalize(pairs[i]))
  }

  /** The loop length used to count arm steps: the anchor distance. */
  function Length(lp: Loop): int
  {
    lp.end - lp.start
  }

  /** Loops inside a chain of `n` particles, each with start < end, and
      sorted so that a loop ends no later than the next one starts (two
      loops may share an anchor). */
  predicate LoopsValid(loops: seq<Loop>, n: int)
  {
    (forall i :: 0 <= i < |loops| ==> 0 <= loops[i].start < loops[i].end < n) &&
    (forall i :: 0 <= i < |loops| - 1 ==> loops[i].end <= loops[i + 1].start)
  }

  /** `k` lies strictly inside one of the loops. */
  predicate InInterior(loops: seq<Loop>, k: int)
  {
    exists i :: 0 <= i < |loops| && loops[i].start < k < loops[i].end
  }

  /** Total number of interior particles of all loops. */
  function InteriorCount(loops: seq<Loop>): int
  {
    if |loops| == 0 then 0
    else (loops[0].end - loops[0].start - 1) + InteriorCount(loops[1..])
  }

  /** The adjacent ordering of valid loops extends to every pair: an earlier
      loop ends no later than any later loop starts. */
  lemma {:induction false} LoopsOrdered(loops: seq<Loop>, n: int)
    requires LoopsValid(loops, n)
    ensures forall i, j :: 0 <= i < j < |loops| ==> loops[i].end <= loops[j].start
  {
    if |loops| > 1 {
      var rest := loops[1..];
      ValidSuffix(loops, n);
      LoopsOrdered(rest, n);
      forall i, j | 0 <= i < j < |loops|
        ensures loops[i].end <= loops[j].start
      {
        if i == 0 {
          if j > 1 {
            assert rest[0].end <= rest[j - 1].start;
          }
        } else {
          assert rest[i - 1].end <= rest[j - 1].start;
        }
      }
    }
  }

  /** Suffixes of a valid loop list are valid. */
  lemma ValidSuffix(loops: seq<Loop>, n: int)
    requires |loops| > 0 && LoopsValid(loops, n)
    ensures LoopsValid(loops[1..], n)
  {
    var rest := loops[1..];
    forall i | 0 <= i < |rest| - 1
      ensures rest[i].end <= rest[i + 1].start
    {
      assert rest[i] == loops[i + 1] && rest[i + 1] == loops[i + 2];
    }
  }

  /** Extending a prefix of the loops by one loop adds that loop's interior. */
  lemma InteriorOfPrefix(loops: seq<Loop>, i: int, k: int)
    requires 0 <= i < |loops|
    ensures InInterior(loops[..i + 1], k) <==>
      InInterior(loops[..i], k) || loops[i].start < k < loops[i].end
  {
    var p, p' := loops[..i], loops[..i + 1];
    if InInterior(p', k) {
      var m :| 0 <= m < |p'| && p'[m].start < k < p'[m].end;
      if m < i {
        assert p[m] == p'[m];
      }
    }
    if InInterior(p, k) {
      var m :| 0 <= m < |p| && p[m].start < k < p[m].end;
      assert p'[m] == p[m];
    }
    if loops[i].start < k < loops[i].end {
      assert p'[i] == loops[i];
    }
  }
}

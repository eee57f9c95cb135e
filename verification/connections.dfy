/** The proximity scan each animation frame runs after moving the particles:
    every unordered pair `i < j` is visited once, and a line is drawn between
    the two particles when they are less than 100 units apart. A line is
    represented by the pair of indices it joins. */
module Connections {
  import opened Particles

  /** A line between particle `i` and particle `j` of the collection. */
  datatype Pair = Pair(i: nat, j: nat)

  /** Particles closer than this are joined by a line. */
  const Threshold: real := 100.0

  /** `Math.sqrt(dx * dx + dy * dy) < 100`, compared on squares: both sides are
      non-negative, so the square root can be dropped. */
  predicate Close(p: Particle, q: Particle) {
    var dx := p.x - q.x;
    var dy := p.y - q.y;
    dx * dx + dy * dy < Threshold * Threshold
  }

  /** Lexicographic order on pairs: the order the nested loops visit them in. */
  predicate Before(a: Pair, b: Pair) {
    a.i < b.i || (a.i == b.i && a.j < b.j)
  }

  predicate StrictlyOrdered(pairs: seq<Pair>) {
    forall a, b :: 0 <= a < b < |pairs| ==> Before(pairs[a], pairs[b])
  }

  /** Every pair joins two distinct particles of a collection of `n`, lower index first. */
  predicate Proper(pairs: seq<Pair>, n: nat) {
    forall k :: 0 <= k < |pairs| ==> pairs[k].i < pairs[k].j < n
  }

  /** The pairs the inner loop has visited for outer index `i` once its index
      has reached `j`: (i, i+1), ..., (i, j-1). */
  function RowUpTo(i: nat, j: nat): (row: seq<Pair>)
    ensures |row| == if j > i then j - i - 1 else 0
    decreases j
  {
    if j <= i + 1 then [] else RowUpTo(i, j - 1) + [Pair(i, j - 1)]
  }

  /** A row holds exactly the pairs (i, m) with i < m < j, in increasing order. */
  lemma {:induction false} RowFacts(i: nat, j: nat)
    ensures forall k :: 0 <= k < |RowUpTo(i, j)| ==> RowUpTo(i, j)[k].i == i && i < RowUpTo(i, j)[k].j < j
    ensures forall m :: i < m < j ==> Pair(i, m) in RowUpTo(i, j)
    ensures StrictlyOrdered(RowUpTo(i, j))
    decreases j
  {
    if j > i + 1 {
      RowFacts(i, j - 1);
    }
  }

  /** The pairs the first `i` iterations of the outer loop have visited, in
      visiting order, for a collection of `n` particles. */
  function ScanUpTo(i: nat, n: nat): (pairs: seq<Pair>)
    decreases i
  {
    if i == 0 then [] else ScanUpTo(i - 1, n) + RowUpTo(i - 1, n)
  }

  /** The first `i` outer iterations visit exactly the pairs a < b < n with
      a < i, in increasing order. */
  lemma {:induction false} ScanFacts(i: nat, n: nat)
    ensures Proper(ScanUpTo(i, n), n)
    ensures forall k :: 0 <= k < |ScanUpTo(i, n)| ==> ScanUpTo(i, n)[k].i < i
    ensures forall a, b :: 0 <= a < i && a < b < n ==> Pair(a, b) in ScanUpTo(i, n)
    ensures StrictlyOrdered(ScanUpTo(i, n))
    decreases i
  {
    if i > 0 {
      var prev := ScanUpTo(i - 1, n);
      var row := RowUpTo(i - 1, n);
      ScanFacts(i - 1, n);
      RowFacts(i - 1, n);
      assert ScanUpTo(i, n) == prev + row;
      forall a, b | 0 <= a < i && a < b < n
        ensures Pair(a, b) in prev + row
      {
        if a < i - 1 {
          assert Pair(a, b) in prev;
        } else {
          assert Pair(a, b) in row;
        }
      }
    }
  }

  /** Every pair the full nested loop visits, in visiting order. */
  function ScanOrder(n: nat): (pairs: seq<Pair>)
    ensures forall a: nat, b: nat :: a < b < n <==> Pair(a, b) in pairs
    ensures StrictlyOrdered(pairs)
  {
    ScanFacts(n, n);
    ScanUpTo(n, n)
  }

  /** The first `i` outer iterations visit (n-1) + (n-2) + ... + (n-i) pairs. */
  lemma {:induction false} ScanUpToLength(i: nat, n: nat)
    requires i <= n
    ensures 2 * |ScanUpTo(i, n)| == i * (2 * n - i - 1)
    decreases i
  {
    if i > 0 {
      ScanUpToLength(i - 1, n);
      var m := |ScanUpTo(i - 1, n)|;
      assert |ScanUpTo(i, n)| == m + (n - i);
      assert 2 * m == (i - 1) * (2 * n - i);
      Distribute(i, 2 * n - i);
    }
  }

  /** Multiplication distributes over a difference. */
  lemma Distribute(i: int, c: int)
    ensures (i - 1) * c == i * c - c
    ensures i * (c - 1) == i * c - i
  {
  }

  /** The scan visits exactly n(n-1)/2 pairs: each unordered pair once. */
  lemma ScanVisitsEachPairOnce(n: nat)
    ensures |ScanOrder(n)| == n * (n - 1) / 2
    ensures forall a, b :: 0 <= a < b < |ScanOrder(n)| ==> ScanOrder(n)[a] != ScanOrder(n)[b]
  {
    ScanUpToLength(n, n);
  }

  /** The visited pairs, in order, whose particles are close. */
  function KeepClose(ps: seq<Particle>, pairs: seq<Pair>): (lines: seq<Pair>)
    requires Proper(pairs, |ps|)
    decreases |pairs|
  {
    if pairs == [] then []
    else
      var rest := KeepClose(ps, pairs[1..]);
      if Close(ps[pairs[0].i], ps[pairs[0].j]) then [pairs[0]] + rest else rest
  }

  /** Filtering keeps exactly the close pairs and preserves their order. */
  lemma {:induction false} KeepCloseFacts(ps: seq<Particle>, pairs: seq<Pair>)
    requires Proper(pairs, |ps|)
    ensures forall k :: 0 <= k < |KeepClose(ps, pairs)| ==>
              KeepClose(ps, pairs)[k] in pairs && Close(ps[KeepClose(ps, pairs)[k].i], ps[KeepClose(ps, pairs)[k].j])
    ensures forall k :: 0 <= k < |pairs| && Close(ps[pairs[k].i], ps[pairs[k].j]) ==> pairs[k] in KeepClose(ps, pairs)
    ensures StrictlyOrdered(pairs) ==> StrictlyOrdered(KeepClose(ps, pairs))
    decreases |pairs|
  {
    if pairs != [] {
      var rest := KeepClose(ps, pairs[1..]);
      KeepCloseFacts(ps, pairs[1..]);
      assert forall k :: 0 <= k < |rest| ==> rest[k] in pairs[1..];
      forall k | 0 <= k < |pairs| && Close(ps[pairs[k].i], ps[pairs[k].j])
        ensures pairs[k] in KeepClose(ps, pairs)
      {
        if k > 0 {
          assert pairs[k] == pairs[1..][k - 1];
        }
      }
    }
  }

  /** Filtering distributes over concatenation: the scan can be filtered row by row. */
  lemma {:induction false} KeepCloseAppend(ps: seq<Particle>, a: seq<Pair>, b: seq<Pair>)
    requires Proper(a, |ps|) && Proper(b, |ps|)
    ensures Proper(a + b, |ps|)
    ensures KeepClose(ps, a + b) == KeepClose(ps, a) + KeepClose(ps, b)
    decreases |a|
  {
    assert Proper(a + b, |ps|) by {
      forall k | 0 <= k < |a + b|
        ensures (a + b)[k].i < (a + b)[k].j < |ps|
      {
        if k < |a| { assert (a + b)[k] == a[k]; } else { assert (a + b)[k] == b[k - |a|]; }
      }
    }
    if a != [] {
      assert (a + b)[0] == a[0];
      assert (a + b)[1..] == a[1..] + b;
      assert Proper(a[1..], |ps|) by {
        forall k | 0 <= k < |a[1..]|
          ensures a[1..][k].i < a[1..][k].j < |ps|
        {
          assert a[1..][k] == a[k + 1];
        }
      }
      KeepCloseAppend(ps, a[1..], b);
    } else {
      assert a + b == b;
    }
  }

  /** The lines one frame draws. */
  function ConnectedPairs(ps: seq<Particle>): (lines: seq<Pair>)
    ensures Proper(lines, |ps|)
    ensures forall k :: 0 <= k < |lines| ==> Close(ps[lines[k].i], ps[lines[k].j])
    ensures forall a, b :: 0 <= a < b < |ps| && Close(ps[a], ps[b]) ==> Pair(a, b) in lines
    ensures StrictlyOrdered(lines)
  {
    var scan := ScanOrder(|ps|);
    var lines := KeepClose(ps, scan);
    KeepCloseFacts(ps, scan);
    assert forall k :: 0 <= k < |lines| ==> lines[k] in scan;
    forall a, b | 0 <= a < b < |ps| && Close(ps[a], ps[b])
      ensures Pair(a, b) in lines
    {
      assert Pair(a, b) in scan;
    }
    lines
  }

  /** No line is drawn twice, and never both (i, j) and (j, i). */
  lemma NoDuplicateLines(ps: seq<Particle>)
    ensures forall a, b :: 0 <= a < b < |ConnectedPairs(ps)| ==> ConnectedPairs(ps)[a] != ConnectedPairs(ps)[b]
    ensures forall a, b :: Pair(a, b) in ConnectedPairs(ps) ==> Pair(b, a) !in ConnectedPairs(ps)
  {
  }

  /** Closeness is symmetric, so scanning only i < j loses no line. */
  lemma CloseIsSymmetric(p: Particle, q: Particle)
    ensures Close(p, q) <==> Close(q, p)
  {
  }

  /** Rows and scan prefixes only name pairs of a collection of `n`. */
  lemma ScanIsProper(i: nat, j: nat, n: nat)
    requires j <= n
    ensures Proper(RowUpTo(i, j), n)
    ensures Proper(ScanUpTo(i, n), n)
  {
    RowFacts(i, j);
    ScanFacts(i, n);
  }

  /** The nested loops of the animation frame, as written: the outer index runs
      over every particle, and a close pair is appended as it is found. */
  method ScanConnections(ps: seq<Particle>) returns (lines: seq<Pair>)
    ensures lines == ConnectedPairs(ps)
  {
    var n := |ps|;
    lines := [];
    var i := 0;
    while i < n
      invariant 0 <= i <= n
      invariant Proper(ScanUpTo(i, n), n)
      invariant lines == KeepClose(ps, ScanUpTo(i, n))
    {
      var row := ScanRow(ps, i);
      ScanIsProper(i, n, n);
      KeepCloseAppend(ps, ScanUpTo(i, n), RowUpTo(i, n));
      lines := lines + row;
      ScanIsProper(i + 1, n, n);
      i := i + 1;
    }
  }

  /** The inner loop for outer index `i`: every later particle is compared with
      particle `i`. */
  method ScanRow(ps: seq<Particle>, i: nat) returns (row: seq<Pair>)
    requires i < |ps|
    ensures Proper(RowUpTo(i, |ps|), |ps|)
    ensures row == KeepClose(ps, RowUpTo(i, |ps|))
  {
    var n := |ps|;
    row := [];
    var j := i + 1;
    ScanIsProper(i, j, n);
    while j < n
      invariant i + 1 <= j <= n
      invariant Proper(RowUpTo(i, j), n)
      invariant row == KeepClose(ps, RowUpTo(i, j))
    {
      ScanIsProper(i, j + 1, n);
      assert RowUpTo(i, j + 1) == RowUpTo(i, j) + [Pair(i, j)];
      KeepCloseAppend(ps, RowUpTo(i, j), [Pair(i, j)]);
      if Close(ps[i], ps[j]) {
        assert KeepClose(ps, [Pair(i, j)]) == [Pair(i, j)];
        row := row + [Pair(i, j)];
      } else {
        assert KeepClose(ps, [Pair(i, j)]) == [];
      }
      j := j + 1;
    }
  }
}

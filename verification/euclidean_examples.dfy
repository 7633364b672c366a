/**
  The rhythms the generator's unit tests pin down: tresillo E(8,3), cinquillo
  E(8,5), E(16,4), E(4,2), the single pulse and single step cases, the gap
  bounds of E(16,7) and E(4,3), and the rotated tresillo.

  They are computed through one general fact: on a list of groups made of `p`
  copies of a group `a` followed by `q` copies of a different group `b`, the
  merge loop is Euclid's algorithm on `(p, q)` (`BjorklundBlocks`).
 */
module EuclideanExamples {
  import opened SwiftInt
  import opened EuclideanEngine

  const T: Group := [true]
  const F: Group := [false]

  /** `n` copies of the group `g`. */
  function Rep(g: Group, n: nat): (r: seq<Group>)
    ensures |r| == n && forall i :: 0 <= i < n ==> r[i] == g
  {
    seq(n, _ => g)
  }

  /** The bits of `n` copies of `g`, end to end. */
  function Power(g: Group, n: nat): (r: seq<bool>)
    ensures |r| == n * |g|
  {
    if n == 0 then [] else Power(g, n - 1) + g
  }

  /** Euclid's algorithm on the block counts: the group list the merge loop ends with on `a^p b^q`. */
  function Blocks(a: Group, p: nat, b: Group, q: nat): seq<Group>
    decreases p + q
  {
    if p == 0 || q <= 1 then Rep(a, p) + Rep(b, q)
    else if p == q then Rep(a + b, q)
    else if p > q then Blocks(a + b, q, a, p - q)
    else Blocks(a + b, p, b, q - p)
  }

  lemma BlockTail(a: Group, p: nat, b: Group, q: nat)
    requires a != b && q > 0
    ensures TailRun(Rep(a, p) + Rep(b, q), b) == q
  {
    TailRunStops(Rep(a, p) + Rep(b, q), b, q);
  }

  /** One merge round on `a^p b^q` pairs `min(p, q)` groups and leaves the surplus of the larger block. */
  lemma BlockMerge(a: Group, p: nat, b: Group, q: nat)
    requires p > 0 && q > 0
    ensures p >= q ==> Merge(Rep(a, p) + Rep(b, q), p, q) == Rep(a + b, q) + Rep(a, p - q)
    ensures p < q ==> Merge(Rep(a, p) + Rep(b, q), p, p) == Rep(a + b, p) + Rep(b, q - p)
  {
    var gs := Rep(a, p) + Rep(b, q);
    if p >= q {
      assert gs[q..p] == Rep(a, p - q);
      assert gs[p + q..] == [];
      assert Paired(gs, p, q) == Rep(a + b, q);
    } else {
      assert gs[p..p] == [];
      assert gs[p + p..] == Rep(b, q - p);
      assert Paired(gs, p, p) == Rep(a + b, p);
    }
  }

  /** The loop on `a^p b^q`: it stops at once when `p = 0` or `q <= 1`, and otherwise merges `min(p, q)` pairs. */
  lemma BlockStep(a: Group, p: nat, b: Group, q: nat)
    requires a != b && q > 0
    ensures p == 0 || q <= 1 ==> Bjorklund(Rep(a, p) + Rep(b, q)) == Rep(a, p) + Rep(b, q)
    ensures p > 0 && q > 1 ==>
      Bjorklund(Rep(a, p) + Rep(b, q)) == Bjorklund(Merge(Rep(a, p) + Rep(b, q), p, Min(p, q)))
  {
    var gs := Rep(a, p) + Rep(b, q);
    assert gs[|gs| - 1] == b;
    BlockTail(a, p, b, q);
  }

  /** A list of equal groups is left as it is: there is no head to merge into. */
  lemma SingleBlock(c: Group, n: nat)
    requires n > 0
    ensures Bjorklund(Rep(c, n)) == Rep(c, n)
  {
    TailRunStops(Rep(c, n), c, n);
  }

  lemma BlocksStop(gs: seq<Group>, a: Group, p: nat, b: Group, q: nat)
    requires a != b && q > 0 && (p == 0 || q <= 1)
    requires gs == Rep(a, p) + Rep(b, q)
    ensures Bjorklund(gs) == Blocks(a, p, b, q)
  {
    BlockStep(a, p, b, q);
  }

  lemma BlocksEven(gs: seq<Group>, a: Group, p: nat, b: Group, q: nat)
    requires a != b && q > 1 && p == q
    requires gs == Rep(a, p) + Rep(b, q)
    ensures Bjorklund(gs) == Blocks(a, p, b, q)
  {
    BlockStep(a, p, b, q);
    BlockMerge(a, p, b, q);
    assert Merge(gs, p, Min(p, q)) == Rep(a + b, q) by {
      assert Rep(a + b, q) + Rep(a, 0) == Rep(a + b, q);
    }
    SingleBlock(a + b, q);
  }

  /** On `p` copies of `a` followed by `q >= 1` copies of a different group `b`, the merge loop computes `Blocks`. */
  lemma {:induction false} BjorklundBlocks(gs: seq<Group>, a: Group, p: nat, b: Group, q: nat)
    requires |a| > 0 && |b| > 0 && a != b && q > 0
    requires gs == Rep(a, p) + Rep(b, q)
    ensures Bjorklund(gs) == Blocks(a, p, b, q)
    decreases p + q, 1
  {
    if p == 0 || q <= 1 {
      BlocksStop(gs, a, p, b, q);
    } else if p == q {
      BlocksEven(gs, a, p, b, q);
    } else if p > q {
      BlocksHeadLarger(gs, a, p, b, q);
    } else {
      BlocksTailLarger(gs, a, p, b, q);
    }
  }

  lemma {:induction false} BlocksHeadLarger(gs: seq<Group>, a: Group, p: nat, b: Group, q: nat)
    requires |a| > 0 && |b| > 0 && a != b && 1 < q < p
    requires gs == Rep(a, p) + Rep(b, q)
    ensures Bjorklund(gs) == Blocks(a, p, b, q)
    decreases p + q, 0
  {
    BlockStep(a, p, b, q);
    BlockMerge(a, p, b, q);
    var next := Rep(a + b, q) + Rep(a, p - q);
    assert Bjorklund(gs) == Bjorklund(next);
    assert |a + b| > |a| && a + b != a && p - q > 0;
    BjorklundBlocks(next, a + b, q, a, p - q);
  }

  lemma {:induction false} BlocksTailLarger(gs: seq<Group>, a: Group, p: nat, b: Group, q: nat)
    requires |a| > 0 && |b| > 0 && a != b && 0 < p < q
    requires gs == Rep(a, p) + Rep(b, q)
    ensures Bjorklund(gs) == Blocks(a, p, b, q)
    decreases p + q, 0
  {
    BlockStep(a, p, b, q);
    BlockMerge(a, p, b, q);
    var next := Rep(a + b, p) + Rep(b, q - p);
    assert Bjorklund(gs) == Bjorklund(next);
    assert |a + b| > |b| && a + b != b && q - p > 0;
    BjorklundBlocks(next, a + b, p, b, q - p);
  }

  lemma {:induction false} FlattenRep(c: Group, n: nat)
    ensures Flatten(Rep(c, n)) == Power(c, n)
  {
    if n > 0 {
      FlattenRep(c, n - 1);
      assert Rep(c, n)[..n - 1] == Rep(c, n - 1);
    }
  }

  /** Two strictly ascending lists with the same elements are equal. */
  lemma {:induction false} AscendingUnique(a: seq<int>, b: seq<int>)
    requires StrictlyAscending(a) && StrictlyAscending(b)
    requires forall x :: x in a <==> x in b
    ensures a == b
    decreases |a|
  {
    if |a| > 0 {
      assert a[0] in a;
    }
    if |b| > 0 {
      assert b[0] in b;
    }
    if |a| > 0 && |b| > 0 {
      assert a[0] in a && a[0] in b;
      var l :| 0 <= l < |b| && b[l] == a[0];
      assert b[0] in b && b[0] in a;
      var k :| 0 <= k < |a| && a[k] == b[0];
      assert a[0] <= a[k] && b[0] <= b[l];
      forall x | x in a[1..]
        ensures x in b[1..]
      {
        var i :| 1 <= i < |a| && a[i] == x;
        assert x in b;
        var j :| 0 <= j < |b| && b[j] == x;
        assert b[1..][j - 1] == x;
      }
      forall x | x in b[1..]
        ensures x in a[1..]
      {
        var j :| 1 <= j < |b| && b[j] == x;
        assert x in a;
        var i :| 0 <= i < |a| && a[i] == x;
        assert a[1..][i - 1] == x;
      }
      AscendingUnique(a[1..], b[1..]);
      assert a == [a[0]] + a[1..] && b == [b[0]] + b[1..];
    }
  }

  /** When the merge loop on the initial groups ends in `c^n d^m`, the generator returns the pulse indices of those bits. */
  lemma Evaluate(steps: int, pulses: int, c: Group, n: nat, d: Group, m: nat, bits: seq<bool>, r: seq<int>)
    requires 0 < pulses < steps
    requires Blocks(T, pulses, F, steps - pulses) == Rep(c, n) + Rep(d, m)
    requires Power(c, n) + Power(d, m) == bits
    requires StrictlyAscending(r)
    requires forall x :: x in r <==> 0 <= x < |bits| && bits[x]
    ensures EuclideanPositions(steps, pulses) == r
  {
    EvaluateBits(steps, pulses, c, n, d, m);
    AscendingUnique(Positions(bits), r);
  }

  /** When the merge loop on the initial groups ends in `c^n d^m`, the generator returns the pulse indices of `c^n d^m` flattened. */
  lemma EvaluateBits(steps: int, pulses: int, c: Group, n: nat, d: Group, m: nat)
    requires 0 < pulses < steps
    requires Blocks(T, pulses, F, steps - pulses) == Rep(c, n) + Rep(d, m)
    ensures EuclideanPositions(steps, pulses) == Positions(Power(c, n) + Power(d, m))
  {
    var gs := InitialGroups(pulses, steps);
    assert EuclideanPositions(steps, pulses) == Positions(Flatten(Bjorklund(gs)));
    assert Bjorklund(gs) == Rep(c, n) + Rep(d, m) by {
      assert gs == Rep(T, pulses) + Rep(F, steps - pulses);
      BjorklundBlocks(gs, T, pulses, F, steps - pulses);
    }
    FlattenAppend(Rep(c, n), Rep(d, m));
    FlattenRep(c, n);
    FlattenRep(d, m);
  }

  /** With no rotation the pattern is the generator's output. */
  lemma Unrotated(steps: int, pulses: int)
    ensures Pattern(steps, pulses, 0) == EuclideanPositions(steps, pulses)
  {
    RotateUnchanged(EuclideanPositions(steps, pulses), 0, steps);
  }

  lemma TresilloPositions(steps: int, pulses: int)
    requires steps == 8 && pulses == 3
    ensures EuclideanPositions(steps, pulses) == [0, 3, 6]
  {
    var x, y := T + F + F, T + F;
    TresilloBlocks();
    TresilloBits(x, y);
    var bits, r := [true, false, false, true, false, false, true, false], [0, 3, 6];
    TresilloMembers(bits, r);
    Evaluate(steps, pulses, x, 2, y, 1, bits, r);
  }

  lemma TresilloBlocks()
    ensures Blocks(T, 3, F, 5) == Rep(T + F + F, 2) + Rep(T + F, 1)
  {
    assert Blocks(T, 3, F, 5) == Blocks(T + F, 3, F, 2);
    assert Blocks(T + F, 3, F, 2) == Blocks(T + F + F, 2, T + F, 1);
  }

  lemma TresilloBits(x: Group, y: Group)
    requires x == [true, false, false] && y == [true, false]
    ensures Power(x, 2) + Power(y, 1) == [true, false, false, true, false, false, true, false]
  {
    assert Power(x, 1) == x && Power(y, 1) == y;
  }

  lemma TresilloMembers(bits: seq<bool>, r: seq<int>)
    requires bits == [true, false, false, true, false, false, true, false] && r == [0, 3, 6]
    ensures StrictlyAscending(r)
    ensures forall x :: x in r <==> 0 <= x < |bits| && bits[x]
  {
  }

  /** Tresillo: X..X..X. */
  lemma Tresillo()
    ensures Pattern(8, 3, 0) == [0, 3, 6]
  {
    TresilloPositions(8, 3);
    Unrotated(8, 3);
  }

  lemma CinquilloPositions(steps: int, pulses: int)
    requires steps == 8 && pulses == 5
    ensures EuclideanPositions(steps, pulses) == [0, 2, 3, 5, 6]
  {
    var x, y := T + F + T, T + F;
    CinquilloBlocks(steps, pulses);
    CinquilloBits(x, y);
    var bits, r := [true, false, true, true, false, true, true, false], [0, 2, 3, 5, 6];
    CinquilloMembers(bits, r);
    Evaluate(steps, pulses, x, 2, y, 1, bits, r);
  }

  lemma CinquilloBlocks(steps: int, pulses: int)
    requires steps == 8 && pulses == 5
    ensures Blocks(T, pulses, F, steps - pulses) == Rep(T + F + T, 2) + Rep(T + F, 1)
  {
    assert Blocks(T, pulses, F, steps - pulses) == Blocks(T + F, 3, T, 2);
    assert Blocks(T + F, 3, T, 2) == Blocks(T + F + T, 2, T + F, 1);
  }

  lemma CinquilloBits(x: Group, y: Group)
    requires x == [true, false, true] && y == [true, false]
    ensures Power(x, 2) + Power(y, 1) == [true, false, true, true, false, true, true, false]
  {
    assert Power(x, 1) == x && Power(y, 1) == y;
  }

  lemma CinquilloMembers(bits: seq<bool>, r: seq<int>)
    requires bits == [true, false, true, true, false, true, true, false] && r == [0, 2, 3, 5, 6]
    ensures StrictlyAscending(r)
    ensures forall x :: x in r <==> 0 <= x < |bits| && bits[x]
  {
  }

  /** Cinquillo: X.XX.XX. */
  lemma Cinquillo()
    ensures Pattern(8, 5, 0) == [0, 2, 3, 5, 6]
  {
    CinquilloPositions(8, 5);
    Unrotated(8, 5);
  }

  lemma FourOnTheFloorPositions(steps: int, pulses: int)
    requires steps == 16 && pulses == 4
    ensures EuclideanPositions(steps, pulses) == [0, 4, 8, 12]
  {
    var x := T + F + F + F;
    var bits := [true, false, false, false, true, false, false, false, true, false, false, false, true, false, false, false];
    FourOnTheFloorBlocks();
    FourOnTheFloorBits(x);
    var r := [0, 4, 8, 12];
    FourOnTheFloorMembers(bits, r);
    Evaluate(steps, pulses, x, 4, F, 0, bits, r);
  }

  lemma FourOnTheFloorBlocks()
    ensures Blocks(T, 4, F, 12) == Rep(T + F + F + F, 4) + Rep(F, 0)
  {
    assert Blocks(T, 4, F, 12) == Blocks(T + F, 4, F, 8);
    assert Blocks(T + F, 4, F, 8) == Blocks(T + F + F, 4, F, 4);
  }

  lemma FourOnTheFloorBits(x: Group)
    requires x == [true, false, false, false]
    ensures Power(x, 4) + Power(F, 0)
      == [true, false, false, false, true, false, false, false, true, false, false, false, true, false, false, false]
  {
    assert Power(x, 1) == x;
    assert Power(x, 2) == [true, false, false, false, true, false, false, false];
    assert Power(x, 3) == Power(x, 2) + x;
    assert Power(x, 4) == Power(x, 3) + x;
  }

  lemma FourOnTheFloorMembers(bits: seq<bool>, r: seq<int>)
    requires bits == [true, false, false, false, true, false, false, false, true, false, false, false, true, false, false, false]
    requires r == [0, 4, 8, 12]
    ensures StrictlyAscending(r)
    ensures forall x :: x in r <==> 0 <= x < |bits| && bits[x]
  {
  }

  /** Four pulses over sixteen steps: X...X...X...X... */
  lemma FourOnTheFloor()
    ensures Pattern(16, 4, 0) == [0, 4, 8, 12]
  {
    FourOnTheFloorPositions(16, 4);
    Unrotated(16, 4);
  }

  lemma TwoOverFourPositions(steps: int, pulses: int)
    requires steps == 4 && pulses == 2
    ensures EuclideanPositions(steps, pulses) == [0, 2]
  {
    var x := T + F;
    assert Blocks(T, pulses, F, steps - pulses) == Rep(x, 2) + Rep(F, 0);
    var bits := [true, false, true, false];
    assert Power(x, 2) + Power(F, 0) == bits;
    Evaluate(steps, pulses, x, 2, F, 0, bits, [0, 2]);
  }

  /** Two pulses over four steps: X.X. */
  lemma TwoOverFour()
    ensures Pattern(4, 2, 0) == [0, 2]
  {
    TwoOverFourPositions(4, 2);
    Unrotated(4, 2);
  }

  /** A single pulse sits on the downbeat, whatever the number of steps (E(8,1), E(4,1), E(1,1)). */
  lemma SinglePulse(steps: int)
    requires steps > 0
    ensures Pattern(steps, 1, 0) == [0]
  {
    EuclideanPositionsShape(steps, 1);
    Unrotated(steps, 1);
  }

  lemma EmptyAndFullPositions(steps: int, none: int, all: int)
    requires steps == 8 && none == 0 && all == 8
    ensures Pattern(steps, none, 0) == []
    ensures Pattern(steps, all, 0) == [0, 1, 2, 3, 4, 5, 6, 7]
  {
    EuclideanPositionsEdges(steps, none);
    EuclideanPositionsEdges(steps, all);
    Unrotated(steps, none);
    Unrotated(steps, all);
    RangeOfEight(steps);
  }

  lemma RangeOfEight(n: nat)
    requires n == 8
    ensures Range(n) == [0, 1, 2, 3, 4, 5, 6, 7]
  {
    assert |Range(n)| == 8;
  }

  /** No pulses give no positions; a pulse on every step gives every index. */
  lemma EmptyAndFull()
    ensures Pattern(8, 0, 0) == []
    ensures Pattern(8, 8, 0) == [0, 1, 2, 3, 4, 5, 6, 7]
  {
    EmptyAndFullPositions(8, 0, 8);
  }

  /** The distance from pulse `i` to the next one, wrapping from the last pulse round to the first (`next == 0` in the tests). */
  function CyclicGap(s: seq<int>, n: int, i: int): (g: int)
    requires 0 <= i < |s|
    ensures i + 1 < |s| ==> g == s[i + 1] - s[i]
    ensures i + 1 == |s| ==> g == n - s[i] + s[0]
  {
    if i + 1 == |s| then n - s[i] + s[0] else s[i + 1] - s[i]
  }

  /** The cyclic gaps of a pattern, pulse by pulse. */
  function Gaps(s: seq<int>, n: int): (r: seq<int>)
    ensures |r| == |s|
    ensures forall i :: 0 <= i < |s| ==> r[i] == CyclicGap(s, n, i)
  {
    seq(|s|, i requires 0 <= i < |s| => CyclicGap(s, n, i))
  }

  lemma SevenOverSixteenPositions(steps: int, pulses: int)
    requires steps == 16 && pulses == 7
    ensures EuclideanPositions(steps, pulses) == [0, 3, 5, 7, 10, 12, 14]
  {
    var a := [true, false];
    var d := [true, false, false, true, false, true, false];
    var bits := [true, false, false, true, false, true, false, true, false, false, true, false, true, false, true, false];
    SevenOverSixteenBlocks();
    SevenOverSixteenBits(d, a);
    var r := [0, 3, 5, 7, 10, 12, 14];
    SevenOverSixteenMembers(bits, r);
    Evaluate(steps, pulses, d, 2, a, 1, bits, r);
  }

  lemma SevenOverSixteenBlocks()
    ensures Blocks(T, 7, F, 9) == Rep([true, false, false, true, false, true, false], 2) + Rep([true, false], 1)
  {
    var a := T + F;
    var b := a + F;
    var c := b + a;
    var d := c + a;
    assert Blocks(T, 7, F, 9) == Blocks(a, 7, F, 2);
    assert Blocks(a, 7, F, 2) == Blocks(b, 2, a, 5);
    assert Blocks(b, 2, a, 5) == Blocks(c, 2, a, 3);
    assert Blocks(c, 2, a, 3) == Blocks(d, 2, a, 1);
    assert Blocks(d, 2, a, 1) == Rep(d, 2) + Rep(a, 1);
    assert a == [true, false] && d == [true, false, false, true, false, true, false];
  }

  lemma SevenOverSixteenBits(d: Group, a: Group)
    requires d == [true, false, false, true, false, true, false] && a == [true, false]
    ensures Power(d, 2) + Power(a, 1)
      == [true, false, false, true, false, true, false, true, false, false, true, false, true, false, true, false]
  {
    assert Power(d, 1) == d;
    assert Power(d, 2) == d + d;
    assert Power(a, 1) == a;
  }

  lemma SevenOverSixteenMembers(bits: seq<bool>, r: seq<int>)
    requires bits == [true, false, false, true, false, true, false, true, false, false, true, false, true, false, true, false]
    requires r == [0, 3, 5, 7, 10, 12, 14]
    ensures StrictlyAscending(r)
    ensures forall x :: x in r <==> 0 <= x < |bits| && bits[x]
  {
  }

  /** E(16,7) has 7 pulses whose cyclic gaps are all 2 or 3: 3, 2, 2, 3, 2, 2, 2. */
  lemma SevenOverSixteenEven(steps: int, pulses: int)
    requires steps == 16 && pulses == 7
    ensures Pattern(steps, pulses, 0) == [0, 3, 5, 7, 10, 12, 14]
    ensures Gaps(Pattern(steps, pulses, 0), steps) == [3, 2, 2, 3, 2, 2, 2]
  {
    SevenOverSixteenPositions(steps, pulses);
    Unrotated(steps, pulses);
    GapsOfSeven([0, 3, 5, 7, 10, 12, 14], steps);
  }

  lemma GapsOfSeven(r: seq<int>, n: int)
    requires r == [0, 3, 5, 7, 10, 12, 14] && n == 16
    ensures Gaps(r, n) == [3, 2, 2, 3, 2, 2, 2]
  {
    var g := Gaps(r, n);
    assert g[0] == 3 && g[1] == 2 && g[2] == 2 && g[3] == 3 && g[4] == 2 && g[5] == 2;
    assert g[6] == 2;
  }

  lemma ThreeOverFourPositions(steps: int, pulses: int)
    requires steps == 4 && pulses == 3
    ensures EuclideanPositions(steps, pulses) == [0, 1, 2]
  {
    assert Blocks(T, pulses, F, steps - pulses) == Rep(T, 3) + Rep(F, 1);
    var bits := [true, true, true, false];
    assert Power(T, 3) + Power(F, 1) == bits;
    Evaluate(steps, pulses, T, 3, F, 1, bits, [0, 1, 2]);
  }

  /** E(4,3) has 3 pulses whose cyclic gaps are all 1 or 2: 1, 1, 2. */
  lemma ThreeOverFourEven(steps: int, pulses: int)
    requires steps == 4 && pulses == 3
    ensures Pattern(steps, pulses, 0) == [0, 1, 2]
    ensures Gaps(Pattern(steps, pulses, 0), steps) == [1, 1, 2]
  {
    ThreeOverFourPositions(steps, pulses);
    Unrotated(steps, pulses);
    GapsOfThree([0, 1, 2], steps);
  }

  lemma GapsOfThree(r: seq<int>, n: int)
    requires r == [0, 1, 2] && n == 4
    ensures Gaps(r, n) == [1, 1, 2]
  {
    var g := Gaps(r, n);
    assert g[0] == 1 && g[1] == 1 && g[2] == 2;
  }

  lemma TresilloRotatedPositions(steps: int, pulses: int, rotation: int)
    requires steps == 8 && pulses == 3 && rotation == 1
    ensures Pattern(steps, pulses, rotation) == [2, 5, 7]
  {
    TresilloPositions(steps, pulses);
    PatternShape(steps, pulses, rotation);
    TresilloMovedBack(EuclideanPositions(steps, pulses), rotation, steps);
    SortedTresillo(Pattern(steps, pulses, rotation));
  }

  lemma TresilloMovedBack(ps: seq<int>, rotation: int, n: int)
    requires ps == [0, 3, 6] && rotation == 1 && n == 8
    ensures multiset(Rotated(ps, rotation, n)) == multiset{7, 2, 5}
  {
    assert Rotated(ps, 1, 8) == [7, 2, 5];
  }

  lemma SortedTresillo(r: seq<int>)
    requires StrictlyAscending(r) && multiset(r) == multiset{7, 2, 5}
    ensures r == [2, 5, 7]
  {
    forall x
      ensures x in r <==> x in [2, 5, 7]
    {
      assert x in r <==> x in multiset(r);
    }
    AscendingUnique(r, [2, 5, 7]);
  }

  /** The tresillo rotated by one step: [0, 3, 6] moves back to [7, 2, 5], sorted [2, 5, 7]. */
  lemma TresilloRotated()
    ensures Pattern(8, 3, 1) == [2, 5, 7]
  {
    TresilloRotatedPositions(8, 3, 1);
  }
}

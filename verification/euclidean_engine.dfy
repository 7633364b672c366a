/**
  Euclidean rhythm patterns (Bjorklund's algorithm) and their rotation.

  `EuclideanPositions` is the algorithm as a function over lists of groups of
  bits; `ComputePulsePositions` is Swift's imperative `computePulsePositions`, proved to
  compute that function.  `Rotate` and `Pattern` are pure.
 */
module EuclideanEngine {
  import opened SwiftInt

  /** A group of bits: `true` is a pulse, `false` a rest. */
  type Group = seq<bool>

  predicate StrictlyAscending(s: seq<int>) {
    forall i, j :: 0 <= i < j < |s| ==> s[i] < s[j]
  }

  predicate Ascending(s: seq<int>) {
    forall i, j :: 0 <= i < j < |s| ==> s[i] <= s[j]
  }

  predicate AllBelow(s: seq<int>, n: int) {
    forall i :: 0 <= i < |s| ==> 0 <= s[i] < n
  }

  /** `Array(0..<n)`. */
  function Range(n: nat): (r: seq<int>)
    ensures |r| == n && StrictlyAscending(r) && AllBelow(r, n)
    ensures forall i :: 0 <= i < n ==> r[i] == i
  {
    seq(n, i => i)
  }

  /** Number of pulses in a bit list. */
  function Ones(bits: seq<bool>): nat {
    multiset(bits)[true]
  }

  /** The groups laid end to end, left to right. */
  function Flatten(gs: seq<Group>): seq<bool> {
    if |gs| == 0 then [] else Flatten(gs[..|gs| - 1]) + gs[|gs| - 1]
  }

  /** Indices of the pulses, in increasing order (the final `compactMap`). */
  function Positions(bits: seq<bool>): (r: seq<int>)
    ensures |r| == Ones(bits)
    ensures StrictlyAscending(r) && AllBelow(r, |bits|)
    ensures forall i :: 0 <= i < |bits| ==> (bits[i] <==> i in r)
  {
    if |bits| == 0 then []
    else
      var init := bits[..|bits| - 1];
      PositionsSnoc(bits, Positions(init));
      Positions(init) + (if bits[|bits| - 1] then [|bits| - 1] else [])
  }

  /** Appending the last index, when it is a pulse, to the positions of the bits before it gives the positions of all the bits. */
  lemma PositionsSnoc(bits: seq<bool>, p: seq<int>)
    requires |bits| > 0
    requires |p| == Ones(bits[..|bits| - 1]) && StrictlyAscending(p) && AllBelow(p, |bits| - 1)
    requires forall i :: 0 <= i < |bits| - 1 ==> (bits[i] <==> i in p)
    ensures var r := p + (if bits[|bits| - 1] then [|bits| - 1] else []);
      && |r| == Ones(bits) && StrictlyAscending(r) && AllBelow(r, |bits|)
      && forall i :: 0 <= i < |bits| ==> (bits[i] <==> i in r)
  {
    var n := |bits| - 1;
    var r := p + (if bits[n] then [n] else []);
    assert bits == bits[..n] + [bits[n]];
    assert multiset(bits) == multiset(bits[..n]) + multiset{bits[n]};
    forall i | 0 <= i < |bits|
      ensures bits[i] <==> i in r
    {
      if i < n {
        assert i in r <==> i in p;
      }
    }
  }

  /** How many groups at the end of `gs` equal `g` (the `tailCount` loop of `computePulsePositions`). */
  function TailRun(gs: seq<Group>, g: Group): (n: nat)
    ensures n <= |gs|
    ensures forall i :: |gs| - n <= i < |gs| ==> gs[i] == g
    ensures n < |gs| ==> gs[|gs| - 1 - n] != g
  {
    if |gs| == 0 || gs[|gs| - 1] != g then 0 else 1 + TailRun(gs[..|gs| - 1], g)
  }

  /** The first `m` groups, each extended by the group `head` places further on. */
  function Paired(gs: seq<Group>, head: nat, m: nat): (r: seq<Group>)
    requires head + m <= |gs|
    ensures |r| == m
    ensures forall i :: 0 <= i < m ==> r[i] == gs[i] + gs[head + i]
  {
    seq(m, i requires 0 <= i < m => gs[i] + gs[head + i])
  }

  /** One merge round: paired groups, then the unmerged head groups, then the unmerged tail groups. */
  function Merge(gs: seq<Group>, head: nat, m: nat): (r: seq<Group>)
    requires m <= head && head + m <= |gs|
    ensures |r| == |gs| - m
  {
    Paired(gs, head, m) + gs[m..head] + gs[head + m..]
  }

  /** The `while true` loop: merge the trailing run into the head until the run has length 1 or there is no head. */
  function Bjorklund(gs: seq<Group>): (r: seq<Group>)
    requires |gs| > 0
    ensures 0 < |r| <= |gs|
    decreases |gs|
  {
    var tail := TailRun(gs, gs[|gs| - 1]);
    var head := |gs| - tail;
    if tail <= 1 || head == 0 then gs
    else Bjorklund(Merge(gs, head, Min(head, tail)))
  }

  /** The `break` condition of the merge loop: the trailing run is single, or is the whole list. */
  predicate Settled(gs: seq<Group>) {
    |gs| > 0 && var tail := TailRun(gs, gs[|gs| - 1]); tail <= 1 || tail == |gs|
  }

  /** The loop stops only on its `break` condition. */
  lemma {:induction false} BjorklundStops(gs: seq<Group>)
    requires |gs| > 0
    ensures Settled(Bjorklund(gs))
    decreases |gs|
  {
    var tail := TailRun(gs, gs[|gs| - 1]);
    var head := |gs| - tail;
    if tail <= 1 || head == 0 {
      assert Bjorklund(gs) == gs;
    } else {
      var m := Min(head, tail);
      BjorklundRound(gs, head, m);
      BjorklundStops(Merge(gs, head, m));
    }
  }

  /** A round that does not stop the loop leaves the loop's eventual result unchanged. */
  lemma BjorklundRound(gs: seq<Group>, head: nat, m: nat)
    requires |gs| > 0 && head == |gs| - TailRun(gs, gs[|gs| - 1])
    requires head > 0 && |gs| - head > 1 && m == Min(head, |gs| - head)
    ensures Bjorklund(gs) == Bjorklund(Merge(gs, head, m))
  {
    var tail := TailRun(gs, gs[|gs| - 1]);
    assert !(tail <= 1 || |gs| - tail == 0) && Min(|gs| - tail, tail) == m;
  }

  /** `k` pulse groups followed by `steps - k` rest groups. */
  function InitialGroups(k: nat, steps: nat): (r: seq<Group>)
    requires k <= steps
    ensures |r| == steps
  {
    seq(k, _ => [true]) + seq(steps - k, _ => [false])
  }

  /** `computePulsePositions` as a function. */
  function EuclideanPositions(steps: int, pulses: int): (r: seq<int>)
    ensures steps <= 0 ==> r == []
    ensures steps > 0 ==> |r| == Clamp(pulses, 0, steps) && AllBelow(r, steps)
  {
    if steps <= 0 then []
    else
      var k := Clamp(pulses, 0, steps);
      if k == 0 then []
      else if k == steps then Range(steps)
      else
        InitialGroupsHold(k, steps);
        BjorklundKeepsGroups(InitialGroups(k, steps), steps, k);
        Positions(Flatten(Bjorklund(InitialGroups(k, steps))))
  }

  /* ---------------------------------------------------------------------- */
  /* The group-list invariant the merge loop keeps                           */

  /** Every group is non-empty, the first starts with a pulse, and the groups hold `steps` bits of which `k` are pulses. */
  ghost predicate GroupsHold(gs: seq<Group>, steps: nat, k: nat) {
    && |gs| > 0
    && (forall i :: 0 <= i < |gs| ==> |gs[i]| > 0)
    && gs[0][0]
    && |Flatten(gs)| == steps
    && Ones(Flatten(gs)) == k
  }

  lemma {:induction false} FlattenAppend(a: seq<Group>, b: seq<Group>)
    ensures Flatten(a + b) == Flatten(a) + Flatten(b)
    decreases |b|
  {
    if |b| == 0 {
      assert a + b == a;
    } else {
      var b' := b[..|b| - 1];
      assert (a + b)[..|a + b| - 1] == a + b';
      FlattenAppend(a, b');
    }
  }

  /** Groups of two equally long lists, concatenated position by position. */
  function Zip(x: seq<Group>, y: seq<Group>): (r: seq<Group>)
    requires |x| == |y|
    ensures |r| == |x|
  {
    seq(|x|, i requires 0 <= i < |x| => x[i] + y[i])
  }

  /** Flattening zipped groups gives the bits of both lists (as a multiset). */
  lemma {:induction false} FlattenZip(x: seq<Group>, y: seq<Group>)
    requires |x| == |y|
    ensures multiset(Flatten(Zip(x, y))) == multiset(Flatten(x)) + multiset(Flatten(y))
    decreases |x|
  {
    if |x| > 0 {
      var n := |x| - 1;
      var x', y' := x[..n], y[..n];
      FlattenZip(x', y');
      var z, z' := Zip(x, y), Zip(x', y');
      assert z[..n] == z';
      assert Flatten(z) == Flatten(z') + (x[n] + y[n]);
      Regroup(multiset(Flatten(z')), multiset(Flatten(x')), multiset(Flatten(y')),
              multiset(x[n]), multiset(y[n]));
    }
  }

  /** Flattening pairs of groups gives the bits of both halves (as a multiset). */
  lemma FlattenPaired(gs: seq<Group>, head: nat, m: nat)
    requires head + m <= |gs| && m <= head
    ensures multiset(Flatten(Paired(gs, head, m))) ==
            multiset(Flatten(gs[..m])) + multiset(Flatten(gs[head..head + m]))
  {
    assert Paired(gs, head, m) == Zip(gs[..m], gs[head..head + m]);
    FlattenZip(gs[..m], gs[head..head + m]);
  }

  lemma Regroup(a: multiset<bool>, b: multiset<bool>, c: multiset<bool>, u: multiset<bool>, v: multiset<bool>)
    requires a == b + c
    ensures a + u + v == (b + u) + (c + v)
  {
  }

  lemma FlattenStartsWithFirst(gs: seq<Group>)
    requires |gs| > 0 && |gs[0]| > 0
    ensures |Flatten(gs)| > 0 && Flatten(gs)[0] == gs[0][0]
  {
    FlattenAppend([gs[0]], gs[1..]);
    assert [gs[0]] + gs[1..] == gs;
    assert Flatten([gs[0]]) == gs[0] by {
      assert [gs[0]][..0] == [];
    }
  }

  lemma FlattenAppendBits(a: seq<Group>, b: seq<Group>)
    ensures multiset(Flatten(a + b)) == multiset(Flatten(a)) + multiset(Flatten(b))
  {
    FlattenAppend(a, b);
  }

  lemma FlattenThreeBits(a: seq<Group>, b: seq<Group>, c: seq<Group>)
    ensures multiset(Flatten(a + b + c)) == multiset(Flatten(a)) + multiset(Flatten(b)) + multiset(Flatten(c))
  {
    FlattenAppendBits(a + b, c);
    FlattenAppendBits(a, b);
  }

  lemma SplitFour(gs: seq<Group>, m: nat, head: nat)
    requires m <= head && head + m <= |gs|
    ensures gs == gs[..m] + gs[m..head] + gs[head..head + m] + gs[head + m..]
  {
    assert gs[..head] == gs[..m] + gs[m..head];
    assert gs[head..] == gs[head..head + m] + gs[head + m..];
    assert gs == gs[..head] + gs[head..];
  }

  /** A merge round only regroups bits: the flattened list keeps its multiset of bits. */
  lemma MergeKeepsBits(gs: seq<Group>, head: nat, m: nat)
    requires m <= head && head + m <= |gs|
    ensures multiset(Flatten(Merge(gs, head, m))) == multiset(Flatten(gs))
  {
    var a, b, c, d := gs[..m], gs[m..head], gs[head..head + m], gs[head + m..];
    var p := Paired(gs, head, m);
    SplitFour(gs, m, head);
    FlattenAppendBits(a + b + c, d);
    FlattenThreeBits(a, b, c);
    FlattenThreeBits(p, b, d);
    FlattenPaired(gs, head, m);
  }

  /** A merge round keeps the group-list invariant. */
  lemma MergeKeepsGroups(gs: seq<Group>, head: nat, m: nat, steps: nat, k: nat)
    requires GroupsHold(gs, steps, k)
    requires 1 <= m <= head && head + m <= |gs|
    ensures GroupsHold(Merge(gs, head, m), steps, k)
  {
    var r := Merge(gs, head, m);
    MergeKeepsBits(gs, head, m);
    assert |Flatten(r)| == |multiset(Flatten(r))| == |multiset(Flatten(gs))| == steps;
    assert r[0] == gs[0] + gs[head];
    forall i | 0 <= i < |r| ensures |r[i]| > 0 {
      if i < m {
        assert r[i] == gs[i] + gs[head + i];
      } else if i < head {
        assert r[i] == gs[i];
      } else {
        assert r[i] == gs[i + m];
      }
    }
  }

  lemma {:induction false} BjorklundKeepsGroups(gs: seq<Group>, steps: nat, k: nat)
    requires GroupsHold(gs, steps, k)
    ensures GroupsHold(Bjorklund(gs), steps, k)
    decreases |gs|
  {
    var tail := TailRun(gs, gs[|gs| - 1]);
    var head := |gs| - tail;
    if !(tail <= 1 || head == 0) {
      MergeKeepsGroups(gs, head, Min(head, tail), steps, k);
      BjorklundKeepsGroups(Merge(gs, head, Min(head, tail)), steps, k);
    }
  }

  lemma InitialGroupsHold(k: nat, steps: nat)
    requires 0 < k < steps
    ensures GroupsHold(InitialGroups(k, steps), steps, k)
  {
    var gs := InitialGroups(k, steps);
    var ps, rs := seq(k, _ => [true]), seq(steps - k, _ => [false]);
    var pb, rb := seq(k, _ => true), seq(steps - k, _ => false);
    assert gs == ps + rs;
    assert Flatten(gs) == pb + rb by {
      FlattenAppend(ps, rs);
      FlattenUniform(k, true);
      FlattenUniform(steps - k, false);
    }
    assert Ones(pb + rb) == k by {
      OnesUniform(k, true);
      OnesUniform(steps - k, false);
      assert multiset(pb + rb) == multiset(pb) + multiset(rb);
    }
    assert forall i :: 0 <= i < |gs| ==> |gs[i]| > 0;
    assert gs[0] == [true];
  }

  /** `n` one-bit groups holding `b` flatten to `n` copies of `b`. */
  lemma {:induction false} FlattenUniform(n: nat, b: bool)
    ensures Flatten(seq(n, _ => [b])) == seq(n, _ => b)
  {
    if n > 0 {
      FlattenUniform(n - 1, b);
      var gs := seq(n, _ => [b]);
      assert gs[..n - 1] == seq(n - 1, _ => [b]);
      assert Flatten(gs) == Flatten(gs[..n - 1]) + [b];
      assert seq(n, _ => b) == seq(n - 1, _ => b) + [b];
    }
  }

  /** `n` copies of `b` hold `n` pulses if `b` is a pulse, and none otherwise. */
  lemma {:induction false} OnesUniform(n: nat, b: bool)
    ensures Ones(seq(n, _ => b)) == if b then n else 0
  {
    if n > 0 {
      OnesUniform(n - 1, b);
      var bs, rest := seq(n, _ => b), seq(n - 1, _ => b);
      assert bs == rest + [b];
      assert multiset(bs) == multiset(rest) + multiset{b};
      assert multiset(bs)[true] == multiset(rest)[true] + (if b then 1 else 0);
    }
  }

  /* ---------------------------------------------------------------------- */
  /* What the generator promises                                            */

  /** The generator's result: empty for `steps <= 0`, otherwise exactly `k = clamp(pulses, 0, steps)` strictly ascending indices in `[0, steps)`, starting at 0 when `k > 0`. */
  lemma EuclideanPositionsShape(steps: int, pulses: int)
    ensures steps <= 0 ==> EuclideanPositions(steps, pulses) == []
    ensures steps > 0 ==>
      var r := EuclideanPositions(steps, pulses);
      var k := Clamp(pulses, 0, steps);
      && |r| == k
      && StrictlyAscending(r)
      && AllBelow(r, steps)
      && (k > 0 ==> r[0] == 0)
  {
    if steps > 0 {
      var k := Clamp(pulses, 0, steps);
      if 0 < k < steps {
        InitialGroupsHold(k, steps);
        var gs := Bjorklund(InitialGroups(k, steps));
        BjorklundKeepsGroups(InitialGroups(k, steps), steps, k);
        FlattenStartsWithFirst(gs);
        var r := Positions(Flatten(gs));
        assert 0 in r;
      }
    }
  }

  /** The edge cases: no pulses gives no positions; pulses filling every step give every index. */
  lemma EuclideanPositionsEdges(steps: int, pulses: int)
    requires steps > 0
    ensures pulses <= 0 ==> EuclideanPositions(steps, pulses) == []
    ensures pulses >= steps ==> EuclideanPositions(steps, pulses) == Range(steps)
  {
  }

  /* ---------------------------------------------------------------------- */
  /* The imperative `computePulsePositions`                                */

  /** `TailRun` is exactly the count a backwards scan stops at. */
  lemma {:induction false} TailRunStops(gs: seq<Group>, g: Group, t: nat)
    requires t <= |gs|
    requires forall i :: |gs| - t <= i < |gs| ==> gs[i] == g
    requires t == |gs| || gs[|gs| - 1 - t] != g
    ensures TailRun(gs, g) == t
    decreases t
  {
    if t > 0 {
      var init := gs[..|gs| - 1];
      TailRunStops(init, g, t - 1);
    } else if |gs| > 0 {
      assert gs[|gs| - 1] != g;
    }
  }

  lemma FlattenPrefixStep(gs: seq<Group>, i: nat)
    requires i < |gs|
    ensures Flatten(gs[..i + 1]) == Flatten(gs[..i]) + gs[i]
  {
    assert gs[..i + 1][..i] == gs[..i];
  }

  lemma FlattenPrefixLength(gs: seq<Group>, i: nat)
    requires i <= |gs|
    ensures |Flatten(gs[..i])| <= |Flatten(gs)|
  {
    assert gs == gs[..i] + gs[i..];
    FlattenAppend(gs[..i], gs[i..]);
  }

  lemma PositionsPrefixStep(bits: seq<bool>, p: nat)
    requires p < |bits|
    ensures Positions(bits[..p + 1]) == Positions(bits[..p]) + (if bits[p] then [p] else [])
  {
    assert bits[..p + 1][..p] == bits[..p];
  }

  /** The backwards scan counting how many trailing groups equal the last one. */
  method TrailingCount(groups: seq<Group>) returns (tailCount: nat)
    requires |groups| > 0
    ensures tailCount == TailRun(groups, groups[|groups| - 1])
  {
    var lastType := groups[|groups| - 1];
    tailCount := 0;
    var i := |groups| - 1;
    while i >= 0
      invariant -1 <= i < |groups|
      invariant tailCount == |groups| - 1 - i
      invariant forall j :: i < j < |groups| ==> groups[j] == lastType
    {
      if groups[i] == lastType {
        tailCount := tailCount + 1;
      } else {
        break;
      }
      i := i - 1;
    }
    assert i == -1 || groups[i] != lastType;
    TailRunStops(groups, lastType, tailCount);
  }

  /** One merge round built by appending: the pairs, the remaining head groups, the remaining tail groups. */
  method MergeRound(groups: seq<Group>, headCount: nat, mergeCount: nat) returns (newGroups: seq<Group>)
    requires mergeCount <= headCount && headCount + mergeCount <= |groups|
    ensures newGroups == Merge(groups, headCount, mergeCount)
  {
    newGroups := [];
    for j := 0 to mergeCount
      invariant newGroups == Paired(groups, headCount, j)
    {
      newGroups := newGroups + [groups[j] + groups[headCount + j]];
    }
    for j := mergeCount to headCount
      invariant newGroups == Paired(groups, headCount, mergeCount) + groups[mergeCount..j]
    {
      newGroups := newGroups + [groups[j]];
    }
    for j := headCount + mergeCount to |groups|
      invariant newGroups == Paired(groups, headCount, mergeCount) + groups[mergeCount..headCount]
                             + groups[headCount + mergeCount..j]
    {
      newGroups := newGroups + [groups[j]];
    }
    assert groups[headCount + mergeCount..|groups|] == groups[headCount + mergeCount..];
  }

  /** Copies the groups' bits into a fresh `steps`-long Bool array; the `idx < steps` guard never drops a bit. */
  method FillPattern(groups: seq<Group>, steps: nat) returns (pattern: array<bool>)
    requires |Flatten(groups)| == steps
    ensures fresh(pattern)
    ensures pattern[..] == Flatten(groups)
  {
    pattern := new bool[steps](_ => false);
    var idx := 0;
    for gi := 0 to |groups|
      invariant idx == |Flatten(groups[..gi])| <= steps
      invariant pattern[..idx] == Flatten(groups[..gi])
    {
      var group := groups[gi];
      FlattenPrefixStep(groups, gi);
      FlattenPrefixLength(groups, gi + 1);
      for bi := 0 to |group|
        invariant idx == |Flatten(groups[..gi])| + bi
        invariant pattern[..idx] == Flatten(groups[..gi]) + group[..bi]
      {
        if idx < steps {
          pattern[idx] := group[bi];
          idx := idx + 1;
        }
      }
      assert group[..|group|] == group;
    }
    assert groups[..|groups|] == groups;
    assert pattern[..] == pattern[..idx];
  }

  /** The indices of the `true` entries, in order. */
  method PulseIndices(pattern: array<bool>) returns (r: seq<int>)
    ensures r == Positions(pattern[..])
  {
    r := [];
    for p := 0 to pattern.Length
      invariant r == Positions(pattern[..p])
    {
      PositionsPrefixStep(pattern[..], p);
      assert pattern[..][..p] == pattern[..p] && pattern[..][..p + 1] == pattern[..p + 1];
      if pattern[p] {
        r := r + [p];
      }
    }
    assert pattern[..pattern.Length] == pattern[..];
  }

  /** `computePulsePositions`, Bjorklund's algorithm step by step: merge rounds until the trailing run is single or there is no head, then flatten and collect the pulse indices. */
  method ComputePulsePositions(steps: int, pulses: int) returns (r: seq<int>)
    ensures r == EuclideanPositions(steps, pulses)
  {
    if steps <= 0 {
      return [];
    }
    var k := Min(Max(pulses, 0), steps);
    if k <= 0 {
      return [];
    }
    if k >= steps {
      return Range(steps);
    }

    var groups: seq<Group> := seq(k, _ => [true]) + seq(steps - k, _ => [false]);
    assert groups == InitialGroups(k, steps);
    InitialGroupsHold(k, steps);

    while true
      invariant GroupsHold(groups, steps, k)
      invariant Bjorklund(groups) == Bjorklund(InitialGroups(k, steps))
      decreases |groups|
    {
      var tailCount := TrailingCount(groups);
      var headCount := |groups| - tailCount;
      if tailCount <= 1 || headCount == 0 {
        break;
      }
      var mergeCount := Min(headCount, tailCount);
      var newGroups := MergeRound(groups, headCount, mergeCount);
      MergeKeepsGroups(groups, headCount, mergeCount, steps, k);
      BjorklundRound(groups, headCount, mergeCount);
      groups := newGroups;
    }

    var pattern := FillPattern(groups, steps);
    r := PulseIndices(pattern);
  }

  /* ---------------------------------------------------------------------- */
  /* Sorting, rotation and the full pattern                                  */

  /** Inserts `x` into an ascending list. */
  function Insert(x: int, s: seq<int>): (r: seq<int>)
    requires Ascending(s)
    ensures |r| == |s| + 1 && Ascending(r)
    ensures multiset(r) == multiset(s) + multiset{x}
    ensures forall i :: 0 <= i < |r| ==> r[i] == x || r[i] in s
  {
    if |s| == 0 then [x]
    else if x <= s[0] then [x] + s
    else
      var t := Insert(x, s[1..]);
      InsertStep(x, s, t);
      [s[0]] + t
  }

  /** Putting the head of `s` in front of `x` inserted into the rest of `s` keeps the list ascending, and adds `x` to the elements of `s`. */
  lemma InsertStep(x: int, s: seq<int>, t: seq<int>)
    requires |s| > 0 && Ascending(s) && s[0] < x
    requires Ascending(t) && multiset(t) == multiset(s[1..]) + multiset{x}
    requires forall i :: 0 <= i < |t| ==> t[i] == x || t[i] in s[1..]
    ensures Ascending([s[0]] + t)
    ensures multiset([s[0]] + t) == multiset(s) + multiset{x}
    ensures forall i :: 0 <= i < |t| + 1 ==> ([s[0]] + t)[i] == x || ([s[0]] + t)[i] in s
  {
    assert s == [s[0]] + s[1..];
    forall i | 0 <= i < |t|
      ensures s[0] <= t[i] && (t[i] == x || t[i] in s)
    {
      if t[i] != x {
        var k :| 0 <= k < |s| - 1 && s[1..][k] == t[i];
        assert s[k + 1] == t[i];
      }
    }
  }

  /** Swift's `sorted()` on integers: an ascending permutation. */
  function Sort(s: seq<int>): (r: seq<int>)
    ensures |r| == |s| && Ascending(r)
    ensures multiset(r) == multiset(s)
  {
    if |s| == 0 then []
    else
      assert s == [s[0]] + s[1..];
      Insert(s[0], Sort(s[1..]))
  }

  /** `rotate(positions, by: offset, totalSteps: n)`: each position moved back by the normalised offset, then sorted. */
  function Rotate(ps: seq<int>, offset: int, n: int): (r: seq<int>)
    ensures |r| == |ps|
  {
    if n <= 0 || |ps| == 0 then ps
    else
      var eff := SwiftRem(SwiftRem(offset, n) + n, n);
      if eff <= 0 then ps
      else Sort(seq(|ps|, i requires 0 <= i < |ps| => SwiftRem(ps[i] - eff + n, n)))
  }

  /** `pattern(steps:pulses:rotation:)`: the generator's positions rotated over `steps`. */
  function Pattern(steps: int, pulses: int, rotation: int): (r: seq<int>)
    ensures |r| == |EuclideanPositions(steps, pulses)|
  {
    Rotate(EuclideanPositions(steps, pulses), rotation, steps)
  }

  /** Each position moved back by `offset` around a cycle of `n` steps (Euclidean remainder). */
  function Rotated(ps: seq<int>, offset: int, n: int): (r: seq<int>)
    requires n > 0
    ensures |r| == |ps| && AllBelow(r, n)
  {
    seq(|ps|, i requires 0 <= i < |ps| => (ps[i] - offset) % n)
  }

  /** A non-positive cycle, an empty list, or an offset that is a multiple of the cycle leaves the positions as they are. */
  lemma RotateUnchanged(ps: seq<int>, offset: int, n: int)
    ensures n <= 0 || |ps| == 0 ==> Rotate(ps, offset, n) == ps
    ensures n > 0 && offset % n == 0 ==> Rotate(ps, offset, n) == ps
  {
    if n > 0 {
      NormalisedRem(offset, n);
    }
  }

  /** Rotating by `offset + n` is rotating by `offset`. */
  lemma RotatePeriodic(ps: seq<int>, offset: int, n: int)
    ensures Rotate(ps, offset + n, n) == Rotate(ps, offset, n)
  {
    if n > 0 {
      NormalisedRem(offset, n);
      NormalisedRem(offset + n, n);
      ModAddModulus(offset, n);
    }
  }

  /** On positions inside the cycle the shift `rotate` computes is the Euclidean one. */
  lemma ShiftIsRotated(ps: seq<int>, offset: int, n: int)
    requires n > 0 && AllBelow(ps, n)
    requires offset % n > 0
    ensures seq(|ps|, i requires 0 <= i < |ps| => SwiftRem(ps[i] - offset % n + n, n)) == Rotated(ps, offset, n)
  {
    var eff := offset % n;
    forall i | 0 <= i < |ps|
      ensures SwiftRem(ps[i] - eff + n, n) == (ps[i] - offset) % n
    {
      SwiftRemBounds(ps[i] - eff + n, n);
      assert offset == (offset / n) * n + eff;
      assert ps[i] - eff + n == (ps[i] - offset) + (offset / n + 1) * n;
      ModShiftInt(ps[i] - offset, offset / n + 1, n);
    }
  }

  /** With an offset that is a multiple of the cycle, `Rotated` is the identity on positions inside the cycle. */
  lemma RotatedByMultiple(ps: seq<int>, offset: int, n: int)
    requires n > 0 && AllBelow(ps, n) && offset % n == 0
    ensures Rotated(ps, offset, n) == ps
  {
    var q := offset / n;
    assert offset == q * n;
    forall i | 0 <= i < |ps|
      ensures (ps[i] - offset) % n == ps[i]
    {
      ModShiftInt(ps[i], -q, n);
      DivModUnique(ps[i], 0, ps[i], n);
      assert ps[i] - offset == ps[i] + (-q) * n;
    }
  }

  /** Distinct entries give every value a multiplicity of at most one. */
  lemma {:induction false} DistinctCounts(s: seq<int>)
    requires forall i, j :: 0 <= i < j < |s| ==> s[i] != s[j]
    ensures forall x :: multiset(s)[x] <= 1
  {
    if |s| > 0 {
      var init := s[..|s| - 1];
      DistinctCounts(init);
      assert s == init + [s[|s| - 1]];
      assert s[|s| - 1] !in init;
    }
  }

  /** An ascending list in which no value repeats is strictly ascending. */
  lemma AscendingSingleStrict(r: seq<int>)
    requires Ascending(r)
    requires forall x :: multiset(r)[x] <= 1
    ensures StrictlyAscending(r)
  {
    forall i, j | 0 <= i < j < |r|
      ensures r[i] < r[j]
    {
      assert r == r[..j] + [r[j]] + r[j + 1..];
      assert multiset(r) == multiset(r[..j]) + multiset{r[j]} + multiset(r[j + 1..]);
      assert r[i] in multiset(r[..j]);
      assert multiset(r)[r[i]] >= multiset(r[..j])[r[i]] + (if r[i] == r[j] then 1 else 0);
    }
  }

  /** Moving positions of the cycle back by the same amount keeps them distinct. */
  lemma RotatedDistinct(ps: seq<int>, offset: int, n: int)
    requires n > 0 && AllBelow(ps, n) && StrictlyAscending(ps)
    ensures forall x :: multiset(Rotated(ps, offset, n))[x] <= 1
  {
    var q := Rotated(ps, offset, n);
    forall i, j | 0 <= i < j < |q|
      ensures q[i] != q[j]
    {
      if q[i] == q[j] {
        ModInjective(ps[i], ps[j], offset, n);
      }
    }
    DistinctCounts(q);
  }

  /** Every value of a list with the multiset of a list inside the cycle is inside the cycle. */
  lemma SameMultisetBelow(r: seq<int>, q: seq<int>, n: int)
    requires multiset(r) == multiset(q) && AllBelow(q, n)
    ensures AllBelow(r, n)
  {
    forall i | 0 <= i < |r|
      ensures 0 <= r[i] < n
    {
      assert r[i] in multiset(q);
    }
  }

  /** On a strictly ascending list of positions inside the cycle, rotation yields the rotated positions, strictly ascending. */
  lemma RotateMeaning(ps: seq<int>, offset: int, n: int)
    requires n > 0 && AllBelow(ps, n) && StrictlyAscending(ps)
    ensures StrictlyAscending(Rotate(ps, offset, n))
    ensures AllBelow(Rotate(ps, offset, n), n)
    ensures multiset(Rotate(ps, offset, n)) == multiset(Rotated(ps, offset, n))
  {
    NormalisedRem(offset, n);
    if offset % n == 0 {
      RotatedByMultiple(ps, offset, n);
    } else if |ps| > 0 {
      ShiftIsRotated(ps, offset, n);
      var q := Rotated(ps, offset, n);
      var r := Rotate(ps, offset, n);
      assert r == Sort(q);
      RotatedDistinct(ps, offset, n);
      AscendingSingleStrict(r);
      SameMultisetBelow(r, q, n);
    }
  }

  /** The full pattern: empty for `steps <= 0`; otherwise `clamp(pulses, 0, steps)` strictly ascending indices in `[0, steps)`, namely the generator's positions moved back by `rotation`. */
  lemma PatternShape(steps: int, pulses: int, rotation: int)
    ensures steps <= 0 ==> Pattern(steps, pulses, rotation) == []
    ensures steps > 0 ==>
      var r := Pattern(steps, pulses, rotation);
      && |r| == Clamp(pulses, 0, steps)
      && StrictlyAscending(r)
      && AllBelow(r, steps)
      && multiset(r) == multiset(Rotated(EuclideanPositions(steps, pulses), rotation, steps))
  {
    EuclideanPositionsShape(steps, pulses);
    if steps > 0 {
      RotateMeaning(EuclideanPositions(steps, pulses), rotation, steps);
    }
  }
}

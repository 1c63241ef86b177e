/** The choice of a container's CPUs (lib/utlsys.c:307-440, 1901-1966): a draw without replacement, weighted by the
    inverse of each CPU's load, with a cyclic scan from a random start.

    Reals are exact.  The random numbers are inputs: `draw(i)` is `rand()/RAND_MAX` of round `i`, so it may be 1,
    and `from(i)` the first CPU that round looks at. */
module CpuDraw {
  import opened Options

  // ----- sums over the undrawn weights

  /** A drawn CPU is marked with a negative weight; a CPU outside the host's mask keeps weight 0. */
  function Undrawn(x: real): real { if x < 0.0 then 0.0 else x }

  function Sum(w: seq<real>): real {
    if w == [] then 0.0 else Undrawn(w[0]) + Sum(w[1..])
  }

  /** The CPU number `x` when counting on past `n`. */
  function Wrap(n: nat, x: nat): (c: nat)
    requires x < 2 * n
    ensures c < n
  {
    if x < n then x else x - n
  }

  lemma TwiceOrMore(n: nat, q: nat)
    ensures q >= 2 ==> n * q >= n + n
    ensures q == 1 ==> n * q == n
    ensures q == 0 ==> n * q == 0
  {
    if q >= 2 {
      assert n * q == n + n + n * (q - 2);
    }
  }

  lemma WrapIsRemainder(n: nat, x: nat)
    requires x < 2 * n
    ensures Wrap(n, x) == x % n
  {
    var q, r := x / n, x % n;
    assert x == n * q + r;
    TwiceOrMore(n, q);
  }

  /** The weight of the first `j` CPUs of the scan that begins at `from`. */
  function Scanned(w: seq<real>, from: nat, j: nat): real
    requires from < |w| && j <= |w|
  {
    if j == 0 then 0.0 else Scanned(w, from, j - 1) + Undrawn(w[Wrap(|w|, from + j - 1)])
  }

  /** Where CPU `c` stands in the scan that begins at `from`. */
  function Turn(n: nat, from: nat, c: nat): (j: nat)
    requires from < n && c < n
    ensures j < n && Wrap(n, from + j) == c
  {
    if c >= from then c - from else n + c - from
  }

  /** The lower end of the interval of draws that choose CPU `c`. */
  function Low(w: seq<real>, from: nat, c: nat): real
    requires from < |w| && c < |w|
  {
    Scanned(w, from, Turn(|w|, from, c))
  }

  predicate Chooses(w: seq<real>, from: nat, aleas: real, c: nat)
    requires from < |w|
  {
    c < |w| && w[c] >= 0.0 && Low(w, from, c) <= aleas < Low(w, from, c) + w[c]
  }

  lemma {:induction false} SumConcat(a: seq<real>, b: seq<real>)
    ensures Sum(a + b) == Sum(a) + Sum(b)
  {
    if a == [] {
      assert a + b == b;
    } else {
      assert (a + b)[1..] == a[1..] + b;
      SumConcat(a[1..], b);
    }
  }

  lemma {:induction false} ScanIsSum(w: seq<real>, from: nat, j: nat)
    requires from < |w| && j <= |w|
    ensures Scanned(w, from, j) == Sum((w[from..] + w[..from])[..j])
  {
    var r := w[from..] + w[..from];
    if j > 0 {
      ScanIsSum(w, from, j - 1);
      assert r[..j] == r[..j - 1] + [r[j - 1]];
      SumConcat(r[..j - 1], [r[j - 1]]);
      assert r[j - 1] == w[Wrap(|w|, from + j - 1)];
    }
  }

  /** Wherever it starts, a full scan adds up to the same total. */
  lemma FullScan(w: seq<real>, from: nat)
    requires from < |w|
    ensures Scanned(w, from, |w|) == Sum(w)
  {
    var r := w[from..] + w[..from];
    ScanIsSum(w, from, |w|);
    assert r[..|w|] == r;
    SumConcat(w[from..], w[..from]);
    SumConcat(w[..from], w[from..]);
    assert w[..from] + w[from..] == w;
  }

  lemma {:induction false} ScanMonotone(w: seq<real>, from: nat, i: nat, j: nat)
    requires from < |w| && i <= j <= |w|
    ensures 0.0 <= Scanned(w, from, i) <= Scanned(w, from, j)
    decreases j
  {
    if i < j {
      ScanMonotone(w, from, i, j - 1);
    } else if i > 0 {
      ScanMonotone(w, from, i - 1, i - 1);
    }
  }

  // ----- one round

  /** The CPU that a round picks: the first of the scan whose running load exceeds `aleas`. */
  function PickFrom(w: seq<real>, from: nat, aleas: real, j: nat): Option<nat>
    requires from < |w| && j <= |w|
    decreases |w| - j
  {
    if j == |w| then None
    else
      var cpu := Wrap(|w|, from + j);
      if w[cpu] >= 0.0 && aleas < Scanned(w, from, j + 1) then Some(cpu)
      else PickFrom(w, from, aleas, j + 1)
  }

  function Pick(w: seq<real>, from: nat, aleas: real): Option<nat>
    requires from < |w|
  {
    PickFrom(w, from, aleas, 0)
  }

  lemma {:induction false} PickFromMeaning(w: seq<real>, from: nat, aleas: real, j: nat)
    requires from < |w| && j <= |w| && Scanned(w, from, j) <= aleas
    ensures match PickFrom(w, from, aleas, j)
            case Some(c) => Chooses(w, from, aleas, c) && Turn(|w|, from, c) >= j
            case None => aleas >= Scanned(w, from, |w|)
    decreases |w| - j
  {
    if j < |w| {
      var cpu := Wrap(|w|, from + j);
      if !(w[cpu] >= 0.0 && aleas < Scanned(w, from, j + 1)) {
        PickFromMeaning(w, from, aleas, j + 1);
      }
    }
  }

  /** The intervals of two CPUs do not meet. */
  lemma IntervalsDisjoint(w: seq<real>, from: nat, aleas: real, c: nat, d: nat)
    requires from < |w| && Chooses(w, from, aleas, c) && Chooses(w, from, aleas, d)
    ensures c == d
  {
    var i, j := Turn(|w|, from, c), Turn(|w|, from, d);
    if i < j {
      ScanMonotone(w, from, i + 1, j);
    } else if j < i {
      ScanMonotone(w, from, j + 1, i);
    }
  }

  /** A round is proportional whatever its start: CPU `c` is picked exactly when the draw lies in a half-open interval
      as long as its weight; these intervals tile [0, sum), and beyond it nothing is picked. */
  lemma RoundIsProportional(w: seq<real>, from: nat, aleas: real)
    requires from < |w| && aleas >= 0.0
    ensures forall c: nat :: Pick(w, from, aleas) == Some(c) <==> Chooses(w, from, aleas, c)
    ensures Pick(w, from, aleas).Some? <==> aleas < Sum(w)
    ensures forall c: nat :: c < |w| && w[c] >= 0.0 ==> 0.0 <= Low(w, from, c) && Low(w, from, c) + w[c] <= Sum(w)
  {
    PickFromMeaning(w, from, aleas, 0);
    FullScan(w, from);
    forall c: nat | c < |w| && w[c] >= 0.0
      ensures 0.0 <= Low(w, from, c) && Low(w, from, c) + w[c] <= Sum(w)
    {
      var j := Turn(|w|, from, c);
      ScanMonotone(w, from, j, j);
      ScanMonotone(w, from, j + 1, |w|);
    }
    forall c: nat | Chooses(w, from, aleas, c) ensures Pick(w, from, aleas) == Some(c) {
      var d := Pick(w, from, aleas).value;
      IntervalsDisjoint(w, from, aleas, c, d);
    }
  }

  // ----- all rounds

  function Round(w: seq<real>, from: nat, aleas: real): (v: seq<real>)
    requires from < |w|
    ensures |v| == |w|
  {
    match Pick(w, from, aleas)
    case None => w
    case Some(c) => if c < |w| then w[c := -1.0] else w
  }

  /** `aleas`: a random number scaled to what is left. */
  function Aim(draw: real, w: seq<real>): real { Times(draw, Sum(w)) }

  function Times(a: real, b: real): real { a * b }

  ghost function Rounds(w: seq<real>, from: nat -> nat, draw: nat -> real, k: nat): (v: seq<real>)
    requires RealDraws(|w|, from, draw)
    ensures |v| == |w|
  {
    if k == 0 then w
    else
      var v := Rounds(w, from, draw, k - 1);
      Round(v, from(k - 1), Aim(draw(k - 1), v))
  }

  /** The CPUs that can still be drawn. */
  function Available(w: seq<real>): set<nat> { set c: nat | c < |w| && w[c] > 0.0 }

  function Drawn(before: seq<real>, after: seq<real>): set<nat>
    requires |before| == |after|
  {
    set c: nat | c < |before| && before[c] >= 0.0 && after[c] < 0.0
  }

  /** How many of the first `k` draws are below 1. */
  function Below(draw: nat -> real, k: nat): nat {
    if k == 0 then 0 else Below(draw, k - 1) + if draw(k - 1) < 1.0 then 1 else 0
  }

  lemma {:induction false} SumPositive(w: seq<real>)
    ensures Sum(w) >= 0.0
    ensures Sum(w) > 0.0 <==> Available(w) != {}
  {
    if w != [] {
      SumPositive(w[1..]);
      forall c: nat
        ensures c in Available(w[1..]) <==> c + 1 in Available(w)
      {
        assert c < |w[1..]| ==> w[1..][c] == w[c + 1];
      }
      AvailableShift(w);
    }
  }

  lemma AvailableShift(w: seq<real>)
    requires w != [] && forall c: nat :: c in Available(w[1..]) <==> c + 1 in Available(w)
    ensures Available(w) != {} <==> w[0] > 0.0 || Available(w[1..]) != {}
  {
    assert w[0] > 0.0 ==> 0 in Available(w);
    assert forall c :: c in Available(w) ==> c == 0 || c - 1 in Available(w[1..]);
  }

  lemma {:induction false} SumWithout(w: seq<real>, c: nat)
    requires c < |w| && w[c] >= 0.0
    ensures Sum(w[c := -1.0]) == Sum(w) - w[c]
  {
    if c == 0 {
      assert w[c := -1.0][1..] == w[1..];
    } else {
      assert w[c := -1.0][1..] == w[1..][c - 1 := -1.0];
      SumWithout(w[1..], c - 1);
    }
  }

  /** One round: while something is left below the total it picks exactly one CPU that was available, whatever the
      start, and the total drops by that CPU's weight; otherwise it picks none. */
  lemma RoundPicksOne(w: seq<real>, from: nat, aleas: real)
    requires from < |w| && 0.0 <= aleas
    ensures var p := Pick(w, from, aleas);
            && (p.Some? <==> aleas < Sum(w))
            && (p.Some? ==> p.value in Available(w) && Round(w, from, aleas) == w[p.value := -1.0]
                            && Available(Round(w, from, aleas)) == Available(w) - {p.value}
                            && Sum(Round(w, from, aleas)) == Sum(w) - w[p.value])
            && (p.None? ==> Round(w, from, aleas) == w)
  {
    RoundIsProportional(w, from, aleas);
    var p := Pick(w, from, aleas);
    if p.Some? {
      assert Chooses(w, from, aleas, p.value);
      SumWithout(w, p.value);
      var v := w[p.value := -1.0];
      assert forall c: nat :: c < |w| && c != p.value ==> v[c] == w[c];
    }
  }

  lemma AimBound(draw: real, w: seq<real>)
    requires 0.0 <= draw <= 1.0
    ensures 0.0 <= Aim(draw, w)
    ensures Aim(draw, w) < Sum(w) <==> draw < 1.0 && Available(w) != {}
  {
    SumPositive(w);
    ProductBound(draw, Sum(w));
  }

  lemma ProductBound(draw: real, total: real)
    requires 0.0 <= draw <= 1.0 && total >= 0.0
    ensures 0.0 <= Times(draw, total)
    ensures Times(draw, total) < total <==> draw < 1.0 && total > 0.0
  {
    if draw < 1.0 && total > 0.0 {
      assert (1.0 - draw) * total > 0.0;
    }
    assert (1.0 - draw) * total == total - draw * total;
    assert (1.0 - draw) * total >= 0.0;
  }

  ghost predicate RealDraws(n: nat, from: nat -> nat, draw: nat -> real) {
    forall i: nat :: from(i) < n && 0.0 <= draw(i) <= 1.0
  }

  /** `v` is what is left of `w` after some rounds: only weights of available CPUs were marked. */
  ghost predicate LeftOf(w: seq<real>, v: seq<real>) {
    && |v| == |w|
    && (forall c :: 0 <= c < |w| ==> w[c] >= 0.0 && (v[c] == w[c] || (v[c] == -1.0 && w[c] > 0.0)))
  }

  lemma LeftOfSets(w: seq<real>, v: seq<real>)
    requires LeftOf(w, v)
    ensures Drawn(w, v) == Available(w) - Available(v) && Available(v) <= Available(w)
    ensures |Drawn(w, v)| == |Available(w)| - |Available(v)|
  {
    assert Available(w) == Available(v) + Drawn(w, v);
  }

  lemma OneMoreRound(w: seq<real>, u: seq<real>, from: nat, aleas: real)
    requires from < |u| && 0.0 <= aleas && LeftOf(w, u)
    ensures var p := Pick(u, from, aleas);
            var v := Round(u, from, aleas);
            && LeftOf(w, v) && (p.Some? <==> aleas < Sum(u))
            && Drawn(w, v) == Drawn(w, u) + (if p.Some? then {p.value} else {})
            && |Drawn(w, v)| == |Drawn(w, u)| + if p.Some? then 1 else 0
  {
    RoundPicksOne(u, from, aleas);
    AfterRound(w, u, Round(u, from, aleas), Pick(u, from, aleas));
  }

  /** The book-keeping of one round. */
  lemma AfterRound(w: seq<real>, u: seq<real>, v: seq<real>, p: Option<nat>)
    requires LeftOf(w, u) && |v| == |u|
    requires p.None? ==> v == u
    requires p.Some? ==> p.value in Available(u) && v == u[p.value := -1.0] && Available(v) == Available(u) - {p.value}
    ensures LeftOf(w, v)
    ensures Drawn(w, v) == Drawn(w, u) + (if p.Some? then {p.value} else {})
    ensures |Drawn(w, v)| == |Drawn(w, u)| + if p.Some? then 1 else 0
  {
    if p.Some? {
      assert Drawn(w, v) == Drawn(w, u) + {p.value};
      assert p.value !in Drawn(w, u);
    }
  }

  /** All rounds together: exactly one CPU is drawn per draw below 1 until none is left, all of them different, all
      of them available at the start. */
  lemma {:induction false} RoundsDrawDistinct(w: seq<real>, from: nat -> nat, draw: nat -> real, k: nat)
    requires RealDraws(|w|, from, draw)
    requires forall c :: 0 <= c < |w| ==> w[c] >= 0.0
    ensures LeftOf(w, Rounds(w, from, draw, k))
    ensures |Drawn(w, Rounds(w, from, draw, k))| == Min(Below(draw, k), |Available(w)|)
  {
    if k == 0 {
      assert Drawn(w, w) == {};
    } else {
      RoundsDrawDistinct(w, from, draw, k - 1);
      var u := Rounds(w, from, draw, k - 1);
      AimBound(draw(k - 1), u);
      OneMoreRound(w, u, from(k - 1), Aim(draw(k - 1), u));
      LeftOfSets(w, u);
    }
  }

  /** What round `k` adds to the CPUs drawn so far. */
  lemma NextRound(w: seq<real>, from: nat -> nat, draw: nat -> real, k: nat)
    requires RealDraws(|w|, from, draw)
    requires forall c :: 0 <= c < |w| ==> w[c] >= 0.0
    ensures var v := Rounds(w, from, draw, k);
            var p := Pick(v, from(k), Aim(draw(k), v));
            && 0.0 <= Aim(draw(k), v)
            && Rounds(w, from, draw, k + 1) == Round(v, from(k), Aim(draw(k), v))
            && Drawn(w, Rounds(w, from, draw, k + 1)) == Drawn(w, v) + if p.Some? then {p.value} else {}
  {
    RoundsDrawDistinct(w, from, draw, k);
    var v := Rounds(w, from, draw, k);
    AimBound(draw(k), v);
    OneMoreRound(w, v, from(k), Aim(draw(k), v));
  }

  function Min(a: int, b: int): int { if a <= b then a else b }

  lemma {:induction false} AllBelow(draw: nat -> real, k: nat)
    requires forall i: nat :: i < k ==> draw(i) < 1.0
    ensures Below(draw, k) == k
  {
    if k > 0 {
      AllBelow(draw, k - 1);
    }
  }

  // ----- the selector

  /** A line of /proc/stat: a CPU's id and its user, nice and system times, or anything else. */
  datatype StatLine = Cpu(id: int, user: nat, nice: nat, system: nat) | OtherLine

  /** C's conversion from double to long. */
  function Truncate(x: real): int { if x < 0.0 then -((-x).Floor) else x.Floor }

  /** How many CPUs a ratio in percent asks for. */
  function Wanted(maxavail: nat, ratio: real): (n: nat)
    ensures n >= 1
    ensures maxavail >= 1 ==> n <= maxavail
  {
    var r := if ratio > 100.0 then 100.0 else ratio;
    var n := Truncate(maxavail as real * r / 100.0);
    WantedBound(maxavail, r);
    if n <= 0 then 1 else n
  }

  lemma WantedBound(maxavail: nat, r: real)
    requires r <= 100.0
    ensures Truncate(maxavail as real * r / 100.0) <= maxavail
  {
    var m := maxavail as real;
    assert m * r <= m * 100.0;
    assert m * r / 100.0 <= m;
  }

  lemma TruncateShare(share: real)
    ensures var n := if Truncate(share) <= 0 then 1 else Truncate(share);
            (share < 1.0 ==> n == 1) && (share >= 1.0 ==> n as real <= share < n as real + 1.0)
  {
  }

  /** The wanted number is the percentage of the available CPUs, rounded down, but at least one; more than a hundred
      percent is a hundred. */
  lemma WantedMeaning(maxavail: nat, ratio: real, share: real)
    requires maxavail >= 1 && share == maxavail as real * ratio / 100.0
    ensures ratio >= 100.0 ==> Wanted(maxavail, ratio) == maxavail
    ensures ratio < 100.0 ==>
              var n := Wanted(maxavail, ratio);
              (share < 1.0 ==> n == 1) && (share >= 1.0 ==> n as real <= share < n as real + 1.0)
  {
    if ratio >= 100.0 {
      assert maxavail as real * 100.0 / 100.0 == maxavail as real;
    } else {
      TruncateShare(share);
    }
  }

  function InRange(mask: set<nat>, n: nat): set<nat> { set c | c in mask && c < n }

  /** The line that belongs to CPU `c`: there is one line for each CPU of the mask, and none for the others. */
  function LineOf(mask: set<nat>, lines: seq<StatLine>, c: nat): StatLine {
    var k := |InRange(mask, c)|;
    if k < |lines| then lines[k] else OtherLine
  }

  function Load(line: StatLine): nat {
    if line.Cpu? then line.user + line.nice + line.system else 0
  }

  /** The weight of CPU `c` when it can be allocated. */
  function WeightOf(mask: set<nat>, lines: seq<StatLine>, c: nat): real {
    if c in mask then 1.0 / (Load(LineOf(mask, lines, c)) + 1) as real else 0.0
  }

  function Weights(mask: set<nat>, lines: seq<StatLine>, n: nat): seq<real> {
    seq(n, c requires 0 <= c < n => WeightOf(mask, lines, c))
  }

  class Selector {
    var weights: array<real>
    var sumW: real
    var drawn: set<nat>

    constructor (maxcpu: nat)
      ensures fresh(weights) && weights.Length == maxcpu && sumW == 0.0 && drawn == {}
      ensures forall c :: 0 <= c < maxcpu ==> weights[c] == 0.0
    {
      weights := new real[maxcpu](_ => 0.0);
      sumW := 0.0;
      drawn := {};
    }

    /** Phase 4: one line per CPU of the mask, in order; a missing or unexpected line gives up. */
    method ReadWeights(mask: set<nat>, lines: seq<StatLine>) returns (isok: bool)
      requires sumW == 0.0 && forall c :: 0 <= c < weights.Length ==> weights[c] == 0.0
      modifies this`sumW, weights
      ensures isok <==> Readable(mask, lines, weights.Length, 0)
      ensures isok ==> weights[..] == Weights(mask, lines, weights.Length) && sumW == Sum(weights[..])
    {
      var next := 0;
      var i := 0;
      while i < weights.Length
        invariant 0 <= i <= weights.Length && next <= |lines|
        invariant next == |InRange(mask, i)|
        invariant forall c :: 0 <= c < i ==> weights[c] == WeightOf(mask, lines, c)
        invariant forall c :: i <= c < weights.Length ==> weights[c] == 0.0
        invariant Readable(mask, lines, weights.Length, 0) == ReadableFrom(mask, lines, weights.Length, i, next)
        invariant sumW == Sum(weights[..i])
      {
        ghost var done := weights[..i];
        OneFurther(mask, i);
        if i in mask {
          if next == |lines| || lines[next].OtherLine? || lines[next].id != i {
            return false;
          }
          var line := lines[next];
          next := next + 1;
          var work := line.user + line.nice + line.system;
          weights[i] := 1.0 / (work + 1) as real;
          sumW := sumW + weights[i];
        }
        assert weights[..i + 1] == done + [weights[i]];
        SumConcat(done, [weights[i]]);
        i := i + 1;
      }
      assert weights[..weights.Length] == weights[..];
      isok := true;
    }

    /** One pass of phase 5: scan from `start` and draw the CPU that the running load reaches. */
    method DrawOne(start: nat, aleas: real)
      requires start < weights.Length && 0.0 <= aleas && sumW == Sum(weights[..])
      modifies this`sumW, this`drawn, weights
      ensures weights[..] == Round(old(weights[..]), start, aleas)
      ensures sumW == Sum(weights[..])
      ensures var p := Pick(old(weights[..]), start, aleas);
              drawn == old(drawn) + if p.Some? then {p.value} else {}
    {
      ghost var w := weights[..];
      RoundPicksOne(w, start, aleas);
      var p := Reach(start, aleas);
      if p.Some? {
        var cpu := p.value;
        drawn := drawn + {cpu};
        sumW := sumW - weights[cpu];
        weights[cpu] := -1.0;
      }
    }

    /** The inner loop, up to its break. */
    method Reach(start: nat, aleas: real) returns (p: Option<nat>)
      requires start < weights.Length
      ensures p == Pick(weights[..], start, aleas)
    {
      ghost var w := weights[..];
      p := None;
      var load := 0.0;
      var j := 0;
      while j < weights.Length
        invariant 0 <= j <= weights.Length && p == None
        invariant load == Scanned(w, start, j)
        invariant PickFrom(w, start, aleas, j) == Pick(w, start, aleas)
      {
        var cpu := CpuAt(start, j);
        if weights[cpu] >= 0.0 {
          load := load + weights[cpu];
          if aleas < load {
            return Some(cpu);
          }
        }
        j := j + 1;
      }
    }

    method CpuAt(start: nat, j: nat) returns (cpu: nat)
      requires start < weights.Length && j < weights.Length
      ensures cpu == Wrap(weights.Length, start + j)
    {
      WrapIsRemainder(weights.Length, start + j);
      cpu := (start + j) % weights.Length;
    }

    /** Phase 5. */
    method DrawAll(selected: nat, from: nat -> nat, draw: nat -> real)
      requires RealDraws(weights.Length, from, draw) && sumW == Sum(weights[..]) && drawn == {}
      requires forall c :: 0 <= c < weights.Length ==> weights[c] >= 0.0
      modifies this`sumW, this`drawn, weights
      ensures weights[..] == Rounds(old(weights[..]), from, draw, selected)
      ensures sumW == Sum(weights[..])
      ensures drawn == Drawn(old(weights[..]), weights[..])
      ensures drawn <= Available(old(weights[..]))
      ensures |drawn| == Min(Below(draw, selected), |Available(old(weights[..]))|)
    {
      ghost var w := weights[..];
      var i := 0;
      while i < selected
        invariant 0 <= i <= selected
        invariant weights[..] == Rounds(w, from, draw, i) && sumW == Sum(weights[..])
        invariant drawn == Drawn(w, weights[..])
      {
        NextRound(w, from, draw, i);
        var aleas := Times(draw(i), sumW);
        DrawOne(from(i), aleas);
        i := i + 1;
      }
      RoundsDrawDistinct(w, from, draw, selected);
      LeftOfSets(w, weights[..]);
    }
  }

  lemma OneFurther(mask: set<nat>, c: nat)
    ensures |InRange(mask, c + 1)| == |InRange(mask, c)| + if c in mask then 1 else 0
  {
    assert InRange(mask, c + 1) == InRange(mask, c) + if c in mask then {c} else {};
  }

  /** The lines can be read if and only if each CPU of the mask finds, behind the lines of the smaller ones, its own. */
  lemma ReadableMeaning(mask: set<nat>, lines: seq<StatLine>, n: nat)
    ensures Readable(mask, lines, n, 0) <==>
              forall c: nat :: c < n && c in mask ==>
                LineOf(mask, lines, c).Cpu? && LineOf(mask, lines, c).id == c
  {
    assert InRange(mask, 0) == {};
    ReadableFromMeaning(mask, lines, n, 0);
  }

  lemma {:induction false} ReadableFromMeaning(mask: set<nat>, lines: seq<StatLine>, n: nat, i: nat)
    requires i <= n && |InRange(mask, i)| <= |lines|
    ensures ReadableFrom(mask, lines, n, i, |InRange(mask, i)|) <==>
              forall c: nat :: i <= c < n && c in mask ==>
                LineOf(mask, lines, c).Cpu? && LineOf(mask, lines, c).id == c
    decreases n - i
  {
    if i < n {
      OneFurther(mask, i);
      if i !in mask || |InRange(mask, i)| < |lines| {
        ReadableFromMeaning(mask, lines, n, i + 1);
      }
    }
  }

  /** The weights are the inverse loads: weight times load plus one is 1 for each CPU of the mask, so of two CPUs
      the one with the smaller load has the larger weight, and by `RoundIsProportional` the longer interval of
      draws. */
  lemma WeightsAreInverse(mask: set<nat>, lines: seq<StatLine>, n: nat)
    requires Readable(mask, lines, n, 0)
    ensures var w := Weights(mask, lines, n);
            && Available(w) == InRange(mask, n)
            && (forall c: nat :: c < n && c !in mask ==> w[c] == 0.0)
            && forall c: nat :: c < n && c in mask ==>
                 var line := LineOf(mask, lines, c);
                 line.Cpu? && line.id == c && Times(w[c], (line.user + line.nice + line.system + 1) as real) == 1.0
  {
    ReadableMeaning(mask, lines, n);
    var w := Weights(mask, lines, n);
    forall c: nat | c < n
      ensures c in mask ==> w[c] > 0.0 && Times(w[c], (Load(LineOf(mask, lines, c)) + 1) as real) == 1.0
      ensures c !in mask ==> w[c] == 0.0
    {
      Inverse(Load(LineOf(mask, lines, c)));
    }
    assert forall c: nat :: c in Available(w) <==> c in InRange(mask, n);
  }

  lemma Inverse(load: nat)
    ensures 1.0 / (load + 1) as real > 0.0 && Times(1.0 / (load + 1) as real, (load + 1) as real) == 1.0
  {
  }

  lemma LessLoadedWeighsMore(mask: set<nat>, lines: seq<StatLine>, n: nat, c: nat, d: nat)
    requires Readable(mask, lines, n, 0) && c < n && d < n && c in mask && d in mask
    ensures var w := Weights(mask, lines, n);
            var x, y := LineOf(mask, lines, c), LineOf(mask, lines, d);
            x.Cpu? && y.Cpu? &&
            (w[c] > w[d] <==> x.user + x.nice + x.system < y.user + y.nice + y.system)
  {
    ReadableMeaning(mask, lines, n);
    var a, b := Load(LineOf(mask, lines, c)) + 1, Load(LineOf(mask, lines, d)) + 1;
    Inverses(a as real, b as real);
  }

  lemma Inverses(a: real, b: real)
    requires a > 0.0 && b > 0.0
    ensures 1.0 / a > 1.0 / b <==> a < b
  {
    var x, y := 1.0 / a, 1.0 / b;
    assert x * a == 1.0 && y * b == 1.0;
    if a < b {
      assert x * a < x * b;
      assert (x - y) * b > 0.0;
    } else {
      assert x * b <= x * a;
      assert (x - y) * b <= 0.0;
    }
  }

  /** An idle CPU 0 and a busy CPU 1: half of the way up, the draw meets CPU 0. */
  lemma IdleCpuIsDrawn(mask: set<nat>, lines: seq<StatLine>, from: nat -> nat, draw: nat -> real)
    requires mask == {0, 1} && lines == [Cpu(0, 0, 0, 0), Cpu(1, 900, 0, 99)]
    requires RealDraws(2, from, draw) && from(0) == 0 && draw(0) == 0.5
    ensures Wanted(2, 50.0) == 1
    ensures Drawn(Weights(mask, lines, 2), Rounds(Weights(mask, lines, 2), from, draw, 1)) == {0}
  {
    var w := Weights(mask, lines, 2);
    assert InRange(mask, 0) == {} && InRange(mask, 1) == {0};
    assert w == [1.0, 1.0 / 1000.0];
    var rest := w[1..];
    assert rest == [1.0 / 1000.0] && rest[1..] == [] && Sum(rest) == Undrawn(rest[0]) + Sum(rest[1..]);
    assert Sum(rest) == 1.0 / 1000.0;
    assert Sum(w) == 1.0 + 1.0 / 1000.0;
    assert Scanned(w, 0, 1) == 1.0;
    assert Rounds(w, from, draw, 0) == w;
    assert Rounds(w, from, draw, 1) == w[0 := -1.0];
  }

  /** The lines of /proc/stat fit the mask: its CPUs below `n` are met in order, one line each. */
  predicate Readable(mask: set<nat>, lines: seq<StatLine>, n: nat, next: nat)
    requires next <= |lines|
  {
    ReadableFrom(mask, lines, n, 0, next)
  }

  predicate ReadableFrom(mask: set<nat>, lines: seq<StatLine>, n: nat, i: nat, next: nat)
    requires i <= n && next <= |lines|
    decreases n - i
  {
    if i == n then true
    else if i !in mask then ReadableFrom(mask, lines, n, i + 1, next)
    else next < |lines| && lines[next].Cpu? && lines[next].id == i && ReadableFrom(mask, lines, n, i + 1, next + 1)
  }

  /** On the usual /proc/stat, one line per CPU from 0 on, the lines fit exactly when the mask has no hole: a CPU
      missing from the affinity mask before one that is in it makes the whole selection fail. */
  lemma ReadableIffNoHole(mask: set<nat>, lines: seq<StatLine>, n: nat)
    requires n <= |lines| && forall k :: 0 <= k < |lines| ==> lines[k].Cpu? && lines[k].id == k
    ensures Readable(mask, lines, n, 0) <==> forall c: nat, d: nat :: c < d < n && d in mask ==> c in mask
  {
    ReadableFromHole(mask, lines, n, 0, 0);
  }

  /** An input on which the allocator fails: CPU 1 of four is left out of the mask, and the online count is that of
      the mask, as a C library reports it that counts the CPUs a process may use.  The host list is then accepted, but
      the line of CPU 1 is met where that of CPU 2 is expected. */
  lemma HoleFails(mask: set<nat>, lines: seq<StatLine>)
    requires mask == {0, 2, 3} && |lines| == 4 && forall k :: 0 <= k < 4 ==> lines[k].Cpu? && lines[k].id == k
    ensures |InRange(mask, 4)| == 3 && !Readable(mask, lines, 3, 0)
  {
    assert InRange(mask, 4) == mask;
    ReadableIffNoHole(mask, lines, 3);
    var c, d := 1, 2;
    assert c < d < 3 && d in mask && c !in mask;
  }

  /** Where the lines are those of the CPUs 0 to `n` - 1 and the mask names only such, an accepted host list leaves no
      hole, and reading succeeds. */
  lemma OnlineListed(mask: set<nat>, maxcpu: nat, lines: seq<StatLine>, n: nat)
    requires |lines| == n <= maxcpu && forall k :: 0 <= k < n ==> lines[k].Cpu? && lines[k].id == k
    requires (forall c :: c in mask ==> c < n) && |InRange(mask, maxcpu)| == n
    ensures Readable(mask, lines, n, 0)
  {
    assert InRange(mask, maxcpu) == mask;
    AllNamed(mask, n);
    ReadableIffNoHole(mask, lines, n);
  }

  /** As many numbers below `n` as there are, are all of them. */
  lemma {:induction false} AllNamed(mask: set<nat>, n: nat)
    requires forall c :: c in mask ==> c < n
    ensures |mask| <= n
    ensures |mask| == n ==> forall c: nat :: c < n ==> c in mask
  {
    if n > 0 {
      AllNamed(mask - {n - 1}, n - 1);
    } else {
      assert mask == {};
    }
  }

  lemma {:induction false} ReadableFromHole(mask: set<nat>, lines: seq<StatLine>, n: nat, i: nat, next: nat)
    requires next <= i <= n <= |lines| && forall k :: 0 <= k < |lines| ==> lines[k].Cpu? && lines[k].id == k
    ensures next == i ==> (ReadableFrom(mask, lines, n, i, next) <==>
                             forall c: nat, d: nat :: i <= c < d < n && d in mask ==> c in mask)
    ensures next < i ==> (ReadableFrom(mask, lines, n, i, next) <==> forall d: nat :: i <= d < n ==> d !in mask)
    decreases n - i
  {
    if i < n {
      if i !in mask {
        ReadableFromHole(mask, lines, n, i + 1, next);
      } else if next == i {
        ReadableFromHole(mask, lines, n, i + 1, next + 1);
      }
    }
  }

  /** cpuselector, phases 0 to 5.  `mask` is the affinity mask, `maxcpu` and `maxavail` the configured and the online
      CPU counts, `stat` what is read from /proc/stat if it can be opened, its first line for all CPUs included. */
  method SelectCpus(mask: set<nat>, maxcpu: nat, maxavail: nat, ratio: real, stat: Option<seq<StatLine>>,
                    from: nat -> nat, draw: nat -> real)
    returns (isok: bool, chosen: set<nat>)
    requires maxavail >= 1 && RealDraws(maxavail, from, draw)
    ensures isok <==> |InRange(mask, maxcpu)| == maxavail && stat.Some? && stat.value != [] &&
                      Readable(mask, stat.value[1..], maxavail, 0)
    ensures isok ==>
              var w := Weights(mask, stat.value[1..], maxavail);
              chosen == Drawn(w, Rounds(w, from, draw, Wanted(maxavail, ratio)))
    ensures isok ==> chosen <= InRange(mask, maxavail)
    ensures isok ==> |chosen| == Min(Below(draw, Wanted(maxavail, ratio)), |InRange(mask, maxavail)|)
    ensures (isok && |InRange(mask, maxavail)| == maxavail
             && forall i: nat :: i < Wanted(maxavail, ratio) ==> draw(i) < 1.0)
            ==> |chosen| == Wanted(maxavail, ratio)
  {
    chosen := {};
    if |InRange(mask, maxcpu)| != maxavail || stat.None? || stat.value == [] {
      return false, {};
    }
    var s := new Selector(maxavail);
    isok := s.ReadWeights(mask, stat.value[1..]);
    if isok {
      WeightsAreInverse(mask, stat.value[1..], maxavail);
      assert forall c :: 0 <= c < maxavail ==> s.weights[..][c] >= 0.0;
      s.DrawAll(Wanted(maxavail, ratio), from, draw);
      chosen := s.drawn;
      if forall i: nat :: i < Wanted(maxavail, ratio) ==> draw(i) < 1.0 {
        AllBelow(draw, Wanted(maxavail, ratio));
      }
    }
  }
}

/** The container weight splitter that proposes per-container weights when a
    shipment is split: the first container is filled to 30 kg and what is
    left is shared evenly among the others, each share capped at the maximum
    container weight. Weights are exact reals. */
module Splitter {
  import opened Catalog

  /** The weight put in the first container, written as a literal 30 kg in
      the splitter (the same value as MaxWeightKg). */
  const FirstContainerKg: real := 30.0

  function Min(a: real, b: real): real
  {
    if a <= b then a else b
  }

  /** The proposed weight of each container after the first. */
  function ContainerShare(totalKg: real, n: int): (share: real)
    requires n > 1
    ensures share <= MaxWeightKg
    ensures share <= (totalKg - FirstContainerKg) / ((n - 1) as real)
    ensures share < MaxWeightKg ==> share == (totalKg - FirstContainerKg) / ((n - 1) as real)
  {
    Min(MaxWeightKg, (totalKg - FirstContainerKg) / ((n - 1) as real))
  }

  /** The sum of a list of weights. */
  function Sum(ws: seq<real>): real
  {
    if ws == [] then 0.0 else ws[0] + Sum(ws[1..])
  }

  lemma {:induction false} SumAppend(ws: seq<real>, x: real)
    ensures Sum(ws + [x]) == Sum(ws) + x
  {
    if ws == [] {
      assert [] + [x] == [x];
    } else {
      assert (ws + [x])[1..] == ws[1..] + [x];
      SumAppend(ws[1..], x);
    }
  }

  /** The even share conserves the weight exactly when the remainder fits
      under the cap, and drops weight otherwise. */
  lemma ShareTimesCount(totalKg: real, n: int)
    requires n > 1
    ensures var k := (n - 1) as real;
      && (totalKg - FirstContainerKg <= MaxWeightKg * k ==> FirstContainerKg + k * ContainerShare(totalKg, n) == totalKg)
      && (totalKg - FirstContainerKg > MaxWeightKg * k ==> FirstContainerKg + k * ContainerShare(totalKg, n) < totalKg)
  {
    var k := (n - 1) as real;
    var q := (totalKg - FirstContainerKg) / k;
    assert k * q == totalKg - FirstContainerKg;
    assert q <= MaxWeightKg <==> totalKg - FirstContainerKg <= MaxWeightKg * k;
  }

  /** The splitter loop: `n` proposed weights (one when `n` is not above 1),
      the first 30 kg and the rest the capped even share; every weight is at
      most MaxWeightKg, and the weights add up to the total exactly when the
      remainder fits in the other containers, and to less otherwise. */
  method SplitWeights(totalKg: real, n: int) returns (weights: seq<real>)
    ensures |weights| == if n > 1 then n else 1
    ensures weights[0] == FirstContainerKg
    ensures n > 1 ==> forall i :: 1 <= i < |weights| ==> weights[i] == ContainerShare(totalKg, n)
    ensures forall i :: 0 <= i < |weights| ==> weights[i] <= MaxWeightKg
    ensures n > 1 && totalKg - FirstContainerKg <= MaxWeightKg * ((n - 1) as real) ==> Sum(weights) == totalKg
    ensures n > 1 && totalKg - FirstContainerKg > MaxWeightKg * ((n - 1) as real) ==> Sum(weights) < totalKg
    ensures n <= 1 ==> Sum(weights) == FirstContainerKg
  {
    weights := [FirstContainerKg];
    var remaining := totalKg - FirstContainerKg;
    if n > 1 {
      var share := ContainerShare(totalKg, n);
      for i := 1 to n
        invariant |weights| == i
        invariant weights[0] == FirstContainerKg
        invariant forall j :: 1 <= j < i ==> weights[j] == share
        invariant Sum(weights) == FirstContainerKg + ((i - 1) as real) * share
      {
        SumAppend(weights, Min(MaxWeightKg, remaining / ((n - 1) as real)));
        weights := weights + [Min(MaxWeightKg, remaining / ((n - 1) as real))];
      }
      ShareTimesCount(totalKg, n);
    }
  }

  /** The common case: 45 kg in two containers proposes 30 kg and 15 kg,
      which add up to the total. */
  lemma FortyFiveKgInTwo()
    ensures ContainerShare(45.0, 2) == 15.0
    ensures Sum([FirstContainerKg, ContainerShare(45.0, 2)]) == 45.0
  {
    var ws := [FirstContainerKg, ContainerShare(45.0, 2)];
    assert ws[1..] == [15.0];
    assert [15.0][1..] == [];
    assert Sum([15.0]) == 15.0;
  }

  /** A share below the minimum container weight is possible: 31 kg in three
      containers proposes 0.5 kg for each of the last two. */
  lemma ShareCanFallBelowMinimum()
    ensures ContainerShare(31.0, 3) == 0.5 && ContainerShare(31.0, 3) < MinWeightKg
  {
  }
}

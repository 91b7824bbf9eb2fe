/**
  The generic evolution engine (src/genetic_learning/evolution.rs).  A
  population is a list of individuals that can report a fitness, breed with
  one another and mutate.  Selection keeps the individuals whose normalised
  fitness reaches a threshold; a generation replaces the population by as
  many children of the selected elite.

  Fitness (`f32`) is a `real`; the one place where floating point shows,
  division by a maximum fitness of 0, is modelled by `Weight`.  The random
  draws of `evolve` are nondeterministic choices.
*/
module Evolution {
  import opened Wrappers
  import opened Text

  /** What an individual can do: the `Fitness` and `Breedable` traits. */
  datatype Breed<!T> = Breed(
    fitness: T -> real,
    reproduce: (T, T) -> Result<T, string>,
    mutate: T -> T)

  /**
    A normalised fitness.  Dividing by a maximum of 0 gives NaN for a fitness
    of 0 and an infinity otherwise, as IEEE-754 division does.
  */
  datatype Weight = Finite(value: real) | PosInfinity | NegInfinity | NaN

  /**
    `weight >= threshold` on floats, for a finite threshold: a comparison
    with NaN is false, +inf passes every threshold and -inf none.
  */
  function AtLeast(w: Weight, threshold: real): (b: bool)
    ensures w.NaN? ==> !b
    ensures w.PosInfinity? ==> b
    ensures w.NegInfinity? ==> !b
    ensures w.Finite? ==> (b <==> w.value >= threshold)
  {
    match w
    case Finite(v) => v >= threshold
    case PosInfinity => true
    case NegInfinity => false
    case NaN => false
  }

  /**
    `fitness / max * 100.0`.  A positive maximum gives a finite weight with
    the fitness's sign, exactly 100 for the maximum itself.  A zero maximum
    gives NaN for a zero fitness (0/0) and an infinity of the fitness's sign
    otherwise.
  */
  function Normalise(f: real, max: real): (w: Weight)
    ensures max != 0.0 ==> w == Finite(f / max * 100.0)
    ensures max > 0.0 ==> (w.value >= 0.0 <==> f >= 0.0)
    ensures max > 0.0 && f == max ==> w == Finite(100.0)
    ensures max == 0.0 && f == 0.0 ==> w.NaN?
    ensures max == 0.0 && f > 0.0 ==> w.PosInfinity?
    ensures max == 0.0 && f < 0.0 ==> w.NegInfinity?
  {
    if max != 0.0 then Finite(f / max * 100.0)
    else if f == 0.0 then NaN
    else if f > 0.0 then PosInfinity
    else NegInfinity
  }

  /** The fitness of each individual, in population order. */
  function FitnessOf<T>(fitness: T -> real, pop: seq<T>): (fs: seq<real>)
    ensures |fs| == |pop| && forall i :: 0 <= i < |pop| ==> fs[i] == fitness(pop[i])
  {
    seq(|pop|, i requires 0 <= i < |pop| => fitness(pop[i]))
  }

  /**
    The running maximum that starts at 0.0: the largest fitness, or 0.0 when
    no fitness is positive.
  */
  function Peak(fs: seq<real>): (m: real)
    ensures m >= 0.0
    ensures forall i :: 0 <= i < |fs| ==> fs[i] <= m
    ensures m == 0.0 || exists i :: 0 <= i < |fs| && fs[i] == m
    decreases |fs|
  {
    if fs == [] then 0.0
    else
      var m := Peak(fs[..|fs| - 1]);
      if fs[|fs| - 1] > m then fs[|fs| - 1] else m
  }

  /** The weight of each individual: its fitness normalised by `Peak`. */
  function Weights(fs: seq<real>): (ws: seq<Weight>)
    ensures |ws| == |fs| && forall i :: 0 <= i < |fs| ==> ws[i] == Normalise(fs[i], Peak(fs))
  {
    seq(|fs|, i requires 0 <= i < |fs| => Normalise(fs[i], Peak(fs)))
  }

  /**
    The first pass of the weighting loops: every fitness, in population
    order, and their running maximum starting from 0.0.
  */
  method CollectFitness<T>(fitness: T -> real, pop: seq<T>) returns (fs: seq<real>, maxFitness: real)
    ensures fs == FitnessOf(fitness, pop)
    ensures maxFitness == Peak(fs)
  {
    ghost var all := FitnessOf(fitness, pop);
    maxFitness := 0.0;
    fs := [];
    var i := 0;
    while i < |pop|
      invariant 0 <= i <= |pop|
      invariant fs == all[..i]
      invariant maxFitness == Peak(fs)
    {
      var f := fitness(pop[i]);
      assert all[..i + 1] == fs + [f];
      assert (fs + [f])[..i] == fs;
      if f > maxFitness {
        maxFitness := f;
      }
      fs := fs + [f];
      i := i + 1;
    }
    assert fs == all;
  }

  /** The second pass: every fitness divided by the maximum, times 100. */
  method NormaliseAll(fs: seq<real>, maxFitness: real) returns (ws: seq<Weight>)
    requires maxFitness == Peak(fs)
    ensures ws == Weights(fs)
  {
    ws := [];
    var j := 0;
    while j < |fs|
      invariant 0 <= j <= |fs|
      invariant |ws| == j
      invariant forall k :: 0 <= k < j ==> ws[k] == Normalise(fs[k], maxFitness)
    {
      ws := ws + [Normalise(fs[j], maxFitness)];
      j := j + 1;
    }
  }

  /** The indices, in increasing order, of the weights that reach `threshold`. */
  function Kept(ws: seq<Weight>, threshold: real): (idx: seq<nat>)
    ensures forall k :: 0 <= k < |idx| ==> idx[k] < |ws|
    decreases |ws|
  {
    if ws == [] then []
    else
      var init := Kept(ws[..|ws| - 1], threshold);
      if AtLeast(ws[|ws| - 1], threshold) then init + [|ws| - 1] else init
  }

  /** `Kept` lists its indices in strictly increasing order. */
  lemma {:induction false} KeptIncreasing(ws: seq<Weight>, threshold: real)
    ensures forall k, l :: 0 <= k < l < |Kept(ws, threshold)| ==> Kept(ws, threshold)[k] < Kept(ws, threshold)[l]
    decreases |ws|
  {
    if ws != [] {
      var init := ws[..|ws| - 1];
      KeptIncreasing(init, threshold);
      KeptSnoc(init, ws[|ws| - 1], threshold);
      assert ws == init + [ws[|ws| - 1]];
    }
  }

  /** An index is kept exactly when its weight reaches the threshold. */
  lemma {:induction false} KeptMembership(ws: seq<Weight>, threshold: real)
    ensures forall i :: 0 <= i < |ws| ==> (AtLeast(ws[i], threshold) <==> i in Kept(ws, threshold))
    decreases |ws|
  {
    if ws != [] {
      var init := ws[..|ws| - 1];
      KeptMembership(init, threshold);
      KeptSnoc(init, ws[|ws| - 1], threshold);
      assert ws == init + [ws[|ws| - 1]];
      forall i | 0 <= i < |init|
        ensures ws[i] == init[i]
      {
      }
    }
  }

  /** Nothing is kept exactly when no weight reaches the threshold. */
  lemma KeptEmptyIff(ws: seq<Weight>, threshold: real)
    ensures Kept(ws, threshold) == [] <==> forall i :: 0 <= i < |ws| ==> !AtLeast(ws[i], threshold)
  {
    KeptMembership(ws, threshold);
    var kept := Kept(ws, threshold);
    if kept != [] {
      assert kept[0] in kept;
    }
  }

  lemma KeptSnoc(ws: seq<Weight>, w: Weight, threshold: real)
    ensures Kept(ws + [w], threshold) == if AtLeast(w, threshold) then Kept(ws, threshold) + [|ws|] else Kept(ws, threshold)
  {
    assert (ws + [w])[..|ws|] == ws;
  }

  /** The individuals at the given indices, in that order. */
  function Picked<T>(pop: seq<T>, idx: seq<nat>): (r: seq<T>)
    requires forall k :: 0 <= k < |idx| ==> idx[k] < |pop|
    ensures |r| == |idx| && forall k :: 0 <= k < |idx| ==> r[k] == pop[idx[k]]
    decreases |idx|
  {
    if idx == [] then [] else Picked(pop, idx[..|idx| - 1]) + [pop[idx[|idx| - 1]]]
  }

  /**
    The index `evolve` falls back on: the last index whose fitness reaches
    the running maximum (from 0.0) of the fitnesses before it, or 0.
  */
  function Fallback(fs: seq<real>): (i: nat)
    ensures fs != [] ==> i < |fs|
    ensures fs == [] ==> i == 0
    decreases |fs|
  {
    if fs == [] then 0
    else if fs[|fs| - 1] >= Peak(fs[..|fs| - 1]) then |fs| - 1
    else Fallback(fs[..|fs| - 1])
  }

  /** The threshold `selection(p)` compares weights with. */
  function Threshold(topPercentage: nat): real
    requires topPercentage <= 100
  {
    (100 - topPercentage) as real
  }

  /** The elite `evolve` breeds from: the top 10 percent, or the fallback individual. */
  function Elite<T>(b: Breed<T>, pop: seq<T>): (elite: seq<T>)
    requires pop != []
    ensures elite != [] && forall k :: 0 <= k < |elite| ==> elite[k] in pop
  {
    var fs := FitnessOf(b.fitness, pop);
    var chosen := Picked(pop, Kept(Weights(fs), Threshold(10)));
    if chosen != [] then chosen else [pop[Fallback(fs)]]
  }

  /** `c` is a child of two elite parents, mutated or not. */
  ghost predicate ChildOf<T>(b: Breed<T>, elite: seq<T>, c: T) {
    exists first, second :: first in elite && second in elite && b.reproduce(first, second).Ok? &&
      (c == b.reproduce(first, second).value || c == b.mutate(b.reproduce(first, second).value))
  }

  /** The panic message of indexing a slice of length `len` at `index`. */
  function IndexPanic(len: nat, index: nat): string {
    "index out of bounds: the len is " + NatToString(len) + " but the index is " + NatToString(index)
  }

  function SelectionError(topPercentage: nat): string {
    "Cannot select " + NatToString(topPercentage) + " percent of the population"
  }

  // ---------------------------------------------------------------- properties

  lemma MaximumScalesTo100(m: real)
    requires m != 0.0
    ensures m / m * 100.0 == 100.0
  {
  }

  lemma BelowMaximumScalesBelow100(f: real, m: real)
    requires 0.0 < m && f <= m
    ensures f / m * 100.0 <= 100.0
  {
    assert f / m <= 1.0;
  }

  /** An individual whose fitness is the positive maximum has weight exactly 100. */
  lemma FittestWeighs100(fs: seq<real>, i: nat)
    requires i < |fs| && fs[i] == Peak(fs) && Peak(fs) > 0.0
    ensures Weights(fs)[i] == Finite(100.0)
  {
    MaximumScalesTo100(Peak(fs));
  }

  /**
    Weights are finite exactly when some fitness is positive, and then none
    exceeds 100.
  */
  lemma WeightsAtMost100(fs: seq<real>, i: nat)
    requires i < |fs|
    ensures Weights(fs)[i].Finite? <==> Peak(fs) > 0.0
    ensures Weights(fs)[i].Finite? ==> Weights(fs)[i].value <= 100.0
  {
    var m := Peak(fs);
    if m > 0.0 {
      BelowMaximumScalesBelow100(fs[i], m);
    }
  }

  /**
    For a valid percentage, nothing is selected exactly when no fitness is
    positive (in particular for an empty population).  With a positive
    maximum, the fittest individuals always make the cut.
  */
  lemma SelectionEmptyIff(fs: seq<real>, topPercentage: nat)
    requires 0 < topPercentage <= 100
    ensures Kept(Weights(fs), Threshold(topPercentage)) == [] <==> forall i :: 0 <= i < |fs| ==> fs[i] <= 0.0
    ensures forall i :: 0 <= i < |fs| && fs[i] == Peak(fs) && Peak(fs) > 0.0 ==>
      i in Kept(Weights(fs), Threshold(topPercentage))
  {
    var ws := Weights(fs);
    var t := Threshold(topPercentage);
    var kept := Kept(ws, t);
    var m := Peak(fs);
    KeptMembership(ws, t);
    KeptEmptyIff(ws, t);
    forall i | 0 <= i < |fs| && fs[i] == m && m > 0.0
      ensures i in kept
    {
      FittestWeighs100(fs, i);
      assert AtLeast(ws[i], t);
    }
    if m > 0.0 {
      var j :| 0 <= j < |fs| && fs[j] == m;
      assert j in kept;
    } else {
      forall i | 0 <= i < |ws|
        ensures !AtLeast(ws[i], t)
      {
        assert ws[i] == Normalise(fs[i], 0.0);
      }
    }
  }

  /** When every weight reaches the threshold, every index is kept, in order. */
  lemma {:induction false} KeptAll(ws: seq<Weight>, threshold: real)
    requires forall i :: 0 <= i < |ws| ==> AtLeast(ws[i], threshold)
    ensures Kept(ws, threshold) == seq(|ws|, i => i)
    decreases |ws|
  {
    if ws != [] {
      var init := ws[..|ws| - 1];
      KeptAll(init, threshold);
      assert seq(|ws|, i => i) == seq(|init|, i => i) + [|init|];
    }
  }

  /** Picking every index in order picks the whole population. */
  lemma {:induction false} PickedAll<T>(pop: seq<T>)
    ensures Picked(pop, seq(|pop|, i => i)) == pop
  {
    var all := Picked(pop, seq(|pop|, i => i));
    assert forall k :: 0 <= k < |pop| ==> all[k] == pop[k];
  }

  /**
    `selection(100)` weighs against a threshold of 0: with a positive
    maximum, an index is kept exactly when its fitness is not negative, so
    fitnesses that are all non-negative keep every index, in order.
  */
  lemma SelectionOfAll(fs: seq<real>)
    requires Peak(fs) > 0.0
    ensures forall i :: 0 <= i < |fs| ==> (i in Kept(Weights(fs), Threshold(100)) <==> fs[i] >= 0.0)
    ensures (forall i :: 0 <= i < |fs| ==> fs[i] >= 0.0) ==> Kept(Weights(fs), Threshold(100)) == seq(|fs|, i => i)
  {
    var ws := Weights(fs);
    var m := Peak(fs);
    assert Threshold(100) == 0.0;
    forall i | 0 <= i < |fs|
      ensures AtLeast(ws[i], 0.0) <==> fs[i] >= 0.0
    {
      assert ws[i] == Normalise(fs[i], m);
    }
    KeptMembership(ws, 0.0);
    if forall i :: 0 <= i < |fs| ==> fs[i] >= 0.0 {
      KeptAll(ws, 0.0);
    }
  }

  /** Picking by the indices `selection(100)` keeps from non-negative fitnesses picks everything. */
  lemma PickedKeptAll<T>(pop: seq<T>, fs: seq<real>)
    requires |fs| == |pop| && Peak(fs) > 0.0
    requires forall i :: 0 <= i < |fs| ==> fs[i] >= 0.0
    ensures Picked(pop, Kept(Weights(fs), Threshold(100))) == pop
  {
    SelectionOfAll(fs);
    PickedAll(pop);
  }

  /** A population without negative fitness goes through `selection(100)` whole. */
  lemma SelectionOfAllPicksAll<T>(fitness: T -> real, pop: seq<T>)
    requires Peak(FitnessOf(fitness, pop)) > 0.0
    requires forall i :: 0 <= i < |pop| ==> fitness(pop[i]) >= 0.0
    ensures Picked(pop, Kept(Weights(FitnessOf(fitness, pop)), Threshold(100))) == pop
  {
    PickedKeptAll(pop, FitnessOf(fitness, pop));
  }

  /**
    The fallback is the last index holding the largest fitness when some
    fitness is at least 0, and index 0 when every fitness is negative.
  */
  lemma {:induction false} FallbackIsLastFittest(fs: seq<real>)
    requires fs != []
    ensures (exists i :: 0 <= i < |fs| && fs[i] >= 0.0) ==>
      fs[Fallback(fs)] == Peak(fs) && forall j :: Fallback(fs) < j < |fs| ==> fs[j] < Peak(fs)
    ensures (forall i :: 0 <= i < |fs| ==> fs[i] < 0.0) ==> Fallback(fs) == 0
    decreases |fs|
  {
    var init := fs[..|fs| - 1];
    var last := fs[|fs| - 1];
    if init != [] {
      FallbackIsLastFittest(init);
      assert forall i :: 0 <= i < |init| ==> init[i] == fs[i];
    }
  }

  /** One step of the selection loop: the next index is kept exactly when its weight reaches the threshold. */
  lemma KeepStep<T>(pop: seq<T>, weights: seq<Weight>, threshold: real, i: nat)
    requires i < |weights| == |pop|
    ensures Picked(pop, Kept(weights[..i + 1], threshold)) ==
      Picked(pop, Kept(weights[..i], threshold)) + (if AtLeast(weights[i], threshold) then [pop[i]] else [])
  {
    var idx := Kept(weights[..i], threshold);
    assert weights[..i + 1] == weights[..i] + [weights[i]];
    KeptSnoc(weights[..i], weights[i], threshold);
    if AtLeast(weights[i], threshold) {
      assert (idx + [i])[..|idx|] == idx;
    }
  }

  /**
    The loop of `selection`: walk the weights in order and keep the
    individual at each index whose weight reaches the threshold.
  */
  method KeepAtLeast<T>(pop: seq<T>, weights: seq<Weight>, threshold: real) returns (selected: seq<T>)
    requires |weights| == |pop|
    ensures selected == Picked(pop, Kept(weights, threshold))
  {
    selected := [];
    var i := 0;
    while i < |weights|
      invariant 0 <= i <= |weights|
      invariant selected == Picked(pop, Kept(weights[..i], threshold))
    {
      KeepStep(pop, weights, threshold, i);
      if AtLeast(weights[i], threshold) {
        selected := selected + [pop[i]];
      }
      i := i + 1;
    }
    assert weights[..i] == weights;
  }

  class Population<T> {
    var populace: seq<T>
    const breed: Breed<T>

    /** `Population::new`: the given individuals. */
    constructor (pop: seq<T>, breed: Breed<T>)
      ensures populace == pop && this.breed == breed
    {
      populace := pop;
      this.breed := breed;
    }

    function Len(): (n: nat)
      reads this
      ensures n == |populace|
    {
      |populace|
    }

    function IsEmpty(): (b: bool)
      reads this
      ensures b <==> populace == []
    {
      |populace| == 0
    }

    /** `Index::index`: the individual at `index`; past the end it panics. */
    function At(index: nat): (r: Result<T, string>)
      reads this
      ensures r.Ok? <==> index < |populace|
      ensures r.Ok? ==> r.value == populace[index]
      ensures r.Err? ==> r.error == IndexPanic(|populace|, index)
    {
      if index < |populace| then Ok(populace[index]) else Err(IndexPanic(|populace|, index))
    }

    /** `breed_from_parents`: the first parent's `reproduce` with the second, unchanged. */
    function BreedFromParents(first: T, second: T): (r: Result<T, string>)
      ensures r.Ok? <==> breed.reproduce(first, second).Ok?
      ensures r.Ok? ==> r.value == breed.reproduce(first, second).value
      ensures r.Err? ==> r.error == breed.reproduce(first, second).error
    {
      match breed.reproduce(first, second)
      case Ok(child) => Ok(child)
      case Err(e) => Err(e)
    }

    /**
      `get_weights`: one pass collecting the fitnesses and their running
      maximum from 0.0, one pass normalising.
    */
    method GetWeights() returns (weights: seq<Weight>)
      ensures weights == Weights(FitnessOf(breed.fitness, populace))
    {
      var fitnesses, maxFitness := CollectFitness(breed.fitness, populace);
      weights := NormaliseAll(fitnesses, maxFitness);
    }

    /**
      `selection(p)`: an error unless 0 < p <= 100; otherwise, in population
      order, the individuals whose weight reaches 100 - p.
    */
    method Selection(topPercentage: nat) returns (r: Result<seq<T>, string>)
      ensures r.Err? <==> topPercentage == 0 || topPercentage > 100
      ensures r.Err? ==> r.error == SelectionError(topPercentage)
      ensures r.Ok? ==>
        r.value == Picked(populace, Kept(Weights(FitnessOf(breed.fitness, populace)), Threshold(topPercentage)))
    {
      if topPercentage > 100 || topPercentage == 0 {
        return Err(SelectionError(topPercentage));
      }
      var weights := GetWeights();
      var selected := KeepAtLeast(populace, weights, (100 - topPercentage) as real);
      r := Ok(selected);
    }

    /** The loop of `evolve` that finds the fallback elite. */
    method FallbackIndex() returns (maxIndex: nat)
      ensures maxIndex == Fallback(FitnessOf(breed.fitness, populace))
    {
      ghost var all := FitnessOf(breed.fitness, populace);
      var maxFitness := 0.0;
      maxIndex := 0;
      var i := 0;
      while i < |populace|
        invariant 0 <= i <= |populace|
        invariant maxFitness == Peak(all[..i])
        invariant maxIndex == Fallback(all[..i])
      {
        var fitness := breed.fitness(populace[i]);
        assert all[..i + 1][..i] == all[..i];
        if fitness >= maxFitness {
          maxFitness := fitness;
          maxIndex := i;
        }
        i := i + 1;
      }
      assert all[..i] == all;
    }

    /**
      `evolve`: breed `len()` children from the elite, each from two parents
      drawn from the elite (possibly the same one), each possibly mutated,
      and make them the new population.  A failed `reproduce` is returned
      and leaves the population as it was; an empty population panics on
      `populace[0]`.
    */
    method Evolve() returns (r: Result<(), string>)
      modifies this
      ensures old(populace) == [] ==> r == Err(IndexPanic(0, 0))
      ensures r.Err? ==> populace == old(populace)
      ensures r.Err? && old(populace) != [] ==>
        exists first, second :: first in Elite(breed, old(populace)) && second in Elite(breed, old(populace)) &&
          breed.reproduce(first, second) == Err(r.error)
      ensures r.Ok? ==>
        && old(populace) != []
        && |populace| == |old(populace)|
        && forall k :: 0 <= k < |populace| ==> ChildOf(breed, Elite(breed, old(populace)), populace[k])
    {
      var selected := Selection(10);
      var elite := selected.value;
      if elite == [] {
        var maxIndex := FallbackIndex();
        if maxIndex >= |populace| {
          return Err(IndexPanic(0, 0));
        }
        elite := [populace[maxIndex]];
      }
      assert elite == Elite(breed, populace);
      var children := BreedChildren(elite, |populace|);
      if children.Err? {
        return Err(children.error);
      }
      populace := children.value;
      r := Ok(());
    }

    /**
      The breeding loop of `evolve`: `count` times, draw two parents from the
      elite, breed them and possibly mutate the child.  The first failed
      `reproduce` ends the loop with its error.
    */
    method BreedChildren(elite: seq<T>, count: nat) returns (r: Result<seq<T>, string>)
      requires elite != []
      ensures r.Ok? ==> |r.value| == count && forall k :: 0 <= k < count ==> ChildOf(breed, elite, r.value[k])
      ensures r.Err? ==>
        exists first, second :: first in elite && second in elite && breed.reproduce(first, second) == Err(r.error)
    {
      var newPop: seq<T> := [];
      var i := 0;
      while i < count
        invariant 0 <= i <= count && |newPop| == i
        invariant forall k :: 0 <= k < i ==> ChildOf(breed, elite, newPop[k])
      {
        var a :| 0 <= a < |elite|;
        var b :| 0 <= b < |elite|;
        var first, second := elite[a], elite[b];
        var child := BreedFromParents(first, second);
        if child.Err? {
          return Err(child.error);
        }
        var c := child.value;
        var mutate: bool :| true;
        if mutate {
          c := breed.mutate(c);
        }
        assert ChildOf(breed, elite, c);
        newPop := newPop + [c];
        i := i + 1;
      }
      r := Ok(newPop);
    }

    /** `generation`: this population does not count generations. */
    function Generation(): (g: nat)
      ensures g == 0
    {
      0
    }
  }
}

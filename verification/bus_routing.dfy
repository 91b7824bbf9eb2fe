/**
  The bus-routing flavour of the evolution engine
  (src/genetic_learning/bus_routing/evolution.rs).  Individuals report a
  fitness, expose their DNA as a JSON value and reproduce with the DNA of a
  second individual.  Selection only computes normalised weights; a
  reproduction round draws both parents from the whole population, keeps the
  children whose reproduction succeeded and skips the failures.

  The JSON DNA value is the type parameter `D`, kept abstract.  The random
  draws are nondeterministic choices of indices into the population.
*/
module BusRouting {
  import opened Wrappers
  import Gen = Evolution

  /** `DnaString`: a DNA text that hands back exactly what it was made from. */
  datatype DnaString = DnaString(dna: string)
  {
    function GetDna(): string {
      dna
    }
  }

  /** `DnaString::new`. */
  function NewDnaString(dna: string): (d: DnaString)
    ensures d.GetDna() == dna
  {
    DnaString(dna)
  }

  /** What an individual can do: the `Fitness`, `Dna` and `Reproductor` traits. */
  datatype Species<!T, !D> = Species(
    fitness: T -> real,
    getDna: T -> D,
    reproduce: (T, D) -> Result<T, string>)

  /** The outcome of one reproduction: the first parent with the second's DNA. */
  function Offspring<T, D>(s: Species<T, D>, pop: seq<T>, draw: (nat, nat)): Result<T, string>
    requires draw.0 < |pop| && draw.1 < |pop|
  {
    s.reproduce(pop[draw.0], s.getDna(pop[draw.1]))
  }

  /** Every draw names two members of a population of `size` individuals. */
  predicate DrawsWithin(draws: seq<(nat, nat)>, size: nat) {
    forall k :: 0 <= k < |draws| ==> draws[k].0 < size && draws[k].1 < size
  }

  /**
    The children of a sequence of draws, in draw order, with the failed
    reproductions left out.
  */
  function Successes<T, D>(s: Species<T, D>, pop: seq<T>, draws: seq<(nat, nat)>): (children: seq<T>)
    requires DrawsWithin(draws, |pop|)
    ensures |children| <= |draws|
    decreases |draws|
  {
    if draws == [] then []
    else
      var earlier := Successes(s, pop, draws[..|draws| - 1]);
      match Offspring(s, pop, draws[|draws| - 1])
      case Ok(child) => earlier + [child]
      case Err(_) => earlier
  }

  /** How many of the draws reproduced successfully. */
  function SuccessCount<T, D>(s: Species<T, D>, pop: seq<T>, draws: seq<(nat, nat)>): nat
    requires DrawsWithin(draws, |pop|)
    decreases |draws|
  {
    if draws == [] then 0
    else
      SuccessCount(s, pop, draws[..|draws| - 1])
      + (if Offspring(s, pop, draws[|draws| - 1]).Ok? then 1 else 0)
  }

  /** One child per successful reproduction, no more and no fewer. */
  lemma {:induction false} OneChildPerSuccess<T, D>(s: Species<T, D>, pop: seq<T>, draws: seq<(nat, nat)>)
    requires DrawsWithin(draws, |pop|)
    ensures |Successes(s, pop, draws)| == SuccessCount(s, pop, draws)
    decreases |draws|
  {
    if draws != [] {
      OneChildPerSuccess(s, pop, draws[..|draws| - 1]);
    }
  }

  /** A round loses no child exactly when no reproduction failed. */
  lemma {:induction false} FullRoundIffNoFailure<T, D>(s: Species<T, D>, pop: seq<T>, draws: seq<(nat, nat)>)
    requires DrawsWithin(draws, |pop|)
    ensures |Successes(s, pop, draws)| == |draws| <==>
      forall k :: 0 <= k < |draws| ==> Offspring(s, pop, draws[k]).Ok?
    decreases |draws|
  {
    if draws != [] {
      var init := draws[..|draws| - 1];
      FullRoundIffNoFailure(s, pop, init);
      assert forall k :: 0 <= k < |init| ==> init[k] == draws[k];
    }
  }

  /** Each child is the successful outcome of one of the draws. */
  lemma {:induction false} ChildrenComeFromDraws<T, D>(s: Species<T, D>, pop: seq<T>, draws: seq<(nat, nat)>, c: nat)
    returns (k: nat)
    requires DrawsWithin(draws, |pop|)
    requires c < |Successes(s, pop, draws)|
    ensures k < |draws|
    ensures Offspring(s, pop, draws[k]) == Ok(Successes(s, pop, draws)[c])
    decreases |draws|
  {
    var init := draws[..|draws| - 1];
    var earlier := Successes(s, pop, init);
    if c < |earlier| {
      k := ChildrenComeFromDraws(s, pop, init, c);
      assert init[k] == draws[k];
    } else {
      k := |draws| - 1;
    }
  }

  /** `Population`: the individuals and what they can do. */
  class Population<T, D> {
    var pop: seq<T>
    const species: Species<T, D>

    /** `Population::new`. */
    constructor(pop: seq<T>, species: Species<T, D>)
      ensures this.pop == pop && this.species == species
    {
      this.pop := pop;
      this.species := species;
    }

    /** `reproduction`: the first parent reproduces with the second's DNA, unchanged. */
    function Reproduction(first: T, second: T): (r: Result<T, string>)
      ensures r.Ok? <==> species.reproduce(first, species.getDna(second)).Ok?
      ensures r.Ok? ==> r.value == species.reproduce(first, species.getDna(second)).value
      ensures r.Err? ==> r.error == species.reproduce(first, species.getDna(second)).error
    {
      match species.reproduce(first, species.getDna(second))
      case Ok(child) => Ok(child)
      case Err(e) => Err(e)
    }

    /** Only the second parent's DNA matters, never the rest of it. */
    lemma SecondParentOnlyByDna(first: T, second: T, other: T)
      requires species.getDna(second) == species.getDna(other)
      ensures Reproduction(first, second) == Reproduction(first, other)
    {
    }
  }

  /** `Evolution`: a population and its generation number. */
  class Evolution<T, D> {
    const population: Population<T, D>
    var generation: nat

    /** `Evolution::new`: generation 0. */
    constructor(population: Population<T, D>)
      ensures this.population == population && generation == 0
    {
      this.population := population;
      generation := 0;
    }

    /**
      `selection`: one weight per individual, its fitness against the running
      maximum that starts at 0.0, times 100.
    */
    method Selection() returns (weights: seq<Gen.Weight>)
      ensures weights == Gen.Weights(Gen.FitnessOf(population.species.fitness, population.pop))
    {
      var fitnesses, maxFitness := Gen.CollectFitness(population.species.fitness, population.pop);
      weights := Gen.NormaliseAll(fitnesses, maxFitness);
    }

    /**
      `reproduction`: as many draws as there are individuals, each of two
      parents from the whole population regardless of weight; the successful
      children in draw order.  Nothing in the population changes.
    */
    method Reproduction() returns (newPop: seq<T>, ghost draws: seq<(nat, nat)>)
      ensures |draws| == |population.pop|
      ensures DrawsWithin(draws, |population.pop|)
      ensures newPop == Successes(population.species, population.pop, draws)
    {
      var geneWeights := Selection();
      var popSize := |population.pop|;
      newPop := [];
      draws := [];
      var n := 0;
      while n < popSize
        invariant 0 <= n <= popSize
        invariant |draws| == n
        invariant DrawsWithin(draws, popSize)
        invariant newPop == Successes(population.species, population.pop, draws)
      {
        var mom :| 0 <= mom < popSize;
        var dad :| 0 <= dad < popSize;
        var child := population.Reproduction(population.pop[mom], population.pop[dad]);
        ghost var before := draws;
        draws := draws + [(mom, dad)];
        assert draws[..|draws| - 1] == before;
        match child {
          case Ok(c) => newPop := newPop + [c];
          case Err(_) =>
        }
        n := n + 1;
      }
    }

    /** `evolve`: one reproduction round, whose children are reported. */
    method Evolve() returns (children: seq<T>, ghost draws: seq<(nat, nat)>)
      ensures |draws| == |population.pop|
      ensures DrawsWithin(draws, |population.pop|)
      ensures children == Successes(population.species, population.pop, draws)
      ensures |children| <= |population.pop|
    {
      children, draws := Reproduction();
    }
  }
}

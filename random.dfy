/** The agent's random generator (numpy's RandomState seeded with 17 in package/agent.py). Only
    what the agent relies on is promised: `Rand` returns a value in [0, 1) and `Choice` an
    element of the list it is given. The body is a linear congruential generator, a stand-in
    for the Mersenne Twister whose exact sequence is not part of this model. */
module Random {

  const Modulus: int := 0x8000_0000

  class Rng {
    var state: int

    ghost predicate Valid()
      reads this
    {
      0 <= state < Modulus
    }

    constructor (seed: int)
      ensures Valid()
    {
      state := seed % Modulus;
    }

    method Next()
      requires Valid()
      modifies this
      ensures Valid()
    {
      state := (state * 1103515245 + 12345) % Modulus;
    }

    /** random_generator.rand(): a sample in [0, 1). */
    method Rand() returns (u: real)
      requires Valid()
      modifies this
      ensures Valid()
      ensures 0.0 <= u < 1.0
    {
      Next();
      u := state as real / Modulus as real;
    }

    /** random_generator.choice(xs): one element of a non-empty list (numpy raises an error on
        an empty one). */
    method Choice(xs: seq<int>) returns (x: int)
      requires Valid()
      requires |xs| > 0
      modifies this
      ensures Valid()
      ensures x in xs
    {
      Next();
      x := xs[state % |xs|];
    }
  }
}

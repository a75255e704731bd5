/** The threshold rule every catalog uses to pick a structure: one uniform draw
    `choice`, every entry whose chance admits it becomes a candidate, and a
    second draw picks one candidate. */
module Selection {

  /** The two random draws of one selection: `nextDouble()` and the result of
      `nextInt(n)` over the candidates. */
  datatype Draws = Draws(choice: real, pick: nat)

  /** Draws a random source can produce when there are `n` candidates. */
  predicate ValidDraws(d: Draws, n: nat)
  {
    0.0 <= d.choice < 1.0 && (n == 0 || d.pick < n)
  }

  /** An entry with chance `p` is a candidate for the draw `choice`. */
  predicate Eligible(p: real, choice: real)
  {
    0.0 <= p && p <= 1.0 && choice <= p
  }

  /** A certain entry (chance 1) qualifies for every draw; a chance outside
      [0, 1] never qualifies, whatever the draw. */
  lemma EligibilityBounds(p: real, choice: real)
    ensures p == 1.0 && 0.0 <= choice < 1.0 ==> Eligible(p, choice)
    ensures p < 0.0 || p > 1.0 ==> !Eligible(p, choice)
    ensures Eligible(p, choice) ==> choice <= p
  {
  }
}

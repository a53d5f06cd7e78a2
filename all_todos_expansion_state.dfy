/** The three heights of the "all to-dos" panel and the tap that cycles them (Models/AllTodosExpansionState.swift). */
module AllTodosExpansionState {
  datatype AllTodosExpansionState = Collapsed | Medium | Expanded

  /** Position in the cycle collapsed, medium, expanded. */
  function Rank(s: AllTodosExpansionState): (r: nat)
    ensures r < 3
  {
    match s
    case Collapsed => 0
    case Medium => 1
    case Expanded => 2
  }

  /** `next()`: one step round the cycle. */
  function Next(s: AllTodosExpansionState): (r: AllTodosExpansionState)
    ensures Rank(r) == (Rank(s) + 1) % 3
  {
    match s
    case Collapsed => Medium
    case Medium => Expanded
    case Expanded => Collapsed
  }

  /** Three taps bring the panel back to where it was, and no single tap leaves it in place. */
  lemma NextCycles(s: AllTodosExpansionState)
    ensures Next(Next(Next(s))) == s
    ensures Next(s) != s
  {
  }

  /** `next()` is a bijection: distinct states have distinct successors and every state has a predecessor. */
  lemma NextBijective(s: AllTodosExpansionState, t: AllTodosExpansionState)
    ensures Next(s) == Next(t) ==> s == t
    ensures exists p :: Next(p) == t
  {
    assert Next(Next(Next(t))) == t;
  }
}

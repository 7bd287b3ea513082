/** The tunnel a run rides, as its loads see it from outside: which tunnel is
    current, counted from the one the run started on, and which have been lost. */
module PathContract {

  datatype Path = Path(generation: nat, lost: set<nat>)

  ghost predicate Valid(p: Path) {
    forall g :: g in p.lost ==> g <= p.generation
  }

  /** A tunnel, current or replaced, is lost for good. */
  function Lose(p: Path, g: nat): Path {
    p.(lost := p.lost + {g})
  }

  /** A re-open succeeds: the new tunnel is current.  It may be lost already. */
  function Advance(p: Path, dead: bool): Path {
    Path(p.generation + 1, if dead then p.lost + {p.generation + 1} else p.lost)
  }

  /** All that can happen to a path: nothing, a loss, or one re-open succeeding. */
  ghost predicate Next(p: Path, p': Path) {
    || p' == p
    || (exists g: nat :: g <= p.generation && p' == Lose(p, g))
    || (exists dead :: p' == Advance(p, dead))
  }
}

/** The random stream, treated as an oracle.

    The generator itself is not modelled: `source` stands for it, giving the
    draw found at a position of a named stream.  What is modelled is how the
    core consumes draws: every sampling decision takes the next draw of the
    stream it is given, and forking derives a child stream (named by the
    parent's name and position) while the parent advances by one draw, so the
    draws made in the child never disturb the parent's sequence. */
module Oracle {
  import opened Common

  /** Probabilities are fixed-point: a `Chance` of p means p / Million. */
  const Million: nat := 1_000_000
  type Chance = p: nat | p <= Million

  datatype Rng = Rng(source: (seq<nat>, nat) -> nat, path: seq<nat>, pos: nat) {
    function Draw(): nat {
      source(path, pos)
    }

    function Advance(): Rng {
      this.(pos := pos + 1)
    }

    /** The child stream and the advanced parent. */
    function Fork(): (Rng, Rng) {
      (Rng(source, path + [pos], 0), Advance())
    }
  }

  /** `choose` on a non-empty slice: an index into it. */
  function ChooseIndex(rng: Rng, n: nat): (r: (nat, Rng))
    requires n > 0
    ensures r.0 < n
    ensures r.1.path == rng.path && r.1.pos == rng.pos + 1
  {
    (rng.Draw() % n, rng.Advance())
  }

  /** `gen_bool(p)`: true with probability p; certain at the two extremes. */
  function GenBool(rng: Rng, p: Chance): (r: (bool, Rng))
    ensures p == 0 ==> !r.0
    ensures p == Million ==> r.0
    ensures r.1.path == rng.path && r.1.pos == rng.pos + 1
  {
    (rng.Draw() % Million < p, rng.Advance())
  }

  /** `gen_range(low, high)`: a value in [low, high).  The library panics on
      an empty range; `None` stands for that panic. */
  function RandRange(rng: Rng, low: nat, high: nat): (r: (Option<nat>, Rng))
    ensures r.0.None? <==> high <= low
    ensures r.0.Some? ==> low <= r.0.value < high
  {
    if low < high then (Some(low + rng.Draw() % (high - low)), rng.Advance())
    else (None, rng)
  }

  /** `shuffle`: a reordering driven by the stream; always a permutation. */
  function Shuffle<T>(s: seq<T>, rng: Rng): (r: seq<T>)
    ensures multiset(r) == multiset(s)
    decreases |s|
  {
    if |s| <= 1 then s
    else
      var k := rng.Draw() % |s|;
      assert s == s[..k] + [s[k]] + s[k + 1..];
      [s[k]] + Shuffle(s[..k] + s[k + 1..], rng.Advance())
  }

  /** A weighted choice over 0, 1, ..., |weights| - 1.  A distribution whose
      weights add up to zero makes sampling panic; the type excludes it. */
  type WeightedUsizeChoice = w: seq<nat> | Sum(w) > 0 witness [1]

  /** The value whose cumulative-weight interval holds x. */
  function WeightedIndex(weights: seq<nat>, x: nat): (i: nat)
    requires x < Sum(weights)
    ensures i < |weights| && weights[i] > 0
  {
    if x < Sum(DropLast(weights)) then WeightedIndex(DropLast(weights), x)
    else |weights| - 1
  }

  /** `WeightedUsizeChoice::sample`: only values of positive weight come out. */
  function Sample(rng: Rng, dist: WeightedUsizeChoice): (r: (nat, Rng))
    ensures r.0 < |dist| && dist[r.0] > 0
  {
    (WeightedIndex(dist, rng.Draw() % Sum(dist)), rng.Advance())
  }
}

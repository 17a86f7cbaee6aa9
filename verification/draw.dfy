/** The random draw and the deferred reveal it schedules, shared by both
    wheel components. `Math.random()` is a value supplied by the caller from
    `[0, 1)`; `setTimeout` becomes a `Reveal` record queued until its timer
    fires. */
module Draw {

  /** `Math.floor(Math.random() * n)`: an index of the list, namely the one
      whose `1/n`-wide band of `[0, 1)` contains `random`. */
  function DrawIndex(random: real, n: nat): (idx: nat)
    requires 0.0 <= random < 1.0
    requires n > 0
    ensures idx < n
    ensures idx as real <= random * n as real < idx as real + 1.0
  {
    assert random * n as real < n as real;
    (random * n as real).Floor
  }

  /** Every index can be drawn: `i / n` draws `i`. */
  lemma EveryIndexDrawable(i: nat, n: nat)
    requires i < n
    ensures 0.0 <= i as real / n as real < 1.0
    ensures DrawIndex(i as real / n as real, n) == i
  {
    var r := i as real / n as real;
    assert r * n as real == i as real;
  }

  /** What a pending `setTimeout` callback closes over: the list as it was
      when the spin started, and the drawn index. */
  datatype Pending = Pending(captured: seq<string>, index: nat)

  /** A callback whose index is valid for its captured list, which is the
      only kind a spin schedules. */
  type Reveal = p: Pending | p.index < |p.captured| witness Pending([""], 0)

  /** The reveal scheduled for a draw over a non-empty list. */
  function Schedule(names: seq<string>, random: real): (r: Reveal)
    requires 0.0 <= random < 1.0
    requires names != []
    ensures r.captured == names
    ensures r.index < |names|
    ensures r.index as real <= random * |names| as real < r.index as real + 1.0
  {
    Pending(names, DrawIndex(random, |names|))
  }
}

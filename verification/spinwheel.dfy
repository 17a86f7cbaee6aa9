/** The `SpinWheelGame` component: a wheel of name cards for a `names` prop,
    a spin button, and a winner revealed by a deferred callback. Unlike `App`
    it does not parse text: `names` is whatever list the parent passes. */
module SpinWheelGame {
  import opened Wrappers
  import opened Draw
  import Geometry

  /** The component's own state. */
  datatype Game = Game(spinning: bool, winner: Option<string>)

  const Initial: Game := Game(false, None)

  /** The new state and, when a spin starts, the reveal it schedules. */
  datatype Spun = Spun(game: Game, timer: Option<Reveal>)

  /** `spinWheel` with `Math.random()` returning `random`. An empty list does
      nothing at all. Otherwise the wheel spins and a reveal of the drawn
      index of the list, as passed at the time of the click, is scheduled;
      the previous winner stays until the reveal. */
  function SpinWheel(g: Game, names: seq<string>, random: real): (sp: Spun)
    requires 0.0 <= random < 1.0
    ensures names == [] ==> sp == Spun(g, None)
    ensures names != [] ==>
      && sp.game == Game(true, g.winner)
      && sp.timer.Some?
      && sp.timer.value.captured == names
      && sp.timer.value.index == DrawIndex(random, |names|)
  {
    if |names| > 0 then Spun(g.(spinning := true), Some(Schedule(names, random)))
    else Spun(g, None)
  }

  /** The `setTimeout` callback: the drawn name of the captured list becomes
      the winner and spinning stops. */
  function RevealWinner(g: Game, r: Reveal): (g': Game)
    ensures g'.winner.Some? && g'.winner.value in r.captured
    ensures g'.winner.value == r.captured[r.index]
    ensures !g'.spinning
  {
    Game(false, Some(r.captured[r.index]))
  }

  /** The spin button is enabled (`disabled={spinning}`). */
  predicate SpinEnabled(g: Game) {
    !g.spinning
  }

  /** The winner overlay is rendered (`{winner && ...}`: a non-null,
      non-empty string). */
  predicate WinnerShown(g: Game) {
    g.winner.Some? && g.winner.value != ""
  }

  /** `index * (360 / names.length)`: the rotation of each name card, in
      degrees. The first card is unturned, each card is turned further than
      the one before it by one slice, and all stay within one turn. */
  function CardRotations(names: seq<string>): (angles: seq<real>)
    ensures |angles| == |names|
    ensures forall i :: 0 <= i < |names| ==> angles[i] == Geometry.SliceStart(i, |names|)
  {
    seq(|names|, i requires 0 <= i < |names| => Geometry.SliceStart(i, |names|))
  }

  /** The cards fan out over one turn in list order, a slice apart. */
  lemma CardRotationsSpread(names: seq<string>)
    requires names != []
    ensures CardRotations(names)[0] == 0.0
    ensures forall i :: 0 <= i < |names| ==> 0.0 <= CardRotations(names)[i] < Geometry.FullTurn
    ensures forall i, j :: 0 <= i < j < |names| ==>
      CardRotations(names)[i] + Geometry.SliceWidth(|names|) <= CardRotations(names)[j]
  {
    var n := |names|;
    forall i, j | 0 <= i < j < n
      ensures CardRotations(names)[i] + Geometry.SliceWidth(n) <= CardRotations(names)[j]
    {
      Geometry.SlicesIncrease(i, j, n);
    }
  }

  // ---------------------------------------------------------------------------
  // The component over time

  datatype Event =
    | Props(names: seq<string>)   // the parent re-renders with a new list
    | Click(random: real)         // the spin button, with the value `Math.random()` will return
    | TimerFires                  // the oldest pending `setTimeout` callback runs

  predicate ValidEvent(e: Event) {
    e.Click? ==> 0.0 <= e.random < 1.0
  }

  predicate ValidEvents(es: seq<Event>) {
    forall i :: 0 <= i < |es| ==> ValidEvent(es[i])
  }

  /** The component's state, its current `names` prop and the reveals still
      pending, oldest first. */
  datatype World = World(game: Game, names: seq<string>, timers: seq<Reveal>)

  /** One event. A click on the disabled button does nothing, and nothing but
      a reveal changes the winner. */
  function Step(w: World, e: Event): (w': World)
    requires ValidEvent(e)
    ensures e.Click? && !SpinEnabled(w.game) ==> w' == w
    ensures !e.TimerFires? ==> w'.game.winner == w.game.winner
  {
    match e
    case Props(names) => w.(names := names)
    case Click(random) =>
      if !SpinEnabled(w.game) then w
      else
        var sp := SpinWheel(w.game, w.names, random);
        (match sp.timer
         case None => w
         case Some(r) => World(sp.game, w.names, w.timers + [r]))
    case TimerFires =>
      if w.timers == [] then w
      else World(RevealWinner(w.game, w.timers[0]), w.names, w.timers[1..])
  }

  function Run(w: World, es: seq<Event>): World
    requires ValidEvents(es)
    decreases |es|
  {
    if es == [] then w else Run(Step(w, es[0]), es[1..])
  }

  /** At most one reveal is pending, and one is exactly while the wheel
      spins. */
  predicate Inv(w: World) {
    && |w.timers| <= 1
    && (w.game.spinning <==> |w.timers| == 1)
  }

  lemma StepInv(w: World, e: Event)
    requires Inv(w) && ValidEvent(e)
    ensures Inv(Step(w, e))
  {
  }

  lemma {:induction false} RunInv(w: World, es: seq<Event>)
    requires Inv(w) && ValidEvents(es)
    ensures Inv(Run(w, es))
    decreases |es|
  {
    if es != [] {
      StepInv(w, es[0]);
      RunInv(Step(w, es[0]), es[1..]);
    }
  }

  /** Every world reachable from the first render satisfies `Inv`. */
  lemma ReachableInv(names: seq<string>, es: seq<Event>)
    requires ValidEvents(es)
    ensures Inv(Run(World(Initial, names, []), es))
  {
    RunInv(World(Initial, names, []), es);
  }

  // ---------------------------------------------------------------------------
  // Properties of the component

  /** While the wheel spins a click changes nothing, so a second spin cannot
      start. */
  lemma NoSecondSpin(w: World, random: real)
    requires Inv(w) && w.game.spinning
    requires 0.0 <= random < 1.0
    ensures Step(w, Click(random)) == w
    ensures |w.timers| == 1
  {
  }

  /** A click with an empty list neither spins nor schedules anything. */
  lemma EmptyListDoesNothing(w: World, random: real)
    requires w.names == []
    requires 0.0 <= random < 1.0
    ensures Step(w, Click(random)) == w
  {
  }

  /** A spin followed by its timer reveals the drawn name of the list as it
      was at the click, even if the parent passed a new list in between. */
  lemma SpinThenReveal(w: World, random: real, later: seq<string>)
    requires Inv(w) && SpinEnabled(w.game)
    requires 0.0 <= random < 1.0
    requires w.names != []
    ensures var w3 := Step(Step(Step(w, Click(random)), Props(later)), TimerFires);
      && w3.timers == []
      && !w3.game.spinning
      && w3.names == later
      && w3.game.winner == Some(w.names[DrawIndex(random, |w.names|)])
  {
  }

  /** Every name of the list can win: for each position some draw picks it. */
  lemma EveryNameCanWin(w: World, i: nat)
    requires Inv(w) && SpinEnabled(w.game)
    requires i < |w.names|
    ensures var random := i as real / |w.names| as real;
      && 0.0 <= random < 1.0
      && Run(w, [Click(random), TimerFires]).game.winner == Some(w.names[i])
  {
    var random := i as real / |w.names| as real;
    EveryIndexDrawable(i, |w.names|);
    var w1 := Step(w, Click(random));
    var w2 := Step(w1, TimerFires);
    assert Run(w, [Click(random), TimerFires]) == Run(w1, [TimerFires]);
    assert Run(w1, [TimerFires]) == Run(w2, []);
  }

  /** An empty name can win, but the overlay treats it as no winner. */
  lemma EmptyNameWinsUnseen(w: World, random: real)
    requires Inv(w) && SpinEnabled(w.game)
    requires 0.0 <= random < 1.0
    requires w.names != [] && w.names[DrawIndex(random, |w.names|)] == ""
    ensures var w2 := Step(Step(w, Click(random)), TimerFires);
      w2.game.winner == Some("") && !WinnerShown(w2.game)
  {
  }
}

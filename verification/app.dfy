/** The `App` component: the text area's names, the spin button, the
    deferred reveal, the winner popup and the arrow on the wheel.

    React state is the immutable `State`; each handler is a function from
    the old state to the new one. The pending `setTimeout` callbacks form the
    `timers` queue of a `World`, and `Step` applies one user or timer event. */
module App {
  import opened Wrappers
  import opened NameList
  import opened Draw
  import Text
  import Sectors
  import Geometry

  datatype State = State(
    names: string,             // the text area's contents
    winner: Option<string>,
    isSpinning: bool,
    rotation: real,            // degrees of the canvas' CSS rotation
    winnerIndex: Option<nat>)

  const InitialNames: string := "Jisan, Rifat, Teebro, Jasim, Ibrahim"

  const Initial: State := State(InitialNames, None, false, 0.0, None)

  /** Whole turns added to every spin (`360 * 4`). */
  const ExtraTurns: nat := 4

  // ---------------------------------------------------------------------------
  // Handlers

  /** `handleInputChange`: the text area's new contents replace the names;
      nothing else changes. */
  function SetNames(s: State, text: string): (s': State)
    ensures s'.names == text
    ensures s'.winner == s.winner && s'.winnerIndex == s.winnerIndex
    ensures s'.isSpinning == s.isSpinning && s'.rotation == s.rotation
  {
    s.(names := text)
  }

  /** `randomIndex * (360 / n) + 360 * 4`: between four and five turns, and
      reduced to one turn it is the start angle of the drawn slice. */
  function SpinDegrees(idx: nat, n: nat): (d: real)
    requires idx < n
    ensures Geometry.FullTurn * ExtraTurns as real <= d
    ensures d < Geometry.FullTurn * (ExtraTurns + 1) as real
    ensures Geometry.Normalize(d) == Geometry.SliceStart(idx, n)
  {
    var d := Geometry.SliceStart(idx, n) + Geometry.FullTurn * ExtraTurns as real;
    Geometry.NormalizeUnique(d, Geometry.SliceStart(idx, n), ExtraTurns);
    d
  }

  /** What `pickWinner` does besides updating state. */
  datatype Outcome = Toast | Scheduled(timer: Reveal)

  datatype Picked = Picked(state: State, outcome: Outcome)

  /** `pickWinner` with `Math.random()` returning `random`. Blank text only
      raises the toast. Otherwise the wheel starts spinning, turns forward by
      the drawn slice's angle plus four turns, and a reveal of the drawn name
      of the list parsed now is scheduled; winner and index are untouched. */
  function PickWinner(s: State, random: real): (p: Picked)
    requires 0.0 <= random < 1.0
    ensures p.outcome.Toast? <==> ParseNames(s.names) == []
    ensures p.outcome.Toast? ==> p.state == s
    ensures p.outcome.Scheduled? ==>
      var r := p.outcome.timer;
      && r.captured == ParseNames(s.names)
      && r.index == DrawIndex(random, |r.captured|)
      && p.state.isSpinning
      && p.state.rotation == s.rotation + SpinDegrees(r.index, |r.captured|)
      && p.state.names == s.names
      && p.state.winner == s.winner
      && p.state.winnerIndex == s.winnerIndex
  {
    var namesArray := ParseNames(s.names);
    if |namesArray| > 0 then
      var r := Schedule(namesArray, random);
      var s' := s.(isSpinning := true, rotation := s.rotation + SpinDegrees(r.index, |namesArray|));
      Picked(s', Scheduled(r))
    else
      Picked(s, Toast)
  }

  /** The `setTimeout` callback: the winner is the drawn name of the list
      captured when the spin started; spinning stops; the rotation and the
      text are left alone. */
  function RevealWinner(s: State, r: Reveal): (s': State)
    ensures s'.winner == Some(r.captured[r.index])
    ensures s'.winnerIndex == Some(r.index)
    ensures !s'.isSpinning
    ensures s'.names == s.names && s'.rotation == s.rotation
  {
    s.(winner := Some(r.captured[r.index]), winnerIndex := Some(r.index), isSpinning := false)
  }

  /** `closePopup`: forgets the winner and its index, and nothing else; in
      particular it does not stop a spin or cancel its reveal. */
  function ClosePopup(s: State): (s': State)
    ensures s'.winner == None && s'.winnerIndex == None
    ensures s'.names == s.names && s'.isSpinning == s.isSpinning && s'.rotation == s.rotation
  {
    s.(winner := None, winnerIndex := None)
  }

  lemma ClosePopupIdempotent(s: State)
    ensures ClosePopup(ClosePopup(s)) == ClosePopup(s)
  {
  }

  // ---------------------------------------------------------------------------
  // What the page shows

  /** The spin button is enabled (`disabled={isSpinning}`). */
  predicate SpinEnabled(s: State) {
    !s.isSpinning
  }

  /** The arrow is made visible (`winnerIndex !== null && !isSpinning`). */
  predicate IndicatorVisible(s: State) {
    s.winnerIndex.Some? && !s.isSpinning
  }

  /** The popup is rendered (`{winner && ...}`: a non-null, non-empty string). */
  predicate PopupVisible(s: State) {
    s.winner.Some? && s.winner.value != ""
  }

  /** The sectors drawn, from the names parsed at render time. */
  function Wheel(s: State): (sectors: seq<Sectors.Sector>)
    ensures |sectors| == |ParseNames(s.names)|
    ensures Sectors.Captions(sectors) == ParseNames(s.names)
  {
    Sectors.CaptionsOfSectors(ParseNames(s.names));
    Sectors.BuildSectors(ParseNames(s.names))
  }

  /** `(winnerIndex + 1/2) * (360 / n)`: the bisector of slice
      `winnerIndex` on the unrotated wheel, in degrees. */
  function ArrowBisector(idx: nat, n: nat): (a: real)
    requires n > 0
    ensures idx < n ==> a == Geometry.SliceMiddle(idx, n)
  {
    (idx as real + 0.5) * Geometry.SliceWidth(n)
  }

  /** The arrow's screen angle as the canvas effect places it: the winner's
      bisector on the unrotated wheel, although the canvas beneath it is
      turned by `rotation`. */
  function ArrowAsWritten(s: State): (a: Option<real>)
    ensures a.Some? <==> IndicatorVisible(s) && ParseNames(s.names) != []
    ensures a.Some? ==> a.value == ArrowBisector(s.winnerIndex.value, |ParseNames(s.names)|)
  {
    var n := |ParseNames(s.names)|;
    if IndicatorVisible(s) && n > 0 then Some(ArrowBisector(s.winnerIndex.value, n)) else None
  }

  lemma TurnedArrowPointsAt(idx: nat, n: nat, rotation: real)
    requires n > 0
    ensures idx < n ==>
      Geometry.SectorUnder(ArrowBisector(idx, n) + rotation, rotation, n) == idx
  {
    if idx < n {
      assert ArrowBisector(idx, n) + rotation - rotation
        == Geometry.SliceMiddle(idx, n) + Geometry.FullTurn * 0 as real;
      Geometry.SectorAtMiddle(idx, n, 0);
    }
  }

  /** The arrow's screen angle turned with the wheel: whenever it is shown
      and the index is a slice of the drawn wheel, it points at that slice,
      whatever the accumulated rotation. */
  function Arrow(s: State): (a: Option<real>)
    ensures a.Some? <==> IndicatorVisible(s) && ParseNames(s.names) != []
    ensures a.Some? && s.winnerIndex.value < |ParseNames(s.names)| ==>
      Geometry.SectorUnder(a.value, s.rotation, |ParseNames(s.names)|) == s.winnerIndex.value
  {
    var n := |ParseNames(s.names)|;
    if IndicatorVisible(s) && n > 0 then
      var idx := s.winnerIndex.value;
      TurnedArrowPointsAt(idx, n, s.rotation);
      Some(ArrowBisector(idx, n) + s.rotation)
    else
      None
  }

  // ---------------------------------------------------------------------------
  // The page over time

  datatype Event =
    | Edit(text: string)     // typing in the text area
    | Click(random: real)    // the spin button, with the value `Math.random()` will return
    | TimerFires             // the oldest pending `setTimeout` callback runs
    | Close                  // the popup's close button, there only while the popup is shown

  predicate ValidEvent(e: Event) {
    e.Click? ==> 0.0 <= e.random < 1.0
  }

  predicate ValidEvents(es: seq<Event>) {
    forall i :: 0 <= i < |es| ==> ValidEvent(es[i])
  }

  /** The page state and the reveals still pending, oldest first. */
  datatype World = World(ui: State, timers: seq<Reveal>)

  const Start: World := World(Initial, [])

  /** One event. A click on the disabled button does nothing, nor does a
      close without a popup to close; every event leaves the rotation where
      it was or turns it forward. */
  function Step(w: World, e: Event): (w': World)
    requires ValidEvent(e)
    ensures w.ui.rotation <= w'.ui.rotation
    ensures e.Click? && !SpinEnabled(w.ui) ==> w' == w
    ensures e.Close? && !PopupVisible(w.ui) ==> w' == w
  {
    match e
    case Edit(text) => w.(ui := SetNames(w.ui, text))
    case Click(random) =>
      if !SpinEnabled(w.ui) then w
      else
        var p := PickWinner(w.ui, random);
        (match p.outcome
         case Toast => w
         case Scheduled(r) => World(p.state, w.timers + [r]))
    case TimerFires =>
      if w.timers == [] then w
      else World(RevealWinner(w.ui, w.timers[0]), w.timers[1..])
    case Close => if PopupVisible(w.ui) then w.(ui := ClosePopup(w.ui)) else w
  }

  /** A sequence of events; the rotation never goes back. */
  function Run(w: World, es: seq<Event>): (w': World)
    requires ValidEvents(es)
    ensures w.ui.rotation <= w'.ui.rotation
    decreases |es|
  {
    if es == [] then w else Run(Step(w, es[0]), es[1..])
  }

  predicate AllNames(names: seq<string>) {
    forall j :: 0 <= j < |names| ==> IsName(names[j])
  }

  /** What holds of every reachable world: at most one reveal is pending, and
      one is exactly while the wheel spins; winner and index are set and
      cleared together; winners and captured lists hold parsed names only. */
  predicate Inv(w: World) {
    && |w.timers| <= 1
    && (w.ui.isSpinning <==> |w.timers| == 1)
    && (w.ui.winner.Some? <==> w.ui.winnerIndex.Some?)
    && (w.ui.winner.Some? ==> IsName(w.ui.winner.value))
    && (w.timers != [] ==> AllNames(w.timers[0].captured))
  }

  lemma StepInv(w: World, e: Event)
    requires Inv(w) && ValidEvent(e)
    ensures Inv(Step(w, e))
  {
  }

  lemma {:induction false} RunInv(w: World, es: seq<Event>)
    requires Inv(w) && ValidEvents(es)
    ensures Inv(Run(w, es))
    decreases |es|
  {
    if es != [] {
      StepInv(w, es[0]);
      RunInv(Step(w, es[0]), es[1..]);
    }
  }

  /** Every world reachable from the initial page satisfies `Inv`. */
  lemma ReachableInv(es: seq<Event>)
    requires ValidEvents(es)
    ensures Inv(Run(Start, es))
  {
    RunInv(Start, es);
  }

  // ---------------------------------------------------------------------------
  // Properties of the page

  /** While the wheel spins the button is disabled: a click changes nothing,
      so a second spin cannot start and at most one reveal is ever pending. */
  lemma NoSecondSpin(w: World, random: real)
    requires Inv(w) && w.ui.isSpinning
    requires 0.0 <= random < 1.0
    ensures Step(w, Click(random)) == w
    ensures |w.timers| == 1
  {
  }

  /** The guard is the button alone: `pickWinner` itself ignores
      `isSpinning`, so invoked during a spin it would start another. */
  lemma PickWinnerIgnoresSpinning(s: State, random: real)
    requires 0.0 <= random < 1.0
    requires ParseNames(s.names) != []
    ensures PickWinner(s.(isSpinning := true), random).outcome.Scheduled?
  {
  }

  /** Clicking on blank text only raises the toast: no state changes and no
      reveal is scheduled. */
  lemma BlankTextOnlyToasts(w: World, random: real)
    requires SpinEnabled(w.ui)
    requires 0.0 <= random < 1.0
    requires IsBlank(w.ui.names)
    ensures PickWinner(w.ui, random).outcome == Toast
    ensures Step(w, Click(random)) == w
  {
    ParseEmptyIff(w.ui.names);
  }

  /** A spin on non-blank text ends, once its timer fires, with the popup and
      the arrow showing the same slice: the winner is the caption of slice
      `winnerIndex` of the drawn wheel, the arrow points at that slice, and
      the wheel has turned forward by four to five turns. */
  lemma SpinThenReveal(w: World, random: real)
    requires Inv(w) && SpinEnabled(w.ui)
    requires 0.0 <= random < 1.0
    requires !IsBlank(w.ui.names)
    ensures var w2 := Step(Step(w, Click(random)), TimerFires);
      && w2.timers == []
      && w2.ui.names == w.ui.names
      && w2.ui.winnerIndex.Some?
      && w2.ui.winnerIndex.value < |Wheel(w2.ui)|
      && Wheel(w2.ui)[w2.ui.winnerIndex.value].caption == w2.ui.winner.value
      && PopupVisible(w2.ui) && IndicatorVisible(w2.ui)
      && Arrow(w2.ui).Some?
      && Geometry.SectorUnder(Arrow(w2.ui).value, w2.ui.rotation, |Wheel(w2.ui)|)
         == w2.ui.winnerIndex.value
      && w.ui.rotation + 1440.0 <= w2.ui.rotation < w.ui.rotation + 1800.0
  {
    ParseEmptyIff(w.ui.names);
    var w1 := Step(w, Click(random));
    var r := w1.timers[0];
    assert r.captured == ParseNames(w.ui.names);
    assert IsName(r.captured[r.index]);
  }

  /** `closePopup` during a spin does not cancel the reveal: when the timer
      fires the winner is set, and the popup shown, again. */
  lemma CloseDoesNotCancelReveal(w: World)
    requires Inv(w) && w.ui.isSpinning
    ensures var r := w.timers[0];
      var w2 := Step(Step(w, Close), TimerFires);
      && w2.ui.winner == Some(r.captured[r.index])
      && w2.ui.winnerIndex == Some(r.index)
      && PopupVisible(w2.ui)
  {
  }

  /** The reveal reads the list captured when the spin started, not the text
      typed since. */
  lemma RevealUsesCapturedList(w: World, text: string)
    requires Inv(w) && w.ui.isSpinning
    ensures var r := w.timers[0];
      var w2 := Step(Step(w, Edit(text)), TimerFires);
      && w2.ui.winner == Some(r.captured[r.index])
      && w2.ui.names == text
  {
  }

  /** Under `Inv` the arrow is only shown once no reveal is pending, and the
      popup is shown exactly when a winner is set. */
  lemma VisibilityUnderInv(w: World)
    requires Inv(w)
    ensures IndicatorVisible(w.ui) ==> w.timers == [] && w.ui.winner.Some?
    ensures PopupVisible(w.ui) <==> w.ui.winner.Some?
  {
  }

  // ---------------------------------------------------------------------------
  // The arrow as written points at slice 0

  /** After a spin from any whole number of turns, the arrow as written points
      at slice 0, not at the drawn slice: the wheel turned the drawn slice's
      start angle past it. */
  lemma AsWrittenArrowShowsFirstSlice(idx: nat, n: nat, turns: int)
    requires idx < n
    ensures Geometry.SectorUnder(ArrowBisector(idx, n),
      Geometry.FullTurn * turns as real + SpinDegrees(idx, n), n) == 0
  {
    var w := Geometry.SliceWidth(n);
    var angle := ArrowBisector(idx, n) - (Geometry.FullTurn * turns as real + SpinDegrees(idx, n));
    assert angle == Geometry.SliceMiddle(0, n) + Geometry.FullTurn * (-turns - ExtraTurns) as real;
    Geometry.SectorAtMiddle(0, n, -turns - ExtraTurns);
  }

  /** Slice 1 of three starts at 120 degrees, so its spin is 1560 degrees. */
  lemma SpinOfSecondOfThree()
    ensures SpinDegrees(1, 3) == 1560.0
  {
    assert Geometry.SliceWidth(3) == 120.0;
  }

  /** Clicking with `Math.random()` returning 0.5 on a text that parses to
      three names, then letting the timer fire, reveals the middle one. */
  lemma SpinOfThree(text: string, a: string, b: string, c: string)
    requires ParseNames(text) == [a, b, c]
    ensures Run(World(Initial.(names := text), []), [Click(0.5), TimerFires]).ui
      == State(text, Some(b), false, 1560.0, Some(1))
  {
    var w0 := World(Initial.(names := text), []);
    assert DrawIndex(0.5, 3) == 1;
    SpinOfSecondOfThree();
    var w1 := Step(w0, Click(0.5));
    assert w1.timers == [Pending([a, b, c], 1)];
    var w2 := Step(w1, TimerFires);
    assert Run(w0, [Click(0.5), TimerFires]) == Run(w1, [TimerFires]);
    assert Run(w1, [TimerFires]) == Run(w2, []);
  }

  /** On a three-slice wheel turned by 1560 degrees after revealing slice 1,
      the corrected arrow points at slice 1 and the arrow as written at
      slice 0. */
  lemma ArrowsAfterSecondOfThree(s: State)
    requires |ParseNames(s.names)| == 3
    requires s.winnerIndex == Some(1) && !s.isSpinning && s.rotation == 1560.0
    ensures Arrow(s).Some? && Geometry.SectorUnder(Arrow(s).value, s.rotation, 3) == 1
    ensures ArrowAsWritten(s).Some? && Geometry.SectorUnder(ArrowAsWritten(s).value, s.rotation, 3) == 0
  {
    SpinOfSecondOfThree();
    AsWrittenArrowShowsFirstSlice(1, 3, 0);
    assert Geometry.FullTurn * 0 as real + SpinDegrees(1, 3) == s.rotation;
  }

  /** Any three names typed as `a, b, c`, with `Math.random()` returning
      0.5: the draw picks `b` and turns the wheel by 1560 degrees; the popup
      says `b` and the corrected arrow points at `b`'s slice, but the arrow
      as written points at `a`'s. */
  lemma ArrowMissesWinner(a: string, b: string, c: string)
    requires IsName(a) && IsName(b) && IsName(c)
    ensures var s := Run(World(Initial.(names := Listing([a, b, c])), []), [Click(0.5), TimerFires]).ui;
      && s.winner == Some(b)
      && s.winnerIndex == Some(1)
      && s.rotation == 1560.0
      && Wheel(s) == Sectors.BuildSectors([a, b, c])
      && Arrow(s).Some? && Geometry.SectorUnder(Arrow(s).value, s.rotation, 3) == 1
      && ArrowAsWritten(s).Some? && Geometry.SectorUnder(ArrowAsWritten(s).value, s.rotation, 3) == 0
  {
    var text := Listing([a, b, c]);
    ParseListing([a, b, c]);
    SpinOfThree(text, a, b, c);
    ArrowsAfterSecondOfThree(State(text, Some(b), false, 1560.0, Some(1)));
  }
}

# Spin-the-wheel name picker, modelled in Dafny

The repository is a small React page that picks a winner from a list of
names. The user types names separated by commas. The page draws a wheel with
one coloured, labelled slice per name. "Spin it!" turns the wheel and, after a
delay, shows the winner in a popup, with an arrow beside the wheel. A second,
simpler component, `SpinWheelGame`, takes its list as a prop. It spins a ring
of name cards and reveals a winner after a delay.

The model covers both components' logic:

- **`Text`**: JavaScript's `trim` (over the ECMAScript WhiteSpace and
  LineTerminator characters), `split` on one character, and `join`, its
  inverse.
- **`NameList`**: the parser
  `split(',').map(trim).filter(name => name !== '')`. It is characterised
  three ways:
  - every result is a name;
  - parsing distributes over commas;
  - parsing inverts writing the names out, and only blank text parses to
    nothing.
- **`Sectors`**: the 50-colour palette and `sectors()`, which colours
  position `i` with palette entry `i mod 50`.
- **`Geometry`**: slice angles in degrees, reducing an angle to one turn, and
  the slice that lies under a screen angle once the wheel has turned.
- **`Draw`**: `Math.floor(Math.random() * n)`, and the record that a pending
  `setTimeout` callback closes over.
- **`App`**:
  - `App`'s state and its handlers (`handleInputChange`, `pickWinner`, the
    reveal callback, `closePopup`);
  - what the page shows (button enabled, popup, wheel, arrow);
  - a `World` that holds the state plus the queue of pending reveals, driven
    by user and timer events.
- **`SpinWheelGame`**: the same treatment for the second component.

`Math.random()` is a parameter: a real in `[0, 1)` supplied with each click.
The timers are a queue; their durations (5000 ms and 3000 ms) do not matter,
because at most one reveal is ever pending.

## Model

| member | source | states |
|---|---|---|
| Text.TrimStartSpec | src/App.jsx:97 | Trimming the start removes a prefix made only of white space, and what remains does not start with white space. |
| Text.TrimEndSpec | src/App.jsx:97 | Trimming the end removes a suffix made only of white space, and what remains does not end with white space. |
| Text.TrimSpec | src/App.jsx:97 | `trim` returns a trimmed string that occurs in the input with only white space before and after it. |
| Text.TrimKeepsCharacters | src/App.jsx:97 | Every character of the trimmed string occurs in the input, so trimming a comma-free piece leaves it comma-free. |
| Text.TrimFixedPoint | src/App.jsx:97 | `trim` leaves a string unchanged exactly when the string neither starts nor ends with white space. |
| Text.TrimIdempotent | src/App.jsx:97 | Trimming twice gives the same result as trimming once. |
| Text.TrimEmptyIff | src/App.jsx:97 | A string trims to the empty string exactly when it is all white space. |
| Text.Split | src/App.jsx:97 | `split` gives one more piece than there are separators, and no piece contains the separator. |
| Text.SplitWithoutSeparator | src/App.jsx:97 | A text without the separator splits into itself alone. |
| Text.SplitAppend | src/App.jsx:97 | Splitting `a + sep + b` gives the pieces of `a` followed by the pieces of `b`. |
| Text.JoinSplit | src/App.jsx:97 | Joining the pieces of a split with the separator gives back the text. |
| Text.SplitJoin | src/App.jsx:97 | Splitting a join of separator-free pieces gives back the pieces. |
| NameList.DropEmpty | src/App.jsx:97 | The filter keeps only non-empty pieces, and each kept piece comes from the input. |
| NameList.DropEmptyUnit | src/App.jsx:97 | The filter drops a single empty piece and keeps a single non-empty one. |
| NameList.DropEmptyAppend | src/App.jsx:97 | Filtering a concatenation filters each part in place, so kept pieces stay in input order. |
| NameList.DropEmptyCounts | src/App.jsx:97 | Every non-empty piece is kept as many times as it occurs, duplicates included, and the empty piece never is. |
| NameList.TrimAllFacts | src/App.jsx:97 | Trimming every piece keeps the number of pieces; each trimmed piece is trimmed and stays comma-free. |
| NameList.TrimAllAppend | src/App.jsx:97 | Trimming every piece of a concatenation trims each part in place, keeping order. |
| NameList.DropEmptyKeepsNames | src/App.jsx:97 | The filter removes nothing from a list of names. |
| NameList.ParseNames | src/App.jsx:97 | Every parsed entry is non-empty, trimmed and comma-free, and there are at most one more entries than commas. |
| NameList.ParseAppend | src/App.jsx:97 | The names of `a + "," + b` are the names of `a` followed by those of `b`. Order and duplicates are kept. |
| NameList.ParsePiece | src/App.jsx:97 | A comma-free text parses to its trimmed form, or to nothing when that is empty. |
| NameList.ParseJoin | src/App.jsx:97 | Names joined with commas parse back to the same list. |
| NameList.ParseEmptyIff | src/App.jsx:97 | The parse is empty exactly when the text holds only commas and white space. |
| NameList.TrimPadded | src/App.jsx:97 | White space in front of a name is trimmed away, leaving the name. |
| NameList.SpacedFacts | src/App.jsx:97 | Names with a space in front stay comma-free and trim back to the names. |
| NameList.ParseListing | src/App.jsx:85 | Names written out as `a, b, c` (as the initial text is) parse back to the same list. |
| Sectors.ColorAt | src/App.jsx:19 | A sector's colour is always a palette entry. |
| Sectors.BuildSectors | src/App.jsx:18-21 | There is one sector per name, in order. Sector `i` is captioned with name `i` and coloured by position `i`. |
| Sectors.CaptionsOfSectors | src/App.jsx:18-21 | The captions of the sectors are exactly the names. |
| Sectors.PrefixStable | src/App.jsx:18-21 | Appending names does not recolour or relabel the sectors already there. |
| Sectors.ColorPeriod | src/App.jsx:19 | Colours repeat every 50 positions. |
| Sectors.ColorByPosition | src/App.jsx:19 | Two lists colour the same position alike, whatever their names. |
| Geometry.SliceWidth | src/App.jsx:33 | A slice is positive, at most a full turn, and `n` slices make exactly a full turn. |
| Geometry.SliceStart | src/App.jsx:38 | A slice starts at or after 0, and it ends within the full turn. |
| Geometry.SliceMiddle | src/App.jsx:47 | The bisector, where a label goes, lies strictly inside its slice. |
| Geometry.SlicesTile | src/App.jsx:37-39 | Each slice ends where the next one starts, and the last one ends at 360 degrees. |
| Geometry.SlicesIncrease | src/App.jsx:38 | Slices are laid out in index order without overlap. |
| Geometry.Normalize | src/App.jsx:76 | An angle reduced to one turn lies in `[0, 360)` and differs from the angle by whole turns. |
| Geometry.NormalizeUnique | src/App.jsx:76 | The reduction is the only value in `[0, 360)` a whole number of turns away. |
| Geometry.NormalizeTurns | src/App.jsx:76 | Adding whole turns does not change which way the wheel faces. |
| Geometry.SectorAt | src/App.jsx:37-42 | The slice containing a canvas angle is a valid index, and the angle lies within that slice's bounds. |
| Geometry.SectorAtUnique | src/App.jsx:37-42 | No other slice contains the angle. |
| Geometry.SectorAtMiddle | src/App.jsx:47 | A slice's bisector, turned by any number of whole turns, lies in that slice. |
| Geometry.SectorUnder | src/App.jsx:76 | On a wheel turned clockwise by `rotation`, the slice under a screen angle is a valid index whose bounds contain the canvas angle `screen - rotation`, reduced to one turn. |
| Draw.DrawIndex | src/App.jsx:100 | `Math.floor(Math.random() * n)` is an index of the list: the one whose `1/n` band contains the random value. |
| Draw.EveryIndexDrawable | src/App.jsx:100 | Every index is drawn by some random value in `[0, 1)`. |
| Draw.Schedule | src/App.jsx:103-107 | The scheduled callback closes over the list of the click and an index valid for that list. |
| App.SetNames | src/App.jsx:91-93 | Typing replaces the text and leaves winner, index, spinning and rotation alone. |
| App.SpinDegrees | src/App.jsx:101 | A spin turns four to five full turns, ending with the drawn slice's start angle. |
| App.PickWinner | src/App.jsx:95-113 | Blank text gives only the toast and no state change. Otherwise the wheel spins, turns by the spin's degrees, and a reveal of the drawn index of the list parsed now is scheduled. Winner and index are left alone. |
| App.RevealWinner | src/App.jsx:103-107 | The callback sets the winner to the captured list's drawn name and the index to the drawn index, and stops spinning. |
| App.ClosePopup | src/App.jsx:115-118 | Closing clears winner and index and changes nothing else; a spin in progress continues. |
| App.ClosePopupIdempotent | src/App.jsx:115-118 | Closing twice has the same effect as closing once. |
| App.Wheel | src/App.jsx:120 | The wheel drawn has one sector per parsed name, captioned with the names in order. |
| App.ArrowBisector | src/App.jsx:57 | The arrow angle for a valid index is the bisector of that slice. |
| App.ArrowAsWritten | src/App.jsx:56-57 | The arrow is shown exactly when an index is set, the wheel is still and the list is non-empty. It sits at the winner's bisector on the unrotated wheel. |
| App.TurnedArrowPointsAt | src/App.jsx:76 | A bisector turned with the wheel lies over that slice, whatever the rotation. |
| App.Arrow | src/App.jsx:56-66 | The corrected arrow has the same visibility, and once shown it points at the winner's slice of the turned wheel. |
| App.Step | src/App.jsx:140-150 | A click on the disabled button changes nothing, a close needs the popup (whose button it is) to be shown, and no event turns the wheel backwards. |
| App.Run | src/App.jsx:102 | The rotation only accumulates over any run of events. |
| App.StepInv | src/App.jsx:95-118 | Each event preserves the invariant. While spinning exactly one reveal is pending, and never more than one. Winner and index are set together, and winners are parsed names. |
| App.RunInv | src/App.jsx:95-118 | Any run of events preserves the invariant. |
| App.ReachableInv | src/App.jsx:85-89 | Every page state reachable from the initial state satisfies the invariant. |
| App.NoSecondSpin | src/App.jsx:140 | While the wheel spins a click changes nothing, and exactly one reveal is pending. |
| App.PickWinnerIgnoresSpinning | src/App.jsx:95-99 | `pickWinner` itself does not check `isSpinning`; only the disabled button does. |
| App.BlankTextOnlyToasts | src/App.jsx:97-112 | A click on blank text schedules nothing and changes nothing. |
| App.SpinThenReveal | src/App.jsx:95-107 | Click then timer shows the popup and the arrow. The winner is the caption of the winner's slice, the corrected arrow points at it, and the wheel has turned forward by four to five turns. |
| App.CloseDoesNotCancelReveal | src/App.jsx:115-118 | Closing during a spin does not prevent the reveal: the popup comes back when the timer fires. |
| App.RevealUsesCapturedList | src/App.jsx:103-104 | The reveal names the drawn entry of the list captured at the click, not the text typed since. |
| App.VisibilityUnderInv | src/App.jsx:56 | The arrow shows only when no reveal is pending and a winner is set. The popup shows exactly when a winner is set. |
| App.AsWrittenArrowShowsFirstSlice | src/App.jsx:57 | After a spin from any whole number of turns, the arrow as written lies over slice 0, whichever slice was drawn. |
| App.SpinOfSecondOfThree | src/App.jsx:101 | Drawing slice 1 of 3 turns the wheel 1560 degrees. |
| App.SpinOfThree | src/App.jsx:95-107 | With three parsed names and random 0.5, click then timer reveals the middle name at index 1, with rotation 1560. |
| App.ArrowsAfterSecondOfThree | src/App.jsx:56-57 | In that state the corrected arrow points at slice 1 and the arrow as written at slice 0. |
| App.ArrowMissesWinner | src/App.jsx:57 | For any three names `a, b, c` and random 0.5, the popup says `b` and the corrected arrow points at `b`'s slice, but the arrow as written points at `a`'s. |
| SpinWheelGame.SpinWheel | src/SpinWheelGame.jsx:8-17 | An empty list does nothing. Otherwise the wheel spins, the previous winner stays, and a reveal of the drawn index of the current list is scheduled. |
| SpinWheelGame.RevealWinner | src/SpinWheelGame.jsx:12-15 | The callback makes the captured list's drawn name the winner, a member of that list, and stops spinning. |
| SpinWheelGame.CardRotations | src/SpinWheelGame.jsx:33 | Card `i` is turned by slice `i`'s start angle. |
| SpinWheelGame.CardRotationsSpread | src/SpinWheelGame.jsx:33 | The first card is unturned. All cards stay within one turn and fan out in list order, one slice apart. |
| SpinWheelGame.Step | src/SpinWheelGame.jsx:52 | A click on the disabled button changes nothing, and only a reveal changes the winner. |
| SpinWheelGame.StepInv | src/SpinWheelGame.jsx:8-17 | Each event keeps the invariant: exactly one reveal is pending while spinning, and never more than one. |
| SpinWheelGame.RunInv | src/SpinWheelGame.jsx:8-17 | Any run of events keeps the invariant. |
| SpinWheelGame.ReachableInv | src/SpinWheelGame.jsx:5-6 | Every state reachable from the first render satisfies the invariant. |
| SpinWheelGame.NoSecondSpin | src/SpinWheelGame.jsx:52 | While spinning a click changes nothing. |
| SpinWheelGame.EmptyListDoesNothing | src/SpinWheelGame.jsx:9 | A click with an empty list changes nothing. |
| SpinWheelGame.SpinThenReveal | src/SpinWheelGame.jsx:12-15 | Click, new props, then timer reveals the drawn name of the list at the click, and spinning stops. |
| SpinWheelGame.EveryNameCanWin | src/SpinWheelGame.jsx:11 | For each position some random value makes that name the winner. |
| SpinWheelGame.EmptyNameWinsUnseen | src/SpinWheelGame.jsx:41 | An empty name can be drawn and becomes the winner, but the overlay does not show it. |

## Left out

- Drawing: the canvas painting (arcs, fill, font, text placement), pixel
  coordinates, and the conversion from degrees to the radians the canvas uses.
  The model keeps only which angle ranges the slices cover, in degrees.
- Presentation: CSS classes, transitions, the `animate-spin` class, and the
  card `transformOrigin`.
- Time: the timer durations, 5000 ms in `App` and 3000 ms in
  `SpinWheelGame`. Events are ordered, not timed.
- Components going away: unmounting the component before its timer fires.
- Randomness: the distribution of `Math.random()`. The model shows that every
  index can be drawn, not that the draw is uniform.
- Floating point: numbers are exact reals. `360 / n` and its products are not
  rounded as JavaScript doubles are.
- The toast: its message text and the `react-hot-toast` call. A toast is only
  an outcome tag.
- React updates: state updates within one handler are applied together, as
  React batches them. The `rotation` read by `pickWinner` is the current one.
  Only one click can occur per render, because the button is disabled while
  spinning.
- String encoding: JavaScript strings are UTF-16 code units, while Dafny
  `char`s here are Unicode scalar values. `trim`'s white space set is written
  out as characters.
- App.ArrowAsWritten: when the parsed list is empty but an index is still
  set, the source computes the arrow position with an infinite slice angle
  (a `NaN` position). The model shows no arrow in that case.
- App.Arrow: same as `App.ArrowAsWritten` for an empty list.
- Text.Trim: its own contract states only that the result is no longer than
  the input. The full characterisation is the lemma `Text.TrimSpec` and the
  lemmas after it.
- Palette distinctness: the 50 palette colours are not proved pairwise
  distinct. Colour properties are stated by position only.

### Behaviour worth noting

- `pickWinner` has no guard of its own. Only `disabled={isSpinning}`
  (App.jsx line 140) stops a second spin, and the model gates clicks exactly
  as the button does (`App.PickWinnerIgnoresSpinning`, `App.NoSecondSpin`).
- There is no fixed pointer. The arrow element is placed from the winner's
  index alone, beside a canvas that is itself rotated (see Findings).
- `closePopup` does not cancel a pending reveal: closing the popup during a
  spin leaves the reveal to fire later (`App.CloseDoesNotCancelReveal`).

## Findings

| source | as written | input that shows it | evidently intended | confidence | as-written member | corrected member |
|---|---|---|---|---|---|---|
| src/App.jsx:57 | The arrow goes at the winner slice's bisector on the unturned wheel, but the canvas under it is turned by the cumulative `rotation` (line 76). After a spin that starts from a whole number of turns (the first spin, for example) the arrow lies over slice 0; in general it lies over the slice at the winner's bisector minus the accumulated rotation. | Text `a, b, c` with `Math.random()` returning 0.5: index 1, rotation 1560 degrees. The popup says `b`, the arrow sits over `a`'s slice. | The arrow points at the winner's slice of the turned wheel, i.e. its angle includes `rotation`. | high, not executed | App.ArrowMissesWinner | App.Arrow |

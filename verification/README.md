# Screen calculator: a Dafny model of its core

ScreenClaculator is a small React application for planning a screen installation.

- A **screen form** ties the screen's width, height and diagonal together through an aspect ratio. A keystroke updates its own box at once. The other two measurements are recomputed one second later, through a single-slot debounce.
- A **room form** stores the room's width, depth and height (entered in metres) and the mount height (entered in centimetres).
- A **validation gate** in the application shell copies both forms' numbers into "validated" snapshots. It does so only when all seven numbers are positive.
- A **2D side view** draws the wall, the screen and dimension callouts at fixed pixel positions. The measurements appear only as label text and as an over-height warning.

This project models those four pieces and the shell that wires them together, and proves their properties.

- Real numbers stand in for JavaScript doubles.
- `Math.sqrt` is a function parameter `sqrt` that is required to return the non-negative root (`Numeric.IsSqrt`).
- `cos(atan(t))` is replaced by the identity `1 / sqrt(1 + t*t)`.
- `parseFloat`'s result is an input `Option<real>`, where `None` stands for NaN.
- `toFixed` is the datatype `Numeric.Fixed`: a sign, a digit string and a number of decimals.
- The debounce timer is an explicit `Option<Pending>` slot. The slot holds the edit together with the aspect ratio and unit of the render that scheduled it.

Modules:

- `Options` and `Numeric` (`numeric.dfy`): the option type, square-root facts, `Math.round`, `toFixed`, and the inch/centimetre conversions.
- `ScreenDimensions` (`screen.dfy`): the reconciliation arithmetic, the edit protocol, the unit and ratio effects, and the form invariant.
- `StaleRatio` (`screen.dfy`): the stale-closure finding below.
- `RoomDimensions` (`room.dfy`): the room form.
- `ValidationGate` and `StaleValidationFlag` (`gate.dfy`): the shell's gate and the stale-flag finding below.
- `Visualization2D` (`diagram.dfy`): the side view.
- `Shell` (`shell.dfy`): the whole application as one state machine, with an end-to-end invariant.

Behaviours of the code that are easy to miss, which the model follows:

- A negative number typed into either form is accepted and stored. Only NaN is rejected.
- The screen's edge and diagonal labels in the side view are shown in metres with two decimals (the default branch of `formatDimension`). Only the mount height is shown in whole centimetres.
- The side view never scales to its container. `containerSize` is measured but never read, and every coordinate is a constant.
- In the diagonal branch of `calculateDimensions`, the variable `ratio` (line 98) is computed and never used.
- After a diagonal-driven recomputation, the unit effect reprints the diagonal box only when the recomputation changed the diagonal to a positive value (its dependencies are the unit and the diagonal). A diagonal typed so that it reconciles to the value already stored keeps the user's text.

## Model

| member | source | states |
|---|---|---|
| `ScreenDimensions.CatalogRatiosAreLandscape` | src/components/ScreenDimensions.tsx:27-33 | every ratio on offer is wider than tall (value above 1) |
| `ScreenDimensions.Reconcile` | src/components/ScreenDimensions.tsx:94-110 | the driving field keeps the entered value; the result has width = height × ratio and diagonal² = width² + height²; width and height drive a non-negative diagonal, a diagonal drives a width of its own sign |
| `ScreenDimensions.DiagonalScaling` | src/components/ScreenDimensions.tsx:97-101 | scaling a diagonal by cos(atan(1/ratio)), then dividing by the ratio, gives a proportional Pythagorean triple whose width has the diagonal's sign |
| `ScreenDimensions.SidesGiveDiagonal` | src/components/ScreenDimensions.tsx:102-109 | proportional sides with diagonal sqrt(w² + h²) form a consistent triple with a non-negative diagonal |
| `ScreenDimensions.WidthFromDiagonal` | src/components/ScreenDimensions.tsx:97-101 | two consistent triples with the same diagonal and same-signed widths are equal |
| `ScreenDimensions.ReconcileUnique` | src/components/ScreenDimensions.tsx:97-110 | Reconcile's triple is the only one that has the driving value, the ratio, Pythagoras and the orientation: the three branches solve the same equations |
| `ScreenDimensions.HeightFromWidth` | src/components/ScreenDimensions.tsx:104 | under a positive ratio, the width fixes the height |
| `ScreenDimensions.DiagonalFromSides` | src/components/ScreenDimensions.tsx:105 | width and height fix a non-negative diagonal |
| `ScreenDimensions.DiagonalWidthRoundTrip` | src/components/ScreenDimensions.tsx:97-105 | the width derived from a non-negative diagonal, entered back as a width, reproduces the same screen |
| `ScreenDimensions.WidthHeightAgree` | src/components/ScreenDimensions.tsx:102-109 | driving by a width or by the height it implies gives the same screen |
| `ScreenDimensions.FiftyFiveInchScreen` | src/components/ScreenDimensions.tsx:97-101 | a 139.7 cm (55 in) diagonal at 16:9 gives a width between 121.7 and 121.9 cm and a height between 68.4 and 68.6 cm |
| `ScreenDimensions.DisplayReadsBack` | src/components/ScreenDimensions.tsx:114-127 | a derived box prints within 0.05 of the centimetres it stands for; an imperial diagonal prints exactly convertToInches' value, within 0.05 in of cm/2.54 |
| `ScreenDimensions.ParseInput` | src/components/ScreenDimensions.tsx:77-84 | empty text is 0; otherwise NaN is rejected; an imperial diagonal is converted from inches (value/2.54 = typed number); width and height are never converted |
| `ScreenDimensions.HandleInput` | src/components/ScreenDimensions.tsx:58-92 | the edited box shows the keystrokes and no other box changes; the numbers are untouched; the slot is emptied, and refilled only for a non-NaN value, with that value, the field, and the current ratio and unit |
| `ScreenDimensions.Calculate` | src/components/ScreenDimensions.tsx:94-128 | the numbers become a consistent triple with the driving value; the two other boxes print the new numbers in the given unit; the driving box keeps its text |
| `ScreenDimensions.RedisplayDiagonal` | src/components/ScreenDimensions.tsx:131-139 | only the diagonal box changes, reprinted in the current unit, and only when the diagonal is positive |
| `ScreenDimensions.FireAsWritten` | src/components/ScreenDimensions.tsx:87-89 | the timer empties the slot and keeps the selected ratio and unit; with nothing pending nothing changes; the numbers become Reconcile of the pending edit under the ratio captured at the keystroke; the other width/height box prints in the captured unit; the diagonal box is reprinted in the current unit when the diagonal changed to a positive value, and otherwise keeps the typed text (diagonal edit) or the captured unit's print |
| `ScreenDimensions.Fire` | src/components/ScreenDimensions.tsx:87-89 | the timer empties the slot; the numbers become Reconcile of the pending edit under the ratio now selected; the other boxes show the new numbers; a width or height box keeps its text; after a diagonal edit, the diagonal box is reprinted in the current unit when the diagonal changed to a positive value and keeps the typed text otherwise; with nothing pending nothing changes |
| `ScreenDimensions.SelectUnit` | src/components/ScreenDimensions.tsx:131-139 | a unit change never alters the numbers, the ratio or the slot; only the diagonal box can change, only for a new unit and a positive diagonal, and then it becomes the diagonal printed in the new unit |
| `ScreenDimensions.SelectRatio` | src/components/ScreenDimensions.tsx:142-146 | a ratio change keeps the diagonal and its box; with a positive diagonal, width and height are re-derived, positive and consistent with the new ratio, and both boxes print them; otherwise the numbers and the width and height boxes stay; the slot is left alone |
| `ScreenDimensions.Teardown` | src/components/ScreenDimensions.tsx:152-158 | unmounting empties the slot and keeps the numbers, the ratio, the unit and every box |
| `ScreenDimensions.TeardownStopsTimer` | src/components/ScreenDimensions.tsx:152-158 | after the cleanup, neither the stale nor the corrected timer changes the form |
| `ScreenDimensions.InitialInv` | src/components/ScreenDimensions.tsx:36-48 | the first render (16:9, inches, zeros) satisfies the form invariant |
| `ScreenDimensions.HandleInputInv` | src/components/ScreenDimensions.tsx:58-92 | a keystroke preserves the form invariant |
| `ScreenDimensions.FireInv` | src/components/ScreenDimensions.tsx:94-128 | the corrected timer preserves the invariant: Pythagoras always, and the selected ratio whenever the diagonal is non-negative |
| `ScreenDimensions.SelectUnitInv` | src/components/ScreenDimensions.tsx:131-139 | a unit change preserves the invariant |
| `ScreenDimensions.ZeroDiagonalFitsEveryRatio` | src/components/ScreenDimensions.tsx:143 | a Pythagorean triple with zero diagonal is all zeros, so it is consistent with every ratio (the case the ratio effect skips) |
| `ScreenDimensions.SelectRatioInv` | src/components/ScreenDimensions.tsx:142-146 | a ratio change preserves the invariant, including the skipped zero-diagonal case |
| `StaleRatio.StaleFireBreaksInvariant` | src/components/ScreenDimensions.tsx:87-89 | if the ratio changed while a positive edit was pending, the timer as written leaves a screen whose ratio is not the selected one |
| `StaleRatio.InsideWindow` | src/components/ScreenDimensions.tsx:141-146 | the form inside the debounce window after a 4:3 selection: well formed, with a pending ratio that differs from the selected one |
| `StaleRatio.TypeWidthThenSelectFourThirds` | src/components/ScreenDimensions.tsx:58-92 | typing a positive width into the first render and then selecting 4:3 reaches exactly that state |
| `StaleRatio.InsideWindowInv` | src/components/ScreenDimensions.tsx:141-146 | that state satisfies the form invariant |
| `StaleRatio.StaleFireInsideWindow` | src/components/ScreenDimensions.tsx:87-89 | from it, the timer as written breaks the invariant |
| `StaleRatio.FreshFireInsideWindow` | src/components/ScreenDimensions.tsx:87-89 | from it, the corrected timer keeps the invariant |
| `Numeric.RootUnique` | src/components/ScreenDimensions.tsx:105 | two non-negative numbers with equal squares are equal, so Math.sqrt's result is determined |
| `Numeric.SumOfSquaresZero` | src/components/ScreenDimensions.tsx:143 | only zero width and zero height give a zero sum of squares |
| `Numeric.SqrtOfSquare` | src/components/ScreenDimensions.tsx:105 | Math.sqrt of r² is r for non-negative r |
| `Numeric.CosAtan` | src/components/ScreenDimensions.tsx:99 | cos(atan t) is positive and c²(1 + t²) = 1 |
| `Numeric.JsRound` | src/components/ScreenDimensions.tsx:51 | Math.round returns the integer n with n - 0.5 <= x < n + 0.5 |
| `Numeric.JsRoundUnique` | src/components/ScreenDimensions.tsx:51 | that characterisation determines Math.round |
| `Numeric.JsRoundOfInteger` | src/components/ScreenDimensions.tsx:51 | Math.round leaves integers alone |
| `Numeric.RoundedUnits` | src/components/ScreenDimensions.tsx:116 | the rounded digit string is within half a unit in the last place of the magnitude |
| `Numeric.ToFixed` | src/components/ScreenDimensions.tsx:116 | toFixed keeps the number of decimals and the sign, and reads back within half a unit in the last place |
| `Numeric.ToFixedOnGrid` | src/components/ScreenDimensions.tsx:125 | a number with at most `digits` decimals is printed exactly |
| `Numeric.ToFixedHundredths` | src/components/Visualization2D.tsx:53 | a whole number of centimetres, divided by 100, is printed exactly with two decimals |
| `Numeric.FromInches` | src/components/ScreenDimensions.tsx:54-56 | convertFromInches: dividing the result by 2.54 gives back the inches |
| `Numeric.ToInches` | src/components/ScreenDimensions.tsx:50-52 | convertToInches: the multiple of 0.1 with inches − 0.05 <= cm/2.54 < inches + 0.05, so a half tenth rounds up, as Math.round does |
| `Numeric.InchesRoundTrip` | src/components/ScreenDimensions.tsx:50-56 | inches with one decimal survive a trip to centimetres and back unchanged |
| `Numeric.InchesDisplayStable` | src/components/ScreenDimensions.tsx:131-139 | reprinting a diagonal that is already displayed in inches changes nothing |
| `RoomDimensions.CmPerEnteredUnit` | src/components/RoomDimensions.tsx:51 | each box's unit is a positive number of centimetres |
| `RoomDimensions.ToCentimetres` | src/components/RoomDimensions.tsx:51 | width, depth and height are stored ×100; the mount height is stored as typed; the sign is kept |
| `RoomDimensions.FromCentimetres` | src/components/RoomDimensions.tsx:51 | the inverse of ToCentimetres |
| `RoomDimensions.CentimetresRoundTrip` | src/components/RoomDimensions.tsx:51 | converting a typed number to centimetres and back gives it again |
| `RoomDimensions.ParseInput` | src/components/RoomDimensions.tsx:47-48 | empty text is 0; otherwise it is parseFloat's result, NaN included |
| `RoomDimensions.HandleInput` | src/components/RoomDimensions.tsx:29-57 | the edited box always shows the text, even when the parse is rejected; the other three boxes and numbers keep their values; NaN leaves the numbers alone; otherwise the edited number reads back as the typed one |
| `RoomDimensions.HandleInputIdempotent` | src/components/RoomDimensions.tsx:29-57 | retyping the same text changes nothing further |
| `RoomDimensions.LastNumberWins` | src/components/RoomDimensions.tsx:52-55 | a number typed into a field replaces whatever was typed into it before |
| `RoomDimensions.EditsCommute` | src/components/RoomDimensions.tsx:52-55 | edits to two different fields can be made in either order |
| `RoomDimensions.StoredPositiveIffEnteredPositive` | src/components/RoomDimensions.tsx:51 | a field stores a positive number exactly when a positive number was typed |
| `ValidationGate.Validate` | src/App.tsx:48-59 | the click commits iff all three screen and all four room numbers are positive; a commit copies the live snapshots, sets isValidated and clears needsValidation; otherwise nothing changes |
| `ValidationGate.ScreenChanged` | src/App.tsx:61-64 | a screen report replaces the live screen and sets needsValidation; validated snapshots and isValidated are untouched |
| `ValidationGate.RoomChanged` | src/App.tsx:66-69 | the same for a room report |
| `ValidationGate.ButtonLabel` | src/App.tsx:102-104 | one of three captions: 'Afficher…' iff not validated, 'Dimensions validées' iff validated with nothing pending, 'Mettre à jour…' iff validated and pending |
| `ValidationGate.Visualized` | src/App.tsx:115-132 | the views get the validated snapshots, and only when isValidated holds |
| `ValidationGate.InitialInv` | src/App.tsx:22-46 | the shell starts unvalidated with zero snapshots, a placeholder, and the 'Afficher' caption |
| `ValidationGate.StepInv` | src/App.tsx:48-69 | every report or click keeps the validated snapshots positive (or zero before the first commit) |
| `ValidationGate.RunInv` | src/App.tsx:48-69 | the same over any sequence of reports and clicks |
| `ValidationGate.ValidatedStaysValidated` | src/App.tsx:56 | once isValidated is set, no sequence of events resets it |
| `ValidationGate.ReportsLeaveViewsAlone` | src/App.tsx:61-69 | without a click, the views keep showing exactly what they showed |
| `ValidationGate.VisualizedPositive` | src/App.tsx:115-132 | the views are only given positive numbers |
| `ValidationGate.ValidateIdempotent` | src/App.tsx:48-59 | clicking twice is clicking once |
| `ValidationGate.CommitShowsLiveNumbers` | src/App.tsx:54-57 | a successful click shows the live numbers and the 'Dimensions validées' caption |
| `ValidationGate.ReportAfterCommitAwaitsClick` | src/App.tsx:61-64 | after a commit, a new report shows 'Mettre à jour…' while the views keep the old snapshot |
| `StaleValidationFlag.Rereport` | src/components/ScreenDimensions.tsx:148-150 | the forms re-reporting their current numbers only sets needsValidation |
| `StaleValidationFlag.RereportWhilePendingIsInvisible` | src/App.tsx:61-69 | while something is already pending, re-reporting changes nothing |
| `StaleValidationFlag.ValidateAsWritten` | src/App.tsx:61-69 | the click followed by the re-render's re-reports: a failed click changes nothing; a click that changes the gate leaves exactly the corrected click's gate except that needsValidation is set again; a click that changes nothing leaves the gate as it was |
| `StaleValidationFlag.ValidatedLabelNeverShown` | src/App.tsx:102-104 | with seven positive numbers pending, the click as written settles on 'Mettre à jour…' once the re-reports have run, where the corrected click shows 'Dimensions validées' |
| `StaleValidationFlag.AsWrittenNeverValidatedLabel` | src/App.tsx:102-104 | as written, once a form has reported anything, the button never settles on the 'Dimensions validées' caption after a click (the commit render may paint it for one frame before the re-reports run) |
| `Visualization2D.FormatDimension` | src/components/Visualization2D.tsx:47-55 | with the flag: whole centimetres by Math.round; without: metres with two decimals, within 0.005 m of value/100 |
| `Visualization2D.FormatWholeCentimetres` | src/components/Visualization2D.tsx:47-55 | a whole number of centimetres is shown exactly in either format |
| `Visualization2D.DiagonalInches` | src/components/Visualization2D.tsx:421 | the inch line is the whole number n with n − 0.5 <= diagonal/2.54 < n + 0.5, so a half inch rounds up, as Math.round does |
| `Visualization2D.DiagonalInchesNearForm` | src/components/Visualization2D.tsx:421 | the whole-inch line and the form's tenth-of-an-inch box differ by at most 0.55 in |
| `Visualization2D.IsScreenTooTall` | src/components/Visualization2D.tsx:145 | false when the room height is not positive; otherwise true iff mount height + screen height > room height |
| `Visualization2D.TooTallIsMonotone` | src/components/Visualization2D.tsx:145 | raising or enlarging the screen never clears the warning |
| `Visualization2D.DimensionLine` | src/components/Visualization2D.tsx:123-142 | exactly two ticks, one span line, two arrowheads and one label, for every span including 0; the first tick starts at the origin and the second `span` further along the axis; the span line runs along the axis and is `span` long; ticks run across it and end on its ends; the arrow tips sit on its ends with the barbs symmetric, one arrow size inwards |
| `Visualization2D.ZeroSpanStillDrawn` | src/components/Visualization2D.tsx:102-120 | a zero-length callout still has six parts, with both tips on the same point |
| `Visualization2D.HorizontalDimension` | src/components/Visualization2D.tsx:102-120 | the horizontal callout spans from x = 0 to the width, 25 px below its top, labelled in metres |
| `Visualization2D.VerticalDimension` | src/components/Visualization2D.tsx:123-142 | the vertical callout spans from y to y + height at x + 25/3, labelled in metres and turned to read upwards |
| `Visualization2D.GridLines` | src/components/Visualization2D.tsx:188-209 | n lines, the i-th at 50·i, each crossing the whole wall |
| `Visualization2D.GridCount` | src/components/Visualization2D.tsx:188 | floor(extent/50) + 1 lines: the last one is inside the extent and the next one would not be |
| `Visualization2D.GridOffsetOnGrid` | src/components/Visualization2D.tsx:191 | every grid line is on a multiple of 50 |
| `Visualization2D.GridIsTheMultiples` | src/components/Visualization2D.tsx:188-209 | the grid lines are exactly the multiples of 50 from 0 to the extent, both ends included |
| `Visualization2D.ScreenPlacement` | src/components/Visualization2D.tsx:58-65 | the screen is centred left to right (2·x + width = wall width) and hangs at 0.3 × wall height |
| `Visualization2D.ScreenWidthCallout` | src/components/Visualization2D.tsx:286-307 | spans the screen face from its left edge to its right edge and shows the screen width in metres |
| `Visualization2D.ScreenHeightCallout` | src/components/Visualization2D.tsx:310-331 | spans the face from its top to its bottom and shows the screen height in metres |
| `Visualization2D.MountHeightCallout` | src/components/Visualization2D.tsx:334-355 | spans from the screen's lower edge to the top of the floor strip (screenY + screenHeight + span = H − 20) and shows the mount height in whole centimetres |
| `Visualization2D.RoomHeightCallout` | src/components/Visualization2D.tsx:426-431 | spans from under the ceiling strip (20) to the top of the floor strip (H − 20) and shows the room height in metres |
| `Visualization2D.DiagonalMarks` | src/components/Visualization2D.tsx:400-422 | the diagonal runs from the face's lower-left to its upper-right corner and is labelled in metres and in whole inches |
| `Visualization2D.Draw` | src/components/Visualization2D.tsx:145-441 | the canvas is the wall plus a margin on each side; the two grids are GridLines with GridCount lines each; each callout shows its measurement; the warning is isScreenTooTall |
| `Visualization2D.DrawnGridIsTheMultiples` | src/components/Visualization2D.tsx:188-209 | the drawing's vertical grid lines stand exactly at the multiples of 50 from 0 to 800, and its horizontal ones at the multiples of 50 from 0 to 600 |
| `Visualization2D.CalloutGeometryIgnoresLabel` | src/components/Visualization2D.tsx:123-142 | a callout's geometry does not depend on its label |
| `Visualization2D.ScreenWidthGeometry` | src/components/Visualization2D.tsx:286-307 | the screen-width callout's geometry is the same for every width |
| `Visualization2D.ScreenHeightGeometry` | src/components/Visualization2D.tsx:310-331 | likewise for the screen-height callout |
| `Visualization2D.MountHeightGeometry` | src/components/Visualization2D.tsx:334-355 | likewise for the mount-height callout |
| `Visualization2D.RoomHeightGeometry` | src/components/Visualization2D.tsx:426-431 | likewise for the room-height callout |
| `Visualization2D.DiagonalGeometry` | src/components/Visualization2D.tsx:400-422 | likewise for the diagonal line and its two labels |
| `Visualization2D.GeometryIgnoresInputs` | src/components/Visualization2D.tsx:58-77 | any two inputs give the same drawing up to the callouts' text and the warning: no coordinate depends on the measurements |
| `Shell.Perform` | src/App.tsx:86-95 | every action, with the timer as written, keeps the screen form well formed and the shell in step with both forms; only a click touches the validated snapshots or isValidated |
| `Shell.MountedInv` | src/App.tsx:22-46 | the application after its first render satisfies the invariant |
| `Shell.StaleFireKeepsPythagoras` | src/components/ScreenDimensions.tsx:87-89 | the timer as written keeps the form well formed and its numbers Pythagorean, whichever ratio it computes with |
| `Shell.SelectRatioKeepsPythagoras` | src/components/ScreenDimensions.tsx:142-146 | a ratio change keeps the form well formed and its numbers Pythagorean |
| `Shell.TimerFiresInv` | src/components/ScreenDimensions.tsx:148-150 | the timer as written, and the report it causes, preserve the application invariant (Pythagoras, not the selected ratio) |
| `Shell.PickRatioInv` | src/components/ScreenDimensions.tsx:142-146 | picking a ratio, and the report it may cause, preserve the invariant |
| `Shell.ClickInv` | src/App.tsx:48-59 | a click preserves the invariant: the validated screen is a Pythagorean copy of the form's numbers |
| `Shell.PerformInv` | src/App.tsx:61-69 | every action preserves the invariant |
| `Shell.PerformAllInv` | src/App.tsx:61-69 | every sequence of actions preserves the invariant |
| `Shell.SoundViews` | src/App.tsx:115-132 | under the invariant, the views see positive numbers and a Pythagorean screen |
| `Shell.ViewsSeeSoundNumbers` | src/App.tsx:115-132 | from any state satisfying the invariant, whatever users do, and with the program's own stale timer, the views only ever see positive numbers and a screen whose diagonal obeys Pythagoras |

## Left out

- src/components/Visualization3D.tsx: the three.js scene, the lights, the animation loop and the window-resize listener are not part of this model. They sit on a library that is not modelled here.
- build.js is shell build plumbing and is not part of this model.
- Visualization2D's ResizeObserver and `containerSize` (Visualization2D.tsx:19-38) are DOM input, and the layout never reads their result.
- Real time is not modelled. The one-second delay becomes the explicit pending slot, and a firing is a step of its own. So the model orders events but does not measure how far apart they are.
- React scheduling: each effect is a function applied right after the step that triggers it. `Shell` assumes the shell's change handlers are stable across renders (the corrected behaviour); their instability is modelled on its own in `StaleValidationFlag`. `Shell` runs the screen form's timer as written.
- Shell.AppInv: does not include the form's ratio consistency (`ScreenDimensions.Inv`), because the timer as written breaks it (`StaleRatio.StaleFireBreaksInvariant`); only Pythagoras is kept end to end.
- Numeric.ToFixed: rounds the exact real half up. JavaScript rounds the nearest binary double, so a value such as 1.005 can print differently. Values of 1e21 and above, which toFixed prints in exponent notation, are not distinguished.
- Numeric.JsRound, ScreenDimensions.Reconcile and every other real-valued member: doubles are exact reals here, so rounding error in `Math.sqrt`, `Math.cos`, `Math.atan` and the arithmetic is not modelled.
- ScreenDimensions.ParseInput and RoomDimensions.ParseInput: parseFloat's prefix rules (for example "12abc" → 12) are not modelled. The parsed number is an input.
- Visualization2D.Draw: colours, gradients, filters, stroke widths, dash patterns, fonts and the warning banner's markup are not modelled.
- Visualization2D.Draw: the three stacked screen rectangles (fill, shine, border) share one geometry and are modelled once.
- Visualization2D.DimensionLine: the order in which each arrow polygon lists its three vertices differs between callouts. A filled triangle is the same whichever vertex comes first, so the model names the tip and the two barbs.
- Visualization2D.Draw: caption positions are the text anchors before rotation. The rotation pivot and the tspans' `dy` offsets are recorded only as a `Turn` and a ±12 px shift from the diagonal's centre. The diagonal's angle, atan2(200, 400) in degrees, is not computed.
- Labels are values (`Metres`, `Centimetres`, `Inches`, `Words`), not the strings with their " m", " cm" and `"` suffixes.

## Findings

| source | as written | input that shows it | evidently intended | confidence | as-written member | corrected member |
|---|---|---|---|---|---|---|
| src/components/ScreenDimensions.tsx:87-89 | the timer callback is created in the keystroke's render, so it recomputes with that render's `aspectRatio` and `unit` | type a positive width (say 160) under 16:9, then select 4:3 within the second: the width-driven recomputation yields 160 × 90, a 16:9 screen under a 4:3 selection (`StaleRatio.StaleFireInsideWindow`, reached by `StaleRatio.TypeWidthThenSelectFourThirds`) | the recomputation uses the ratio and unit selected when it fires, so the form stays consistent with the selector (`StaleRatio.FreshFireInsideWindow`, `ScreenDimensions.FireInv`) | medium; not executed | `ScreenDimensions.FireAsWritten` | `ScreenDimensions.Fire` |
| src/App.tsx:61-69 | both change handlers are new functions on every render, and each form's report effect depends on its handler (ScreenDimensions.tsx:148-150, RoomDimensions.tsx:59-61). The render after a successful click therefore re-runs both effects, and they set needsValidation back to true | enter seven positive numbers and click: the views appear but, once the re-reports have run, the button settles on 'Mettre à jour la visualisation' instead of 'Dimensions validées' (it can show the latter for one frame) (`StaleValidationFlag.ValidatedLabelNeverShown`, `StaleValidationFlag.AsWrittenNeverValidatedLabel`) | a click that commits leaves nothing to validate until a form reports new numbers (`ValidationGate.CommitShowsLiveNumbers`) | medium; not executed | `StaleValidationFlag.ValidateAsWritten` | `ValidationGate.Validate` |

/**
 The application shell: the live snapshots the two forms report, the snapshots
 last validated, and the two flags that drive the button and decide whether the
 visualisations are shown.
 */
module ValidationGate {
  import opened Options
  import ScreenDimensions
  import RoomDimensions

  datatype Gate = Gate(
    screen: ScreenDimensions.Dimensions,
    room: RoomDimensions.Dimensions,
    validatedScreen: ScreenDimensions.Dimensions,
    validatedRoom: RoomDimensions.Dimensions,
    isValidated: bool,
    needsValidation: bool)

  /** Nothing validated, nothing pending, all snapshots zero. */
  const Initial: Gate := Gate(ScreenDimensions.Zero, RoomDimensions.Zero, ScreenDimensions.Zero, RoomDimensions.Zero, false, false)

  /** Every one of the screen's three numbers is positive. */
  predicate ScreenValid(d: ScreenDimensions.Dimensions) {
    0.0 < d.width && 0.0 < d.height && 0.0 < d.diagonal
  }

  /** Every one of the room's four numbers is positive. */
  predicate RoomValid(d: RoomDimensions.Dimensions) {
    RoomDimensions.AllPositive(d)
  }

  /** The click on the button may commit: all seven live numbers are positive. */
  predicate CanCommit(g: Gate) {
    ScreenValid(g.screen) && RoomValid(g.room)
  }

  /**
   handleValidation: when all seven live numbers are positive, both live
   snapshots are copied into the validated ones, the visualisations are
   switched on and nothing is left to validate; otherwise nothing changes.
   */
  function Validate(g: Gate): (h: Gate)
    ensures h.screen == g.screen && h.room == g.room
    ensures h.isValidated <==> g.isValidated || CanCommit(g)
    ensures CanCommit(g) ==> h.validatedScreen == g.screen && h.validatedRoom == g.room && !h.needsValidation
    ensures !CanCommit(g) ==> h == g
  {
    if CanCommit(g) then
      g.(validatedScreen := g.screen, validatedRoom := g.room, isValidated := true, needsValidation := false)
    else
      g
  }

  /** handleScreenDimensionsChange: the live screen is replaced and marked as needing validation. */
  function ScreenChanged(g: Gate, d: ScreenDimensions.Dimensions): (h: Gate)
    ensures h.screen == d && h.needsValidation
    ensures h.room == g.room && h.validatedScreen == g.validatedScreen && h.validatedRoom == g.validatedRoom
    ensures h.isValidated == g.isValidated
  {
    g.(screen := d, needsValidation := true)
  }

  /** handleRoomDimensionsChange: the live room is replaced and marked as needing validation. */
  function RoomChanged(g: Gate, d: RoomDimensions.Dimensions): (h: Gate)
    ensures h.room == d && h.needsValidation
    ensures h.screen == g.screen && h.validatedScreen == g.validatedScreen && h.validatedRoom == g.validatedRoom
    ensures h.isValidated == g.isValidated
  {
    g.(room := d, needsValidation := true)
  }

  const ShowLabel: string := "Afficher la visualisation"
  const UpdateLabel: string := "Mettre à jour la visualisation"
  const ValidatedLabel: string := "Dimensions validées"

  /** The button's caption, chosen by the two flags. */
  function ButtonLabel(g: Gate): (caption: string)
    ensures caption == ShowLabel || caption == UpdateLabel || caption == ValidatedLabel
    ensures caption == ShowLabel <==> !g.isValidated
    ensures caption == ValidatedLabel <==> g.isValidated && !g.needsValidation
    ensures caption == UpdateLabel <==> g.isValidated && g.needsValidation
  {
    if g.isValidated then (if g.needsValidation then UpdateLabel else ValidatedLabel) else ShowLabel
  }

  /**
   What the 2D and 3D views are given: the validated snapshots, and only once a
   validation has succeeded; before that a placeholder is shown instead.
   */
  function Visualized(g: Gate): (v: Option<(ScreenDimensions.Dimensions, RoomDimensions.Dimensions)>)
    ensures v.Some? <==> g.isValidated
    ensures v.Some? ==> v.value.0 == g.validatedScreen && v.value.1 == g.validatedRoom
  {
    if g.isValidated then Some((g.validatedScreen, g.validatedRoom)) else None
  }

  /**
   What holds of every reachable shell: a validated snapshot only ever holds
   positive numbers, and before the first validation both are still zero.
   */
  predicate Inv(g: Gate) {
    && (g.isValidated ==> ScreenValid(g.validatedScreen) && RoomValid(g.validatedRoom))
    && (!g.isValidated ==> g.validatedScreen == ScreenDimensions.Zero && g.validatedRoom == RoomDimensions.Zero)
  }

  /** What can happen to the shell: a form reports new numbers, or the button is clicked. */
  datatype Event =
    | ScreenReport(screenDims: ScreenDimensions.Dimensions)
    | RoomReport(roomDims: RoomDimensions.Dimensions)
    | Click

  function Step(g: Gate, e: Event): Gate {
    match e
    case ScreenReport(d) => ScreenChanged(g, d)
    case RoomReport(d) => RoomChanged(g, d)
    case Click => Validate(g)
  }

  function Run(g: Gate, es: seq<Event>): Gate
    decreases |es|
  {
    if es == [] then g else Run(Step(g, es[0]), es[1..])
  }

  lemma InitialInv()
    ensures Inv(Initial) && !Initial.isValidated && ButtonLabel(Initial) == ShowLabel && Visualized(Initial).None?
  {
  }

  lemma StepInv(g: Gate, e: Event)
    requires Inv(g)
    ensures Inv(Step(g, e))
  {
  }

  /** Whatever the users do, a validated snapshot never holds a zero or negative number. */
  lemma {:induction false} RunInv(g: Gate, es: seq<Event>)
    requires Inv(g)
    ensures Inv(Run(g, es))
    decreases |es|
  {
    if es != [] {
      StepInv(g, es[0]);
      RunInv(Step(g, es[0]), es[1..]);
    }
  }

  /** Once the visualisations are shown they stay shown: nothing resets isValidated. */
  lemma {:induction false} ValidatedStaysValidated(g: Gate, es: seq<Event>)
    requires g.isValidated
    ensures Run(g, es).isValidated
    decreases |es|
  {
    if es != [] {
      ValidatedStaysValidated(Step(g, es[0]), es[1..]);
    }
  }

  /** Without a click the views keep showing exactly what they showed. */
  lemma {:induction false} ReportsLeaveViewsAlone(g: Gate, es: seq<Event>)
    requires forall i :: 0 <= i < |es| ==> es[i] != Click
    ensures Visualized(Run(g, es)) == Visualized(g)
    decreases |es|
  {
    if es != [] {
      assert es[0] != Click;
      ReportsLeaveViewsAlone(Step(g, es[0]), es[1..]);
    }
  }

  /** The views are given only positive numbers. */
  lemma VisualizedPositive(g: Gate)
    requires Inv(g) && Visualized(g).Some?
    ensures ScreenValid(Visualized(g).value.0) && RoomValid(Visualized(g).value.1)
  {
  }

  /** Clicking twice is clicking once. */
  lemma ValidateIdempotent(g: Gate)
    ensures Validate(Validate(g)) == Validate(g)
  {
  }

  /** A successful click shows the views of the live numbers and labels the button as validated. */
  lemma CommitShowsLiveNumbers(g: Gate)
    requires CanCommit(g)
    ensures Visualized(Validate(g)) == Some((g.screen, g.room))
    ensures ButtonLabel(Validate(g)) == ValidatedLabel
  {
  }

  /**
   Every commit still needs a click after the last report: a report after a
   commit is shown as pending until the next successful click.
   */
  lemma ReportAfterCommitAwaitsClick(g: Gate, d: ScreenDimensions.Dimensions)
    requires g.isValidated
    ensures ButtonLabel(ScreenChanged(g, d)) == UpdateLabel
    ensures Visualized(ScreenChanged(g, d)) == Visualized(g)
  {
  }
}

/**
 The two change handlers are created anew on every render of the shell, and each
 form re-reports its numbers whenever the handler it was given changes.  Any
 render therefore ends with both forms reporting again, which sets
 needsValidation.
 */
module StaleValidationFlag {
  import ScreenDimensions
  import RoomDimensions
  import opened ValidationGate

  /** Both forms report their current numbers again, as their effects do when the handlers change. */
  function Rereport(g: Gate): (h: Gate)
    ensures h.needsValidation
    ensures h.(needsValidation := g.needsValidation) == g
  {
    RoomChanged(ScreenChanged(g, g.screen), g.room)
  }

  /** Re-reporting is invisible while something is already waiting for validation. */
  lemma RereportWhilePendingIsInvisible(g: Gate)
    requires g.needsValidation
    ensures Rereport(g) == g
  {
  }

  /** The click AS WRITTEN: a click that changes the shell re-renders it, and the forms report again. */
  function ValidateAsWritten(g: Gate): (h: Gate)
    ensures Inv(g) ==> Inv(h)
    ensures h.isValidated == Validate(g).isValidated
    ensures h.(needsValidation := Validate(g).needsValidation) == Validate(g)
    ensures Validate(g) != g ==> h.needsValidation
    ensures Validate(g) == g ==> h == g
  {
    var v := Validate(g);
    if v == g then g else Rereport(v)
  }

  /**
   With seven positive numbers entered and reported, the click as written shows
   the views but leaves the button asking for an update, where the corrected
   click reports the dimensions as validated.
   */
  lemma ValidatedLabelNeverShown(g: Gate)
    requires CanCommit(g) && g.needsValidation
    ensures ButtonLabel(ValidateAsWritten(g)) == UpdateLabel
    ensures ButtonLabel(Validate(g)) == ValidatedLabel
  {
  }

  /**
   As written, the button never settles on the validated caption once a form has
   reported anything: the commit render may paint it, but the re-reports that
   follow replace it before the next user action.
   */
  lemma AsWrittenNeverValidatedLabel(g: Gate)
    requires g.needsValidation || !g.isValidated
    ensures ButtonLabel(ValidateAsWritten(g)) != ValidatedLabel
  {
    var v := Validate(g);
    if v != g {
      assert ValidateAsWritten(g) == Rereport(v);
    } else {
      assert ValidateAsWritten(g) == g;
    }
  }
}

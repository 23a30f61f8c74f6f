/**
 The screen form: three mutually dependent measurements (width, height,
 diagonal, all held in centimetres) tied together by the selected aspect ratio.
 One field drives each edit; a keystroke updates that field's text at once and
 schedules the recomputation of the other two in a single debounce slot.
 */
module ScreenDimensions {
  import opened Options
  import opened Numeric

  datatype Dimensions = Dimensions(width: real, height: real, diagonal: real)

  const Zero: Dimensions := Dimensions(0.0, 0.0, 0.0)

  /** The field a keystroke edits, which drives the recomputation. */
  datatype Field = Width | Height | Diagonal

  /** Only the diagonal is entered and displayed in the selected unit; width and height are always cm. */
  datatype Unit = Metric | Imperial

  /** The aspect-ratio selector's fixed catalog: label and width/height value. */
  const Catalog: seq<(string, real)> :=
    [("16:9", 16.0 / 9.0), ("4:3", 4.0 / 3.0), ("21:9", 21.0 / 9.0), ("16:10", 16.0 / 10.0), ("5:4", 5.0 / 4.0)]

  predicate InCatalog(ratio: real) {
    exists i :: 0 <= i < |Catalog| && Catalog[i].1 == ratio
  }

  lemma CatalogRatiosAreLandscape(ratio: real)
    requires InCatalog(ratio)
    ensures 1.0 < ratio
  {
    var i :| 0 <= i < |Catalog| && Catalog[i].1 == ratio;
  }

  function Get(d: Dimensions, f: Field): real {
    match f
    case Width => d.width
    case Height => d.height
    case Diagonal => d.diagonal
  }

  /** The diagonal obeys Pythagoras. */
  ghost predicate Pythagorean(d: Dimensions) {
    d.diagonal * d.diagonal == d.width * d.width + d.height * d.height
  }

  /** Width over height is the ratio. */
  ghost predicate Proportional(d: Dimensions, ratio: real) {
    d.width == d.height * ratio
  }

  ghost predicate Consistent(d: Dimensions, ratio: real) {
    Proportional(d, ratio) && Pythagorean(d)
  }

  /**
   Which of the two square roots a driving value selects: width and height
   drive a non-negative diagonal (it comes from Math.sqrt), while the diagonal
   drives a width of its own sign (it is multiplied by a positive cosine).
   */
  ghost predicate Oriented(d: Dimensions, f: Field, v: real) {
    if f == Diagonal then (0.0 <= d.width <==> 0.0 <= v) else 0.0 <= d.diagonal
  }

  /**
   The arithmetic of calculateDimensions: the driving field keeps the entered
   value, the other two are derived from it and the ratio.
   */
  function Reconcile(sqrt: real -> real, f: Field, v: real, ratio: real): (d: Dimensions)
    requires IsSqrt(sqrt) && 0.0 < ratio
    ensures Get(d, f) == v
    ensures Consistent(d, ratio)
    ensures Oriented(d, f, v)
  {
    match f
    case Diagonal =>
      var c := CosAtan(sqrt, 1.0 / ratio);
      DiagonalScaling(v, ratio, c);
      Dimensions(v * c, v * c / ratio, v)
    case Width =>
      var h := v / ratio;
      SidesGiveDiagonal(sqrt, v, h, ratio);
      Dimensions(v, h, sqrt(v * v + h * h))
    case Height =>
      var w := v * ratio;
      SidesGiveDiagonal(sqrt, w, v, ratio);
      Dimensions(w, v, sqrt(w * w + v * v))
  }

  /** The width and height branches: proportional sides and Math.sqrt of the sum of their squares. */
  lemma SidesGiveDiagonal(sqrt: real -> real, w: real, h: real, ratio: real)
    requires IsSqrt(sqrt) && w == h * ratio
    ensures Consistent(Dimensions(w, h, sqrt(w * w + h * h)), ratio)
    ensures 0.0 <= sqrt(w * w + h * h)
  {
    SquareNonnegative(w);
    SquareNonnegative(h);
  }

  /** The diagonal branch: scaling the diagonal by cos(atan(1/ratio)) gives a width of the right size and sign. */
  lemma DiagonalScaling(v: real, ratio: real, c: real)
    requires 0.0 < ratio && 0.0 < c && c * c * (1.0 + (1.0 / ratio) * (1.0 / ratio)) == 1.0
    ensures Consistent(Dimensions(v * c, v * c / ratio, v), ratio)
    ensures 0.0 <= v * c <==> 0.0 <= v
  {
    var t := 1.0 / ratio;
    var w := v * c;
    var h := w / ratio;
    assert h == w * t;
    assert w * w + h * h == v * v * (c * c * (1.0 + t * t));
    if v < 0.0 { assert w == -((-v) * c); }
  }

  /** For the diagonal branch: a consistent width is fixed up to sign by the diagonal. */
  lemma WidthFromDiagonal(d: Dimensions, e: Dimensions, ratio: real)
    requires 0.0 < ratio
    requires Consistent(d, ratio) && Consistent(e, ratio) && d.diagonal == e.diagonal
    requires 0.0 <= d.width <==> 0.0 <= e.width
    ensures d == e
  {
    var t := 1.0 / ratio;
    assert d.height == d.width * t;
    assert e.height == e.width * t;
    assert d.diagonal * d.diagonal == d.width * d.width * (1.0 + t * t);
    assert e.diagonal * e.diagonal == e.width * e.width * (1.0 + t * t);
    assert d.width * d.width == e.width * e.width;
    if 0.0 <= d.width {
      RootUnique(d.width, e.width);
    } else {
      RootUnique(-d.width, -e.width);
    }
  }

  /**
   Reconcile is the ONLY consistent triple with the driving value in its field
   (and the orientation the formulas pick): the three branches are three ways
   of solving the same two equations.
   */
  lemma ReconcileUnique(sqrt: real -> real, f: Field, v: real, ratio: real, e: Dimensions)
    requires IsSqrt(sqrt) && 0.0 < ratio
    requires Get(e, f) == v && Consistent(e, ratio) && Oriented(e, f, v)
    ensures e == Reconcile(sqrt, f, v, ratio)
  {
    var d := Reconcile(sqrt, f, v, ratio);
    match f
    case Diagonal =>
      WidthFromDiagonal(d, e, ratio);
    case Width =>
      HeightFromWidth(d, e, ratio);
      DiagonalFromSides(d, e);
    case Height =>
      assert e.width == d.width;
      DiagonalFromSides(d, e);
  }

  /** Under a positive ratio the width fixes the height. */
  lemma HeightFromWidth(d: Dimensions, e: Dimensions, ratio: real)
    requires 0.0 < ratio && Proportional(d, ratio) && Proportional(e, ratio) && d.width == e.width
    ensures d.height == e.height
  {
    assert (d.height - e.height) * ratio == 0.0;
  }

  /** Width and height fix a non-negative diagonal. */
  lemma DiagonalFromSides(d: Dimensions, e: Dimensions)
    requires Pythagorean(d) && Pythagorean(e) && d.width == e.width && d.height == e.height
    requires 0.0 <= d.diagonal && 0.0 <= e.diagonal
    ensures d == e
  {
    RootUnique(d.diagonal, e.diagonal);
  }

  /**
   Round trip: the width derived from a non-negative diagonal, fed back in as a
   width-driven edit, reproduces that diagonal (and the same height).
   */
  lemma DiagonalWidthRoundTrip(sqrt: real -> real, diag: real, ratio: real)
    requires IsSqrt(sqrt) && 0.0 < ratio && 0.0 <= diag
    ensures Reconcile(sqrt, Width, Reconcile(sqrt, Diagonal, diag, ratio).width, ratio)
         == Reconcile(sqrt, Diagonal, diag, ratio)
  {
    var d := Reconcile(sqrt, Diagonal, diag, ratio);
    ReconcileUnique(sqrt, Width, d.width, ratio, d);
  }

  /** Driving by a width or by the height it implies gives the same screen. */
  lemma WidthHeightAgree(sqrt: real -> real, w: real, ratio: real)
    requires IsSqrt(sqrt) && 0.0 < ratio
    ensures Reconcile(sqrt, Height, w / ratio, ratio) == Reconcile(sqrt, Width, w, ratio)
  {
    var d := Reconcile(sqrt, Width, w, ratio);
    ReconcileUnique(sqrt, Height, w / ratio, ratio, d);
  }

  /** The 55-inch example: a 16:9 diagonal of 139.7 cm gives about 121.8 cm by 68.5 cm. */
  lemma FiftyFiveInchScreen(sqrt: real -> real)
    requires IsSqrt(sqrt)
    ensures var d := Reconcile(sqrt, Diagonal, 139.7, 16.0 / 9.0);
      121.7 < d.width < 121.9 && 68.4 < d.height < 68.6
  {
    var r := 16.0 / 9.0;
    var d := Reconcile(sqrt, Diagonal, 139.7, r);
    assert d.height * r == d.width;
    assert 139.7 * 139.7 == d.width * d.width * (1.0 + 81.0 / 256.0);
    assert 121.7 * 121.7 < d.width * d.width < 121.9 * 121.9;
    assert 0.0 < d.width;
    if d.width <= 121.7 {
      SquareMonotone(d.width, 121.7);
    }
    if 121.9 <= d.width {
      SquareMonotone(121.9, d.width);
    }
  }

  /**
   What a field's text box holds: the user's own keystrokes, or the text
   `number.toFixed(1)`, kept as the number it prints (Rendered gives the digits).
   */
  datatype Text = Typed(raw: string) | Printed(number: real)

  /**
   The debounce slot's content: the timer callback closes over the render of the
   keystroke, so besides the field and value it carries that render's ratio and unit.
   */
  datatype Pending = Pending(field: Field, value: real, ratio: real, unit: Unit)

  datatype State = State(
    ratio: real,
    unit: Unit,
    dims: Dimensions,
    widthText: Text,
    heightText: Text,
    diagonalText: Text,
    pending: Option<Pending>)

  /** The form as first rendered: 16:9, inches, zero dimensions, empty boxes, nothing pending. */
  const Initial: State := State(16.0 / 9.0, Imperial, Zero, Typed(""), Typed(""), Typed(""), None)

  function TextOf(s: State, f: Field): Text {
    match f
    case Width => s.widthText
    case Height => s.heightText
    case Diagonal => s.diagonalText
  }

  function WithText(s: State, f: Field, t: Text): State {
    match f
    case Width => s.(widthText := t)
    case Height => s.(heightText := t)
    case Diagonal => s.(diagonalText := t)
  }

  /**
   The number a derived box prints: centimetres for width, height and a metric
   diagonal; an imperial diagonal goes through convertToInches first.
   */
  function Display(d: Dimensions, f: Field, unit: Unit): real {
    if f == Diagonal && unit == Imperial then ToInches(d.diagonal) else Get(d, f)
  }

  /** The digits a printed box shows: toFixed(1) of its number. */
  function Rendered(number: real): Fixed {
    ToFixed(number, 1)
  }

  /**
   A derived box reads back within 0.05 of the centimetres it stands for; an
   imperial diagonal reads back exactly as the inches convertToInches gave,
   themselves within 0.05 inch of the centimetres divided by 2.54.
   */
  lemma DisplayReadsBack(d: Dimensions, f: Field, unit: Unit)
    ensures f != Diagonal || unit == Metric ==> Abs(Value(Rendered(Display(d, f, unit))) - Get(d, f)) <= 0.05
    ensures f == Diagonal && unit == Imperial ==>
      && Value(Rendered(Display(d, f, unit))) == ToInches(d.diagonal)
      && Abs(Value(Rendered(Display(d, f, unit))) - d.diagonal / CmPerInch) <= 0.05
  {
    if f == Diagonal && unit == Imperial {
      var inches := ToInches(d.diagonal);
      var k := (inches * 10.0).Floor;
      assert inches == k as real / Pow10(1) as real;
      ToFixedOnGrid(k, 1);
    }
  }

  /**
   The number a keystroke yields, in centimetres: empty text counts as 0,
   otherwise parseFloat's result (None standing for NaN); an imperial diagonal
   is converted from inches.
   */
  function ParseInput(f: Field, text: string, parsed: Option<real>, unit: Unit): (n: Option<real>)
    ensures text == "" ==> n == Some(0.0)
    ensures text != "" ==> (n.Some? <==> parsed.Some?)
    ensures text != "" && parsed.Some? && f == Diagonal && unit == Imperial ==>
      n.value / CmPerInch == parsed.value
    ensures text != "" && parsed.Some? && (f != Diagonal || unit == Metric) ==> n.value == parsed.value
  {
    var number := if text == "" then Some(0.0) else parsed;
    match number
    case None => None
    case Some(x) => if f == Diagonal && unit == Imperial then Some(FromInches(x)) else Some(x)
  }

  /**
   handleInputChange: the edited box shows the keystrokes at once, any pending
   recomputation is cancelled, and a new one is scheduled only for a number.
   */
  function HandleInput(s: State, f: Field, text: string, parsed: Option<real>): (t: State)
    ensures TextOf(t, f) == Typed(text)
    ensures forall g :: g != f ==> TextOf(t, g) == TextOf(s, g)
    ensures t.dims == s.dims && t.ratio == s.ratio && t.unit == s.unit
    ensures t.pending.None? <==> (text != "" && parsed.None?)
    ensures t.pending.Some? ==>
      && t.pending.value.field == f
      && t.pending.value.ratio == s.ratio
      && t.pending.value.unit == s.unit
      && Some(t.pending.value.value) == ParseInput(f, text, parsed, s.unit)
  {
    var cleared := WithText(s, f, Typed(text)).(pending := None);
    match ParseInput(f, text, parsed, s.unit)
    case None => cleared
    case Some(v) => cleared.(pending := Some(Pending(f, v, s.ratio, s.unit)))
  }

  /**
   calculateDimensions, with the ratio and unit of the closure it runs in:
   the numbers are replaced by the reconciled triple, the two derived boxes are
   rewritten, and the driving box keeps whatever the user typed.
   */
  function Calculate(sqrt: real -> real, s: State, f: Field, v: real, ratio: real, unit: Unit): (t: State)
    requires IsSqrt(sqrt) && 0.0 < ratio
    ensures Get(t.dims, f) == v && Consistent(t.dims, ratio) && Oriented(t.dims, f, v)
    ensures TextOf(t, f) == TextOf(s, f)
    ensures forall g :: g != f ==> TextOf(t, g) == Printed(Display(t.dims, g, unit))
    ensures t.ratio == s.ratio && t.unit == s.unit && t.pending == s.pending
  {
    var d := Reconcile(sqrt, f, v, ratio);
    var t := s.(dims := d);
    var t := if f != Width then WithText(t, Width, Printed(Display(d, Width, unit))) else t;
    var t := if f != Height then WithText(t, Height, Printed(Display(d, Height, unit))) else t;
    if f != Diagonal then WithText(t, Diagonal, Printed(Display(d, Diagonal, unit))) else t
  }

  /**
   The effect on [unit, dimensions.diagonal]: a positive diagonal is reprinted
   in the current unit; otherwise the box is left alone.
   */
  function RedisplayDiagonal(s: State): (t: State)
    ensures t.dims == s.dims && t.ratio == s.ratio && t.unit == s.unit && t.pending == s.pending
    ensures t.widthText == s.widthText && t.heightText == s.heightText
    ensures t.diagonalText == if s.dims.diagonal > 0.0 then Printed(Display(s.dims, Diagonal, s.unit)) else s.diagonalText
  {
    if s.dims.diagonal > 0.0 then s.(diagonalText := Printed(Display(s.dims, Diagonal, s.unit))) else s
  }

  /** Runs the diagonal effect when a recomputation changed the diagonal, as React does after the render. */
  function AfterRecompute(before: State, after: State): State {
    if after.dims.diagonal != before.dims.diagonal then RedisplayDiagonal(after) else after
  }

  /** The states the form can be in: a catalog ratio, including in the debounce slot. */
  predicate WellFormed(s: State) {
    && InCatalog(s.ratio)
    && (s.pending.Some? ==> InCatalog(s.pending.value.ratio))
  }

  /**
   The timer firing, AS WRITTEN: the callback computes with the ratio and unit of
   the render that scheduled it, even if the user has changed them since.
   */
  function FireAsWritten(sqrt: real -> real, s: State): (t: State)
    requires IsSqrt(sqrt) && WellFormed(s)
    ensures t.pending.None? && t.ratio == s.ratio && t.unit == s.unit
    ensures s.pending.None? ==> t == s
    ensures s.pending.Some? ==>
      Consistent(t.dims, s.pending.value.ratio) && Get(t.dims, s.pending.value.field) == s.pending.value.value
    ensures s.pending.Some? ==>
      var p := s.pending.value;
      && t.dims == Reconcile(sqrt, p.field, p.value, p.ratio)
      && (forall g :: g != p.field && g != Diagonal ==> TextOf(t, g) == Printed(Display(t.dims, g, p.unit)))
      && (p.field != Diagonal ==> TextOf(t, p.field) == TextOf(s, p.field))
      && t.diagonalText ==
           if t.dims.diagonal != s.dims.diagonal && 0.0 < t.dims.diagonal then Printed(Display(t.dims, Diagonal, s.unit))
           else if p.field == Diagonal then s.diagonalText
           else Printed(Display(t.dims, Diagonal, p.unit))
  {
    match s.pending
    case None => s
    case Some(p) =>
      CatalogRatiosAreLandscape(p.ratio);
      AfterRecompute(s, Calculate(sqrt, s.(pending := None), p.field, p.value, p.ratio, p.unit))
  }

  /**
   The timer firing, with the ratio and unit in force when it fires: the slot
   empties and the pending value drives a recomputation consistent with the
   selected ratio.
   */
  function Fire(sqrt: real -> real, s: State): (t: State)
    requires IsSqrt(sqrt) && WellFormed(s)
    ensures t.pending.None? && t.ratio == s.ratio && t.unit == s.unit
    ensures s.pending.None? ==> t == s
    ensures s.pending.Some? ==>
      var p := s.pending.value;
      && t.dims == Reconcile(sqrt, p.field, p.value, s.ratio)
      && (forall g :: g != p.field ==> TextOf(t, g) == Printed(Display(t.dims, g, t.unit)))
      && (p.field != Diagonal ==> TextOf(t, p.field) == TextOf(s, p.field))
      && (p.field == Diagonal ==>
            t.diagonalText ==
              if t.dims.diagonal != s.dims.diagonal && 0.0 < t.dims.diagonal then Printed(Display(t.dims, Diagonal, s.unit))
              else s.diagonalText)
  {
    match s.pending
    case None => s
    case Some(p) =>
      CatalogRatiosAreLandscape(s.ratio);
      AfterRecompute(s, Calculate(sqrt, s.(pending := None), p.field, p.value, s.ratio, s.unit))
  }

  /**
   Selecting a unit: the numbers never change; a positive diagonal is reprinted
   in the new unit, and picking the unit already selected does nothing.
   */
  function SelectUnit(s: State, u: Unit): (t: State)
    ensures t.dims == s.dims && t.ratio == s.ratio && t.pending == s.pending && t.unit == u
    ensures t.widthText == s.widthText && t.heightText == s.heightText
    ensures t.diagonalText != s.diagonalText ==> u != s.unit && s.dims.diagonal > 0.0
    ensures u != s.unit && s.dims.diagonal > 0.0 ==> t.diagonalText == Printed(Display(s.dims, Diagonal, u))
  {
    if u == s.unit then s else RedisplayDiagonal(s.(unit := u))
  }

  /**
   Selecting an aspect ratio: a positive diagonal is kept and width and height
   are re-derived from it at once (no debounce); otherwise only the selection
   changes.  A pending edit is left in its slot.
   */
  function SelectRatio(sqrt: real -> real, s: State, ratio: real): (t: State)
    requires IsSqrt(sqrt) && InCatalog(ratio)
    ensures t.ratio == ratio && t.unit == s.unit && t.pending == s.pending
    ensures t.dims.diagonal == s.dims.diagonal && t.diagonalText == s.diagonalText
    ensures ratio != s.ratio && s.dims.diagonal > 0.0 ==>
      Consistent(t.dims, ratio) && 0.0 < t.dims.width && 0.0 < t.dims.height
    ensures ratio == s.ratio || s.dims.diagonal <= 0.0 ==> t.dims == s.dims
    ensures ratio != s.ratio && s.dims.diagonal > 0.0 ==>
      forall g :: g != Diagonal ==> TextOf(t, g) == Printed(Display(t.dims, g, t.unit))
    ensures ratio == s.ratio || s.dims.diagonal <= 0.0 ==> t.widthText == s.widthText && t.heightText == s.heightText
  {
    CatalogRatiosAreLandscape(ratio);
    if ratio == s.ratio then s
    else
      var t := s.(ratio := ratio);
      if t.dims.diagonal > 0.0 then Calculate(sqrt, t, Diagonal, t.dims.diagonal, ratio, t.unit) else t
  }

  /** Unmounting the form clears the timer: nothing can fire afterwards. */
  function Teardown(s: State): (t: State)
    ensures t.pending.None?
    ensures t.dims == s.dims && t.ratio == s.ratio && t.unit == s.unit
    ensures forall g :: TextOf(t, g) == TextOf(s, g)
  {
    s.(pending := None)
  }

  /** After the cleanup no timer, stale or fresh, can change the form. */
  lemma TeardownStopsTimer(sqrt: real -> real, s: State)
    requires IsSqrt(sqrt) && WellFormed(s)
    ensures Fire(sqrt, Teardown(s)) == Teardown(s)
    ensures FireAsWritten(sqrt, Teardown(s)) == Teardown(s)
  {
  }

  /**
   What holds of every state the form reaches: Pythagoras always, and the
   selected ratio whenever the diagonal is not negative (a negative diagonal,
   which the form accepts, is left alone by a ratio change).
   */
  ghost predicate Inv(s: State) {
    && WellFormed(s)
    && Pythagorean(s.dims)
    && (0.0 <= s.dims.diagonal ==> Consistent(s.dims, s.ratio))
  }

  lemma InitialInv()
    ensures Inv(Initial)
  {
    assert Catalog[0].1 == Initial.ratio;
  }

  /** Every step of the form preserves Inv. */
  lemma HandleInputInv(s: State, f: Field, text: string, parsed: Option<real>)
    requires Inv(s)
    ensures Inv(HandleInput(s, f, text, parsed))
  {
  }

  lemma FireInv(sqrt: real -> real, s: State)
    requires IsSqrt(sqrt) && Inv(s)
    ensures Inv(Fire(sqrt, s))
  {
    var t := Fire(sqrt, s);
    if s.pending.Some? {
      CatalogRatiosAreLandscape(s.ratio);
      var p := s.pending.value;
      assert t.dims == Reconcile(sqrt, p.field, p.value, s.ratio);
      assert Consistent(t.dims, s.ratio);
    }
  }

  lemma SelectUnitInv(s: State, u: Unit)
    requires Inv(s)
    ensures Inv(SelectUnit(s, u))
  {
  }

  /** A zero diagonal forces zero width and height, which fit every ratio. */
  lemma ZeroDiagonalFitsEveryRatio(d: Dimensions, ratio: real)
    requires Pythagorean(d) && d.diagonal == 0.0
    ensures Consistent(d, ratio)
  {
    SumOfSquaresZero(d.width, d.height);
  }

  lemma SelectRatioInv(sqrt: real -> real, s: State, ratio: real)
    requires IsSqrt(sqrt) && Inv(s) && InCatalog(ratio)
    ensures Inv(SelectRatio(sqrt, s, ratio))
  {
    var t := SelectRatio(sqrt, s, ratio);
    assert WellFormed(t);
    if ratio != s.ratio && s.dims.diagonal > 0.0 {
      assert Consistent(t.dims, ratio);
    } else {
      assert t.dims == s.dims;
      if s.dims.diagonal == 0.0 {
        ZeroDiagonalFitsEveryRatio(s.dims, ratio);
      }
    }
  }
}

/**
 The timer callback of the screen form closes over the render of the keystroke
 that scheduled it.  Changing the aspect ratio inside the debounce window
 therefore leaves the recomputation working with the old ratio.
 */
module StaleRatio {
  import opened Options
  import opened Numeric
  import opened ScreenDimensions

  /**
   Whenever the ratio was changed while a positive edit was pending, the
   recomputation as written yields a screen that does not have the selected
   ratio although its diagonal is positive, so the form's invariant fails.
   */
  lemma StaleFireBreaksInvariant(sqrt: real -> real, s: State)
    requires IsSqrt(sqrt) && WellFormed(s)
    requires s.pending.Some? && s.pending.value.ratio != s.ratio && 0.0 < s.pending.value.value
    ensures !Inv(FireAsWritten(sqrt, s))
  {
    var p := s.pending.value;
    CatalogRatiosAreLandscape(p.ratio);
    CatalogRatiosAreLandscape(s.ratio);
    var d := FireAsWritten(sqrt, s).dims;
    assert Proportional(d, p.ratio) && Get(d, p.field) == p.value;
    assert Oriented(d, p.field, p.value);
    assert !Proportional(d, s.ratio);
    assert 0.0 <= d.diagonal;
  }

  /**
   The form after a positive width was typed under 16:9 and 4:3 was selected
   before the timer fired: the ratio has changed, the diagonal is still zero, and
   the slot still holds the edit with the ratio of the keystroke's render.
   */
  function InsideWindow(text: string, v: real): (s: State)
    ensures WellFormed(s) && s.pending.Some? && s.pending.value.ratio != s.ratio
  {
    assert InCatalog(Catalog[0].1) && InCatalog(Catalog[1].1);
    State(4.0 / 3.0, Imperial, Zero, Typed(text), Typed(""), Typed(""), Some(Pending(Width, v, 16.0 / 9.0, Imperial)))
  }

  /** The situation is reachable from the initial form by two user actions. */
  lemma TypeWidthThenSelectFourThirds(sqrt: real -> real, text: string, v: real)
    requires IsSqrt(sqrt) && text != "" && 0.0 < v
    ensures SelectRatio(sqrt, HandleInput(Initial, Width, text, Some(v)), Catalog[1].1) == InsideWindow(text, v)
  {
    var typed := HandleInput(Initial, Width, text, Some(v));
    assert ParseInput(Width, text, Some(v), Imperial) == Some(v);
    assert typed == InsideWindow(text, v).(ratio := 16.0 / 9.0);
    assert InCatalog(Catalog[1].1);
  }

  lemma InsideWindowInv(text: string, v: real)
    ensures Inv(InsideWindow(text, v))
  {
    assert InCatalog(Catalog[0].1) && InCatalog(Catalog[1].1);
  }

  /** Once the timer fires, the recomputation as written leaves a 16:9 screen under a 4:3 selection. */
  lemma StaleFireInsideWindow(sqrt: real -> real, text: string, v: real)
    requires IsSqrt(sqrt) && 0.0 < v
    ensures !Inv(FireAsWritten(sqrt, InsideWindow(text, v)))
  {
    InsideWindowInv(text, v);
    StaleFireBreaksInvariant(sqrt, InsideWindow(text, v));
  }

  /** The corrected timer keeps the invariant in the same situation. */
  lemma FreshFireInsideWindow(sqrt: real -> real, text: string, v: real)
    requires IsSqrt(sqrt)
    ensures Inv(Fire(sqrt, InsideWindow(text, v)))
  {
    InsideWindowInv(text, v);
    FireInv(sqrt, InsideWindow(text, v));
  }
}

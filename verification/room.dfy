/**
 The room form: four independent measurements, each with its own text box.
 Width, depth and height are entered in metres and stored in centimetres; the
 mount height (the height of the screen's lower edge, `screenHeight` in the
 form) is entered and stored in centimetres.
 */
module RoomDimensions {
  import opened Options

  datatype Dimensions = Dimensions(width: real, depth: real, height: real, screenHeight: real)

  const Zero: Dimensions := Dimensions(0.0, 0.0, 0.0, 0.0)

  datatype Field = Width | Depth | Height | ScreenHeight

  datatype State = State(
    dims: Dimensions,
    widthText: string,
    depthText: string,
    heightText: string,
    screenHeightText: string)

  /** The form as first rendered: zero dimensions, empty boxes. */
  const Initial: State := State(Zero, "", "", "", "")

  function Get(d: Dimensions, f: Field): real {
    match f
    case Width => d.width
    case Depth => d.depth
    case Height => d.height
    case ScreenHeight => d.screenHeight
  }

  function TextOf(s: State, f: Field): string {
    match f
    case Width => s.widthText
    case Depth => s.depthText
    case Height => s.heightText
    case ScreenHeight => s.screenHeightText
  }

  /** How many centimetres one unit of a field's box stands for: a metre, or for the mount height a centimetre. */
  function CmPerEnteredUnit(f: Field): (k: real)
    ensures 0.0 < k
  {
    if f == ScreenHeight then 1.0 else 100.0
  }

  /** The centimetres a number entered into a field's box stands for. */
  function ToCentimetres(f: Field, entered: real): (cm: real)
    ensures cm / CmPerEnteredUnit(f) == entered
    ensures 0.0 < cm <==> 0.0 < entered
  {
    if f == ScreenHeight then entered else entered * 100.0
  }

  /** The same number read back in the box's own unit: the inverse of ToCentimetres. */
  function FromCentimetres(f: Field, cm: real): (entered: real)
    ensures ToCentimetres(f, entered) == cm
  {
    cm / CmPerEnteredUnit(f)
  }

  lemma CentimetresRoundTrip(f: Field, entered: real)
    ensures FromCentimetres(f, ToCentimetres(f, entered)) == entered
  {
  }

  /** The number a keystroke yields before scaling: empty text counts as 0, otherwise parseFloat's result (None standing for NaN). */
  function ParseInput(text: string, parsed: Option<real>): (n: Option<real>)
    ensures text == "" ==> n == Some(0.0)
    ensures text != "" ==> n == parsed
  {
    if text == "" then Some(0.0) else parsed
  }

  /**
   handleInputChange: the edited box always shows the keystrokes; when they
   read as a number, the edited field (and no other) takes it, scaled to
   centimetres; NaN leaves every number as it was.
   */
  function HandleInput(s: State, f: Field, text: string, parsed: Option<real>): (t: State)
    ensures TextOf(t, f) == text
    ensures forall g :: g != f ==> TextOf(t, g) == TextOf(s, g)
    ensures forall g :: g != f ==> Get(t.dims, g) == Get(s.dims, g)
    ensures ParseInput(text, parsed).None? ==> t.dims == s.dims
    ensures ParseInput(text, parsed).Some? ==> FromCentimetres(f, Get(t.dims, f)) == ParseInput(text, parsed).value
  {
    var d := s.dims;
    var d := match ParseInput(text, parsed)
      case None => d
      case Some(n) =>
        var cm := ToCentimetres(f, n);
        match f
        case Width => d.(width := cm)
        case Depth => d.(depth := cm)
        case Height => d.(height := cm)
        case ScreenHeight => d.(screenHeight := cm);
    match f
    case Width => State(d, text, s.depthText, s.heightText, s.screenHeightText)
    case Depth => State(d, s.widthText, text, s.heightText, s.screenHeightText)
    case Height => State(d, s.widthText, s.depthText, text, s.screenHeightText)
    case ScreenHeight => State(d, s.widthText, s.depthText, s.heightText, text)
  }

  /** States are determined by their four numbers and four texts. */
  lemma StateExtensionality(s: State, t: State)
    requires forall g :: Get(s.dims, g) == Get(t.dims, g) && TextOf(s, g) == TextOf(t, g)
    ensures s == t
  {
    assert Get(s.dims, Width) == Get(t.dims, Width) && TextOf(s, Width) == TextOf(t, Width);
    assert Get(s.dims, Depth) == Get(t.dims, Depth) && TextOf(s, Depth) == TextOf(t, Depth);
    assert Get(s.dims, Height) == Get(t.dims, Height) && TextOf(s, Height) == TextOf(t, Height);
    assert Get(s.dims, ScreenHeight) == Get(t.dims, ScreenHeight) && TextOf(s, ScreenHeight) == TextOf(t, ScreenHeight);
  }

  /** Retyping the same text changes nothing further. */
  lemma HandleInputIdempotent(s: State, f: Field, text: string, parsed: Option<real>)
    ensures HandleInput(HandleInput(s, f, text, parsed), f, text, parsed) == HandleInput(s, f, text, parsed)
  {
    var once := HandleInput(s, f, text, parsed);
    var twice := HandleInput(once, f, text, parsed);
    if ParseInput(text, parsed).Some? {
      assert Get(twice.dims, f) == Get(once.dims, f) by {
        var n := ParseInput(text, parsed).value;
        assert ToCentimetres(f, FromCentimetres(f, Get(twice.dims, f))) == ToCentimetres(f, n);
      }
    }
    StateExtensionality(twice, once);
  }

  /** A number typed into a field replaces whatever was typed there before. */
  lemma LastNumberWins(s: State, f: Field, text1: string, parsed1: Option<real>, text2: string, parsed2: Option<real>)
    requires ParseInput(text2, parsed2).Some?
    ensures HandleInput(HandleInput(s, f, text1, parsed1), f, text2, parsed2) == HandleInput(s, f, text2, parsed2)
  {
    var direct := HandleInput(s, f, text2, parsed2);
    var twice := HandleInput(HandleInput(s, f, text1, parsed1), f, text2, parsed2);
    assert Get(twice.dims, f) == Get(direct.dims, f) by {
      var n := ParseInput(text2, parsed2).value;
      assert ToCentimetres(f, FromCentimetres(f, Get(twice.dims, f))) == ToCentimetres(f, n);
      assert ToCentimetres(f, FromCentimetres(f, Get(direct.dims, f))) == ToCentimetres(f, n);
    }
    StateExtensionality(twice, direct);
  }

  /** Edits to two different fields do not interfere: either order gives the same form. */
  lemma EditsCommute(s: State, f: Field, text1: string, parsed1: Option<real>, g: Field, text2: string, parsed2: Option<real>)
    requires f != g
    ensures HandleInput(HandleInput(s, f, text1, parsed1), g, text2, parsed2)
         == HandleInput(HandleInput(s, g, text2, parsed2), f, text1, parsed1)
  {
    var a := HandleInput(HandleInput(s, f, text1, parsed1), g, text2, parsed2);
    var b := HandleInput(HandleInput(s, g, text2, parsed2), f, text1, parsed1);
    forall h
      ensures Get(a.dims, h) == Get(b.dims, h) && TextOf(a, h) == TextOf(b, h)
    {
      if h == f && ParseInput(text1, parsed1).Some? {
        var n := ParseInput(text1, parsed1).value;
        assert ToCentimetres(f, FromCentimetres(f, Get(a.dims, f))) == ToCentimetres(f, n);
        assert ToCentimetres(f, FromCentimetres(f, Get(b.dims, f))) == ToCentimetres(f, n);
      } else if h == g && ParseInput(text2, parsed2).Some? {
        var n := ParseInput(text2, parsed2).value;
        assert ToCentimetres(g, FromCentimetres(g, Get(a.dims, g))) == ToCentimetres(g, n);
        assert ToCentimetres(g, FromCentimetres(g, Get(b.dims, g))) == ToCentimetres(g, n);
      }
    }
    StateExtensionality(a, b);
  }

  /** Every stored number is positive. */
  predicate AllPositive(d: Dimensions) {
    0.0 < d.width && 0.0 < d.depth && 0.0 < d.height && 0.0 < d.screenHeight
  }

  /**
   A field is stored as a positive number exactly when a positive number was
   typed into it: the scaling never changes which rooms pass validation.
   */
  lemma StoredPositiveIffEnteredPositive(s: State, f: Field, text: string, x: real)
    requires text != ""
    ensures 0.0 < Get(HandleInput(s, f, text, Some(x)).dims, f) <==> 0.0 < x
  {
    var cm := Get(HandleInput(s, f, text, Some(x)).dims, f);
    assert ToCentimetres(f, FromCentimetres(f, cm)) == ToCentimetres(f, x);
  }
}

/**
 The whole application as one state machine: the two forms, each reporting
 its numbers to the shell whenever it sets new ones, and the validation gate
 in front of the views.  The screen form's timer is the one the program has,
 computing with the ratio of the keystroke's render.  The shell's handlers are
 taken to be stable across renders, so a form reports exactly when it stores
 numbers.
 */
module Shell {
  import opened Options
  import opened Numeric
  import Screen = ScreenDimensions
  import Room = RoomDimensions
  import opened ValidationGate

  datatype App = App(screenForm: Screen.State, roomForm: Room.State, gate: Gate)

  /** After the first render: both forms have reported their zero numbers once. */
  const Mounted: App := App(Screen.Initial, Room.Initial, RoomChanged(ScreenChanged(Initial, Screen.Zero), Room.Zero))

  /** What a user can do. */
  datatype Action =
    | ScreenKey(screenField: Screen.Field, screenText: string, screenParsed: Option<real>)
    | TimerFires
    | PickUnit(unit: Screen.Unit)
    | PickRatio(index: nat)
    | RoomKey(roomField: Room.Field, roomText: string, roomParsed: Option<real>)
    | ClickValidate

  /** The shell has the numbers the forms hold. */
  predicate Synced(a: App) {
    a.gate.screen == a.screenForm.dims && a.gate.room == a.roomForm.dims
  }

  /**
   What holds of every reachable application: a well-formed screen form whose
   numbers obey Pythagoras, the gate's invariant, the shell in step with the
   forms, and a validated screen whose diagonal obeys Pythagoras.  The form's
   ratio is not part of it: the timer as written can leave the numbers on the
   ratio of an earlier render (see StaleRatio).
   */
  ghost predicate AppInv(a: App) {
    && Screen.WellFormed(a.screenForm)
    && Screen.Pythagorean(a.screenForm.dims)
    && ValidationGate.Inv(a.gate)
    && Synced(a)
    && (a.gate.isValidated ==> Screen.Pythagorean(a.gate.validatedScreen))
  }

  /** A user action and the report it causes, if any. */
  function Perform(sqrt: real -> real, a: App, act: Action): (b: App)
    requires IsSqrt(sqrt) && Screen.WellFormed(a.screenForm)
    ensures Screen.WellFormed(b.screenForm)
    ensures Synced(a) ==> Synced(b)
    ensures !act.ClickValidate? ==>
      && b.gate.isValidated == a.gate.isValidated
      && b.gate.validatedScreen == a.gate.validatedScreen
      && b.gate.validatedRoom == a.gate.validatedRoom
  {
    match act
    case ScreenKey(f, text, parsed) =>
      a.(screenForm := Screen.HandleInput(a.screenForm, f, text, parsed))
    case TimerFires =>
      if a.screenForm.pending.None? then a
      else
        var s := Screen.FireAsWritten(sqrt, a.screenForm);
        a.(screenForm := s, gate := ScreenChanged(a.gate, s.dims))
    case PickUnit(u) =>
      a.(screenForm := Screen.SelectUnit(a.screenForm, u))
    case PickRatio(i) =>
      if |Screen.Catalog| <= i then a
      else
        var ratio := Screen.Catalog[i].1;
        assert Screen.InCatalog(ratio);
        var s := Screen.SelectRatio(sqrt, a.screenForm, ratio);
        if ratio != a.screenForm.ratio && a.screenForm.dims.diagonal > 0.0 then
          a.(screenForm := s, gate := ScreenChanged(a.gate, s.dims))
        else
          a.(screenForm := s)
    case RoomKey(f, text, parsed) =>
      var r := Room.HandleInput(a.roomForm, f, text, parsed);
      if Room.ParseInput(text, parsed).Some? then a.(roomForm := r, gate := RoomChanged(a.gate, r.dims))
      else a.(roomForm := r)
    case ClickValidate =>
      a.(gate := Validate(a.gate))
  }

  lemma MountedInv()
    ensures AppInv(Mounted)
  {
    assert Screen.Catalog[0].1 == Screen.Initial.ratio;
  }

  /** The timer as written keeps the form well formed and its numbers Pythagorean, whatever ratio it computes with. */
  lemma StaleFireKeepsPythagoras(sqrt: real -> real, s: Screen.State)
    requires IsSqrt(sqrt) && Screen.WellFormed(s) && Screen.Pythagorean(s.dims)
    ensures Screen.WellFormed(Screen.FireAsWritten(sqrt, s)) && Screen.Pythagorean(Screen.FireAsWritten(sqrt, s).dims)
  {
    if s.pending.Some? {
      assert Screen.Consistent(Screen.FireAsWritten(sqrt, s).dims, s.pending.value.ratio);
    }
  }

  /** A ratio change keeps the form well formed and its numbers Pythagorean. */
  lemma SelectRatioKeepsPythagoras(sqrt: real -> real, s: Screen.State, ratio: real)
    requires IsSqrt(sqrt) && Screen.WellFormed(s) && Screen.Pythagorean(s.dims) && Screen.InCatalog(ratio)
    ensures Screen.WellFormed(Screen.SelectRatio(sqrt, s, ratio)) && Screen.Pythagorean(Screen.SelectRatio(sqrt, s, ratio).dims)
  {
    if ratio != s.ratio && s.dims.diagonal > 0.0 {
      assert Screen.Consistent(Screen.SelectRatio(sqrt, s, ratio).dims, ratio);
    }
  }

  lemma TimerFiresInv(sqrt: real -> real, a: App)
    requires IsSqrt(sqrt) && AppInv(a)
    ensures AppInv(Perform(sqrt, a, TimerFires))
  {
    StaleFireKeepsPythagoras(sqrt, a.screenForm);
  }

  lemma PickRatioInv(sqrt: real -> real, a: App, i: nat)
    requires IsSqrt(sqrt) && AppInv(a)
    ensures AppInv(Perform(sqrt, a, PickRatio(i)))
  {
    if i < |Screen.Catalog| {
      assert Screen.InCatalog(Screen.Catalog[i].1);
      SelectRatioKeepsPythagoras(sqrt, a.screenForm, Screen.Catalog[i].1);
    }
  }

  lemma ClickInv(sqrt: real -> real, a: App)
    requires IsSqrt(sqrt) && AppInv(a)
    ensures AppInv(Perform(sqrt, a, ClickValidate))
  {
    StepInv(a.gate, Click);
  }

  /** Every action preserves the application invariant. */
  lemma PerformInv(sqrt: real -> real, a: App, act: Action)
    requires IsSqrt(sqrt) && AppInv(a)
    ensures AppInv(Perform(sqrt, a, act))
  {
    match act
    case ScreenKey(f, text, parsed) =>
    case TimerFires =>
      TimerFiresInv(sqrt, a);
    case PickUnit(u) =>
    case PickRatio(i) =>
      PickRatioInv(sqrt, a, i);
    case RoomKey(f, text, parsed) =>
    case ClickValidate =>
      ClickInv(sqrt, a);
  }

  function PerformAll(sqrt: real -> real, a: App, acts: seq<Action>): App
    requires IsSqrt(sqrt) && Screen.WellFormed(a.screenForm)
    decreases |acts|
  {
    if acts == [] then a else PerformAll(sqrt, Perform(sqrt, a, acts[0]), acts[1..])
  }

  /** However the forms are used, the invariant holds. */
  lemma {:induction false} PerformAllInv(sqrt: real -> real, a: App, acts: seq<Action>)
    requires IsSqrt(sqrt) && AppInv(a)
    ensures AppInv(PerformAll(sqrt, a, acts))
    decreases |acts|
  {
    if acts != [] {
      PerformInv(sqrt, a, acts[0]);
      PerformAllInv(sqrt, Perform(sqrt, a, acts[0]), acts[1..]);
    }
  }

  /**
   End to end: from any application satisfying the invariant (the first render
   does, by MountedInv), whatever the users type and pick, the views are given
   only positive numbers, and a screen whose diagonal obeys Pythagoras.
   */
  lemma ViewsSeeSoundNumbers(sqrt: real -> real, a: App, acts: seq<Action>)
    requires IsSqrt(sqrt) && AppInv(a)
    ensures var v := Visualized(PerformAll(sqrt, a, acts).gate);
      v.Some? ==> ScreenValid(v.value.0) && RoomValid(v.value.1) && Screen.Pythagorean(v.value.0)
  {
    PerformAllInv(sqrt, a, acts);
    SoundViews(PerformAll(sqrt, a, acts));
  }

  /** In any application satisfying the invariant, the views see only positive numbers and a Pythagorean screen. */
  lemma SoundViews(a: App)
    requires AppInv(a)
    ensures var v := Visualized(a.gate);
      v.Some? ==> ScreenValid(v.value.0) && RoomValid(v.value.1) && Screen.Pythagorean(v.value.0)
  {
  }
}

/** The four interception entry points: one decision pipeline, parameterised
    by the chain of genuine implementations each entry point prefers. */
module Hooks {
  import opened Wrappers
  import opened Scaling
  import opened Symbols

  /** An opaque pointer-event handle, passed through untouched. */
  type Event = nat

  /** The genuine library functions, as the values they return when called at
      a resolved address. */
  datatype Native = Native(
    axisValue: (Addr, Event, int) -> real,  // a value query: (event, axis) -> double
    axisSource: (Addr, Event) -> int)       // the axis-source query: event -> int

  /** The four exported entry points. */
  datatype Hook = GetAxisValue | GetAxisValueV120 | GetScrollValue | GetScrollValueV120

  /** The genuine symbols the shim resolves. */
  datatype Symbol = AxisValueSym | AxisValueV120Sym | AxisSourceSym | ScrollValueSym | ScrollValueV120Sym

  /** The name under which a genuine symbol is looked up. */
  function SymbolName(sym: Symbol): string
  {
    match sym
    case AxisValueSym => "libinput_event_pointer_get_axis_value"
    case AxisValueV120Sym => "libinput_event_pointer_get_axis_value_v120"
    case AxisSourceSym => "libinput_event_pointer_get_axis_source"
    case ScrollValueSym => "libinput_event_pointer_get_scroll_value"
    case ScrollValueV120Sym => "libinput_event_pointer_get_scroll_value_v120"
  }

  /** Every symbol is looked up under a name of its own. */
  lemma SymbolNamesDistinct(a: Symbol, b: Symbol)
    requires a != b
    ensures SymbolName(a) != SymbolName(b)
  {
    assert |SymbolName(a)| != |SymbolName(b)|;
  }

  /** One resolved slot per genuine symbol; `None` is "not present". */
  datatype Trampolines = Trampolines(
    axisValue: Option<Addr>,
    axisValueV120: Option<Addr>,
    axisSource: Option<Addr>,
    scrollValue: Option<Addr>,
    scrollValueV120: Option<Addr>)

  /** The slot of one symbol. */
  function SlotOf(t: Trampolines, sym: Symbol): Option<Addr>
  {
    match sym
    case AxisValueSym => t.axisValue
    case AxisValueV120Sym => t.axisValueV120
    case AxisSourceSym => t.axisSource
    case ScrollValueSym => t.scrollValue
    case ScrollValueV120Sym => t.scrollValueV120
  }

  /** Every slot as the symbol locator fills it. */
  function ResolveAll(ld: Loader): (t: Trampolines)
    ensures forall sym :: SlotOf(t, sym) == Resolve(ld, SymbolName(sym))
  {
    Trampolines(
      Resolve(ld, SymbolName(AxisValueSym)), Resolve(ld, SymbolName(AxisValueV120Sym)), Resolve(ld, SymbolName(AxisSourceSym)),
      Resolve(ld, SymbolName(ScrollValueSym)), Resolve(ld, SymbolName(ScrollValueV120Sym)))
  }

  /** The genuine implementation an entry point calls, as each entry point
      picks it: its own original if present, else the next fallback. A
      present primary slot always gives one. */
  function Genuine(h: Hook, t: Trampolines): (r: Option<Addr>)
    ensures t.axisValue.Some? ==> r.Some?
  {
    match h
    case GetAxisValue => t.axisValue
    case GetAxisValueV120 => if t.axisValueV120.Some? then t.axisValueV120 else t.axisValue
    case GetScrollValue => if t.scrollValue.Some? then t.scrollValue else t.axisValue
    case GetScrollValueV120 =>
      if t.scrollValueV120.Some? then t.scrollValueV120
      else if t.scrollValue.Some? then t.scrollValue
      else t.axisValue
  }

  /** The fallback table: the symbols an entry point may use, most preferred
      first. Every chain ends with the primary symbol and none holds the
      axis-source symbol. */
  function ChainSymbols(h: Hook): (syms: seq<Symbol>)
    ensures |syms| > 0 && syms[|syms| - 1] == AxisValueSym && AxisSourceSym !in syms
  {
    match h
    case GetAxisValue => [AxisValueSym]
    case GetAxisValueV120 => [AxisValueV120Sym, AxisValueSym]
    case GetScrollValue => [ScrollValueSym, AxisValueSym]
    case GetScrollValueV120 => [ScrollValueV120Sym, ScrollValueSym, AxisValueSym]
  }

  /** The slots of an entry point's fallback chain, most preferred first. */
  function Chain(h: Hook, t: Trampolines): seq<Option<Addr>>
  {
    var syms := ChainSymbols(h);
    seq(|syms|, i requires 0 <= i < |syms| => SlotOf(t, syms[i]))
  }

  /** The first present slot of a chain. */
  function FirstPresent(c: seq<Option<Addr>>): Option<Addr>
  {
    if c == [] then None else if c[0].Some? then c[0] else FirstPresent(c[1..])
  }

  /** Each entry point takes the first present slot of its fallback chain, and
      every chain ends with the mandatory primary slot. */
  lemma GenuineFollowsChain(h: Hook, t: Trampolines)
    ensures Genuine(h, t) == FirstPresent(Chain(h, t))
    ensures |Chain(h, t)| > 0 && Chain(h, t)[|Chain(h, t)| - 1] == t.axisValue
  {
    var c := Chain(h, t);
    match h
    case GetAxisValue =>
      assert c == [t.axisValue];
      assert c[1..] == [];
    case GetAxisValueV120 =>
      assert c == [t.axisValueV120, t.axisValue];
      var rest: seq<Option<Addr>> := c[1..];
      assert rest == [t.axisValue] && rest[1..] == [];
      assert FirstPresent(rest) == t.axisValue;
    case GetScrollValue =>
      assert c == [t.scrollValue, t.axisValue];
      var rest: seq<Option<Addr>> := c[1..];
      assert rest == [t.axisValue] && rest[1..] == [];
      assert FirstPresent(rest) == t.axisValue;
    case GetScrollValueV120 =>
      assert c == [t.scrollValueV120, t.scrollValue, t.axisValue];
      var rest: seq<Option<Addr>> := c[1..][1..];
      assert rest == [t.axisValue] && rest[1..] == [];
      assert FirstPresent(rest) == t.axisValue;
  }

  /** A chain has no present slot exactly when every slot is absent. */
  lemma {:induction false} FirstPresentNone(c: seq<Option<Addr>>)
    ensures FirstPresent(c).None? <==> forall i :: 0 <= i < |c| ==> c[i].None?
  {
    if c != [] {
      FirstPresentNone(c[1..]);
      assert forall i :: 1 <= i < |c| ==> c[i] == c[1..][i - 1];
    }
  }

  /** An entry point is left without a genuine implementation exactly when its
      preferred slots and the primary slot are all absent; in particular, a
      present primary slot always serves. */
  lemma GenuineAbsentIffChainAbsent(h: Hook, t: Trampolines)
    ensures Genuine(h, t).None? <==> forall i :: 0 <= i < |Chain(h, t)| ==> Chain(h, t)[i].None?
    ensures t.axisValue.Some? ==> Genuine(h, t).Some?
  {
    GenuineFollowsChain(h, t);
    FirstPresentNone(Chain(h, t));
  }

  /** Which kind of native call was made, with its arguments. */
  datatype NativeCall = ValueCall(fn: Addr, ev: Event, axis: int) | SourceCall(fn: Addr, ev: Event)

  /** The per-call diagnostic record (its text formatting is not modelled). */
  datatype Diag = Scaled(hook: Hook, axis: int, source: Option<int>, orig: real, scaled: real, scale: real)

  /** What an entry point does: abort for want of the primary symbol, or return
      a value after making some native calls and maybe emitting a diagnostic. */
  datatype Outcome =
    | Fatal
    | Returned(value: real, calls: seq<NativeCall>, diag: Option<Diag>)

  /** Scales within this distance of 1.0 are treated as no change. */
  const TOLERANCE: real := 1e-9

  function Abs(x: real): real { if x < 0.0 then -x else x }

  predicate IsNoOpScale(scale: real) { Abs(scale - 1.0) < TOLERANCE }

  /** The value returned for a scroll axis with scaling enabled. */
  function ApplyScale(orig: real, scale: real): (r: real)
    ensures IsNoOpScale(scale) ==> r == orig
    ensures !IsNoOpScale(scale) ==> r == orig * scale
  {
    if IsNoOpScale(scale) then orig else orig * scale
  }

  /** The source reported by the axis-source accessor, if it is present;
      without the accessor there is no source. */
  function QuerySource(sourceFn: Option<Addr>, n: Native, ev: Event): (r: Option<int>)
    ensures r.Some? <==> sourceFn.Some?
    ensures sourceFn.Some? ==> r.value == n.axisSource(sourceFn.value, ev)
  {
    sourceFn.MapOr(g => Some(n.axisSource(g, ev)), None)
  }

  /** The shared algorithm of the four entry points. */
  function Intercept(h: Hook, s: Settings, disable: bool, debug: bool, t: Trampolines, n: Native,
                     ev: Event, axis: int): (o: Outcome)
    // the only fatal path is a missing genuine implementation
    ensures o.Fatal? <==> Genuine(h, t).None?
  {
    match Genuine(h, t)
    case None => Fatal
    case Some(f) => Decide(h, s, disable, debug, t.axisSource, n, f, ev, axis)
  }

  /** What an entry point observably does, as each of them promises. */
  lemma InterceptBehaviour(h: Hook, s: Settings, disable: bool, debug: bool, t: Trampolines, n: Native,
                           ev: Event, axis: int)
    ensures var o := Intercept(h, s, disable, debug, t, n, ev, axis);
      // otherwise the genuine function is called first, with the caller's arguments
      && (o.Returned? ==> |o.calls| > 0 && o.calls[0] == ValueCall(Genuine(h, t).value, ev, axis))
      // disabled, or not a scroll axis: the genuine value exactly, nothing else called or logged
      && (o.Returned? && (disable || !IsScrollAxis(axis)) ==>
        && o.value == n.axisValue(Genuine(h, t).value, ev, axis)
        && |o.calls| == 1
        && o.diag.None?)
      // scroll axis, scaling enabled: the source is asked only if its accessor is present
      && (o.Returned? && !disable && IsScrollAxis(axis) ==>
        && o.calls[1..] == (if t.axisSource.Some? then [SourceCall(t.axisSource.value, ev)] else [])
        && o.value == ApplyScale(n.axisValue(Genuine(h, t).value, ev, axis), ComputeScale(s, axis, QuerySource(t.axisSource, n, ev))))
      // a diagnostic is emitted exactly for a call that rescales with debugging on
      && ((o.Returned? && o.diag.Some?) <==>
        Genuine(h, t).Some? && debug && !disable && IsScrollAxis(axis) &&
        !IsNoOpScale(ComputeScale(s, axis, QuerySource(t.axisSource, n, ev))))
      // and it reports the axis, the source, the original and scaled values and the factor
      && (o.Returned? && o.diag.Some? ==>
        var orig := n.axisValue(Genuine(h, t).value, ev, axis);
        var source := QuerySource(t.axisSource, n, ev);
        var scale := ComputeScale(s, axis, source);
        o.diag.value == Scaled(h, axis, source, orig, orig * scale, scale))
  {
  }

  /** The decision sequence once the genuine implementation `f` is known;
      `sourceFn` is the axis-source slot. */
  function Decide(h: Hook, s: Settings, disable: bool, debug: bool, sourceFn: Option<Addr>, n: Native,
                  f: Addr, ev: Event, axis: int): (o: Outcome)
    ensures o.Returned? && |o.calls| > 0 && o.calls[0] == ValueCall(f, ev, axis)
  {
    if disable then Returned(n.axisValue(f, ev, axis), [ValueCall(f, ev, axis)], None)
    else if !IsScrollAxis(axis) then Returned(n.axisValue(f, ev, axis), [ValueCall(f, ev, axis)], None)
    else Scroll(h, s, debug, sourceFn, n, f, ev, axis)
  }

  /** The scroll-axis branch of `Decide`: the source is asked, the scale
      computed, and the genuine value rescaled unless the scale is a no-op. */
  function Scroll(h: Hook, s: Settings, debug: bool, sourceFn: Option<Addr>, n: Native,
                  f: Addr, ev: Event, axis: int): (o: Outcome)
    ensures o.Returned? && |o.calls| > 0 && o.calls[0] == ValueCall(f, ev, axis)
  {
    var orig := n.axisValue(f, ev, axis);
    var source := QuerySource(sourceFn, n, ev);
    var calls := [ValueCall(f, ev, axis)] + (if sourceFn.Some? then [SourceCall(sourceFn.value, ev)] else []);
    var scale := ComputeScale(s, axis, source);
    if IsNoOpScale(scale) then Returned(orig, calls, None)
    else
      var scaled := orig * scale;
      Returned(scaled, calls, if debug then Some(Scaled(h, axis, source, orig, scaled, scale)) else None)
  }

  /** With no scaling configured, every entry point that does not abort
      returns the genuine value and logs nothing. */
  lemma UnconfiguredIsPassThrough(h: Hook, disable: bool, debug: bool, t: Trampolines, n: Native,
                                  ev: Event, axis: int)
    ensures var o := Intercept(h, FromEnv(ParsedEnv(None, None, None, None, None, None)), disable, debug, t, n, ev, axis);
      o.Returned? ==> o.value == n.axisValue(Genuine(h, t).value, ev, axis) && o.diag.None?
  {
    UnconfiguredScaleIsOne(axis, QuerySource(t.axisSource, n, ev));
  }

  lemma AbsMul(a: real, b: real)
    ensures Abs(a * b) == Abs(a) * Abs(b)
  {
  }

  /** Rescaling by `f` and then by `1/f` gives the value back exactly when both
      or neither factor is within the tolerance of 1.0, and otherwise to within
      a relative error of twice the tolerance. */
  lemma RescaleRoundTrip(v: real, f: real, g: real)
    requires f * g == 1.0
    ensures IsNoOpScale(f) == IsNoOpScale(g) ==> ApplyScale(ApplyScale(v, f), g) == v
    ensures Abs(ApplyScale(ApplyScale(v, f), g) - v) <= 2.0 * TOLERANCE * Abs(v)
  {
    if IsNoOpScale(f) && !IsNoOpScale(g) {
      NearUnitInverse(f, g);
      NearUnitScaleError(v, g);
    } else if !IsNoOpScale(f) && IsNoOpScale(g) {
      NearUnitInverse(g, f);
      assert ApplyScale(v * f, g) == v * f;
      NearUnitScaleError(v, f);
    } else if !IsNoOpScale(f) {
      assert v * f * g == v * (f * g);
    }
  }

  /** Conversely, when exactly one of the two factors is within the tolerance,
      a non-zero value does not come back. */
  lemma RescaleRoundTripMisses(v: real, f: real, g: real)
    requires f * g == 1.0 && v != 0.0 && IsNoOpScale(f) != IsNoOpScale(g)
    ensures ApplyScale(ApplyScale(v, f), g) != v
  {
    if IsNoOpScale(f) {
      assert ApplyScale(ApplyScale(v, f), g) == v * g;
      MovesNonZero(v, g);
    } else {
      assert ApplyScale(ApplyScale(v, f), g) == v * f;
      MovesNonZero(v, f);
    }
  }

  /** A factor that is not a no-op moves every non-zero value. */
  lemma MovesNonZero(v: real, h: real)
    requires !IsNoOpScale(h)
    ensures v != 0.0 ==> v * h != v
  {
    if v != 0.0 {
      assert h - 1.0 != 0.0;
      assert v * h - v == v * (h - 1.0);
    }
  }

  /** Scaling by a factor within twice the tolerance of 1.0 moves a value by at
      most twice the tolerance, relatively. */
  lemma NearUnitScaleError(v: real, h: real)
    requires Abs(h - 1.0) <= 2.0 * TOLERANCE
    ensures Abs(v * h - v) <= 2.0 * TOLERANCE * Abs(v)
  {
    var d := h - 1.0;
    var bound := 2.0 * TOLERANCE;
    assert v * h - v == v * d;
    AbsMul(v, d);
    MulLeft(Abs(v), Abs(d), bound);
    assert Abs(v * h - v) == Abs(v) * Abs(d) <= bound * Abs(v);
  }

  /** Multiplying by a non-negative factor keeps an inequality. */
  lemma MulLeft(a: real, b: real, c: real)
    requires a >= 0.0 && b <= c
    ensures a * b <= c * a
  {
    assert c * a - a * b == a * (c - b);
  }

  /** The inverse of a factor within the tolerance of 1.0 is within twice the
      tolerance of 1.0. */
  lemma NearUnitInverse(f: real, g: real)
    requires f * g == 1.0 && IsNoOpScale(f)
    ensures Abs(g - 1.0) <= 2.0 * TOLERANCE
  {
    assert f > 0.5;
    assert (g - 1.0) * f == 1.0 - f;
    AbsMul(g - 1.0, f);
    assert Abs(g - 1.0) * f < TOLERANCE;
  }

  /** The trampolines of a process where every genuine symbol resolved. */
  const ALL_PRESENT: Trampolines := Trampolines(Some(1), Some(2), Some(3), Some(4), Some(5))

  /** A genuine library that reports `value` and `source` for every event. */
  function ConstNative(value: real, source: int): Native {
    Native((f, e, a) => value, (f, e) => source)
  }

  /** Base scale 2.0 alone doubles every vertical wheel value. */
  lemma ScenarioBaseScale(v: real)
    ensures Intercept(GetAxisValue, FromEnv(ParsedEnv(Some(2.0), None, None, None, None, None)), false, false,
                      ALL_PRESENT, ConstNative(v, SOURCE_WHEEL), 0, AXIS_SCROLL_VERTICAL).value == 2.0 * v
  {
  }

  /** The horizontal override and the wheel multiplier combine. */
  lemma ScenarioAxisAndSource()
    ensures Intercept(GetAxisValue, FromEnv(ParsedEnv(None, Some(0.5), None, Some(3.0), None, None)), false, false,
                      ALL_PRESENT, ConstNative(4.0, SOURCE_WHEEL), 0, AXIS_SCROLL_HORIZONTAL).value == 6.0
  {
  }

  /** Disabling wins over any configured scales: the genuine value comes back
      unchanged. */
  lemma ScenarioDisabled(e: ParsedEnv, v: real, axis: int)
    ensures Intercept(GetAxisValue, FromEnv(e), true, false,
                      ALL_PRESENT, ConstNative(v, SOURCE_WHEEL), 0, axis).value == v
  {
  }

  /** Without the source accessor only the axis factor applies, and the
      accessor is not called. */
  lemma ScenarioNoSourceAccessor(v: real)
    ensures var o := Intercept(GetScrollValue, FromEnv(ParsedEnv(Some(2.0), None, None, Some(3.0), None, None)),
                               false, false, ALL_PRESENT.(axisSource := None), ConstNative(v, SOURCE_WHEEL), 0,
                               AXIS_SCROLL_VERTICAL);
      o.value == v * 2.0 && o.calls == [ValueCall(4, 0, AXIS_SCROLL_VERTICAL)]
  {
  }

  /** A missing primary symbol aborts only the entry points whose own preferred
      originals are missing too. */
  lemma ScenarioPrimaryMissing()
    ensures Intercept(GetAxisValue, FromEnv(ParsedEnv(None, None, None, None, None, None)), false, false,
                      ALL_PRESENT.(axisValue := None), ConstNative(1.0, SOURCE_WHEEL), 0, 0).Fatal?
    ensures Intercept(GetScrollValueV120, FromEnv(ParsedEnv(None, None, None, None, None, None)), false, false,
                      ALL_PRESENT.(axisValue := None, scrollValueV120 := None), ConstNative(1.0, SOURCE_WHEEL), 0, 0).Returned?
  {
  }
}

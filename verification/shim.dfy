/** The process-wide state of the shim: the lazily initialised, write-once
    cells (settings, flags, one trampoline per genuine symbol, the startup-log
    marker) and the four entry points that force them on first use. */
module Shim {
  import opened Wrappers
  import opened Scaling
  import opened Flags
  import opened Symbols
  import opened Hooks

  /** What the process environment supplies: the six numeric settings, already
      parsed, and the raw values of SCROLL_DISABLE and SCROLL_DEBUG. */
  datatype Environment = Environment(settings: ParsedEnv, disable: Option<string>, debug: Option<string>)

  /** A line on the error stream (its text formatting is not modelled). */
  datatype Line =
    | Startup(disable: bool, settings: Settings)
    | CallLine(diag: Diag)
    | FatalMissing(sym: Symbol)

  /** The process's lazily initialised statics; `None` is "not yet
      initialised". A trampoline cell, once forced, holds the resolved slot,
      itself `None` when the symbol is not present. */
  datatype Statics = Statics(
    settings: Option<Settings>,
    disable: Option<bool>,
    debug: Option<bool>,
    axisValue: Option<Option<Addr>>,
    axisValueV120: Option<Option<Addr>>,
    axisSource: Option<Option<Addr>>,
    scrollValue: Option<Option<Addr>>,
    scrollValueV120: Option<Option<Addr>>)

  const UNINITIALISED := Statics(None, None, None, None, None, None, None, None)

  /** The trampoline cell of a symbol. */
  function CellOf(c: Statics, sym: Symbol): Option<Option<Addr>>
  {
    match sym
    case AxisValueSym => c.axisValue
    case AxisValueV120Sym => c.axisValueV120
    case AxisSourceSym => c.axisSource
    case ScrollValueSym => c.scrollValue
    case ScrollValueV120Sym => c.scrollValueV120
  }

  /** `c` with the trampoline cell of `sym` forced to `p`. */
  function Forcing(c: Statics, sym: Symbol, p: Option<Addr>): (d: Statics)
    ensures CellOf(d, sym) == Some(p)
    ensures forall other :: other != sym ==> CellOf(d, other) == CellOf(c, other)
    ensures d.settings == c.settings && d.disable == c.disable && d.debug == c.debug
  {
    match sym
    case AxisValueSym => c.(axisValue := Some(p))
    case AxisValueV120Sym => c.(axisValueV120 := Some(p))
    case AxisSourceSym => c.(axisSource := Some(p))
    case ScrollValueSym => c.(scrollValue := Some(p))
    case ScrollValueV120Sym => c.(scrollValueV120 := Some(p))
  }

  /** No static is ever reset: one initialised in `a` is initialised in `b`. */
  predicate Grows(a: Statics, b: Statics)
  {
    && (a.settings.Some? ==> b.settings.Some?)
    && (a.disable.Some? ==> b.disable.Some?)
    && (a.debug.Some? ==> b.debug.Some?)
    && (a.axisValue.Some? ==> b.axisValue.Some?)
    && (a.axisValueV120.Some? ==> b.axisValueV120.Some?)
    && (a.axisSource.Some? ==> b.axisSource.Some?)
    && (a.scrollValue.Some? ==> b.scrollValue.Some?)
    && (a.scrollValueV120.Some? ==> b.scrollValueV120.Some?)
  }

  /** What looking up an entry point's genuine implementation may force, from
      `a` to `b`: cells of its own fallback chain only (the axis-source cell is
      not constrained here), and a later cell of the chain stays as it was
      once an earlier slot of `t` is present. */
  predicate ChainForcing(h: Hook, t: Trampolines, a: Statics, b: Statics)
  {
    && (forall sym :: sym !in ChainSymbols(h) && sym != AxisSourceSym ==> CellOf(b, sym) == CellOf(a, sym))
    && (h == GetAxisValueV120 && t.axisValueV120.Some? ==> b.axisValue == a.axisValue)
    && (h == GetScrollValue && t.scrollValue.Some? ==> b.axisValue == a.axisValue)
    && (h == GetScrollValueV120 && t.scrollValueV120.Some? ==> b.scrollValue == a.scrollValue && b.axisValue == a.axisValue)
    && (h == GetScrollValueV120 && t.scrollValue.Some? ==> b.axisValue == a.axisValue)
  }

  /** What looking up an entry point's genuine implementation has forced in
      `b`: its preferred cell, and each later cell of its chain whose every
      earlier slot of `t` is absent. */
  predicate ChainForced(h: Hook, t: Trampolines, b: Statics)
  {
    && CellOf(b, ChainSymbols(h)[0]).Some?
    && (h == GetAxisValueV120 && t.axisValueV120.None? ==> b.axisValue.Some?)
    && (h == GetScrollValue && t.scrollValue.None? ==> b.axisValue.Some?)
    && (h == GetScrollValueV120 && t.scrollValueV120.None? ==>
          b.scrollValue.Some? && (t.scrollValue.None? ==> b.axisValue.Some?))
  }

  /** Steps that leave every trampoline cell alone before the lookup, and
      every cell but the axis-source one after it, keep `ChainForcing` and
      `ChainForced`. */
  lemma ChainForcingFramed(h: Hook, t: Trampolines, a: Statics, b: Statics, c: Statics, d: Statics)
    requires forall sym :: CellOf(b, sym) == CellOf(a, sym)
    requires ChainForcing(h, t, b, c)
    requires forall sym :: sym != AxisSourceSym ==> CellOf(d, sym) == CellOf(c, sym)
    ensures ChainForcing(h, t, a, d)
    ensures ChainForced(h, t, c) ==> ChainForced(h, t, d)
  {
    assert CellOf(d, ChainSymbols(h)[0]) == CellOf(c, ChainSymbols(h)[0]);
    assert CellOf(d, AxisValueSym) == CellOf(c, AxisValueSym);
    assert CellOf(d, ScrollValueSym) == CellOf(c, ScrollValueSym);
    assert CellOf(d, AxisValueSym) == CellOf(a, AxisValueSym) <== CellOf(c, AxisValueSym) == CellOf(b, AxisValueSym);
    assert CellOf(d, ScrollValueSym) == CellOf(a, ScrollValueSym) <== CellOf(c, ScrollValueSym) == CellOf(b, ScrollValueSym);
  }

  /** How many startup lines a stretch of the error stream holds. */
  function Startups(lines: seq<Line>): nat
  {
    if lines == [] then 0
    else (if lines[0].Startup? then 1 else 0) + Startups(lines[1..])
  }

  lemma {:induction false} StartupsAppend(lines: seq<Line>, x: Line)
    ensures Startups(lines + [x]) == Startups(lines) + (if x.Startup? then 1 else 0)
  {
    if lines == [] {
      assert [x][1..] == [];
    } else {
      assert (lines + [x])[1..] == lines[1..] + [x];
      StartupsAppend(lines[1..], x);
    }
  }

  class Process {
    const env: Environment
    const loader: Loader
    const native: Native

    // The values the statics take once forced.
    ghost const wantSettings: Settings
    ghost const wantDisable: bool
    ghost const wantDebug: bool
    ghost const wantSlots: Trampolines

    var statics: Statics
    /** The startup-log marker. */
    var logOnce: bool
    // What the process has observably done so far.
    var stderr: seq<Line>
    var aborted: bool

    /** The forced values are the ones the environment and the loader give. */
    ghost predicate Intended()
    {
      && wantSettings == FromEnv(env.settings)
      && wantDisable == IsSet(env.disable)
      && wantDebug == IsSet(env.debug)
      && wantSlots == ResolveAll(loader)
    }

    /** Every initialised static of `c` holds its intended value. */
    ghost predicate Agrees(c: Statics)
    {
      && (c.settings.Some? ==> c.settings.value == wantSettings)
      && (c.disable.Some? ==> c.disable.value == wantDisable)
      && (c.debug.Some? ==> c.debug.value == wantDebug)
      && (c.axisValue.Some? ==> c.axisValue.value == wantSlots.axisValue)
      && (c.axisValueV120.Some? ==> c.axisValueV120.value == wantSlots.axisValueV120)
      && (c.axisSource.Some? ==> c.axisSource.value == wantSlots.axisSource)
      && (c.scrollValue.Some? ==> c.scrollValue.value == wantSlots.scrollValue)
      && (c.scrollValueV120.Some? ==> c.scrollValueV120.value == wantSlots.scrollValueV120)
    }

    ghost predicate Valid()
      reads this
    {
      && Agrees(statics)
      // the startup line is written at most once, exactly when the marker is set
      && (logOnce ==> wantDebug)
      && Startups(stderr) == (if logOnce then 1 else 0)
    }

    constructor (env: Environment, loader: Loader, native: Native)
      ensures Intended() && Valid()
      ensures this.env == env && this.loader == loader && this.native == native
      ensures statics == UNINITIALISED && !logOnce && stderr == [] && !aborted
    {
      this.env, this.loader, this.native := env, loader, native;
      wantSettings, wantDisable, wantDebug := FromEnv(env.settings), IsSet(env.disable), IsSet(env.debug);
      wantSlots := ResolveAll(loader);
      statics := UNINITIALISED;
      logOnce := false;
      stderr, aborted := [], false;
    }

    /** Forces the settings static. */
    method GetSettings() returns (s: Settings)
      requires Intended() && Valid()
      modifies this`statics
      ensures Valid() && Grows(old(statics), statics)
      ensures s == wantSettings && statics == old(statics).(settings := Some(s))
    {
      if statics.settings.None? {
        statics := statics.(settings := Some(FromEnv(env.settings)));
      }
      s := statics.settings.value;
    }

    /** Forces the SCROLL_DISABLE static. */
    method GetDisable() returns (b: bool)
      requires Intended() && Valid()
      modifies this`statics
      ensures Valid() && Grows(old(statics), statics)
      ensures b == wantDisable && statics == old(statics).(disable := Some(b))
    {
      if statics.disable.None? {
        statics := statics.(disable := Some(IsSet(env.disable)));
      }
      b := statics.disable.value;
    }

    /** Forces the SCROLL_DEBUG static. */
    method GetDebug() returns (b: bool)
      requires Intended() && Valid()
      modifies this`statics
      ensures Valid() && Grows(old(statics), statics)
      ensures b == wantDebug && statics == old(statics).(debug := Some(b))
    {
      if statics.debug.None? {
        statics := statics.(debug := Some(IsSet(env.debug)));
      }
      b := statics.debug.value;
    }

    /** Forces the trampoline cell of `sym`, and no other static. The symbol
        locator runs only on first use: `dlopened` lists the sonames it hands
        to the loader's open, and a later use opens nothing. */
    method Trampoline(sym: Symbol) returns (p: Option<Addr>, dlopened: seq<string>)
      requires Intended() && Valid()
      modifies this`statics
      ensures Valid() && Grows(old(statics), statics)
      ensures p == SlotOf(wantSlots, sym) && statics == Forcing(old(statics), sym, p)
      ensures CellOf(old(statics), sym).Some? ==> dlopened == []
      ensures CellOf(old(statics), sym).None? ==>
        dlopened == (if loader.next(SymbolName(sym)).Some? then [] else Opened(loader, CANDIDATES, SymbolName(sym)))
    {
      if CellOf(statics, sym).None? {
        p, dlopened := Locate(sym);
        statics := Forcing(statics, sym, p);
      } else {
        p, dlopened := CellOf(statics, sym).value, [];
        assert Forcing(statics, sym, p) == statics;
      }
    }

    /** Runs the symbol locator for `sym`, changing no static. */
    method Locate(sym: Symbol) returns (p: Option<Addr>, dlopened: seq<string>)
      requires Intended()
      ensures p == SlotOf(wantSlots, sym)
      ensures dlopened == (if loader.next(SymbolName(sym)).Some? then [] else Opened(loader, CANDIDATES, SymbolName(sym)))
    {
      p, dlopened := ResolveSymbol(loader, SymbolName(sym));
    }

    /** Appends a line other than the startup line to the error stream. */
    method Write(line: Line)
      requires Valid() && !line.Startup?
      modifies this`stderr
      ensures Valid() && stderr == old(stderr) + [line]
    {
      StartupsAppend(stderr, line);
      stderr := stderr + [line];
    }

    /** The primary symbol is missing: the process reports it and aborts. */
    method Abort()
      requires Valid()
      modifies this`stderr, this`aborted
      ensures Valid() && stderr == old(stderr) + [FatalMissing(AxisValueSym)] && aborted
    {
      Write(FatalMissing(AxisValueSym));
      aborted := true;
    }

    /** Writes the startup line on the first call made with debugging on. */
    method LogStartupOnce()
      requires Intended() && Valid()
      modifies this`statics, this`logOnce, this`stderr
      ensures Valid() && Grows(old(statics), statics)
      ensures logOnce == (old(logOnce) || wantDebug)
      ensures stderr == old(stderr) +
        (if wantDebug && !old(logOnce) then [Startup(wantDisable, wantSettings)] else [])
      // DEBUG is always forced; DISABLE and SETTINGS only when the line is written
      ensures statics ==
        if wantDebug && !old(logOnce)
        then old(statics).(debug := Some(wantDebug), disable := Some(wantDisable), settings := Some(wantSettings))
        else old(statics).(debug := Some(wantDebug))
      ensures forall sym :: CellOf(statics, sym) == CellOf(old(statics), sym)
    {
      var d := GetDebug();
      if d && !logOnce {
        var dis := GetDisable();
        var s := GetSettings();
        logOnce := true;
        StartupsAppend(stderr, Startup(dis, s));
        stderr := stderr + [Startup(dis, s)];
      }
    }

    /** Forces the cell of `first`, and the cell of `second` only when
        `first` is absent; the slot used is the first present of the two. */
    method FallBack(first: Symbol, second: Symbol) returns (g: Option<Addr>)
      requires Intended() && Valid()
      modifies this`statics
      ensures Valid() && Grows(old(statics), statics)
      ensures g == (if SlotOf(wantSlots, first).Some? then SlotOf(wantSlots, first) else SlotOf(wantSlots, second))
      ensures statics.settings == old(statics).settings && statics.disable == old(statics).disable
      ensures statics.debug == old(statics).debug
      ensures forall sym :: sym != first && sym != second ==> CellOf(statics, sym) == CellOf(old(statics), sym)
      // the fallback is not even looked at when the preferred slot is present
      ensures first != second && SlotOf(wantSlots, first).Some? ==> CellOf(statics, second) == CellOf(old(statics), second)
      // the preferred cell is always forced, the fallback whenever the preferred slot is absent
      ensures CellOf(statics, first).Some? && (SlotOf(wantSlots, first).None? ==> CellOf(statics, second).Some?)
    {
      var dlopened;
      g, dlopened := Trampoline(first);
      if g.None? {
        g, dlopened := Trampoline(second);
      }
    }

    /** The genuine implementation for an entry point, forcing its trampoline
        cells in the entry point's fallback order; a later cell is forced only
        when every earlier one is absent. */
    method GenuineFor(h: Hook) returns (g: Option<Addr>)
      requires Intended() && Valid()
      modifies this`statics
      ensures Valid() && Grows(old(statics), statics)
      ensures g == Genuine(h, wantSlots)
      // only cells of the entry point's fallback chain are forced
      ensures statics.settings == old(statics).settings && statics.disable == old(statics).disable
      ensures statics.debug == old(statics).debug
      ensures statics.axisSource == old(statics).axisSource
      // a later cell of the chain is left alone once an earlier slot is present
      ensures ChainForcing(h, wantSlots, old(statics), statics)
      // and every cell it had to consult is forced from then on
      ensures ChainForced(h, wantSlots, statics)
    {
      match h {
        case GetAxisValue =>
          var dlopened;
          g, dlopened := Trampoline(AxisValueSym);
        case GetAxisValueV120 =>
          g := FallBack(AxisValueV120Sym, AxisValueSym);
        case GetScrollValue =>
          g := FallBack(ScrollValueSym, AxisValueSym);
        case GetScrollValueV120 =>
          var dlopened;
          g, dlopened := Trampoline(ScrollValueV120Sym);
          if g.None? {
            g := FallBack(ScrollValueSym, AxisValueSym);
          }
      }
      assert CellOf(statics, AxisSourceSym) == CellOf(old(statics), AxisSourceSym);
    }

    /** One call of an exported entry point. */
    method Call(h: Hook, ev: Event, axis: int) returns (o: Outcome)
      requires Intended() && Valid() && !aborted
      modifies this`statics, this`logOnce, this`stderr, this`aborted
      ensures Valid() && Grows(old(statics), statics)
      ensures o == Intercept(h, wantSettings, wantDisable, wantDebug, wantSlots, native, ev, axis)
      ensures aborted == o.Fatal?
      ensures logOnce == (old(logOnce) || wantDebug)
      ensures stderr == old(stderr)
        + (if wantDebug && !old(logOnce) then [Startup(wantDisable, wantSettings)] else [])
        + (if o.Fatal? then [FatalMissing(AxisValueSym)]
           else if o.diag.Some? then [CallLine(o.diag.value)] else [])
      // a call forces only trampoline cells of its own fallback chain, lazily,
      // and the axis-source cell only on a scroll axis with scaling enabled (even
      // when the factor then turns out to be a no-op)
      ensures ChainForcing(h, wantSlots, old(statics), statics)
      ensures Genuine(h, wantSlots).None? || wantDisable || !IsScrollAxis(axis) ==> statics.axisSource == old(statics).axisSource
      // every cell the call consulted is forced from then on
      ensures ChainForced(h, wantSlots, statics)
      ensures Genuine(h, wantSlots).Some? && !wantDisable && IsScrollAxis(axis) ==> statics.axisSource.Some?
    {
      ghost var before := statics;
      LogStartupOnce();
      ghost var logged := statics;
      var g := GenuineFor(h);
      ghost var looked := statics;
      o := Serve(h, g, ev, axis);
      ChainForcingFramed(h, wantSlots, before, logged, looked, statics);
    }

    /** An entry point's work once its genuine implementation `g` is looked
        up: abort without one, else rescale and log the call. */
    method Serve(h: Hook, g: Option<Addr>, ev: Event, axis: int) returns (o: Outcome)
      requires Intended() && Valid() && !aborted && g == Genuine(h, wantSlots)
      modifies this`statics, this`stderr, this`aborted
      ensures Valid() && Grows(old(statics), statics)
      ensures o == Intercept(h, wantSettings, wantDisable, wantDebug, wantSlots, native, ev, axis)
      ensures aborted == o.Fatal?
      ensures stderr == old(stderr)
        + (if o.Fatal? then [FatalMissing(AxisValueSym)]
           else if o.diag.Some? then [CallLine(o.diag.value)] else [])
      // no static is forced on the fatal path; otherwise those of `Rescale`
      ensures g.None? ==> statics == old(statics)
      ensures g.Some? && (wantDisable || !IsScrollAxis(axis)) ==> statics == old(statics).(disable := Some(wantDisable))
      ensures g.Some? && !wantDisable && IsScrollAxis(axis) ==>
        statics == Forcing(old(statics), AxisSourceSym, wantSlots.axisSource)
          .(disable := Some(wantDisable), settings := Some(wantSettings), debug := Some(wantDebug))
      ensures forall sym :: sym != AxisSourceSym ==> CellOf(statics, sym) == CellOf(old(statics), sym)
    {
      if g.None? {
        Abort();
        return Fatal;
      }
      o := Rescale(h, g.value, ev, axis);
      if o.diag.Some? {
        Write(CallLine(o.diag.value));
      }
    }

    /** The rest of an entry point's work once its genuine implementation `f`
        is known: the axis-source and settings statics are forced only on the
        path that rescales. */
    method Rescale(h: Hook, f: Addr, ev: Event, axis: int) returns (o: Outcome)
      requires Intended() && Valid() && Genuine(h, wantSlots) == Some(f)
      modifies this`statics
      ensures Valid() && Grows(old(statics), statics)
      ensures o == Intercept(h, wantSettings, wantDisable, wantDebug, wantSlots, native, ev, axis)
      // pass-through: only DISABLE is forced
      ensures wantDisable || !IsScrollAxis(axis) ==> statics == old(statics).(disable := Some(wantDisable))
      // rescaling path: DISABLE, the axis-source trampoline, SETTINGS and DEBUG are forced
      ensures !wantDisable && IsScrollAxis(axis) ==>
        statics == Forcing(old(statics), AxisSourceSym, wantSlots.axisSource)
          .(disable := Some(wantDisable), settings := Some(wantSettings), debug := Some(wantDebug))
    {
      var dis := GetDisable();
      if dis || !IsScrollAxis(axis) {
        return Returned(native.axisValue(f, ev, axis), [ValueCall(f, ev, axis)], None);
      }
      var sourceFn, dlopened := Trampoline(AxisSourceSym);
      var s := GetSettings();
      var dbg := GetDebug();
      o := Decide(h, s, dis, dbg, sourceFn, native, f, ev, axis);
    }
  }
}

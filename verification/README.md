# libinput scroll shim, modelled in Dafny

The shim is a preloaded library. It exports four libinput entry points:
`libinput_event_pointer_get_axis_value`, `..._axis_value_v120`,
`..._scroll_value` and `..._scroll_value_v120`. It locates the genuine
implementations, calls them, and multiplies scroll values by factors
configured through environment variables. The model covers:

- `scaling.dfy` (module `Scaling`): the `Settings` record, the per-axis base
  factor, the per-source multiplier and their product.
- `flags.dfy` (module `Flags`): the `SCROLL_DISABLE` / `SCROLL_DEBUG` flag
  test ("1", or "true" in any ASCII case).
- `symbols.dfy` (module `Symbols`): the symbol locator. It tries the loader's
  "next definition" lookup first, then opens `libinput.so.10`, `.so.9`,
  `.so.8` and `.so`, in that order. The first library that opens and exposes
  the name wins. The loader is a parameter (`Loader`).
- `hooks.dfy` (module `Hooks`): the fallback chains of the four entry points
  and the decision pipeline they share, as pure functions. It also holds the
  1e-9 no-op tolerance and the fatal case of a missing primary symbol.
- `shim.dfy` (module `Shim`): the process state as a class. Its fields are the
  lazily initialised statics, the startup-log marker, the error stream and
  the abort flag. Its methods force the statics on first use in the order
  the source does. `Process.Call` is proved equal to the pure pipeline
  `Hooks.Intercept`. `Valid()` keeps every forced static at the value the
  environment and loader give, and allows at most one startup line.

Floating-point values are modelled as `real`. Native calls are modelled as
pure functions of (address, event, axis) (`Native`). Every outcome records
the native calls made, in order, and the diagnostic record written, if any.

## Model

| member | source | states |
|---|---|---|
| Scaling.IsScrollAxis | src/lib.rs:187 | only the vertical (0) and horizontal (1) scroll axes are rescaled |
| Scaling.FromEnv | src/lib.rs:46-57 | the base scale defaults to 1.0 when unset; every per-axis and per-source override is kept exactly as configured |
| Scaling.AxisBase | src/lib.rs:59-65 | horizontal uses SCROLL_SCALE_X and vertical uses SCROLL_SCALE_Y when set, otherwise the base scale; any other axis gets the base scale |
| Scaling.SourceMul | src/lib.rs:67-76 | wheel, finger and continuous/wheel-tilt take their own override or 1.0; continuous and wheel-tilt share one override; unknown source codes give 1.0 |
| Scaling.ComputeScale | src/lib.rs:166-170 | no source: the axis base alone; a source: the axis base times that source's multiplier |
| Scaling.UnconfiguredScaleIsOne | src/lib.rs:50-76 | with nothing configured the factor is 1.0 for every axis and source |
| Scaling.AbsentSourceIsNeutral | src/lib.rs:168 | a missing source accessor gives the same factor as any source whose multiplier is 1.0 |
| Flags.IsSet | src/lib.rs:80-81 | a flag is set exactly when its variable is present and reads "1" or "true" in any ASCII case |
| Flags.EqIgnoreAsciiCase | src/lib.rs:80-81 | two strings are equal up to ASCII case exactly when they have the same length and agree position by position after ASCII lower-casing |
| Flags.AsciiLower | src/lib.rs:80-81 | ASCII upper-case letters map to lower case; every other character is unchanged |
| Flags.IsSetIffSpelled | src/lib.rs:80-81 | a flag is set exactly when the variable is "1" or one of the 16 case spellings of "true" |
| Flags.MissingIsUnset | src/lib.rs:80-81 | an unset (or unreadable) variable never sets a flag |
| Symbols.Opened | src/lib.rs:97-107 | reference definition of the sonames the search opens: each valid C-string candidate in order, up to and including the first that yields the symbol |
| Symbols.FirstHit | src/lib.rs:97-108 | reference definition of the soname search: the first candidate's result that is present, else none |
| Symbols.Resolve | src/lib.rs:111-117 | reference definition of the locator: the next-definition result when present, else the soname search over the four fixed sonames |
| Symbols.Probe | src/lib.rs:98-106 | a soname yields the symbol exactly when it is a valid C string, the library opens and the lookup in it succeeds |
| Symbols.FirstHitWins | src/lib.rs:96-108 | the soname search returns address a exactly when some candidate yields a and every earlier candidate yields nothing |
| Symbols.FirstHitNone | src/lib.rs:96-108 | the search fails exactly when no candidate yields the symbol |
| Symbols.OpenedStopsAtHit | src/lib.rs:96-108 | the search opens a prefix of the candidates in order and stops at the first hit; with no hit it opens all of them |
| Symbols.OpenedIsPrefix | src/lib.rs:97-107 | the sonames handed to dlopen are a prefix of the candidate list, in its order |
| Symbols.OpenedAllOnMiss | src/lib.rs:97-108 | when no candidate yields the symbol, every candidate has been opened |
| Symbols.OpenedEndsAtHit | src/lib.rs:97-107 | when the symbol is found, the last soname opened is the one that yields it and every earlier one yielded nothing |
| Symbols.CandidatesAreCStrings | src/lib.rs:91-96 | none of the four fixed sonames contains a NUL, so every one is offered to dlopen |
| Symbols.DlsymViaSoname | src/lib.rs:90-109 | the loop returns the reference first hit and records the sonames opened, in order |
| Symbols.ResolveSymbol | src/lib.rs:111-117 | the next-definition lookup wins when it succeeds and then nothing is opened; otherwise the soname search decides |
| Hooks.SymbolNamesDistinct | src/lib.rs:120-151 | each of the five trampolines looks its symbol up under a name of its own |
| Hooks.SymbolName | src/lib.rs:120-151 | definition: the exported C name under which each of the five genuine symbols is looked up |
| Hooks.ResolveAll | src/lib.rs:119-154 | each of the five trampolines holds what the locator returns for its own symbol name |
| Hooks.Genuine | src/lib.rs:286-293 | an entry point's own original when present, else the next fallback in its order; a present primary always gives one |
| Hooks.ChainSymbols | src/lib.rs:287-293 | every fallback chain, most preferred first, ends with the primary symbol and never holds the axis-source symbol |
| Hooks.Chain | src/lib.rs:286-293 | reference definition: the slots of the entry point's fallback table, most preferred first |
| Hooks.GenuineFollowsChain | src/lib.rs:287-293 | each entry point calls the first present original of its fallback chain, and every chain ends with the primary axis-value symbol |
| Hooks.GenuineAbsentIffChainAbsent | src/lib.rs:119-128 | an entry point is left with no genuine function exactly when its whole chain is absent; a present primary always serves |
| Hooks.IsNoOpScale | src/lib.rs:194 | a factor is a no-op exactly when it lies strictly within 1e-9 of 1.0 |
| Hooks.QuerySource | src/lib.rs:191 | a source exists exactly when the axis-source accessor is present, and it is what that accessor reports for the event |
| Hooks.ApplyScale | src/lib.rs:194-198 | a factor within 1e-9 of 1.0 returns the original unchanged; otherwise the original times the factor |
| Hooks.Intercept | src/lib.rs:119-128 | an entry point aborts exactly when its genuine function is missing |
| Hooks.InterceptBehaviour | src/lib.rs:173-209 | genuine function called first with the caller's arguments; disabled or non-scroll axis gives the genuine value untouched, one call, no log; otherwise the source is queried only if its accessor exists and the value is rescaled by the computed factor; a diagnostic appears exactly for a real rescale with debugging on, and it reports the axis, the source, the original value, the scaled value and the factor |
| Hooks.Decide | src/lib.rs:180-198 | the call always returns, and its first native call is the genuine value query with the caller's arguments |
| Hooks.Scroll | src/lib.rs:191-208 | the scroll path also returns with the genuine value query as its first native call |
| Hooks.UnconfiguredIsPassThrough | src/lib.rs:173-209 | with no scaling configured every entry point that returns gives the genuine value and logs nothing |
| Hooks.RescaleRoundTrip | src/lib.rs:194-198 | scaling by f then by 1/f gives the value back when both or neither factor is within the tolerance, and always to within a relative error of 2e-9 |
| Hooks.RescaleRoundTripMisses | src/lib.rs:194-198 | when exactly one of f and 1/f is within the tolerance, a non-zero value does not come back |
| Hooks.ScenarioBaseScale | src/lib.rs:173-209 | SCROLL_SCALE=2 alone doubles every vertical wheel value |
| Hooks.ScenarioAxisAndSource | src/lib.rs:166-209 | SCROLL_SCALE_X=0.5 and SCROLL_SCALE_WHEEL=3 turn a horizontal 4.0 into 6.0 |
| Hooks.ScenarioDisabled | src/lib.rs:182-184 | with SCROLL_DISABLE set, axis_value returns the genuine value unchanged for every configuration, axis and value |
| Hooks.ScenarioNoSourceAccessor | src/lib.rs:250-277 | without the source accessor only the axis factor applies and the accessor is never called |
| Hooks.ScenarioPrimaryMissing | src/lib.rs:280-293 | a missing primary symbol aborts axis_value but not scroll_value_v120 when scroll_value is present |
| Shim.Forcing | src/lib.rs:119-154 | forcing one trampoline cell sets that cell and leaves every other static as it was |
| Shim.ChainForcing | src/lib.rs:286-293 | definition: an entry point's lookup forces only cells of its own chain, and a later one only when every earlier slot is absent |
| Shim.ChainForced | src/lib.rs:286-293 | definition: after an entry point's lookup its preferred cell is forced, and so is each later cell of its chain whose earlier slots are all absent |
| Shim.ChainForcingFramed | src/lib.rs:173-209 | steps that touch no trampoline cell before the lookup, and only the axis-source cell after it, keep both the bound on what was forced and what the lookup forced for the whole call |
| Shim.StartupsAppend | src/lib.rs:156-163 | appending a line adds one to the startup-line count exactly when it is a startup line |
| Shim.Process.constructor | src/lib.rs:79-154 | a fresh process has no static forced, the marker clear, nothing written and no abort |
| Shim.Process.GetSettings | src/lib.rs:79 | forcing SETTINGS yields the settings built from the environment and changes no other static |
| Shim.Process.GetDisable | src/lib.rs:80 | forcing DISABLE yields the flag test of SCROLL_DISABLE and changes no other static |
| Shim.Process.GetDebug | src/lib.rs:81 | forcing DEBUG yields the flag test of SCROLL_DEBUG and changes no other static |
| Shim.Process.Trampoline | src/lib.rs:119-154 | a trampoline cell holds the locator's answer for its symbol; on first use the loader is asked (and opens exactly the sonames the locator's search opens), on later uses nothing is opened; no other static changes |
| Shim.Process.Locate | src/lib.rs:111-117 | one run of the locator for a symbol gives that symbol's resolved slot and opens the sonames of the soname search only when the next-definition lookup fails |
| Shim.Process.Abort | src/lib.rs:122-126 | a missing primary symbol writes the fatal line and aborts the process |
| Shim.Process.LogStartupOnce | src/lib.rs:156-163 | the startup line, with DISABLE and SETTINGS, is written on the first call with debugging on and never again; DEBUG is always forced, DISABLE and SETTINGS only when the line is written, and no trampoline cell is touched |
| Shim.Process.FallBack | src/lib.rs:220 | the first present of two originals is used; the first cell is always forced, the second exactly when needed: forced when the first original is absent, left untouched when it is present; no other static changes |
| Shim.Process.GenuineFor | src/lib.rs:287-293 | the genuine function is the first present of the entry point's chain; only cells of that chain are forced, a later one only once every earlier original is absent, and every cell consulted is forced afterwards |
| Shim.Process.Call | src/lib.rs:173-209 | an entry-point call returns exactly what the pure pipeline Intercept gives; statics are never reset; the cells of its chain it consults are forced and no others, a later one only when every earlier original is absent; the axis-source cell is forced exactly on a scroll axis with scaling enabled (even when the factor is a no-op); the error stream gains the startup line (first debug call only) and then the fatal or diagnostic line |
| Shim.Process.Serve | src/lib.rs:180-208 | after the lookup: abort without a genuine function, forcing nothing; else the Intercept result, logging the diagnostic line if there is one, with exactly the statics Rescale forces |
| Shim.Process.Rescale | src/lib.rs:182-198 | the result is the Intercept result; on the pass-through path only DISABLE is forced, on the scaling path exactly DISABLE, the axis-source trampoline, SETTINGS and DEBUG |

## Left out

- The dynamic loader (`dlsym`, `dlopen`) and the pointer-to-function casts: the loader is the `Loader` parameter, and resolved functions are addresses called through `Native`.
- Concurrency: `Lazy` and the atomic `LOG_ONCE` swap are modelled for one thread. Racing first uses are not modelled.
- Reading the environment and parsing numbers as `f64`: `ParsedEnv` holds values already parsed. A missing, non-Unicode or unparsable variable is `None`.
- The text of the error-stream lines: `Line` records what each line reports, not its formatting.
- IEEE 754 arithmetic: values and factors are `real`, so there is no rounding, NaN or infinity. The 1e-9 tolerance is the exact real 1e-9.
- `c_int` width: axes and source codes are unbounded `int`.
- Loader side effects: libraries opened during the search are never closed in the source. The model records which sonames were opened but not the library state.
- `std::process::abort`: it is the `Fatal` outcome plus the `aborted` flag, and `Process.Call` requires that the process has not aborted.
- Where the abort happens: the source aborts inside the first forcing of the primary trampoline when the symbol is missing. The model forces that cell to "absent" and aborts in `Process.Serve` instead. `Process.GenuineFor` forces the primary cell only when every earlier original of the chain is absent, so the same calls abort.
- Shim.Process.Rescale: it forces DEBUG on every scaling path, while the source reads it only after a non-trivial factor. `LogStartupOnce` has already forced DEBUG in every call, so nothing observable differs.

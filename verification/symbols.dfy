/** The symbol locator: find the genuine implementation of a named entry point,
    first through the loader's "next definition" lookup, then by opening the
    library under a fixed list of sonames. */
module Symbols {
  import opened Wrappers

  /** A non-null code address. */
  type Addr = x: nat | x > 0 witness 1
  /** A non-null library handle. */
  type Handle = x: nat | x > 0 witness 1

  /** The dynamic loader, seen through the three queries the shim makes of it;
      `None` stands for the null pointer each query returns on failure. */
  datatype Loader = Loader(
    next: string -> Option<Addr>,             // dlsym(RTLD_NEXT, name)
    open: string -> Option<Handle>,           // dlopen(soname, RTLD_LAZY)
    sym: (Handle, string) -> Option<Addr>)    // dlsym(handle, name)

  /** The sonames tried in order: most recent major version first, the
      unversioned name last. */
  const CANDIDATES: seq<string> := ["libinput.so.10", "libinput.so.9", "libinput.so.8", "libinput.so"]

  /** A soname can be handed to the loader only as a C string, so one with an
      interior NUL is skipped without being opened. */
  predicate IsCString(s: string) {
    forall i :: 0 <= i < |s| ==> s[i] != '\0'
  }

  /** What one candidate yields: the symbol if the soname opens and exposes it. */
  function Probe(ld: Loader, soname: string, name: string): (r: Option<Addr>)
    ensures r.Some? <==> IsCString(soname) && ld.open(soname).Some? && ld.sym(ld.open(soname).value, name).Some?
    ensures r.Some? ==> r == ld.sym(ld.open(soname).value, name)
  {
    if !IsCString(soname) then None
    else match ld.open(soname)
      case None => None
      case Some(h) => ld.sym(h, name)
  }

  /** The sonames the search passes to the loader's open, in order. */
  function Opened(ld: Loader, cands: seq<string>, name: string): seq<string>
  {
    if cands == [] then []
    else
      var here := if IsCString(cands[0]) then [cands[0]] else [];
      if Probe(ld, cands[0], name).Some? then here
      else here + Opened(ld, cands[1..], name)
  }

  /** The reference search over a list of candidates: the first probe that
      succeeds. */
  function FirstHit(ld: Loader, cands: seq<string>, name: string): Option<Addr>
  {
    if cands == [] then None
    else if Probe(ld, cands[0], name).Some? then Probe(ld, cands[0], name)
    else FirstHit(ld, cands[1..], name)
  }

  /** First success wins: the search yields address `a` exactly when some
      candidate yields `a` and every earlier one yields nothing. */
  lemma {:induction false} FirstHitWins(ld: Loader, cands: seq<string>, name: string, a: Addr)
    ensures FirstHit(ld, cands, name) == Some(a) <==>
      exists k :: 0 <= k < |cands| && Probe(ld, cands[k], name) == Some(a) &&
        forall j :: 0 <= j < k ==> Probe(ld, cands[j], name).None?
  {
    if cands != [] {
      FirstHitWins(ld, cands[1..], name, a);
      if Probe(ld, cands[0], name).None? {
        if FirstHit(ld, cands, name) == Some(a) {
          var k :| 0 <= k < |cands| - 1 && Probe(ld, cands[1..][k], name) == Some(a) &&
            forall j :: 0 <= j < k ==> Probe(ld, cands[1..][j], name).None?;
          assert forall j :: 0 <= j < k + 1 ==> Probe(ld, cands[j], name).None? by {
            forall j | 0 <= j < k + 1 ensures Probe(ld, cands[j], name).None? {
              if j > 0 { assert cands[j] == cands[1..][j - 1]; }
            }
          }
        } else {
          forall k | 0 <= k < |cands| && Probe(ld, cands[k], name) == Some(a)
            ensures exists j :: 0 <= j < k && Probe(ld, cands[j], name).Some?
          {
            assert k > 0;
            assert cands[1..][k - 1] == cands[k];
            var j :| 0 <= j < k - 1 && Probe(ld, cands[1..][j], name).Some?;
            assert cands[1..][j] == cands[j + 1];
          }
        }
      }
    }
  }

  /** The search finds nothing exactly when no candidate yields the symbol. */
  lemma {:induction false} FirstHitNone(ld: Loader, cands: seq<string>, name: string)
    ensures FirstHit(ld, cands, name).None? <==> forall k :: 0 <= k < |cands| ==> Probe(ld, cands[k], name).None?
  {
    if cands != [] {
      FirstHitNone(ld, cands[1..], name);
      assert forall k :: 1 <= k < |cands| ==> cands[k] == cands[1..][k - 1];
    }
  }

  /** Over candidates that are all valid C strings, the sonames opened are a
      prefix of the candidates, in order. */
  lemma {:induction false} OpenedIsPrefix(ld: Loader, cands: seq<string>, name: string)
    requires forall i :: 0 <= i < |cands| ==> IsCString(cands[i])
    ensures |Opened(ld, cands, name)| <= |cands|
    ensures Opened(ld, cands, name) == cands[..|Opened(ld, cands, name)|]
  {
    if cands != [] {
      var tail := cands[1..];
      assert forall i :: 0 <= i < |tail| ==> tail[i] == cands[i + 1];
      OpenedIsPrefix(ld, tail, name);
      var rest := Opened(ld, tail, name);
      if Probe(ld, cands[0], name).None? {
        assert Opened(ld, cands, name) == [cands[0]] + rest;
        assert cands[..|rest| + 1] == [cands[0]] + tail[..|rest|];
      } else {
        assert Opened(ld, cands, name) == [cands[0]];
      }
    }
  }

  /** Over valid C strings, a search that finds nothing opens every candidate. */
  lemma {:induction false} OpenedAllOnMiss(ld: Loader, cands: seq<string>, name: string)
    requires forall i :: 0 <= i < |cands| ==> IsCString(cands[i])
    requires FirstHit(ld, cands, name).None?
    ensures Opened(ld, cands, name) == cands
  {
    if cands != [] {
      var tail := cands[1..];
      assert forall i :: 0 <= i < |tail| ==> tail[i] == cands[i + 1];
      OpenedAllOnMiss(ld, tail, name);
      assert Opened(ld, cands, name) == [cands[0]] + tail;
    }
  }

  /** Over valid C strings, a search that finds the symbol opens it last:
      every soname opened before it yields nothing. */
  lemma {:induction false} OpenedEndsAtHit(ld: Loader, cands: seq<string>, name: string)
    requires forall i :: 0 <= i < |cands| ==> IsCString(cands[i])
    requires FirstHit(ld, cands, name).Some?
    ensures var o := Opened(ld, cands, name);
      && |o| > 0 && Probe(ld, o[|o| - 1], name) == FirstHit(ld, cands, name)
      && forall j :: 0 <= j < |o| - 1 ==> Probe(ld, o[j], name).None?
  {
    var tail := cands[1..];
    if Probe(ld, cands[0], name).None? {
      assert forall i :: 0 <= i < |tail| ==> tail[i] == cands[i + 1];
      OpenedEndsAtHit(ld, tail, name);
      var rest := Opened(ld, tail, name);
      var o := Opened(ld, cands, name);
      assert o == [cands[0]] + rest;
      assert forall j :: 1 <= j < |o| ==> o[j] == rest[j - 1];
    } else {
      assert Opened(ld, cands, name) == [cands[0]];
    }
  }

  /** Over candidates that are all valid C strings, the search opens a prefix
      of them in order, stops at the first hit, and opens all of them when
      none hits: later candidates are never consulted after a hit. */
  lemma OpenedStopsAtHit(ld: Loader, cands: seq<string>, name: string)
    requires forall i :: 0 <= i < |cands| ==> IsCString(cands[i])
    ensures var o := Opened(ld, cands, name);
      && |o| <= |cands| && o == cands[..|o|]
      && (FirstHit(ld, cands, name).None? ==> o == cands)
      && (FirstHit(ld, cands, name).Some? ==>
            |o| > 0 && Probe(ld, o[|o| - 1], name) == FirstHit(ld, cands, name) &&
            forall j :: 0 <= j < |o| - 1 ==> Probe(ld, o[j], name).None?)
  {
    OpenedIsPrefix(ld, cands, name);
    if FirstHit(ld, cands, name).None? {
      OpenedAllOnMiss(ld, cands, name);
    } else {
      OpenedEndsAtHit(ld, cands, name);
    }
  }

  /** None of the fixed sonames contains a NUL, so each one is offered to the
      loader. */
  lemma CandidatesAreCStrings()
    ensures forall i :: 0 <= i < |CANDIDATES| ==> IsCString(CANDIDATES[i])
  {
  }

  /** Opens each soname of `cands` in turn and returns the symbol from the
      first library that both opens and exposes it; `dlopened` is the list of
      sonames handed to the loader, in order. The locator runs it on
      CANDIDATES. */
  method DlsymViaSoname(ld: Loader, cands: seq<string>, name: string) returns (p: Option<Addr>, dlopened: seq<string>)
    ensures p == FirstHit(ld, cands, name)
    ensures dlopened == Opened(ld, cands, name)
  {
    dlopened := [];
    var i := 0;
    while i < |cands|
      invariant 0 <= i <= |cands|
      invariant FirstHit(ld, cands, name) == FirstHit(ld, cands[i..], name)
      invariant Opened(ld, cands, name) == dlopened + Opened(ld, cands[i..], name)
    {
      var soname := cands[i];
      assert cands[i..][1..] == cands[i + 1..];
      if IsCString(soname) {
        dlopened := dlopened + [soname];
        var handle := ld.open(soname);
        if handle.Some? {
          var sym := ld.sym(handle.value, name);
          if sym.Some? {
            return sym, dlopened;
          }
        }
      }
      i := i + 1;
    }
    return None, dlopened;
  }

  /** The reference answer of the locator for a name. */
  function Resolve(ld: Loader, name: string): Option<Addr>
  {
    if ld.next(name).Some? then ld.next(name) else FirstHit(ld, CANDIDATES, name)
  }

  /** The "next definition" lookup, and only when it fails the soname search.
      `dlopened` is the list of sonames handed to the loader's open. */
  method ResolveSymbol(ld: Loader, name: string) returns (p: Option<Addr>, dlopened: seq<string>)
    ensures p == Resolve(ld, name)
    ensures ld.next(name).Some? ==> dlopened == []
    ensures ld.next(name).None? ==> dlopened == Opened(ld, CANDIDATES, name)
  {
    p := ld.next(name);
    dlopened := [];
    if p.None? {
      p, dlopened := DlsymViaSoname(ld, CANDIDATES, name);
    }
  }
}

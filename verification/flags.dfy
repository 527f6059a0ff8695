/** The boolean-flag reading shared by SCROLL_DISABLE and SCROLL_DEBUG. */
module Flags {
  import opened Wrappers

  /** ASCII lower-casing of one character; every other character is kept. */
  function AsciiLower(c: char): (r: char)
    ensures 'A' <= c <= 'Z' ==> r as int == c as int + 32
    ensures !('A' <= c <= 'Z') ==> r == c
  {
    if 'A' <= c <= 'Z' then (c as int + 32) as char else c
  }

  /** Equality up to ASCII case: same length and equal after lower-casing
      each position. */
  predicate EqIgnoreAsciiCase(a: string, b: string) {
    |a| == |b| && forall i :: 0 <= i < |a| ==> AsciiLower(a[i]) == AsciiLower(b[i])
  }

  /** A flag is set when its variable is present and reads "1" or "true" in
      any ASCII case.  `None` stands for a variable that is absent (or whose
      value is not valid Unicode, which the environment lookup also rejects). */
  predicate IsSet(v: Option<string>) {
    v.Some? && (v.value == "1" || EqIgnoreAsciiCase(v.value, "true"))
  }

  /** The same predicate spelled out character by character: "1", or exactly
      four characters, each one of the two cases of t, r, u, e. */
  predicate IsSetSpelled(v: Option<string>) {
    v.Some? &&
    (v.value == "1" ||
     (|v.value| == 4 && v.value[0] in {'t', 'T'} && v.value[1] in {'r', 'R'} &&
      v.value[2] in {'u', 'U'} && v.value[3] in {'e', 'E'}))
  }

  /** Only a lower-case letter or its upper-case partner lowers to it. */
  lemma LowerIsLetter(c: char, l: char)
    requires 'a' <= l <= 'z'
    ensures AsciiLower(c) == l <==> c == l || c as int == l as int - 32
  {
  }

  lemma IsSetIffSpelled(v: Option<string>)
    ensures IsSet(v) <==> IsSetSpelled(v)
  {
    if v.Some? && |v.value| == 4 {
      var s := v.value;
      LowerIsLetter(s[0], 't');
      LowerIsLetter(s[1], 'r');
      LowerIsLetter(s[2], 'u');
      LowerIsLetter(s[3], 'e');
      if IsSetSpelled(v) && s != "1" {
        forall i | 0 <= i < 4 ensures AsciiLower(s[i]) == AsciiLower("true"[i]) {
        }
      }
    }
  }

  /** A missing variable never sets a flag. */
  lemma MissingIsUnset()
    ensures !IsSet(None)
  {
  }
}

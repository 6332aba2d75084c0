/** String helpers with JavaScript semantics: `trim`, `includes` and per-character lowercasing. */
module Text {

  /** The characters of the JavaScript `\s` class (white space and line terminators). Both
      `String.prototype.trim` and the validator's `trim()` sanitizer strip exactly these. */
  predicate IsSpace(c: char) {
    var n := c as int;
    (9 <= n <= 13) || n == 0x20 || n == 0xA0 || n == 0x1680 || (0x2000 <= n <= 0x200A)
    || n == 0x2028 || n == 0x2029 || n == 0x202F || n == 0x205F || n == 0x3000 || n == 0xFEFF
  }

  predicate AllSpace(s: string) {
    forall i :: 0 <= i < |s| ==> IsSpace(s[i])
  }

  /** A string with no white space at either end. */
  predicate IsTrimmed(s: string) {
    s == [] || (!IsSpace(s[0]) && !IsSpace(s[|s| - 1]))
  }

  function TrimStart(s: string): (r: string)
    ensures |r| <= |s| && r == s[|s| - |r|..]
    ensures r == [] || !IsSpace(r[0])
    ensures forall i :: 0 <= i < |s| - |r| ==> IsSpace(s[i])
  {
    if s != [] && IsSpace(s[0]) then TrimStart(s[1..]) else s
  }

  function TrimEnd(s: string): (r: string)
    ensures |r| <= |s| && r == s[..|r|]
    ensures r == [] || !IsSpace(r[|r| - 1])
    ensures forall i :: |r| <= i < |s| ==> IsSpace(s[i])
  {
    if s != [] && IsSpace(s[|s| - 1]) then TrimEnd(s[..|s| - 1]) else s
  }

  /** `r` is the slice of `s` starting at `i`, with only white space before and after it. */
  predicate StrippedAt(s: string, r: string, i: int) {
    0 <= i <= |s| - |r| && r == s[i..i + |r|] && AllSpace(s[..i]) && AllSpace(s[i + |r|..])
  }

  /** Removing a white-space prefix from `s` to get `t`, then a white-space suffix from `t` to
      get `r`, leaves `r` as a slice of `s` between white space. */
  lemma StripBothEnds(s: string, t: string, r: string)
    requires |t| <= |s| && t == s[|s| - |t|..]
    requires forall i :: 0 <= i < |s| - |t| ==> IsSpace(s[i])
    requires |r| <= |t| && r == t[..|r|]
    requires forall i :: |r| <= i < |t| ==> IsSpace(t[i])
    ensures exists i :: 0 <= i <= |s| - |r| && StrippedAt(s, r, i)
  {
    var i := |s| - |t|;
    assert r == s[i..i + |r|];
    assert AllSpace(s[..i]);
    var suffix := s[i + |r|..];
    forall j | 0 <= j < |suffix| ensures IsSpace(suffix[j]) {
      assert suffix[j] == t[|r| + j];
    }
    assert StrippedAt(s, r, i);
  }

  /** `s.trim()`: the result has no white space at either end, is empty exactly when `s` is all
      white space, keeps only characters of `s`, and leaves an already trimmed string alone. */
  function Trim(s: string): (r: string)
    ensures IsTrimmed(r)
    ensures |r| <= |s|
    ensures r == [] <==> AllSpace(s)
    ensures forall c :: c in r ==> c in s
    ensures IsTrimmed(s) ==> r == s
  {
    var t := TrimStart(s);
    var r := TrimEnd(t);
    assert r != [] ==> !IsSpace(r[0]) by {
      if r != [] { assert r[0] == t[0]; }
    }
    assert forall c :: c in r ==> c in t;
    r
  }

  /** What `trim` removes is white space only, and from the two ends only: the result is a
      slice of the input with nothing but white space before and after it. */
  lemma TrimStrips(s: string)
    ensures exists i :: 0 <= i <= |s| - |Trim(s)| && StrippedAt(s, Trim(s), i)
  {
    var t := TrimStart(s);
    assert Trim(s) == TrimEnd(t);
    StripBothEnds(s, t, TrimEnd(t));
  }

  /** Trimming twice is the same as trimming once. */
  lemma TrimIdempotent(s: string)
    ensures Trim(Trim(s)) == Trim(s)
  {
  }

  /** `t` occurs in `s` starting at index `i`. */
  predicate OccursAt(s: string, t: string, i: int)
    requires 0 <= i <= |s| - |t|
  {
    s[i..i + |t|] == t
  }

  /** `s.includes(t)`: `t` is a contiguous substring of `s`. */
  predicate Includes(s: string, t: string) {
    exists i :: 0 <= i <= |s| - |t| && OccursAt(s, t, i)
  }

  /** Every string includes the empty string. */
  lemma IncludesEmpty(s: string)
    ensures Includes(s, [])
  {
    assert OccursAt(s, [], 0);
  }

  /** `s.toLowerCase()`, with the case mapping taken character by character from `lower`. */
  function Lowercase(s: string, lower: char -> char): (r: string)
    ensures |r| == |s|
  {
    seq(|s|, i requires 0 <= i < |s| => lower(s[i]))
  }

  /** The variation selectors U+FE0E and U+FE0F, which the validator library's `isLength`
      leaves out of a string's length. */
  predicate IsPresentationSelector(c: char) {
    c as int == 0xFE0E || c as int == 0xFE0F
  }

  /** The length `isLength` compares with its bounds: the characters of `s` other than the two
      variation selectors. A `string` here is a sequence of code points, so a surrogate pair,
      which `isLength` also counts once, is one element already. */
  function ValidatorLength(s: string): (n: nat)
    ensures n <= |s|
    ensures n == |s| <==> forall i :: 0 <= i < |s| ==> !IsPresentationSelector(s[i])
    ensures n == 0 <==> forall i :: 0 <= i < |s| ==> IsPresentationSelector(s[i])
    decreases |s|
  {
    if s == [] then 0
    else
      var rest := ValidatorLength(s[1..]);
      assert forall i :: 1 <= i < |s| ==> s[i] == s[1..][i - 1];
      if IsPresentationSelector(s[0]) then rest else rest + 1
  }
}

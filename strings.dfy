/** Whitespace handling of text fields: Python's `str.isspace()` and the
    `str.strip()` that DRF's `CharField(trim_whitespace=True)` applies before
    its `allow_blank=False` check. */
module Strings {

  /** Python's `str.isspace()` on one character: the ASCII controls \t \n \v
      \f \r and \x1c-\x1f, the space, and the Unicode separators. */
  predicate IsSpace(c: char)
  {
    || c == ' ' || ('\t' <= c <= '\r') || ('\U{1C}' <= c <= '\U{1F}')
    || c == '\U{85}' || c == '\U{A0}' || c == '\U{1680}'
    || ('\U{2000}' <= c <= '\U{200A}') || c == '\U{2028}' || c == '\U{2029}'
    || c == '\U{202F}' || c == '\U{205F}' || c == '\U{3000}'
  }

  /** Some character is not whitespace. */
  predicate NotBlank(s: string)
  {
    exists k | 0 <= k < |s| :: !IsSpace(s[k])
  }

  /** What `strip()` leaves of a text that is not blank: non-empty, with no
      whitespace at either end. */
  predicate Stripped(s: string)
  {
    s != [] && !IsSpace(s[0]) && !IsSpace(s[|s| - 1])
  }

  /** The number of leading whitespace characters: what `s.lstrip()` drops. */
  function Lead(s: string): (n: nat)
    ensures n <= |s|
    ensures forall k | 0 <= k < n :: IsSpace(s[k])
    ensures n < |s| ==> !IsSpace(s[n])
  {
    if s == [] || !IsSpace(s[0]) then 0 else 1 + Lead(s[1..])
  }

  /** The number of trailing whitespace characters: what `s.rstrip()` drops. */
  function Trail(s: string): (n: nat)
    ensures n <= |s|
    ensures forall k | |s| - n <= k < |s| :: IsSpace(s[k])
    ensures n < |s| ==> !IsSpace(s[|s| - 1 - n])
  {
    if s == [] || !IsSpace(s[|s| - 1]) then 0 else 1 + Trail(s[..|s| - 1])
  }

  /** `s.strip()`: the slice of `s` between its leading and its trailing
      whitespace, which begins and ends with a non-whitespace character. */
  function Trim(s: string): (r: string)
    ensures r == [] || (!IsSpace(r[0]) && !IsSpace(r[|r| - 1]))
    ensures Lead(s) + |r| <= |s| && r == s[Lead(s)..Lead(s) + |r|]
    ensures forall k | 0 <= k < Lead(s) :: IsSpace(s[k])
    ensures forall k | Lead(s) + |r| <= k < |s| :: IsSpace(s[k])
  {
    if Lead(s) == |s| then [] else s[Lead(s)..|s| - Trail(s)]
  }

  /** Trimming leaves nothing exactly when the text is all whitespace, and
      what it leaves is itself not blank. */
  lemma TrimBlankIff(s: string)
    ensures Trim(s) == [] <==> !NotBlank(s)
    ensures Trim(s) != [] ==> NotBlank(Trim(s)) && Stripped(Trim(s))
  {
    var r := Trim(s);
    var i := Lead(s);
    if r == [] {
      assert i == |s|;
    } else {
      assert !IsSpace(s[i]) && s[i] == r[0];
    }
  }

  /** Trimming twice is trimming once. */
  lemma TrimIdempotent(s: string)
    ensures Trim(Trim(s)) == Trim(s)
  {
    var r := Trim(s);
    if r != [] {
      assert Lead(r) == 0;
      assert Trail(r) == 0;
    }
  }
}

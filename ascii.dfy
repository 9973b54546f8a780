/**
  The case handling Go's strings package does for ASCII text: ToLower and EqualFold restricted
  to the letters A to Z (the simple Unicode case folding of other letters is not modelled).
*/
module Ascii {
  predicate IsUpper(c: char)
  {
    'A' <= c <= 'Z'
  }

  function LowerChar(c: char): (l: char)
    ensures !IsUpper(l)
    ensures IsUpper(c) ==> l as int == c as int + 32
    ensures !IsUpper(c) ==> l == c
  {
    if IsUpper(c) then (c as int + 32) as char else c
  }

  /** strings.ToLower. */
  function Lower(s: string): (l: string)
    ensures |l| == |s|
    ensures forall i :: 0 <= i < |s| ==> l[i] == LowerChar(s[i])
  {
    if s == [] then [] else [LowerChar(s[0])] + Lower(s[1..])
  }

  /** strings.EqualFold. */
  predicate EqualFold(a: string, b: string)
  {
    Lower(a) == Lower(b)
  }

  lemma LowerIdempotent(s: string)
    ensures Lower(Lower(s)) == Lower(s)
  {
    assert forall i :: 0 <= i < |s| ==> Lower(Lower(s))[i] == Lower(s)[i];
  }

  lemma LowerHasNoUpper(s: string)
    ensures forall c :: c in Lower(s) ==> !IsUpper(c)
  {
    forall c | c in Lower(s) ensures !IsUpper(c) {
      var i :| 0 <= i < |Lower(s)| && Lower(s)[i] == c;
    }
  }

  /** EqualFold relates a string to its lower-case form (and so to itself). */
  lemma EqualFoldLower(s: string)
    ensures EqualFold(s, Lower(s)) && EqualFold(Lower(s), s)
  {
    LowerIdempotent(s);
  }
}

/** `String.prototype.trim` as ECMAScript defines it: strip leading and trailing white space. */
module Text {

  /** The WhiteSpace and LineTerminator code points of ECMAScript (Zs included). */
  predicate IsWhitespace(c: char) {
    var n := c as int;
    n == 0x09 || n == 0x0A || n == 0x0B || n == 0x0C || n == 0x0D || n == 0x20
    || n == 0xA0 || n == 0x1680 || (0x2000 <= n <= 0x200A) || n == 0x2028 || n == 0x2029
    || n == 0x202F || n == 0x205F || n == 0x3000 || n == 0xFEFF
  }

  /** Every character of `s` from `lo` up to (not including) `hi` is white space. */
  predicate Blank(s: string, lo: int, hi: int) {
    forall k :: lo <= k < hi && 0 <= k < |s| ==> IsWhitespace(s[k])
  }

  /** Where the text starts when scanning forward from `from`: the first non-blank position,
      or the end of the string. */
  function TextStart(s: string, from: nat): (i: nat)
    requires from <= |s|
    ensures from <= i <= |s| && Blank(s, from, i)
    ensures i < |s| ==> !IsWhitespace(s[i])
    decreases |s| - from
  {
    if from < |s| && IsWhitespace(s[from]) then TextStart(s, from + 1) else from
  }

  /** Where the text ends when scanning backward from `hi`, not going below `lo`: one past the
      last non-blank position. */
  function TextEnd(s: string, lo: nat, hi: nat): (j: nat)
    requires lo <= hi <= |s|
    ensures lo <= j <= hi && Blank(s, j, hi)
    ensures j > lo ==> !IsWhitespace(s[j - 1])
    decreases hi
  {
    if lo < hi && IsWhitespace(s[hi - 1]) then TextEnd(s, lo, hi - 1) else hi
  }

  /** The middle of `s` between its leading and trailing white space: no white space is left at
      either end, and only white space was cut, on both sides. */
  function Trim(s: string): (r: string)
    ensures r != [] ==> !IsWhitespace(r[0]) && !IsWhitespace(r[|r| - 1])
    ensures var i := TextStart(s, 0);
      i + |r| <= |s| && r == s[i..i + |r|] && Blank(s, 0, i) && Blank(s, i + |r|, |s|)
  {
    var i := TextStart(s, 0);
    s[i..TextEnd(s, i, |s|)]
  }

  /** A blank string trims to the empty string, and only a blank one does. */
  lemma TrimEmptyIffBlank(s: string)
    ensures Trim(s) == [] <==> Blank(s, 0, |s|)
  {
    var i := TextStart(s, 0);
    if Trim(s) != [] {
      assert s[i] == Trim(s)[0];
    }
  }

  /** A string without surrounding white space is left as it is. */
  lemma TrimKeepsTrimmed(s: string)
    requires s != [] ==> !IsWhitespace(s[0]) && !IsWhitespace(s[|s| - 1])
    ensures Trim(s) == s
  {
    if s != [] {
      assert TextStart(s, 0) == 0;
      assert TextEnd(s, 0, |s|) == |s|;
    }
  }

  /** Trimming twice is trimming once. */
  lemma TrimIdempotent(s: string)
    ensures Trim(Trim(s)) == Trim(s)
  {
    TrimKeepsTrimmed(Trim(s));
  }
}

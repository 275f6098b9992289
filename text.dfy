/**
 * The JavaScript string operations the core relies on: `String.prototype.trim`,
 * `toLowerCase` (ASCII letters only), `indexOf`, and `replace` with a string
 * pattern, which replaces the first occurrence only and expands the `$`
 * patterns of the ECMAScript GetSubstitution operation in the replacement.
 */
module Text {
  import opened Wrappers

  // ---------------------------------------------------------------- trim

  /** The ECMAScript WhiteSpace and LineTerminator code points, which `trim` strips. */
  predicate IsJsWhitespace(c: char) {
    c == '\t' || c == '\n' || c == '\U{B}' || c == '\U{C}' || c == '\r' || c == ' '
    || c == '\U{A0}' || c == '\U{1680}' || ('\U{2000}' <= c <= '\U{200A}')
    || c == '\U{2028}' || c == '\U{2029}' || c == '\U{202F}' || c == '\U{205F}'
    || c == '\U{3000}' || c == '\U{FEFF}'
  }

  predicate AllWhitespace(s: string) {
    forall k :: 0 <= k < |s| ==> IsJsWhitespace(s[k])
  }

  /** `s` without its leading whitespace: a suffix of `s` whose cut-off part is all whitespace. */
  function TrimStart(s: string): (r: string)
    ensures |r| <= |s| && r == s[|s| - |r|..]
    ensures AllWhitespace(s[..|s| - |r|])
    ensures r == [] || !IsJsWhitespace(r[0])
    decreases |s|
  {
    if s != [] && IsJsWhitespace(s[0]) then TrimStart(s[1..]) else s
  }

  /** `s` without its trailing whitespace: a prefix of `s` whose cut-off part is all whitespace. */
  function TrimEnd(s: string): (r: string)
    ensures |r| <= |s| && r == s[..|r|]
    ensures AllWhitespace(s[|r|..])
    ensures r == [] || !IsJsWhitespace(r[|r| - 1])
    decreases |s|
  {
    if s != [] && IsJsWhitespace(s[|s| - 1]) then
      var p := s[..|s| - 1];
      var r := TrimEnd(p);
      assert p[..|r|] == s[..|r|];
      assert AllWhitespace(s[|r|..]) by {
        forall k | 0 <= k < |s| - |r| ensures IsJsWhitespace(s[|r|..][k]) {
          if |r| + k < |p| { assert s[|r|..][k] == p[|r|..][k]; }
        }
      }
      r
    else s
  }

  /** `String.prototype.trim`: never longer than its input, and without whitespace at either end. */
  function Trim(s: string): (r: string)
    ensures |r| <= |s|
    ensures r == [] || (!IsJsWhitespace(r[0]) && !IsJsWhitespace(r[|r| - 1]))
  {
    var t := TrimStart(s);
    var r := TrimEnd(t);
    assert r == [] || r[0] == t[0];
    r
  }

  /**
   * The trimmed string is the slice `s[a..a+|Trim(s)|]` with `a` the number of
   * leading whitespace characters.
   */
  lemma TrimSlice(s: string)
    ensures |s| - |TrimStart(s)| + |Trim(s)| <= |s|
    ensures Trim(s) == s[|s| - |TrimStart(s)|..|s| - |TrimStart(s)| + |Trim(s)|]
  {
    var t := TrimStart(s);
    var r := TrimEnd(t);
    var a := |s| - |t|;
    assert Trim(s) == r;
    assert r == t[..|r|] && t == s[a..];
    assert s[a..][..|r|] == s[a..a + |r|];
  }

  /** Everything around the trimmed slice is whitespace. */
  lemma TrimOutside(s: string)
    ensures |s| - |TrimStart(s)| + |Trim(s)| <= |s|
    ensures AllWhitespace(s[..|s| - |TrimStart(s)|])
    ensures AllWhitespace(s[|s| - |TrimStart(s)| + |Trim(s)|..])
  {
    var t := TrimStart(s);
    var r := TrimEnd(t);
    var a := |s| - |t|;
    var tail := s[a + |r|..];
    forall k | 0 <= k < |tail| ensures IsJsWhitespace(tail[k]) {
      assert tail[k] == t[|r|..][k];
    }
  }

  /** Trimming yields the empty string exactly when the input is all whitespace. */
  lemma TrimEmptyIff(s: string)
    ensures Trim(s) == [] <==> AllWhitespace(s)
  {
    TrimSlice(s);
    TrimOutside(s);
    var a := |s| - |TrimStart(s)|;
    var r := Trim(s);
    if r == [] {
      var t := TrimStart(s);
      assert t == [] by {
        assert t[|r|..] == t;
      }
      forall k | 0 <= k < |s| ensures IsJsWhitespace(s[k]) {
        assert s[k] == s[..a][k];
      }
    } else {
      assert r[0] == s[a..a + |r|][0] == s[a];
    }
  }

  /** Trimming twice is trimming once. */
  lemma TrimIdempotent(s: string)
    ensures Trim(Trim(s)) == Trim(s)
  {
    var r := Trim(s);
    if r != [] {
      assert TrimStart(r) == r;
      assert TrimEnd(r) == r;
    }
  }

  // ----------------------------------------------------------- lower case

  /** `toLowerCase` on one character, for the ASCII letters. */
  function LowerChar(c: char): char {
    if 'A' <= c <= 'Z' then (c as int + 32) as char else c
  }

  /** `toLowerCase`, character by character; non-ASCII characters are kept. */
  function Lower(s: string): (r: string)
    ensures |r| == |s|
    ensures forall k :: 0 <= k < |s| ==> r[k] == LowerChar(s[k])
  {
    if s == [] then [] else [LowerChar(s[0])] + Lower(s[1..])
  }

  /** Lower-casing is idempotent, so a lower-cased name compares equal to itself lower-cased again. */
  lemma LowerIdempotent(s: string)
    ensures Lower(Lower(s)) == Lower(s)
  {
    var l := Lower(s);
    assert forall k :: 0 <= k < |l| ==> Lower(l)[k] == LowerChar(LowerChar(s[k])) == l[k];
  }

  // ---------------------------------------------------------- indexOf

  /** `pat` occurs in `s` starting at index `i`. */
  predicate OccursAt(s: string, pat: string, i: nat) {
    i + |pat| <= |s| && s[i..i + |pat|] == pat
  }

  /** `s.indexOf(pat, from)`: the first index at or after `from` where `pat` occurs. */
  function IndexOfFrom(s: string, pat: string, from: nat): (r: Option<nat>)
    requires from <= |s|
    ensures r.Some? ==> from <= r.value && OccursAt(s, pat, r.value)
    ensures r.Some? ==> forall j :: from <= j < r.value ==> !OccursAt(s, pat, j)
    ensures r.None? ==> forall j :: from <= j <= |s| ==> !OccursAt(s, pat, j)
    decreases |s| - from
  {
    if OccursAt(s, pat, from) then Some(from)
    else if from == |s| then None
    else IndexOfFrom(s, pat, from + 1)
  }

  /** `s.indexOf(pat)`, with `None` for JavaScript's -1. */
  function IndexOf(s: string, pat: string): Option<nat> {
    IndexOfFrom(s, pat, 0)
  }

  // ---------------------------------------------------------- replace

  /**
   * GetSubstitution for a string pattern (no capture groups): `$$` becomes `$`,
   * `$&` the matched text, `` $` `` the text before the match and `$'` the text
   * after it; every other `$` (including `$1`, `$<`) is kept literally.
   */
  function Substitution(matched: string, str: string, position: nat, template: string): (r: string)
    requires position + |matched| <= |str|
    ensures '$' !in template ==> r == template
    decreases |template|
  {
    if template == [] then []
    else if template[0] == '$' && |template| >= 2 && template[1] == '$' then
      "$" + Substitution(matched, str, position, template[2..])
    else if template[0] == '$' && |template| >= 2 && template[1] == '&' then
      matched + Substitution(matched, str, position, template[2..])
    else if template[0] == '$' && |template| >= 2 && template[1] == '`' then
      str[..position] + Substitution(matched, str, position, template[2..])
    else if template[0] == '$' && |template| >= 2 && template[1] == '\'' then
      str[position + |matched|..] + Substitution(matched, str, position, template[2..])
    else
      [template[0]] + Substitution(matched, str, position, template[1..])
  }

  /**
   * `s.replace(pat, rep)` for a string `pat`: only the first occurrence is
   * replaced, so the text before it and the text after it are kept as they are.
   */
  function ReplaceFirst(s: string, pat: string, rep: string): (r: string)
    ensures IndexOf(s, pat).None? ==> r == s
    ensures IndexOf(s, pat).Some? ==>
      var i := IndexOf(s, pat).value;
      i + |pat| <= |s| && i <= |r| && |s| - i - |pat| <= |r|
      && r[..i] == s[..i] && r[|r| - (|s| - i - |pat|)..] == s[i + |pat|..]
  {
    match IndexOf(s, pat)
    case None => s
    case Some(i) => s[..i] + Substitution(pat, s, i, rep) + s[i + |pat|..]
  }

  /** Without an occurrence of `pat`, `replace` returns the string unchanged. */
  lemma ReplaceFirstAbsent(s: string, pat: string, rep: string)
    requires forall j :: 0 <= j <= |s| ==> !OccursAt(s, pat, j)
    ensures ReplaceFirst(s, pat, rep) == s
  {
  }

  /**
   * If `s` is `p + pat + q` and `pat` does not start anywhere before `|p|`, then a
   * replacement without `$` replaces exactly that occurrence: the result is `p + rep + q`.
   */
  lemma ReplaceFirstAt(p: string, pat: string, q: string, rep: string)
    requires forall j :: 0 <= j < |p| ==> !OccursAt(p + pat + q, pat, j)
    requires '$' !in rep
    ensures ReplaceFirst(p + pat + q, pat, rep) == p + rep + q
  {
    var s := p + pat + q;
    assert OccursAt(s, pat, |p|) by { assert s[|p|..|p| + |pat|] == pat; }
    var i := IndexOf(s, pat);
    assert i == Some(|p|);
    assert s[..|p|] == p;
    assert s[|p| + |pat|..] == q;
  }

  /**
   * The `$&` pattern in a replacement stands for the matched text, so replacing a
   * placeholder with the literal name `$&` leaves the placeholder in place.
   */
  lemma DollarAmpersandKeepsPlaceholder()
    ensures ReplaceFirst("Pasta with {0}", "{0}", "$&") == "Pasta with {0}"
  {
    var s := "Pasta with {0}";
    assert OccursAt(s, "{0}", 11);
    assert forall j :: 0 <= j < 11 ==> !OccursAt(s, "{0}", j) by {
      forall j | 0 <= j < 11 ensures !OccursAt(s, "{0}", j) {
        assert s[j] != '{';
        assert j + 3 <= |s| ==> s[j..j + 3][0] == s[j];
      }
    }
    assert IndexOf(s, "{0}") == Some(11);
    assert s[..11] + "{0}" + s[14..] == s;
  }
}

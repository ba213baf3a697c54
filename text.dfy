/**
 * String helpers standing in for the JavaScript built-ins the core calls:
 * `trim`, `startsWith`, `includes`, `indexOf`, `replace` with a string pattern
 * and `toLowerCase`.  Whitespace and case are ASCII-only (see README).
 */
module Text {
  import opened Wrappers

  /** The white space `String.prototype.trim` removes, restricted to ASCII. */
  predicate IsSpace(c: char) {
    c == ' ' || c == '\t' || c == '\n' || c == '\r' || c == '\U{0B}' || c == '\U{0C}'
  }

  predicate AllSpace(s: string) {
    forall i :: 0 <= i < |s| ==> IsSpace(s[i])
  }

  /** A character of the regular-expression class `\w` (no `u` flag). */
  predicate IsWordChar(c: char) {
    ('a' <= c <= 'z') || ('A' <= c <= 'Z') || ('0' <= c <= '9') || c == '_'
  }

  /** The length of the run of `\w` characters starting at `i`. */
  function WordRun(s: string, i: nat): (n: nat)
    requires i <= |s|
    ensures i + n <= |s|
    ensures forall k :: i <= k < i + n ==> IsWordChar(s[k])
    ensures i + n == |s| || !IsWordChar(s[i + n])
    decreases |s| - i
  {
    if i < |s| && IsWordChar(s[i]) then 1 + WordRun(s, i + 1) else 0
  }

  /** A character of `[a-z]` under the `i` flag. */
  predicate IsLetter(c: char) {
    ('a' <= c <= 'z') || ('A' <= c <= 'Z')
  }

  /** `s.trimStart()`: the suffix left after dropping the leading white space. */
  function TrimStart(s: string): (r: string)
    ensures |r| <= |s| && r == s[|s| - |r|..]
    ensures r == [] || !IsSpace(r[0])
    ensures AllSpace(s[..|s| - |r|])
  {
    if s != [] && IsSpace(s[0]) then
      var t := s[1..];
      var r := TrimStart(t);
      assert t[|t| - |r|..] == s[|s| - |r|..];
      assert AllSpace(s[..|s| - |r|]) by {
        forall i | 1 <= i < |s| - |r| ensures IsSpace(s[i]) {
          assert s[i] == t[..|t| - |r|][i - 1];
        }
      }
      r
    else s
  }

  /** `s.trimEnd()`: the prefix left after dropping the trailing white space. */
  function TrimEnd(s: string): (r: string)
    ensures |r| <= |s| && r == s[..|r|]
    ensures r == [] || !IsSpace(r[|r| - 1])
    ensures AllSpace(s[|r|..])
  {
    if s != [] && IsSpace(s[|s| - 1]) then TrimEnd(s[..|s| - 1]) else s
  }

  /** `s.trim()`: no white space is left at either end, and only an all-space string
      trims to the empty string; `TrimIsInfix` shows the result is the text between the
      leading and the trailing white space. */
  function Trim(s: string): (r: string)
    ensures |r| <= |s|
    ensures r == [] || (!IsSpace(r[0]) && !IsSpace(r[|r| - 1]))
    ensures r == [] <==> AllSpace(s)
  {
    TrimFacts(s);
    TrimEnd(TrimStart(s))
  }

  lemma TrimFacts(s: string)
    ensures |TrimEnd(TrimStart(s))| <= |s|
    ensures TrimEnd(TrimStart(s)) == [] ||
      (!IsSpace(TrimEnd(TrimStart(s))[0]) && !IsSpace(TrimEnd(TrimStart(s))[|TrimEnd(TrimStart(s))| - 1]))
    ensures TrimEnd(TrimStart(s)) == [] <==> AllSpace(s)
  {
    var t := TrimStart(s);
    var r := TrimEnd(t);
    TrimToEmpty(s);
    if r != [] {
      assert r[0] == t[0];
    }
  }

  /** `r` is the run of `s` starting at `k`, with only white space before and after it. */
  predicate SpaceAround(s: string, r: string, k: int) {
    0 <= k && k + |r| <= |s| && r == s[k..k + |r|] && AllSpace(s[..k]) && AllSpace(s[k + |r|..])
  }

  /** What `s.trim()` keeps is a run of `s` with only white space around it. */
  lemma TrimIsInfix(s: string)
    ensures exists k :: SpaceAround(s, Trim(s), k)
  {
    var t := TrimStart(s);
    var r := TrimEnd(t);
    assert r == Trim(s);
    var k := |s| - |t|;
    SliceOfSuffix(s, k, |r|);
    assert AllSpace(s[..k]);
    assert AllSpace(s[k + |r|..]) by {
      assert t[|r|..] == s[k + |r|..];
    }
    assert SpaceAround(s, r, k);
  }

  lemma SliceOfSuffix(s: string, k: nat, n: nat)
    requires k + n <= |s|
    ensures s[k..][..n] == s[k..k + n]
  {
  }

  lemma TrimToEmpty(s: string)
    ensures TrimEnd(TrimStart(s)) == [] <==> AllSpace(s)
  {
    var t := TrimStart(s);
    var n := |s| - |t|;
    if TrimEnd(t) == [] {
      assert AllSpace(t[0..]) && t[0..] == t;
      assert t == [];
      assert s[..n] == s;
    }
  }

  /** A string with no white space at either end trims to itself. */
  lemma TrimOfTrimmed(t: string)
    requires t == [] || (!IsSpace(t[0]) && !IsSpace(t[|t| - 1]))
    ensures Trim(t) == t
  {
    assert TrimStart(t) == t;
    assert TrimEnd(t) == t;
  }

  /** Dropping leading white space first does not change `TrimStart`. */
  lemma {:induction false} TrimStartAfterSpaces(w: string, x: string)
    requires AllSpace(w)
    ensures TrimStart(w + x) == TrimStart(x)
  {
    if w != [] {
      assert (w + x)[1..] == w[1..] + x;
      TrimStartAfterSpaces(w[1..], x);
    } else {
      assert w + x == x;
    }
  }

  /** `TrimEnd` keeps a prefix that ends in a non-space character. */
  lemma TrimEndKeepsPrefix(p: string, x: string)
    requires p <= x && p != [] && !IsSpace(p[|p| - 1])
    ensures p <= TrimEnd(x)
  {
  }

  /** A prefix whose last character is not white space starts the trimmed string exactly
      when it starts the string with its leading white space dropped. */
  lemma TrimStartsWith(s: string, p: string)
    requires p != [] && !IsSpace(p[|p| - 1])
    ensures p <= Trim(s) <==> p <= TrimStart(s)
  {
    var t := TrimStart(s);
    if p <= t {
      TrimEndKeepsPrefix(p, t);
    } else {
      assert TrimEnd(t) == t[..|TrimEnd(t)|];
    }
  }

  /** `s.startsWith(p)`. */
  predicate StartsWith(s: string, p: string) {
    p <= s
  }

  /** `p` occurs in `s` at index `j`. */
  predicate OccursAt(s: string, p: string, j: int) {
    0 <= j && j + |p| <= |s| && s[j..j + |p|] == p
  }

  /** `s.indexOf(p, from)`: an occurrence of `p` at or after `from` (the leftmost one, by
      `IndexFromIsLeftmost`). */
  function IndexFrom(s: string, p: string, from: nat): (r: Option<nat>)
    requires from <= |s|
    decreases |s| - from
    ensures r.Some? ==> from <= r.value && OccursAt(s, p, r.value)
  {
    if from + |p| > |s| then None
    else if s[from..from + |p|] == p then Some(from)
    else IndexFrom(s, p, from + 1)
  }

  /** `IndexFrom` finds no occurrence before the one it returns, and none at all when it
      returns nothing. */
  lemma {:induction false} IndexFromIsLeftmost(s: string, p: string, from: nat)
    requires from <= |s|
    ensures IndexFrom(s, p, from).Some? ==> forall j :: from <= j < IndexFrom(s, p, from).value ==> !OccursAt(s, p, j)
    ensures IndexFrom(s, p, from).None? ==> forall j :: from <= j ==> !OccursAt(s, p, j)
    decreases |s| - from
  {
    if from + |p| <= |s| && s[from..from + |p|] != p {
      IndexFromIsLeftmost(s, p, from + 1);
    }
  }

  /** `s.indexOf(p)`, with -1 as `None`. */
  function IndexOf(s: string, p: string): Option<nat> {
    IndexFrom(s, p, 0)
  }

  /** `s.includes(p)`. */
  predicate Contains(s: string, p: string) {
    IndexOf(s, p).Some?
  }

  /** `Contains` is "some slice of `s` equals `p`". */
  lemma ContainsIff(s: string, p: string)
    ensures Contains(s, p) <==> exists j :: OccursAt(s, p, j)
  {
    IndexFromIsLeftmost(s, p, 0);
  }

  /** Every string contains the empty string. */
  lemma ContainsEmpty(s: string)
    ensures Contains(s, "")
  {
    assert OccursAt(s, "", 0);
  }

  /** `s.replace(p, rep)` with a string pattern: only the first occurrence is replaced. */
  function ReplaceFirst(s: string, p: string, rep: string): (r: string)
    ensures IndexOf(s, p).None? ==> r == s
    ensures IndexOf(s, p).Some? ==>
      var i := IndexOf(s, p).value; r == s[..i] + rep + s[i + |p|..]
  {
    match IndexOf(s, p)
    case None => s
    case Some(i) => s[..i] + rep + s[i + |p|..]
  }

  /** The leftmost occurrence of `p` is its first occurrence after a run of white space,
      when `p` starts with a non-space character. */
  lemma IndexAfterSpaces(w: string, x: string, p: string)
    requires AllSpace(w) && p <= x && p != [] && !IsSpace(p[0])
    ensures IndexOf(w + x, p) == Some(|w|)
  {
    var s := w + x;
    assert s[|w|..|w| + |p|] == p;
    assert OccursAt(s, p, |w|);
    forall j | 0 <= j < |w| ensures !OccursAt(s, p, j) {
      assert s[j..j + |p|][0] == s[j] == w[j];
    }
    IndexFromIsLeftmost(s, p, 0);
  }

  /** ASCII `toLowerCase` of one character. */
  function LowerChar(c: char): (r: char)
    ensures 'A' <= c <= 'Z' ==> r as int == c as int + 32 && 'a' <= r <= 'z'
    ensures !('A' <= c <= 'Z') ==> r == c
  {
    if 'A' <= c <= 'Z' then (c as int - 'A' as int + 'a' as int) as char else c
  }

  /** ASCII `toLowerCase`: same length, character by character, and no upper-case letter
      is left. */
  function Lower(s: string): (r: string)
    ensures |r| == |s|
    ensures forall i :: 0 <= i < |s| ==> r[i] == LowerChar(s[i])
    ensures forall i :: 0 <= i < |r| ==> !('A' <= r[i] <= 'Z')
  {
    seq(|s|, i requires 0 <= i < |s| => LowerChar(s[i]))
  }

  /** Lower-casing twice is lower-casing once. */
  lemma LowerIdempotent(s: string)
    ensures Lower(Lower(s)) == Lower(s)
  {
  }

  /** `a.toLowerCase().includes(b.toLowerCase())`. */
  predicate ContainsIgnoringCase(a: string, b: string) {
    Contains(Lower(a), Lower(b))
  }

  function Min(a: int, b: int): int {
    if a <= b then a else b
  }
}

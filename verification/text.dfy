/**
 The handful of Python string operations the downloader relies on, each given
 an executable definition together with an independent description of what it
 computes: `str.startswith`, the `in` substring test, `str.lower` (restricted
 to ASCII letters), `str.replace(c, '')` and `str.strip()`.
 */
module Text {

  /* ---------------------------------------------------------------------- */
  /* Prefixes and substrings                                                 */
  /* ---------------------------------------------------------------------- */

  /** Python's `s.startswith(p)` for one prefix; it compares characters exactly,
      so it is case-sensitive. */
  predicate IsPrefix(p: string, s: string) {
    |p| <= |s| && s[..|p|] == p
  }

  /** `sub` occurs in `s` starting at index `i`. */
  ghost predicate OccursAt(s: string, sub: string, i: int) {
    0 <= i && i + |sub| <= |s| && s[i..i + |sub|] == sub
  }

  /** The meaning of Python's `sub in s`: some occurrence exists. */
  ghost predicate HasSubstring(s: string, sub: string) {
    exists i :: OccursAt(s, sub, i)
  }

  /** Executable substring test: try every start position from left to right. */
  predicate Contains(s: string, sub: string)
    decreases |s|
  {
    IsPrefix(sub, s) || (|s| > 0 && Contains(s[1..], sub))
  }

  lemma {:induction false} ContainsSound(s: string, sub: string)
    requires Contains(s, sub)
    ensures HasSubstring(s, sub)
    decreases |s|
  {
    if IsPrefix(sub, s) {
      assert OccursAt(s, sub, 0);
    } else {
      ContainsSound(s[1..], sub);
      var i :| OccursAt(s[1..], sub, i);
      assert s[1..][i..i + |sub|] == s[i + 1..i + 1 + |sub|];
      assert OccursAt(s, sub, i + 1);
    }
  }

  lemma {:induction false} ContainsComplete(s: string, sub: string, i: int)
    requires OccursAt(s, sub, i)
    ensures Contains(s, sub)
    decreases |s|
  {
    if i == 0 {
      assert IsPrefix(sub, s);
    } else {
      assert s[1..][i - 1..i - 1 + |sub|] == s[i..i + |sub|];
      assert OccursAt(s[1..], sub, i - 1);
      ContainsComplete(s[1..], sub, i - 1);
    }
  }

  /** The left-to-right scan answers exactly the substring question. */
  lemma ContainsIff(s: string, sub: string)
    ensures Contains(s, sub) <==> HasSubstring(s, sub)
  {
    if Contains(s, sub) {
      ContainsSound(s, sub);
    }
    if HasSubstring(s, sub) {
      var i :| OccursAt(s, sub, i);
      ContainsComplete(s, sub, i);
    }
  }

  /** A sequence is the concatenation of its three slices at `i` and `j`. */
  lemma SplitThree<T>(s: seq<T>, i: int, j: int)
    requires 0 <= i <= j <= |s|
    ensures s == s[..i] + s[i..j] + s[j..]
  {
  }

  /** A slice taken past a prefix is the same slice of what follows it. */
  lemma SliceAfterPrefix<T>(a: seq<T>, b: seq<T>, i: int, j: int)
    requires 0 <= i <= j <= |b|
    ensures (a + b)[|a| + i..|a| + j] == b[i..j]
  {
  }

  /* ---------------------------------------------------------------------- */
  /* Lower-casing                                                            */
  /* ---------------------------------------------------------------------- */

  /** Lower-cases one ASCII letter and leaves every other character alone. */
  function LowerChar(c: char): char {
    if 'A' <= c <= 'Z' then (c as int + 32) as char else c
  }

  /** `s.lower()` restricted to ASCII letters. */
  function Lower(s: string): (r: string)
    ensures |r| == |s|
    ensures forall i :: 0 <= i < |s| ==> r[i] == LowerChar(s[i])
    ensures forall i :: 0 <= i < |r| ==> !('A' <= r[i] <= 'Z')
  {
    if s == [] then [] else [LowerChar(s[0])] + Lower(s[1..])
  }

  /** A string without upper-case ASCII letters is its own lower case. */
  lemma {:induction false} LowerOfLowerCase(s: string)
    requires forall i :: 0 <= i < |s| ==> !('A' <= s[i] <= 'Z')
    ensures Lower(s) == s
  {
    if s != [] {
      LowerOfLowerCase(s[1..]);
      assert s == [s[0]] + s[1..];
    }
  }

  /** Lower-casing works character by character, so it distributes over
      concatenation. */
  lemma {:induction false} LowerAppend(a: string, b: string)
    ensures Lower(a + b) == Lower(a) + Lower(b)
    decreases |a|
  {
    if a != [] {
      assert (a + b)[1..] == a[1..] + b;
      LowerAppend(a[1..], b);
    } else {
      assert a + b == b;
    }
  }

  /** A substring placed between two others is found at its position. */
  lemma OccursBetween(a: string, sub: string, b: string)
    ensures OccursAt(a + sub + b, sub, |a|)
  {
    assert (a + sub + b)[|a|..|a| + |sub|] == sub;
  }

  /** Lower-casing twice changes nothing more. */
  lemma LowerIdempotent(s: string)
    ensures Lower(Lower(s)) == Lower(s)
  {
  }

  /** The characters that lower-case to a given lower-case ASCII letter `l`:
      `l` itself and its upper-case partner `u`. */
  lemma LowerCharTo(c: char, l: char, u: char)
    requires 'a' <= l <= 'z' && u as int == l as int - 32
    ensures LowerChar(c) == l <==> (c == l || c == u)
  {
  }

  /** The spellings a `lower() == 'none'` test accepts: the word `none` with
      each letter in either case. */
  ghost predicate SpellsNone(s: string) {
    && |s| == 4
    && (s[0] == 'n' || s[0] == 'N')
    && (s[1] == 'o' || s[1] == 'O')
    && (s[2] == 'n' || s[2] == 'N')
    && (s[3] == 'e' || s[3] == 'E')
  }

  lemma LowerNoneSpellsNone(s: string)
    requires Lower(s) == "none"
    ensures SpellsNone(s)
  {
    var l := Lower(s);
    assert l[0] == 'n' && l[1] == 'o' && l[2] == 'n' && l[3] == 'e';
    LowerCharTo(s[0], 'n', 'N');
    LowerCharTo(s[1], 'o', 'O');
    LowerCharTo(s[2], 'n', 'N');
    LowerCharTo(s[3], 'e', 'E');
  }

  lemma SpellsNoneLowersToNone(s: string)
    requires SpellsNone(s)
    ensures Lower(s) == "none"
  {
    LowerCharTo(s[0], 'n', 'N');
    LowerCharTo(s[1], 'o', 'O');
    LowerCharTo(s[2], 'n', 'N');
    LowerCharTo(s[3], 'e', 'E');
    var l := Lower(s);
    assert l[0] == 'n' && l[1] == 'o' && l[2] == 'n' && l[3] == 'e';
  }

  /** `s.lower() == 'none'` is a case-insensitive comparison with `none`. */
  lemma LowerIsNoneIff(s: string)
    ensures Lower(s) == "none" <==> SpellsNone(s)
  {
    if Lower(s) == "none" {
      LowerNoneSpellsNone(s);
    }
    if SpellsNone(s) {
      SpellsNoneLowersToNone(s);
    }
  }

  /* ---------------------------------------------------------------------- */
  /* Removing a character                                                    */
  /* ---------------------------------------------------------------------- */

  /** `s.replace(c, '')` for a single character `c`: every occurrence goes,
      wherever it stands, and the remaining characters keep their order. */
  function RemoveChar(s: string, c: char): (r: string)
    ensures c !in r
    ensures multiset(r) == multiset(s)[c := 0]
    ensures |r| == |s| - multiset(s)[c]
  {
    if s == [] then []
    else
      assert s == [s[0]] + s[1..];
      if s[0] == c then RemoveChar(s[1..], c)
      else [s[0]] + RemoveChar(s[1..], c)
  }

  /** Removal works piece by piece, so the survivors keep their relative order. */
  lemma {:induction false} RemoveCharDistributes(a: string, b: string, c: char)
    ensures RemoveChar(a + b, c) == RemoveChar(a, c) + RemoveChar(b, c)
    decreases |a|
  {
    if a == [] {
      assert a + b == b;
    } else {
      assert (a + b)[0] == a[0];
      assert (a + b)[1..] == a[1..] + b;
      RemoveCharDistributes(a[1..], b, c);
    }
  }

  /** One occurrence between two stretches without the character goes, and
      the stretches close up. */
  lemma RemoveCharAround(a: string, b: string, c: char)
    requires c !in a && c !in b
    ensures RemoveChar(a + [c] + b, c) == a + b
  {
    assert RemoveChar([c], c) == [] by {
      assert [c][1..] == [];
    }
    RemoveCharAbsent(a, c);
    RemoveCharDistributes(a, [c], c);
    assert RemoveChar(a + [c], c) == a;
    RemoveCharAbsent(b, c);
    RemoveCharDistributes(a + [c], b, c);
  }

  /** A string without the character is left untouched. */
  lemma {:induction false} RemoveCharAbsent(s: string, c: char)
    requires c !in s
    ensures RemoveChar(s, c) == s
    decreases |s|
  {
    if s != [] {
      assert s == [s[0]] + s[1..];
      RemoveCharAbsent(s[1..], c);
    }
  }

  /* ---------------------------------------------------------------------- */
  /* Stripping white space                                                   */
  /* ---------------------------------------------------------------------- */

  /** The characters Python 3's `str.isspace` accepts, which are the ones
      `str.strip()` with no argument removes. */
  predicate IsSpace(ch: char) {
    || ch == ' '
    || '\t' <= ch <= '\r'
    || '\U{1C}' <= ch <= '\U{1F}'
    || ch == '\U{85}'
    || ch == '\U{A0}'
    || ch == '\U{1680}'
    || '\U{2000}' <= ch <= '\U{200A}'
    || ch == '\U{2028}'
    || ch == '\U{2029}'
    || ch == '\U{202F}'
    || ch == '\U{205F}'
    || ch == '\U{3000}'
  }

  /** How many white-space characters `s` starts with. */
  function LeadingSpace(s: string): (n: nat)
    ensures n <= |s|
    ensures forall k :: 0 <= k < n ==> IsSpace(s[k])
    ensures n == |s| || !IsSpace(s[n])
  {
    if s != [] && IsSpace(s[0]) then 1 + LeadingSpace(s[1..]) else 0
  }

  /** Where the trailing white space of `s` begins. */
  function TrailingSpaceStart(s: string): (m: nat)
    ensures m <= |s|
    ensures forall k :: m <= k < |s| ==> IsSpace(s[k])
    ensures m == 0 || !IsSpace(s[m - 1])
  {
    if s != [] && IsSpace(s[|s| - 1]) then TrailingSpaceStart(s[..|s| - 1]) else |s|
  }

  /** `r` is the slice `s[i..j]`, it neither starts nor ends with white
      space, and only white space lies outside it. */
  ghost predicate StripsAt(s: string, r: string, i: int, j: int) {
    && 0 <= i <= j <= |s|
    && r == s[i..j]
    && (forall k :: 0 <= k < i ==> IsSpace(s[k]))
    && (forall k :: j <= k < |s| ==> IsSpace(s[k]))
    && (r == [] || (!IsSpace(r[0]) && !IsSpace(r[|r| - 1])))
  }

  /** `r` is `s` with all leading and trailing white space cut off. */
  ghost predicate IsStripOf(s: string, r: string) {
    exists i, j :: StripsAt(s, r, i, j)
  }

  /** Python's `s.strip()`. */
  function Strip(s: string): (r: string)
    ensures IsStripOf(s, r)
  {
    var i := LeadingSpace(s);
    var j := if i == |s| then i else TrailingSpaceStart(s);
    assert StripsAt(s, s[i..j], i, j);
    s[i..j]
  }

  /** Two non-empty strips of one string sit at the same place. */
  lemma StripsAtSamePlace(s: string, r1: string, i1: int, j1: int, r2: string, i2: int, j2: int)
    requires StripsAt(s, r1, i1, j1) && StripsAt(s, r2, i2, j2)
    requires r1 != [] && r2 != []
    ensures i1 == i2 && j1 == j2
  {
    assert s[i1] == r1[0] && s[j1 - 1] == r1[|r1| - 1];
    assert s[i2] == r2[0] && s[j2 - 1] == r2[|r2| - 1];
  }

  /** A string strips to nothing exactly when it is all white space. */
  lemma StripsAtEmpty(s: string, r: string, i: int, j: int)
    requires StripsAt(s, r, i, j)
    ensures r == [] <==> forall k :: 0 <= k < |s| ==> IsSpace(s[k])
  {
    if r != [] {
      assert s[i] == r[0];
    }
  }

  /** There is only one way to strip a string. */
  lemma StripOfUnique(s: string, r1: string, r2: string)
    requires IsStripOf(s, r1) && IsStripOf(s, r2)
    ensures r1 == r2
  {
    var i1, j1 :| StripsAt(s, r1, i1, j1);
    var i2, j2 :| StripsAt(s, r2, i2, j2);
    StripsAtEmpty(s, r1, i1, j1);
    StripsAtEmpty(s, r2, i2, j2);
    if r1 != [] && r2 != [] {
      StripsAtSamePlace(s, r1, i1, j1, r2, i2, j2);
    }
  }

  /** Stripping an already stripped line changes nothing. */
  lemma StripIdempotent(s: string)
    ensures Strip(Strip(s)) == Strip(s)
  {
    var r := Strip(s);
    var i, j :| StripsAt(s, r, i, j);
    assert r[0..|r|] == r;
    assert StripsAt(r, r, 0, |r|);
    StripOfUnique(r, Strip(r), r);
  }
}

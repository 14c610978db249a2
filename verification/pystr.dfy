/** The Python `str` operations the modelled code relies on, over `seq<char>`
    (one `char` per code point, as Python's `len` counts them).

    Case mapping (`lower`, `upper`, `title`) is modelled for ASCII letters
    only; every other character is left as it is and counts as uncased.
    Whitespace (`strip`) follows Python's `str.isspace` exactly. */
module PyStr {

  // ---------------------------------------------------------------------
  // Character classes and case mapping
  // ---------------------------------------------------------------------

  /** Python's `str.isspace` for one code point: the ASCII controls
      TAB..CR and FS..US, space, NEL, NBSP, and the Unicode space
      separators and line/paragraph separators. */
  predicate IsSpace(c: char) {
    var n := c as int;
    || (0x09 <= n <= 0x0D)
    || (0x1C <= n <= 0x20)
    || n == 0x85 || n == 0xA0 || n == 0x1680
    || (0x2000 <= n <= 0x200A)
    || n == 0x2028 || n == 0x2029 || n == 0x202F || n == 0x205F || n == 0x3000
  }

  predicate IsUpper(c: char) { 'A' <= c <= 'Z' }

  predicate IsLower(c: char) { 'a' <= c <= 'z' }

  /** A cased character in the sense of `str.title`. */
  predicate IsLetter(c: char) { IsUpper(c) || IsLower(c) }

  /** One character of `str.lower`: an upper-case letter becomes the
      lower-case letter 32 code points above it; everything else stays. */
  function LowerChar(c: char): (r: char)
    ensures IsLetter(r) <==> IsLetter(c)
    ensures !IsUpper(r)
    ensures IsLower(c) || !IsLetter(c) ==> r == c
    ensures IsUpper(c) ==> r as int == c as int + 32
  {
    if IsUpper(c) then (c as int + 32) as char else c
  }

  /** One character of `str.upper`: a lower-case letter becomes the
      upper-case letter 32 code points below it; everything else stays. */
  function UpperChar(c: char): (r: char)
    ensures IsLetter(r) <==> IsLetter(c)
    ensures !IsLower(r)
    ensures IsUpper(c) || !IsLetter(c) ==> r == c
    ensures IsLower(c) ==> r as int == c as int - 32
  {
    if IsLower(c) then (c as int - 32) as char else c
  }

  /** The two case mappings undo each other on letters of the other case. */
  lemma CaseRoundTrip(c: char)
    ensures IsUpper(c) ==> UpperChar(LowerChar(c)) == c
    ensures IsLower(c) ==> LowerChar(UpperChar(c)) == c
  {
  }

  /** Lower-casing forgets any earlier change of case. */
  lemma LowerAbsorbs(c: char)
    ensures LowerChar(UpperChar(c)) == LowerChar(c)
    ensures LowerChar(LowerChar(c)) == LowerChar(c)
  {
  }

  /** Python's `s.lower()`. */
  function Lower(s: string): (r: string)
    ensures |r| == |s|
    ensures forall k :: 0 <= k < |s| ==> r[k] == LowerChar(s[k])
  {
    if |s| == 0 then [] else [LowerChar(s[0])] + Lower(s[1..])
  }

  /** Python's `s.upper()`. */
  function Upper(s: string): (r: string)
    ensures |r| == |s|
    ensures forall k :: 0 <= k < |s| ==> r[k] == UpperChar(s[k])
  {
    if |s| == 0 then [] else [UpperChar(s[0])] + Upper(s[1..])
  }

  /** Whether the character before position `k` of `s` is cased, where
      `before` stands for the character in front of `s` itself. */
  predicate AfterLetter(s: string, k: nat, before: bool)
    requires k < |s|
  {
    if k == 0 then before else IsLetter(s[k - 1])
  }

  /** Dropping the first character of `s` moves the state along by one. */
  lemma AfterLetterStep(s: string, k: nat, before: bool)
    requires 1 <= k < |s|
    ensures s[1..][k - 1] == s[k]
    ensures AfterLetter(s[1..], k - 1, IsLetter(s[0])) == AfterLetter(s, k, before)
  {
  }

  /** One step of `str.title`: mapping the first character and putting it
      in front of the title of the rest title-cases the whole string. */
  lemma TitleStep(s: string, before: bool, rest: string)
    requires |s| > 0 && |rest| == |s| - 1
    requires forall k :: 0 <= k < |rest| ==>
      rest[k] == (if AfterLetter(s[1..], k, IsLetter(s[0])) then LowerChar(s[1..][k]) else UpperChar(s[1..][k]))
    ensures var r := [if before then LowerChar(s[0]) else UpperChar(s[0])] + rest;
      forall k :: 0 <= k < |s| ==>
        r[k] == (if AfterLetter(s, k, before) then LowerChar(s[k]) else UpperChar(s[k]))
  {
    var r := [if before then LowerChar(s[0]) else UpperChar(s[0])] + rest;
    forall k | 1 <= k < |s|
      ensures r[k] == (if AfterLetter(s, k, before) then LowerChar(s[k]) else UpperChar(s[k]))
    {
      AfterLetterStep(s, k, before);
      assert r[k] == rest[k - 1];
    }
  }

  /** `str.title` from a given state: walks left to right, upper-casing a
      letter when the previous character was uncased and lower-casing it
      otherwise. */
  function TitleFrom(s: string, before: bool): (r: string)
    ensures |r| == |s|
    ensures forall k :: 0 <= k < |s| ==>
      r[k] == (if AfterLetter(s, k, before) then LowerChar(s[k]) else UpperChar(s[k]))
  {
    if |s| == 0 then []
    else
      var rest := TitleFrom(s[1..], IsLetter(s[0]));
      TitleStep(s, before, rest);
      [if before then LowerChar(s[0]) else UpperChar(s[0])] + rest
  }

  /** Python's `s.title()`: every letter that starts a run of letters is
      upper case, every other letter lower case, nothing else changes. */
  function Title(s: string): (r: string)
    ensures |r| == |s|
    ensures forall k :: 0 <= k < |s| ==>
      r[k] == (if k > 0 && IsLetter(s[k - 1]) then LowerChar(s[k]) else UpperChar(s[k]))
  {
    TitleFrom(s, false)
  }

  /** Lower-casing works character by character, so it distributes over
      concatenation. */
  lemma LowerAppend(a: string, b: string)
    ensures Lower(a + b) == Lower(a) + Lower(b)
  {
    assert forall k :: 0 <= k < |a + b| ==> Lower(a + b)[k] == (Lower(a) + Lower(b))[k];
  }

  /** Lower-casing leaves a string without upper-case letters unchanged. */
  lemma LowerOfLowerCase(s: string)
    requires forall k :: 0 <= k < |s| ==> !IsUpper(s[k])
    ensures Lower(s) == s
  {
    assert forall k :: 0 <= k < |s| ==> Lower(s)[k] == s[k];
  }

  /** Title-casing only changes case: the same letters in the same places. */
  lemma TitleKeepsLetters(s: string)
    ensures Lower(Title(s)) == Lower(s)
  {
    var t := Title(s);
    forall k | 0 <= k < |s|
      ensures Lower(t)[k] == Lower(s)[k]
    {
      LowerAbsorbs(s[k]);
      assert t[k] == LowerChar(s[k]) || t[k] == UpperChar(s[k]);
    }
  }

  /** In a title, a letter is upper case exactly when it starts a word. */
  lemma TitleCapitalisesWords(s: string)
    ensures forall k :: 0 <= k < |s| && IsLetter(Title(s)[k]) ==>
      (IsUpper(Title(s)[k]) <==> (k == 0 || !IsLetter(Title(s)[k - 1])))
  {
    var t := Title(s);
    forall k | 0 <= k < |s| && IsLetter(t[k])
      ensures IsUpper(t[k]) <==> (k == 0 || !IsLetter(t[k - 1]))
    {
      if k > 0 {
        assert IsLetter(t[k - 1]) <==> IsLetter(s[k - 1]);
      }
    }
  }

  /** Upper-casing only changes case. */
  lemma UpperKeepsLetters(s: string)
    ensures Lower(Upper(s)) == Lower(s)
  {
    var u := Upper(s);
    forall k | 0 <= k < |s|
      ensures Lower(u)[k] == Lower(s)[k]
    {
      LowerAbsorbs(s[k]);
      assert u[k] == UpperChar(s[k]);
    }
  }

  /** Title-casing a title changes nothing. */
  lemma TitleIdempotent(s: string)
    ensures Title(Title(s)) == Title(s)
  {
    var t := Title(s);
    forall k | 0 <= k < |s|
      ensures Title(t)[k] == t[k]
    {
      if k > 0 {
        assert IsLetter(t[k - 1]) <==> IsLetter(s[k - 1]);
      }
    }
  }

  // ---------------------------------------------------------------------
  // Searching
  // ---------------------------------------------------------------------

  /** Position of the first `c` in `s`, or `|s|` when there is none
      (the position `str.find` reports, with `|s|` in place of -1). */
  function IndexOf(s: string, c: char): (i: nat)
    ensures i <= |s|
    ensures i < |s| ==> s[i] == c
    ensures forall j :: 0 <= j < i ==> s[j] != c
  {
    if |s| == 0 then 0
    else if s[0] == c then 0
    else 1 + IndexOf(s[1..], c)
  }

  /** Position of the last `c` in `s`, or -1 when there is none
      (`str.rfind`). */
  function LastIndexOf(s: string, c: char): (i: int)
    ensures -1 <= i < |s|
    ensures 0 <= i ==> s[i] == c
    ensures forall j :: i < j < |s| ==> s[j] != c
  {
    if |s| == 0 then -1
    else if s[|s| - 1] == c then |s| - 1
    else LastIndexOf(s[..|s| - 1], c)
  }

  lemma IndexOfFound(s: string, c: char)
    ensures IndexOf(s, c) < |s| <==> c in s
  {
    if c in s {
      var j :| 0 <= j < |s| && s[j] == c;
      assert IndexOf(s, c) <= j;
    }
  }

  /** Python's `s.startswith(p)`. */
  predicate StartsWith(s: string, p: string) {
    |p| <= |s| && s[..|p|] == p
  }

  // ---------------------------------------------------------------------
  // Replacing
  // ---------------------------------------------------------------------

  /** Python's `s.replace(a, b, 1)` for single characters: the first `a`,
      if any, becomes `b`; every other position keeps its character. */
  function ReplaceFirst(s: string, a: char, b: char): (r: string)
    ensures |r| == |s|
    ensures forall k :: 0 <= k < |s| && k != IndexOf(s, a) ==> r[k] == s[k]
    ensures IndexOf(s, a) < |s| ==> r[IndexOf(s, a)] == b
  {
    if |s| == 0 then []
    else if s[0] == a then [b] + s[1..]
    else [s[0]] + ReplaceFirst(s[1..], a, b)
  }

  /** One replacement, never more: exactly one `a` was traded for one `b`. */
  lemma {:induction false} ReplaceFirstMultiset(s: string, a: char, b: char)
    requires a in s
    ensures multiset(ReplaceFirst(s, a, b)) == multiset(s) - multiset{a} + multiset{b}
  {
    assert s == [s[0]] + s[1..];
    if s[0] == a {
      assert ReplaceFirst(s, a, b) == [b] + s[1..];
    } else {
      assert a in s[1..];
      ReplaceFirstMultiset(s[1..], a, b);
      assert ReplaceFirst(s, a, b) == [s[0]] + ReplaceFirst(s[1..], a, b);
    }
  }

  /** Replacing the first `a` of `p + [a] + q`, where `p` holds no `a`,
      touches nothing but that one character. */
  lemma ReplaceFirstSplit(p: string, q: string, a: char, b: char)
    requires a !in p
    ensures ReplaceFirst(p + [a] + q, a, b) == p + [b] + q
  {
    var s := p + [a] + q;
    assert s[|p|] == a;
    assert forall j :: 0 <= j < |p| ==> s[j] == p[j];
    assert IndexOf(s, a) == |p|;
    var r := ReplaceFirst(s, a, b);
    assert forall k :: 0 <= k < |s| ==> r[k] == (p + [b] + q)[k];
  }

  /** Python's `s.replace(a, b)` for single characters: every `a` becomes `b`. */
  function ReplaceAll(s: string, a: char, b: char): (r: string)
    ensures |r| == |s|
    ensures forall k :: 0 <= k < |s| ==> r[k] == (if s[k] == a then b else s[k])
  {
    if |s| == 0 then [] else [if s[0] == a then b else s[0]] + ReplaceAll(s[1..], a, b)
  }

  // ---------------------------------------------------------------------
  // Stripping
  // ---------------------------------------------------------------------

  /** Python's `s.lstrip()`: drops leading whitespace. */
  function TrimLeft(s: string): (r: string)
    ensures |r| <= |s| && r == s[|s| - |r|..]
    ensures forall k :: 0 <= k < |s| - |r| ==> IsSpace(s[k])
    ensures |r| > 0 ==> !IsSpace(r[0])
  {
    if |s| > 0 && IsSpace(s[0]) then TrimLeft(s[1..]) else s
  }

  /** Python's `s.rstrip()`: drops trailing whitespace. */
  function TrimRight(s: string): (r: string)
    ensures |r| <= |s| && r == s[..|r|]
    ensures forall k :: |r| <= k < |s| ==> IsSpace(s[k])
    ensures |r| > 0 ==> !IsSpace(r[|r| - 1])
  {
    if |s| > 0 && IsSpace(s[|s| - 1]) then TrimRight(s[..|s| - 1]) else s
  }

  /** Python's `s.strip()`. */
  function Strip(s: string): string {
    TrimRight(TrimLeft(s))
  }

  /** `s` is `core` at position `i`, with only whitespace before and after. */
  predicate PaddedAt(s: string, core: string, i: int) {
    && 0 <= i <= |s| - |core|
    && s[i..i + |core|] == core
    && (forall k :: 0 <= k < i ==> IsSpace(s[k]))
    && (forall k :: i + |core| <= k < |s| ==> IsSpace(s[k]))
  }

  /** `s` is `core` with whitespace-only padding on either side, and
      `core` neither starts nor ends with whitespace. */
  ghost predicate PaddedCore(s: string, core: string) {
    && (|core| > 0 ==> !IsSpace(core[0]) && !IsSpace(core[|core| - 1]))
    && exists i :: PaddedAt(s, core, i)
  }

  /** The stripped string is what remains after removing a whitespace-only
      prefix and suffix, and it has no whitespace at either end. */
  lemma StripIsPaddedCore(s: string)
    ensures PaddedCore(s, Strip(s))
  {
    var l := TrimLeft(s);
    var r := TrimRight(l);
    var i := |s| - |l|;
    assert s[i..i + |r|] == r by {
      assert s[i..] == l;
      assert l[..|r|] == r;
    }
    forall k | i + |r| <= k < |s|
      ensures IsSpace(s[k])
    {
      assert s[k] == l[k - i];
    }
    assert PaddedAt(s, r, i);
    if |r| > 0 {
      assert r[0] == l[0];
    }
  }

  /** Left-stripping removes a whitespace-only prefix in front of a string
      that does not start with whitespace, and nothing else. */
  lemma {:induction false} TrimLeftPadded(pad: string, rest: string)
    requires forall k :: 0 <= k < |pad| ==> IsSpace(pad[k])
    requires |rest| > 0 ==> !IsSpace(rest[0])
    ensures TrimLeft(pad + rest) == rest
  {
    if pad == [] {
      assert pad + rest == rest;
    } else {
      assert (pad + rest)[1..] == pad[1..] + rest;
      TrimLeftPadded(pad[1..], rest);
    }
  }

  /** Right-stripping removes a whitespace-only suffix behind a string that
      does not end with whitespace, and nothing else. */
  lemma {:induction false} TrimRightPadded(core: string, pad: string)
    requires forall k :: 0 <= k < |pad| ==> IsSpace(pad[k])
    requires |core| > 0 ==> !IsSpace(core[|core| - 1])
    ensures TrimRight(core + pad) == core
  {
    if pad == [] {
      assert core + pad == core;
    } else {
      var s := core + pad;
      assert s[..|s| - 1] == core + pad[..|pad| - 1];
      TrimRightPadded(core, pad[..|pad| - 1]);
    }
  }

  /** Stripping removes whitespace-only padding on both sides of a string
      whose ends are not whitespace, and nothing else. */
  lemma StripPadded(pad: string, core: string, tail: string)
    requires forall k :: 0 <= k < |pad| ==> IsSpace(pad[k])
    requires forall k :: 0 <= k < |tail| ==> IsSpace(tail[k])
    requires |core| > 0 && !IsSpace(core[0]) && !IsSpace(core[|core| - 1])
    ensures Strip(pad + core + tail) == core
  {
    assert pad + core + tail == pad + (core + tail);
    assert (core + tail)[0] == core[0];
    TrimLeftPadded(pad, core + tail);
    TrimRightPadded(core, tail);
  }

  /** A string is all whitespace exactly when stripping leaves nothing. */
  lemma StripEmptyIff(s: string)
    ensures Strip(s) == [] <==> forall k :: 0 <= k < |s| ==> IsSpace(s[k])
  {
    var l := TrimLeft(s);
    if |l| > 0 {
      assert l[0] == s[|s| - |l|];
    }
  }

  // ---------------------------------------------------------------------
  // Repeating
  // ---------------------------------------------------------------------

  /** Python's `c * n`: `n` copies of `c`, and the empty string when `n`
      is zero or negative. */
  function Repeat(c: char, n: int): (r: string)
    ensures |r| == (if n <= 0 then 0 else n)
    ensures forall k :: 0 <= k < |r| ==> r[k] == c
    decreases n
  {
    if n <= 0 then [] else [c] + Repeat(c, n - 1)
  }
}

/**
 * The handful of Python `str` operations the ingestion code relies on:
 * whitespace stripping, splitting and joining, case mapping, substring and
 * prefix tests.  Whitespace is Python's own `str.isspace` set; case mapping
 * and the regular-expression classes `\w` and `\d` are restricted to ASCII.
 */
module Text {

  /** Python's `str.isspace` (also what `\s`, `strip()` and `split()` use). */
  predicate IsSpace(c: char) {
    var n := c as int;
    (9 <= n <= 13) || (28 <= n <= 32) || n == 0x85 || n == 0xA0 || n == 0x1680
    || (0x2000 <= n <= 0x200A) || n == 0x2028 || n == 0x2029 || n == 0x202F
    || n == 0x205F || n == 0x3000
  }

  predicate IsDigit(c: char) { '0' <= c <= '9' }

  predicate IsUpperLetter(c: char) { 'A' <= c <= 'Z' }

  predicate IsLowerLetter(c: char) { 'a' <= c <= 'z' }

  /** The regular-expression class `\w`, restricted to ASCII. */
  predicate IsWordChar(c: char) {
    IsDigit(c) || IsUpperLetter(c) || IsLowerLetter(c) || c == '_'
  }

  function LowerChar(c: char): (r: char)
    ensures !IsUpperLetter(r)
    ensures IsUpperLetter(c) || r == c
  {
    if IsUpperLetter(c) then (c as int + 32) as char else c
  }

  function UpperChar(c: char): (r: char)
    ensures !IsLowerLetter(r)
    ensures IsLowerLetter(c) || r == c
  {
    if IsLowerLetter(c) then (c as int - 32) as char else c
  }

  /** `s.lower()` */
  function Lower(s: string): (r: string)
    ensures |r| == |s|
    ensures forall i :: 0 <= i < |s| ==> r[i] == LowerChar(s[i])
  {
    if s == [] then [] else [LowerChar(s[0])] + Lower(s[1..])
  }

  /** `s.upper()` */
  function Upper(s: string): (r: string)
    ensures |r| == |s|
    ensures forall i :: 0 <= i < |s| ==> r[i] == UpperChar(s[i])
  {
    if s == [] then [] else [UpperChar(s[0])] + Upper(s[1..])
  }

  /** `s.lstrip()` */
  function LStrip(s: string): (r: string)
    ensures |r| <= |s| && r == s[|s| - |r|..]
    ensures r == [] || !IsSpace(r[0])
    ensures forall i :: 0 <= i < |s| - |r| ==> IsSpace(s[i])
  {
    if s != [] && IsSpace(s[0]) then
      var t := s[1..];
      var r := LStrip(t);
      assert forall i :: 1 <= i < |s| ==> s[i] == t[i - 1];
      assert t[|t| - |r|..] == s[|s| - |r|..];
      r
    else s
  }

  /** `s.rstrip()` */
  function RStrip(s: string): (r: string)
    ensures |r| <= |s| && r == s[..|r|]
    ensures r == [] || !IsSpace(r[|r| - 1])
    ensures forall i :: |r| <= i < |s| ==> IsSpace(s[i])
  {
    if s != [] && IsSpace(s[|s| - 1]) then RStrip(s[..|s| - 1]) else s
  }

  /** `s.strip()` */
  function Strip(s: string): string {
    RStrip(LStrip(s))
  }

  /** Every character of `s` is whitespace. */
  predicate AllSpace(s: string) {
    forall i :: 0 <= i < |s| ==> IsSpace(s[i])
  }

  predicate HasSpace(s: string) {
    exists i :: 0 <= i < |s| && IsSpace(s[i])
  }

  /** `s.startswith(p)` */
  predicate StartsWith(s: string, p: string) {
    |p| <= |s| && s[..|p|] == p
  }

  /** `p in s` for strings: `p` occurs in `s` as a contiguous substring. */
  predicate Contains(s: string, p: string) {
    exists i :: 0 <= i <= |s| - |p| && OccursAt(s, p, i)
  }

  /** `p` occurs in `s` starting at index `i`. */
  predicate OccursAt(s: string, p: string, i: int) {
    0 <= i && i + |p| <= |s| && s[i..i + |p|] == p
  }

  /** `s.startswith(tuple(ps))` */
  predicate StartsWithAny(s: string, ps: seq<string>) {
    exists i :: 0 <= i < |ps| && StartsWith(s, ps[i])
  }

  /** `s.replace(c, '')` for a single character `c`. */
  function RemoveChar(s: string, c: char): (r: string)
    ensures c !in r
    ensures forall x :: x in r ==> x in s
  {
    if s == [] then []
    else if s[0] == c then RemoveChar(s[1..], c)
    else [s[0]] + RemoveChar(s[1..], c)
  }

  /** `re.sub(r'\s+', '', s)`: every whitespace character removed. */
  function RemoveSpaces(s: string): (r: string)
    ensures |r| <= |s|
    ensures !HasSpace(r)
    ensures forall x :: x in r ==> x in s
  {
    if s == [] then []
    else if IsSpace(s[0]) then RemoveSpaces(s[1..])
    else [s[0]] + RemoveSpaces(s[1..])
  }

  /** A word as `split()` produces it: non-empty, free of whitespace. */
  predicate IsWord(w: string) {
    w != [] && !HasSpace(w)
  }

  /** The longest prefix of `s` containing no whitespace. */
  function TakeWord(s: string): (r: string)
    ensures |r| <= |s| && r == s[..|r|]
    ensures !HasSpace(r)
    ensures |r| == |s| || IsSpace(s[|r|])
  {
    if s == [] || IsSpace(s[0]) then [] else [s[0]] + TakeWord(s[1..])
  }

  /** `s.split()`: the maximal runs of non-whitespace, in order. */
  function Split(s: string): seq<string>
    decreases |s|
  {
    var t := LStrip(s);
    if t == [] then []
    else
      var w := TakeWord(t);
      assert w != [] by { assert !IsSpace(t[0]); }
      [w] + Split(t[|w|..])
  }

  /** `' '.join(ws)` */
  function Join(ws: seq<string>): string {
    if |ws| == 0 then []
    else if |ws| == 1 then ws[0]
    else ws[0] + " " + Join(ws[1..])
  }

  // ---------------------------------------------------------------------------
  // Facts about the operations above
  // ---------------------------------------------------------------------------

  /** Text without upper-case letters is its own lower-case form. */
  lemma LowerNoUpper(s: string)
    requires forall i :: 0 <= i < |s| ==> !IsUpperLetter(s[i])
    ensures Lower(s) == s
  {
  }

  /** Text without lower-case letters is its own upper-case form. */
  lemma UpperNoLower(s: string)
    requires forall i :: 0 <= i < |s| ==> !IsLowerLetter(s[i])
    ensures Upper(s) == s
  {
  }

  /** Upper-casing forgets any earlier lower-casing. */
  lemma UpperOfLower(s: string)
    ensures Upper(Lower(s)) == Upper(s)
  {
  }

  /** Text that neither starts nor ends with whitespace is unchanged by `strip()`. */
  lemma StripUnchanged(s: string)
    requires s == [] || (!IsSpace(s[0]) && !IsSpace(s[|s| - 1]))
    ensures Strip(s) == s
  {
  }

  /** Removing a character that does not occur changes nothing. */
  lemma {:induction false} RemoveCharAbsent(s: string, c: char)
    requires c !in s
    ensures RemoveChar(s, c) == s
  {
    if s != [] {
      RemoveCharAbsent(s[1..], c);
    }
  }

  /** Character removal distributes over concatenation. */
  lemma {:induction false} RemoveCharConcat(a: string, b: string, c: char)
    ensures RemoveChar(a + b, c) == RemoveChar(a, c) + RemoveChar(b, c)
  {
    if a == [] {
      assert a + b == b;
    } else {
      assert (a + b)[0] == a[0];
      assert (a + b)[1..] == a[1..] + b;
      RemoveCharConcat(a[1..], b, c);
    }
  }

  /** Removing whitespace from text that has none changes nothing. */
  lemma {:induction false} RemoveSpacesNone(s: string)
    requires !HasSpace(s)
    ensures RemoveSpaces(s) == s
  {
    if s != [] {
      assert !IsSpace(s[0]);
      RemoveSpacesNone(s[1..]);
    }
  }

  /** A substring test fails when some character of the pattern is absent. */
  lemma NotContainsByChar(s: string, p: string, j: nat)
    requires j < |p| && p[j] !in s
    ensures !Contains(s, p)
  {
    forall i | 0 <= i <= |s| - |p|
      ensures !OccursAt(s, p, i)
    {
      assert s[i + j] in s;
      assert s[i..i + |p|][j] == s[i + j];
    }
  }

  /** Every element of `split()` is a word. */
  lemma {:induction false} SplitWords(s: string)
    ensures forall i :: 0 <= i < |Split(s)| ==> IsWord(Split(s)[i])
    decreases |s|
  {
    var t := LStrip(s);
    if t != [] {
      var w := TakeWord(t);
      assert w != [] by { assert !IsSpace(t[0]); }
      SplitWords(t[|w|..]);
      assert Split(s) == [w] + Split(t[|w|..]);
      ConsWords(w, Split(t[|w|..]));
    }
  }

  lemma ConsWords(w: string, ws: seq<string>)
    requires IsWord(w) && forall i :: 0 <= i < |ws| ==> IsWord(ws[i])
    ensures forall i :: 0 <= i < |[w] + ws| ==> IsWord(([w] + ws)[i])
  {
    forall i | 0 <= i < |[w] + ws| ensures IsWord(([w] + ws)[i]) {
      if i > 0 {
        assert ([w] + ws)[i] == ws[i - 1];
      }
    }
  }

  /** `TakeWord` stops exactly at the end of a leading word. */
  lemma {:induction false} TakeWordOfWord(w: string, rest: string)
    requires !HasSpace(w)
    requires rest == [] || IsSpace(rest[0])
    ensures TakeWord(w + rest) == w
  {
    if w == [] {
      assert w + rest == rest;
    } else {
      assert !IsSpace(w[0]);
      assert !HasSpace(w[1..]) by {
        forall i | 0 <= i < |w[1..]| ensures !IsSpace(w[1..][i]) {
          assert w[1..][i] == w[i + 1];
        }
      }
      assert (w + rest)[1..] == w[1..] + rest;
      TakeWordOfWord(w[1..], rest);
    }
  }

  /** Splitting ignores one leading space. */
  lemma SplitLeadingSpace(z: string)
    ensures Split([' '] + z) == Split(z)
  {
    assert ([' '] + z)[1..] == z;
    assert LStrip([' '] + z) == LStrip(z);
  }

  /** A single word splits to itself. */
  lemma SplitOneWord(w: string)
    requires IsWord(w)
    ensures Split(w) == [w]
  {
    assert !IsSpace(w[0]);
    assert LStrip(w) == w;
    TakeWordOfWord(w, []);
    assert w + [] == w;
    assert w[|w|..] == [];
  }

  /** A word followed by a space splits into that word and the split of the rest. */
  lemma SplitWordSpace(w: string, j: string)
    requires IsWord(w)
    ensures Split(w + " " + j) == [w] + Split(j)
  {
    var full := w + " " + j;
    assert !IsSpace(full[0]) by { assert full[0] == w[0]; }
    assert LStrip(full) == full;
    assert full == w + ([' '] + j);
    TakeWordOfWord(w, [' '] + j);
    assert full[|w|..] == [' '] + j;
    SplitLeadingSpace(j);
  }

  /** `split()` undoes `' '.join()` on a list of words. */
  lemma {:induction false} SplitJoin(ws: seq<string>)
    requires forall i :: 0 <= i < |ws| ==> IsWord(ws[i])
    ensures Split(Join(ws)) == ws
  {
    if |ws| == 1 {
      SplitOneWord(ws[0]);
    } else if |ws| > 1 {
      var rest := ws[1..];
      assert forall i :: 0 <= i < |rest| ==> IsWord(rest[i]) by {
        forall i | 0 <= i < |rest| ensures IsWord(rest[i]) { assert rest[i] == ws[i + 1]; }
      }
      var j := Join(rest);
      assert Join(ws) == ws[0] + " " + j;
      SplitWordSpace(ws[0], j);
      SplitJoin(rest);
      HeadTail(ws);
    }
  }

  /** `lstrip()` only removes leading whitespace. */
  lemma LStripParts(s: string) returns (p: string)
    ensures AllSpace(p) && s == p + LStrip(s)
  {
    var l := LStrip(s);
    p := s[..|s| - |l|];
    SliceJoin(s, |s| - |l|);
    assert AllSpace(p) by {
      forall i | 0 <= i < |p| ensures IsSpace(p[i]) { assert p[i] == s[i]; }
    }
  }

  /** `rstrip()` only removes trailing whitespace. */
  lemma RStripParts(s: string) returns (q: string)
    ensures AllSpace(q) && s == RStrip(s) + q
  {
    var m := RStrip(s);
    q := s[|m|..];
    SliceJoin(s, |m|);
    assert AllSpace(q) by {
      forall i | 0 <= i < |q| ensures IsSpace(q[i]) { assert q[i] == s[|m| + i]; }
    }
  }

  /** A non-empty sequence is its first element followed by the rest. */
  lemma HeadTail<T>(s: seq<T>)
    requires s != []
    ensures s == [s[0]] + s[1..]
  {
  }

  lemma ConcatAssoc(a: string, b: string, c: string)
    ensures a + (b + c) == a + b + c
  {
  }

  /** A string is its prefix followed by the matching suffix. */
  lemma SliceJoin(s: string, k: nat)
    requires k <= |s|
    ensures s[..k] + s[k..] == s
  {
  }

  /** `strip()` only removes whitespace, from both ends. */
  lemma StripParts(s: string) returns (p: string, q: string)
    ensures AllSpace(p) && AllSpace(q) && s == p + Strip(s) + q
  {
    p := LStripParts(s);
    var l := LStrip(s);
    q := RStripParts(l);
    var m := Strip(s);
    assert m == RStrip(l);
    assert s == p + (m + q);
    ConcatAssoc(p, m, q);
  }

  lemma UpperConcat(a: string, b: string)
    ensures Upper(a + b) == Upper(a) + Upper(b)
  {
    var l, r := Upper(a + b), Upper(a) + Upper(b);
    forall i | 0 <= i < |a + b| ensures l[i] == r[i] {
      if i < |a| {
        assert (a + b)[i] == a[i];
      } else {
        assert (a + b)[i] == b[i - |a|];
      }
    }
    assert l == r;
  }

  lemma UpperAllSpace(s: string)
    requires AllSpace(s)
    ensures AllSpace(Upper(s))
  {
  }

  lemma {:induction false} RemoveSpacesAll(s: string)
    requires AllSpace(s)
    ensures RemoveSpaces(s) == []
  {
    if s != [] {
      RemoveSpacesAll(s[1..]);
    }
  }

  /** Whitespace removal distributes over concatenation. */
  lemma {:induction false} RemoveSpacesConcat(a: string, b: string)
    ensures RemoveSpaces(a + b) == RemoveSpaces(a) + RemoveSpaces(b)
  {
    if a == [] {
      assert a + b == b;
    } else {
      assert (a + b)[0] == a[0];
      assert (a + b)[1..] == a[1..] + b;
      RemoveSpacesConcat(a[1..], b);
    }
  }

  /** Lower-casing forgets any earlier upper-casing. */
  lemma LowerOfUpper(s: string)
    ensures Lower(Upper(s)) == Lower(s)
  {
  }

  lemma LowerTwice(s: string)
    ensures Lower(Lower(s)) == Lower(s)
  {
  }

  /** Removing spaces commutes with lower-casing: no letter lower-cases to a space. */
  lemma {:induction false} RemoveCharLower(s: string)
    ensures RemoveChar(Lower(s), ' ') == Lower(RemoveChar(s, ' '))
  {
    if s != [] {
      assert Lower(s)[1..] == Lower(s[1..]);
      RemoveCharLower(s[1..]);
      if s[0] != ' ' {
        assert Lower([s[0]] + RemoveChar(s[1..], ' ')) == [LowerChar(s[0])] + Lower(RemoveChar(s[1..], ' '));
      }
    }
  }

  /** Every character of every word of `split()` satisfies what every character of the text does. */
  lemma {:induction false} SplitKeeps(s: string, ok: char -> bool)
    requires forall i :: 0 <= i < |s| ==> ok(s[i])
    ensures forall i, j :: 0 <= i < |Split(s)| && 0 <= j < |Split(s)[i]| ==> ok(Split(s)[i][j])
    decreases |s|
  {
    var t := LStrip(s);
    if t != [] {
      var w := TakeWord(t);
      assert w != [] by { assert !IsSpace(t[0]); }
      var u := t[|w|..];
      DropKeeps(s, |s| - |t|, ok);
      DropKeeps(t, |w|, ok);
      TakeKeeps(t, |w|, ok);
      SplitKeeps(u, ok);
      assert Split(s) == [w] + Split(u);
      ConsKeeps(w, Split(u), ok);
    }
  }

  lemma DropKeeps(s: string, k: nat, ok: char -> bool)
    requires k <= |s| && forall i :: 0 <= i < |s| ==> ok(s[i])
    ensures forall i :: 0 <= i < |s[k..]| ==> ok(s[k..][i])
  {
    forall i | 0 <= i < |s[k..]| ensures ok(s[k..][i]) {
      assert s[k..][i] == s[k + i];
    }
  }

  lemma TakeKeeps(s: string, k: nat, ok: char -> bool)
    requires k <= |s| && forall i :: 0 <= i < |s| ==> ok(s[i])
    ensures forall i :: 0 <= i < |s[..k]| ==> ok(s[..k][i])
  {
    forall i | 0 <= i < |s[..k]| ensures ok(s[..k][i]) {
      assert s[..k][i] == s[i];
    }
  }

  lemma ConsKeeps(w: string, ws: seq<string>, ok: char -> bool)
    requires forall j :: 0 <= j < |w| ==> ok(w[j])
    requires forall i, j :: 0 <= i < |ws| && 0 <= j < |ws[i]| ==> ok(ws[i][j])
    ensures forall i, j :: 0 <= i < |[w] + ws| && 0 <= j < |([w] + ws)[i]| ==> ok(([w] + ws)[i][j])
  {
    forall i, j | 0 <= i < |[w] + ws| && 0 <= j < |([w] + ws)[i]| ensures ok(([w] + ws)[i][j]) {
      if i > 0 {
        assert ([w] + ws)[i] == ws[i - 1];
      }
    }
  }

  /** Every character of `' '.join(ws)` is a space or a character of one of the words. */
  lemma {:induction false} JoinKeeps(ws: seq<string>, ok: char -> bool)
    requires ok(' ')
    requires forall i, j :: 0 <= i < |ws| && 0 <= j < |ws[i]| ==> ok(ws[i][j])
    ensures forall k :: 0 <= k < |Join(ws)| ==> ok(Join(ws)[k])
  {
    if |ws| >= 2 {
      var rest := ws[1..];
      forall i, j | 0 <= i < |rest| && 0 <= j < |rest[i]| ensures ok(rest[i][j]) {
        assert rest[i] == ws[i + 1];
      }
      JoinKeeps(rest, ok);
      var j := Join(rest);
      var w := ws[0];
      assert Join(ws) == w + " " + j;
      forall k | 0 <= k < |Join(ws)| ensures ok(Join(ws)[k]) {
        if k < |w| {
          assert Join(ws)[k] == w[k];
        } else if k > |w| {
          assert Join(ws)[k] == j[k - |w| - 1];
        }
      }
    }
  }
}

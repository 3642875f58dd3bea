/**
 * Text fields of a source row: lab codes (`parse_lab_code`, ingest.py:315-324),
 * citations (`parse_citation`, ingest.py:333-357) and site names
 * (`normalize_site_name`, ingest.py:364-374, and the name key the site lookup
 * compares, ingest.py:386-390).
 */
module Fields {
  import opened Wrappers
  import opened Text
  import opened Numbers

  // ---------------------------------------------------------------------------
  // Lab codes
  // ---------------------------------------------------------------------------

  predicate IsLabCodeSentinel(s: string) {
    s in ["", "NA", "-"]
  }

  /** A cleaned lab code: at least three characters, no whitespace, no lower-case letters. */
  predicate IsCleanLabCode(s: string) {
    |s| >= 3 && !HasSpace(s) && forall i :: 0 <= i < |s| ==> !IsLowerLetter(s[i])
  }

  /** `parse_lab_code`: strip, upper-case, drop all whitespace, keep only if three or more characters remain. */
  function ParseLabCode(code: string): (r: Option<string>)
    ensures r.Some? ==> IsCleanLabCode(r.value)
  {
    if code == [] || IsLabCodeSentinel(Strip(code)) then None
    else
      var cleaned := LabCodeKey(Strip(code));
      LabCodeKeyClean(Strip(code));
      if |cleaned| >= 3 then Some(cleaned) else None
  }

  /** A lab code key holds no whitespace and no lower-case letter. */
  lemma LabCodeKeyClean(s: string)
    ensures !HasSpace(LabCodeKey(s))
    ensures forall i :: 0 <= i < |LabCodeKey(s)| ==> !IsLowerLetter(LabCodeKey(s)[i])
  {
    NoLowerAfterRemoveSpaces(Upper(s));
  }

  lemma {:induction false} NoLowerAfterRemoveSpaces(s: string)
    requires forall i :: 0 <= i < |s| ==> !IsLowerLetter(s[i])
    ensures forall i :: 0 <= i < |RemoveSpaces(s)| ==> !IsLowerLetter(RemoveSpaces(s)[i])
  {
    var r := RemoveSpaces(s);
    forall i | 0 <= i < |r| ensures !IsLowerLetter(r[i]) {
      assert r[i] in r;
    }
  }

  /** The upper-cased text with every whitespace character removed: what a lab code is compared by. */
  function LabCodeKey(code: string): string {
    RemoveSpaces(Upper(code))
  }

  /** Stripping before cleaning makes no difference to the cleaned text. */
  lemma LabCodeKeyStrip(code: string)
    ensures RemoveSpaces(Upper(Strip(code))) == LabCodeKey(code)
  {
    var p, q := StripParts(code);
    var m := Strip(code);
    UpperConcat(p + m, q);
    UpperConcat(p, m);
    RemoveSpacesConcat(Upper(p) + Upper(m), Upper(q));
    RemoveSpacesConcat(Upper(p), Upper(m));
    UpperAllSpace(p);
    UpperAllSpace(q);
    RemoveSpacesAll(Upper(p));
    RemoveSpacesAll(Upper(q));
  }

  /**
   * The sentinel test is subsumed by the length test: a lab code is accepted
   * exactly when its key has three or more characters, and is then that key.
   */
  lemma ParseLabCodeByKey(code: string)
    ensures ParseLabCode(code) == (if |LabCodeKey(code)| >= 3 then Some(LabCodeKey(code)) else None)
  {
    LabCodeKeyStrip(code);
    if code != [] && IsLabCodeSentinel(Strip(code)) {
      SentinelKeyShort(Strip(code));
    }
  }

  /** Every sentinel is shorter than three characters, and so is its key. */
  lemma SentinelKeyShort(s: string)
    requires IsLabCodeSentinel(s)
    ensures |LabCodeKey(s)| <= 2
  {
    assert |s| <= 2;
  }

  /** Lab codes that differ only in letter case and whitespace parse to the same value. */
  lemma ParseLabCodeInsensitive(a: string, b: string)
    requires LabCodeKey(a) == LabCodeKey(b)
    ensures ParseLabCode(a) == ParseLabCode(b)
  {
    ParseLabCodeByKey(a);
    ParseLabCodeByKey(b);
  }

  /** Lower-casing a lab code first does not change what is parsed. */
  lemma ParseLabCodeLower(code: string)
    ensures ParseLabCode(Lower(code)) == ParseLabCode(code)
  {
    UpperOfLower(code);
    ParseLabCodeInsensitive(Lower(code), code);
  }

  /** A cleaned lab code parses to itself. */
  lemma ParseLabCodeIdempotent(code: string)
    requires ParseLabCode(code).Some?
    ensures ParseLabCode(ParseLabCode(code).value) == ParseLabCode(code)
  {
    var c := ParseLabCode(code).value;
    UpperNoLower(c);
    RemoveSpacesNone(c);
    ParseLabCodeByKey(c);
  }

  // ---------------------------------------------------------------------------
  // Citations
  // ---------------------------------------------------------------------------

  /** The dictionary `parse_citation` returns. */
  datatype Citation = Citation(citation: string, author: Option<string>, year: Option<int>, title: Option<string>)

  /**
   * The regular expression `\b(19\d{2}|20\d{2})\b` matches at index `i`:
   * `19dd` or `20dd` there, with no word character on either side.
   */
  predicate YearAt(t: string, i: int) {
    0 <= i && i + 4 <= |t|
    && ((t[i] == '1' && t[i + 1] == '9') || (t[i] == '2' && t[i + 1] == '0'))
    && IsDigit(t[i + 2]) && IsDigit(t[i + 3])
    && (i == 0 || !IsWordChar(t[i - 1]))
    && (i + 4 == |t| || !IsWordChar(t[i + 4]))
  }

  /** The first index at or after `k` where a year token starts, as `re.search` finds it. */
  function FirstYearFrom(t: string, k: nat): (r: Option<nat>)
    requires k <= |t|
    ensures r.Some? ==> k <= r.value && YearAt(t, r.value)
    decreases |t| - k
  {
    if YearAt(t, k) then Some(k)
    else if k == |t| then None
    else FirstYearFrom(t, k + 1)
  }

  /** The index found is the first token at or after `k`; none is found only when there is none. */
  lemma {:induction false} FirstYearFromFirst(t: string, k: nat)
    requires k <= |t|
    ensures var r := FirstYearFrom(t, k);
      (r.Some? ==> forall j :: k <= j < r.value ==> !YearAt(t, j))
      && (r.None? ==> forall j :: k <= j <= |t| ==> !YearAt(t, j))
    decreases |t| - k
  {
    if !YearAt(t, k) && k < |t| {
      FirstYearFromFirst(t, k + 1);
    }
  }

  /** The integer value of the four-digit token at `i`. */
  function YearValue(t: string, i: nat): (y: int)
    requires YearAt(t, i)
    ensures 1900 <= y <= 2099
  {
    1000 * DigitValue(t[i]) + 100 * DigitValue(t[i + 1]) + 10 * DigitValue(t[i + 2]) + DigitValue(t[i + 3])
  }

  predicate IsCitationPunct(c: char) {
    c == ',' || c == '.' || c == '(' || c == ')'
  }

  /** `re.sub(r'[,\.\(\)]+$', '', s)`: the trailing run of `,.()` removed. */
  function DropTrailingPunct(s: string): (r: string)
    ensures |r| <= |s| && r == s[..|r|]
    ensures r == [] || !IsCitationPunct(r[|r| - 1])
    ensures forall i :: |r| <= i < |s| ==> IsCitationPunct(s[i])
  {
    if s != [] && IsCitationPunct(s[|s| - 1]) then DropTrailingPunct(s[..|s| - 1]) else s
  }

  /** The author `parse_citation` reads from the text before a year token at `i`. */
  function AuthorBefore(t: string, i: nat): (r: Option<string>)
    requires i <= |t|
    ensures r.Some? ==> r.value != [] && !IsSpace(r.value[0]) && !IsCitationPunct(r.value[|r.value| - 1])
    ensures r.Some? ==> StartsWith(Strip(t[..i]), r.value)
    ensures r.None? ==> forall j :: 0 <= j < |Strip(t[..i])| ==> IsCitationPunct(Strip(t[..i])[j])
  {
    var a := DropTrailingPunct(Strip(t[..i]));
    if a == [] then None else Some(a)
  }

  /** `parse_citation` */
  function ParseCitation(text: string): (r: Citation)
    ensures r.citation == text && r.title.None?
    ensures r.author.Some? ==> r.year.Some?
  {
    if text == [] then Citation(text, None, None, None)
    else
      match FirstYearFrom(text, 0)
      case None => Citation(text, None, None, None)
      case Some(i) => Citation(text, AuthorBefore(text, i), Some(YearValue(text, i)), None)
  }

  /** A year is found exactly when the text holds a year token somewhere. */
  lemma ParseCitationYearIff(text: string)
    ensures ParseCitation(text).year.Some? <==> exists i :: 0 <= i <= |text| && YearAt(text, i)
  {
    if text != [] {
      var f := FirstYearFrom(text, 0);
      FirstYearFromFirst(text, 0);
      if f.Some? {
        assert YearAt(text, f.value);
      }
    }
  }

  /** The year and author come from the first year token. */
  lemma ParseCitationFirst(text: string, i: nat)
    requires i <= |text| && YearAt(text, i)
    requires forall j :: 0 <= j < i ==> !YearAt(text, j)
    ensures ParseCitation(text).year == Some(YearValue(text, i))
    ensures ParseCitation(text).author == AuthorBefore(text, i)
  {
    var f := FirstYearFrom(text, 0);
    FirstYearFromFirst(text, 0);
    assert f.Some? && f.value == i;
  }

  /**
   * An author followed by a bracketed year. Whitespace is stripped before the
   * bracket is dropped, so the space in front of the bracket stays in the author.
   */
  lemma ParseCitationExample()
    ensures ParseCitation("Smith (1985)") == Citation("Smith (1985)", Some("Smith "), Some(1985), None)
  {
    var t := "Smith (1985)";
    CitationExampleYear();
    ParseCitationFirst(t, 7);
    CitationExampleAuthor();
  }

  lemma CitationExampleYear()
    ensures YearAt("Smith (1985)", 7) && YearValue("Smith (1985)", 7) == 1985
    ensures forall j :: 0 <= j < 7 ==> !YearAt("Smith (1985)", j)
  {
  }

  lemma CitationExampleAuthor()
    ensures AuthorBefore("Smith (1985)", 7) == Some("Smith ")
  {
    var t := "Smith (1985)";
    assert t[..7] == "Smith (";
    StripUnchanged("Smith (");
    assert DropTrailingPunct("Smith (") == "Smith ";
  }

  /** Four digits inside a longer number are no year: the token needs a word boundary on both sides. */
  lemma ParseCitationNoBoundary()
    ensures ParseCitation("MS 219851").year.None?
  {
    NoBoundaryTokens();
    ParseCitationYearIff("MS 219851");
  }

  lemma NoBoundaryTokens()
    ensures forall i :: 0 <= i <= |"MS 219851"| ==> !YearAt("MS 219851", i)
  {
  }

  // ---------------------------------------------------------------------------
  // Site names
  // ---------------------------------------------------------------------------

  /** `re.sub(r'[^\w\s]', ' ', s)`: every character that is neither a word character nor whitespace becomes a space. */
  function PunctToSpace(s: string): (r: string)
    ensures |r| == |s|
    ensures forall i :: 0 <= i < |s| ==> r[i] == (if IsWordChar(s[i]) || IsSpace(s[i]) then s[i] else ' ')
  {
    if s == [] then [] else [if IsWordChar(s[0]) || IsSpace(s[0]) then s[0] else ' '] + PunctToSpace(s[1..])
  }

  /** `normalize_site_name`: lower-case, punctuation to spaces, whitespace runs collapsed to one space. */
  function NormalizeSiteName(name: string): string {
    if name == [] then [] else Join(Split(PunctToSpace(Lower(name))))
  }

  /** A character `normalize_site_name` can emit: a space, or a word character that is not an upper-case letter. */
  predicate IsSiteNameChar(c: char) {
    c == ' ' || (IsWordChar(c) && !IsUpperLetter(c))
  }

  /**
   * The normalised name is lower-case word characters and single spaces, has
   * no space at either end, and splits back into exactly its words.
   */
  lemma NormalizeSiteNameShape(name: string)
    ensures forall k :: 0 <= k < |NormalizeSiteName(name)| ==> IsSiteNameChar(NormalizeSiteName(name)[k])
    ensures Join(Split(NormalizeSiteName(name))) == NormalizeSiteName(name)
  {
    if name != [] {
      var s := PunctToSpace(Lower(name));
      var ok := (c: char) => !IsUpperLetter(c) && (IsWordChar(c) || IsSpace(c));
      assert forall i :: 0 <= i < |s| ==> ok(s[i]);
      SplitKeeps(s, ok);
      SplitWords(s);
      var ws := Split(s);
      forall i, j | 0 <= i < |ws| && 0 <= j < |ws[i]| ensures IsSiteNameChar(ws[i][j]) {
        assert ok(ws[i][j]);
        assert !IsSpace(ws[i][j]) by { assert IsWord(ws[i]); }
      }
      JoinKeeps(ws, IsSiteNameChar);
      SplitJoin(ws);
    }
  }

  /** A name already in the normalised shape is its own normalisation. */
  lemma NormalizeSiteNameFixed(o: string)
    requires forall k :: 0 <= k < |o| ==> IsSiteNameChar(o[k])
    requires Join(Split(o)) == o
    ensures NormalizeSiteName(o) == o
  {
    if o != [] {
      LowerNoUpper(o);
      PunctToSpaceNone(o);
      assert PunctToSpace(Lower(o)) == o;
    }
  }

  lemma PunctToSpaceNone(s: string)
    requires forall k :: 0 <= k < |s| ==> IsSiteNameChar(s[k])
    ensures PunctToSpace(s) == s
  {
    forall k | 0 <= k < |s| ensures PunctToSpace(s)[k] == s[k] {
      assert IsWordChar(s[k]) || IsSpace(s[k]);
    }
  }

  /** Normalising a normalised name changes nothing. */
  lemma NormalizeSiteNameIdempotent(name: string)
    ensures NormalizeSiteName(NormalizeSiteName(name)) == NormalizeSiteName(name)
  {
    NormalizeSiteNameShape(name);
    NormalizeSiteNameFixed(NormalizeSiteName(name));
  }

  /** Letter case does not matter to the normalised name. */
  lemma NormalizeSiteNameUpper(name: string)
    ensures NormalizeSiteName(Upper(name)) == NormalizeSiteName(name)
  {
    LowerOfUpper(name);
  }

  /** The key the site lookup compares, `LOWER(REPLACE(name, ' ', ''))`, one character at a time. */
  function SiteNameKey(name: string): (k: string)
    ensures ' ' !in k
  {
    if name == [] then []
    else if name[0] == ' ' then SiteNameKey(name[1..])
    else [LowerChar(name[0])] + SiteNameKey(name[1..])
  }

  /** The key is the name with its spaces removed, then lowercased. */
  lemma {:induction false} SiteNameKeyDef(name: string)
    ensures SiteNameKey(name) == Lower(RemoveChar(name, ' '))
  {
    if name != [] {
      SiteNameKeyDef(name[1..]);
      if name[0] != ' ' {
        var t := RemoveChar(name[1..], ' ');
        assert ([name[0]] + t)[1..] == t;
      }
    }
  }

  /** Names that agree up to letter case have the same key. */
  lemma SiteNameKeyCaseless(a: string, b: string)
    requires Lower(a) == Lower(b)
    ensures SiteNameKey(a) == SiteNameKey(b)
  {
    SiteNameKeyDef(a);
    SiteNameKeyDef(b);
    RemoveCharLower(a);
    RemoveCharLower(b);
    LowerTwice(RemoveChar(a, ' '));
    LowerTwice(RemoveChar(b, ' '));
  }

  /** The key of a concatenation is the concatenation of the keys. */
  lemma {:induction false} SiteNameKeyConcat(a: string, b: string)
    ensures SiteNameKey(a + b) == SiteNameKey(a) + SiteNameKey(b)
  {
    if a == [] {
      assert a + b == b;
    } else {
      var ab := a + b;
      assert ab[0] == a[0] && ab[1..] == a[1..] + b;
      SiteNameKeyConcat(a[1..], b);
      if a[0] != ' ' {
        ConcatAssoc([LowerChar(a[0])], SiteNameKey(a[1..]), SiteNameKey(b));
      }
    }
  }

  /** Spaces do not matter to the key: inserting one changes nothing. */
  lemma SiteNameKeySpace(a: string, b: string)
    ensures SiteNameKey(a + " " + b) == SiteNameKey(a + b)
  {
    SiteNameKeyConcat(a + " ", b);
    SiteNameKeyConcat(a, " ");
    SiteNameKeyConcat(a, b);
    assert SiteNameKey(" ") == [];
    assert SiteNameKey(a) + [] == SiteNameKey(a);
  }
}

/** The avatar fallback of the user menu: the initials of the user's name.

    Splitting is stated for any separator class `sep`; the menu splits at JavaScript's
    white space (`Text.IsSpace`). */
module UserMenu {
  import opened Text

  /** s holds no separator. */
  predicate NoSep(s: string, sep: char -> bool) { forall k :: 0 <= k < |s| ==> !sep(s[k]) }

  /** The index of the first separator, or -1 when there is none. */
  function FirstSep(s: string, sep: char -> bool): (i: int)
    ensures -1 <= i < |s|
    ensures i == -1 <==> NoSep(s, sep)
    ensures i >= 0 ==> sep(s[i]) && NoSep(s[..i], sep)
  {
    if |s| == 0 then -1
    else if sep(s[0]) then 0
    else
      var i := FirstSep(s[1..], sep);
      if i == -1 then -1 else i + 1
  }

  /** The end of the run of separators that starts at i. */
  function SepRunEnd(s: string, i: nat, sep: char -> bool): (j: nat)
    requires i < |s| && sep(s[i])
    ensures i < j <= |s| && sep(s[j - 1])
    ensures forall k :: i <= k < j ==> sep(s[k])
    ensures j < |s| ==> !sep(s[j])
    decreases |s| - i
  {
    if i + 1 < |s| && sep(s[i + 1]) then SepRunEnd(s, i + 1, sep) else i + 1
  }

  /** w is the first word of s: a prefix that runs up to the first separator. */
  predicate StartsWithWord(s: string, w: string, sep: char -> bool) {
    |w| <= |s| && s[..|w|] == w && (|w| == |s| || sep(s[|w|]))
  }

  /** w is the last word of s: a suffix that starts after the last separator. */
  predicate EndsWithWord(s: string, w: string, sep: char -> bool) {
    |w| <= |s| && s[|s| - |w|..] == w && (|w| == |s| || sep(s[|s| - |w| - 1]))
  }

  /** The last word of what follows a separator is the last word of the whole. */
  lemma EndsWithWordAfterSep(s: string, j: nat, w: string, sep: char -> bool)
    requires 0 < j <= |s| && sep(s[j - 1]) && EndsWithWord(s[j..], w, sep)
    ensures EndsWithWord(s, w, sep)
  {
    assert s[j..][|s[j..]| - |w|..] == s[|s| - |w|..];
    if |w| < |s[j..]| {
      assert s[j..][|s[j..]| - |w| - 1] == s[|s| - |w| - 1];
    }
  }

  /** `s.split(re)` for a regular expression `re` matching runs of separators: the pieces
      between the runs, with an empty first (last) piece when s starts (ends) with a
      separator, and `[""]` for "". */
  function Split(s: string, sep: char -> bool): (parts: seq<string>)
    ensures |parts| >= 1
    ensures |parts| == 1 <==> NoSep(s, sep)
    ensures |parts| == 1 ==> parts[0] == s
    decreases |s|
  {
    var i := FirstSep(s, sep);
    if i == -1 then [s]
    else
      var j := SepRunEnd(s, i, sep);
      [s[..i]] + Split(s[j..], sep)
  }

  /** No piece holds a separator. */
  lemma {:induction false} SplitPiecesHaveNoSep(s: string, sep: char -> bool)
    ensures forall k :: 0 <= k < |Split(s, sep)| ==> NoSep(Split(s, sep)[k], sep)
    decreases |s|
  {
    var i := FirstSep(s, sep);
    if i != -1 {
      var j := SepRunEnd(s, i, sep);
      SplitPiecesHaveNoSep(s[j..], sep);
      assert Split(s, sep) == [s[..i]] + Split(s[j..], sep);
    }
  }

  /** The first piece is the first word. */
  lemma SplitFirst(s: string, sep: char -> bool)
    ensures StartsWithWord(s, Split(s, sep)[0], sep)
  {
    var i := FirstSep(s, sep);
    if i == -1 {
      assert s[..|s|] == s;
    }
  }

  /** The last piece is the last word. */
  lemma {:induction false} SplitEnds(s: string, sep: char -> bool)
    ensures EndsWithWord(s, Last(Split(s, sep)), sep)
    decreases |s|
  {
    var i := FirstSep(s, sep);
    if i == -1 {
      assert s[0..] == s;
    } else {
      var j := SepRunEnd(s, i, sep);
      var rest := Split(s[j..], sep);
      SplitEnds(s[j..], sep);
      EndsWithWordAfterSep(s, j, Last(rest), sep);
      LastAppend([s[..i]], rest);
    }
  }

  function Last(parts: seq<string>): string
    requires |parts| > 0
  {
    parts[|parts| - 1]
  }

  lemma LastAppend(a: seq<string>, b: seq<string>)
    requires |b| > 0
    ensures Last(a + b) == Last(b)
  {
  }

  /** `getInitials` as written: "?" for the empty name; otherwise the trimmed name is
      split at white space, and a single word gives its first two letters, several words
      the first letters of the first and the last word, upper-cased. */
  function GetInitials(name: string): (r: string)
    ensures name == "" ==> r == "?"
    ensures name != "" ==> |r| == (if |Trim(name)| < 2 then |Trim(name)| else 2)
  {
    if name == "" then "?"
    else
      var t := Trim(name);
      var parts := Split(t, IsSpace);
      if |parts| == 1 then Upper(parts[0][..if |parts[0]| < 2 then |parts[0]| else 2])
      else
        TrimBorders(name);
        SplitFirst(t, IsSpace);
        SplitEnds(t, IsSpace);
        Upper([parts[0][0], Last(parts)[0]])
  }

  /** The initials of a name with a visible character start with that character,
      upper-cased; a one-word name continues with its second character. */
  lemma InitialsOfName(name: string)
    requires name != "" && Trim(name) != ""
    ensures GetInitials(name)[0] == UpperChar(Trim(name)[0])
    ensures NoSep(Trim(name), IsSpace) && |Trim(name)| >= 2 ==> GetInitials(name)[1] == UpperChar(Trim(name)[1])
  {
    var t := Trim(name);
    SplitFirst(t, IsSpace);
    var w := Split(t, IsSpace)[0];
    assert t[..|w|] == w;
  }

  /** A name of several words ends its initials with the first character of the last
      word, upper-cased. */
  lemma InitialsOfWords(name: string)
    requires name != "" && !NoSep(Trim(name), IsSpace)
    ensures var t := Trim(name);
            exists k :: 0 < k < |t| && IsSpace(t[k - 1]) && NoSep(t[k..], IsSpace)
                        && GetInitials(name)[1] == UpperChar(t[k])
  {
    var t := Trim(name);
    var parts := Split(t, IsSpace);
    TrimBorders(name);
    SplitEnds(t, IsSpace);
    SplitPiecesHaveNoSep(t, IsSpace);
    var last := Last(parts);
    assert NoSep(parts[|parts| - 1], IsSpace);
    var k := |t| - |last|;
    assert t[k..] == last;
    assert GetInitials(name)[1] == UpperChar(last[0]);
  }

  /** A name of blanks only gets no initials at all: its trim is "", which splits into
      one empty word. */
  lemma BlankNameHasNoInitials(name: string)
    requires name != "" && AllSpace(name)
    ensures GetInitials(name) == ""
  {
    TrimEmptyIffAllSpace(name);
  }

  /** The initials as evidently intended: "?" whenever the name has no visible character,
      the rule above otherwise, so the avatar is never blank. */
  function Initials(name: string): (r: string)
    ensures 1 <= |r| <= 2
    ensures AllSpace(name) ==> r == "?"
    ensures !AllSpace(name) ==> r == GetInitials(name)
  {
    TrimEmptyIffAllSpace(name);
    if Trim(name) == "" then "?" else GetInitials(name)
  }
}

/**
 * The sidebar's `getInitials`: the upper-cased first letters of the first two words of the
 * user's name.
 */
module SideBar {
  import opened Wrappers
  import opened JsText

  /** Length of the leading run of characters that are not whitespace. */
  function WordLength(s: string): (k: nat)
    ensures k <= |s|
    ensures forall i :: 0 <= i < k ==> !IsSpace(s[i])
    ensures k < |s| ==> IsSpace(s[k])
  {
    if s == [] || IsSpace(s[0]) then 0 else 1 + WordLength(s[1..])
  }

  /** Length of the leading run of whitespace. */
  function SpaceRun(s: string): (k: nat)
    ensures k <= |s|
    ensures forall i :: 0 <= i < k ==> IsSpace(s[i])
    ensures k < |s| ==> !IsSpace(s[k])
  {
    if s != [] && IsSpace(s[0]) then 1 + SpaceRun(s[1..]) else 0
  }

  /** `s.split(/\s+/)`: the pieces between runs of whitespace; an empty text gives one empty piece. */
  function SplitWs(s: string): (parts: seq<string>)
    ensures |parts| >= 1
    ensures forall i, j :: 0 <= i < |parts| && 0 <= j < |parts[i]| ==> !IsSpace(parts[i][j])
    decreases |s|
  {
    var k := WordLength(s);
    if k == |s| then [s]
    else
      var rest := s[k..];
      [s[..k]] + SplitWs(rest[SpaceRun(rest)..])
  }

  /** Words: none empty, and no whitespace in any. */
  predicate AreWords(words: seq<string>) {
    forall i :: 0 <= i < |words| ==> words[i] != [] && forall j :: 0 <= j < |words[i]| ==> !IsSpace(words[i][j])
  }

  /** Words separated by single spaces. */
  function Join(words: seq<string>): (s: string)
    requires |words| >= 1
    ensures |s| >= |words[0]| && s[..|words[0]|] == words[0]
  {
    if |words| == 1 then words[0] else words[0] + " " + Join(words[1..])
  }

  /** The last character of a joined text is that of the last word. */
  lemma {:induction false} JoinEndsWithLastWord(words: seq<string>)
    requires |words| >= 1 && AreWords(words)
    ensures var s := Join(words); s != [] && s[|s| - 1] == words[|words| - 1][|words[|words| - 1]| - 1]
  {
    if |words| > 1 {
      var tail := Join(words[1..]);
      JoinEndsWithLastWord(words[1..]);
      var s := words[0] + " " + tail;
      assert s[|s| - 1] == tail[|tail| - 1];
    }
  }

  /** A word followed by nothing or by whitespace: its word length is the word's. */
  lemma {:induction false} WordLengthOfWordThenSpace(w: string, rest: string)
    requires forall j :: 0 <= j < |w| ==> !IsSpace(w[j])
    requires rest == [] || IsSpace(rest[0])
    ensures WordLength(w + rest) == |w|
  {
    if w == [] {
      assert w + rest == rest;
    } else {
      assert (w + rest)[1..] == w[1..] + rest;
      WordLengthOfWordThenSpace(w[1..], rest);
    }
  }

  /** Splitting undoes joining, for words. */
  lemma {:induction false} SplitJoin(words: seq<string>)
    requires |words| >= 1 && AreWords(words)
    ensures SplitWs(Join(words)) == words
  {
    var w := words[0];
    var s := Join(words);
    if |words| == 1 {
      WordLengthOfWordThenSpace(w, []);
      assert w + [] == w;
    } else {
      var tail := Join(words[1..]);
      assert s == w + (" " + tail);
      WordLengthOfWordThenSpace(w, " " + tail);
      var rest := s[|w|..];
      assert rest == " " + tail;
      assert tail[0] == words[1][0];
      assert rest[1..] == tail;
      assert SpaceRun(rest) == 1 + SpaceRun(tail);
      assert SpaceRun(tail) == 0;
      SplitJoin(words[1..]);
      assert s[..|w|] == w;
      assert words == [w] + words[1..];
    }
  }

  /** A text with no whitespace at either end splits into words. */
  lemma {:induction false} SplitTrimmedGivesWords(t: string)
    requires t != [] && !IsSpace(t[0]) && !IsSpace(t[|t| - 1])
    ensures forall i :: 0 <= i < |SplitWs(t)| ==> SplitWs(t)[i] != []
    ensures SplitWs(t)[0][0] == t[0]
    decreases |t|
  {
    var k := WordLength(t);
    assert k > 0;
    if k < |t| {
      var rest := t[k..];
      var r := SpaceRun(rest);
      assert rest[|rest| - 1] == t[|t| - 1];
      assert r < |rest|;
      var next := rest[r..];
      assert next[|next| - 1] == t[|t| - 1];
      SplitTrimmedGivesWords(next);
      assert SplitWs(t) == [t[..k]] + SplitWs(next);
    }
  }

  /** Trimming a text with no whitespace at either end leaves it as it is. */
  lemma TrimUnpadded(t: string)
    requires t != [] && !IsSpace(t[0]) && !IsSpace(t[|t| - 1])
    ensures Trim(t) == t
  {
  }

  /** The message of the TypeError a whitespace-only name raises. */
  const UndefinedUpperCase: string := "Cannot read properties of undefined (reading 'toUpperCase')"

  /** Upper-cased first character, as a one-character text. */
  function Initial(w: string): string
    requires w != []
  {
    [UpperChar(w[0])]
  }

  /**
   * `getInitials(name)`. No name or an empty one gives ""; a name of whitespace only has
   * nothing to take a first letter from and throws.
   */
  function GetInitials(name: Option<string>): (r: Result<string, string>)
    ensures name.None? || name == Some("") ==> r == Ok("")
    ensures r.Err? <==> name.Some? && name.value != "" && Trim(name.value) == ""
    ensures r.Err? ==> r.error == UndefinedUpperCase
    ensures r.Ok? ==> |r.value| <= 2
    ensures r.Ok? && name.Some? && Trim(name.value) != "" ==>
      |r.value| >= 1 && r.value[0] == UpperChar(Trim(name.value)[0])
    ensures r.Ok? && name.Some? && Trim(name.value) != "" ==>
      (|r.value| == 2 <==> |SplitWs(Trim(name.value))| >= 2)
  {
    if name.None? || name.value == "" then Ok("")
    else
      var t := Trim(name.value);
      var parts := SplitWs(t);
      if |parts| == 1 then
        if parts[0] == "" then Err(UndefinedUpperCase)
        else
          SplitTrimmedGivesWords(t);
          Ok(Initial(parts[0]))
      else
        assert t != [];
        SplitTrimmedGivesWords(t);
        Ok(Initial(parts[0]) + Initial(parts[1]))
  }

  /** The initials of a joined name, once it is known to split back into its words. */
  lemma {:induction false} JoinedNameSplits(words: seq<string>)
    requires |words| >= 1 && AreWords(words)
    ensures var s := Join(words); s != "" && Trim(s) != "" && SplitWs(Trim(s)) == words
  {
    var s := Join(words);
    JoinEndsWithLastWord(words);
    assert s[0] == words[0][0];
    TrimUnpadded(s);
    SplitJoin(words);
  }

  /** A one-word name gives that word's first letter, upper-cased. */
  lemma InitialsOfOneWord(w: string)
    requires w != [] && forall j :: 0 <= j < |w| ==> !IsSpace(w[j])
    ensures GetInitials(Some(w)) == Ok(Initial(w))
  {
    assert [w][0] == w;
    JoinedNameSplits([w]);
  }

  /**
   * A name of two or more words separated by single spaces gives the first letters of the
   * first two words, upper-cased.
   */
  lemma InitialsOfSeveralWords(words: seq<string>)
    requires |words| >= 2 && AreWords(words)
    ensures GetInitials(Some(Join(words))) == Ok(Initial(words[0]) + Initial(words[1]))
  {
    JoinedNameSplits(words);
    InitialsOfSplit(Join(words));
  }

  /** Words after the second make no difference. */
  lemma LaterWordsIgnored(words: seq<string>)
    requires |words| >= 2 && AreWords(words)
    ensures GetInitials(Some(Join(words))) == GetInitials(Some(Join(words[..2])))
  {
    var two := words[..2];
    assert AreWords(two) by {
      assert two[0] == words[0] && two[1] == words[1];
    }
    InitialsOfSeveralWords(words);
    InitialsOfSeveralWords(two);
  }

  lemma InitialsOfSplit(s: string)
    requires s != "" && Trim(s) != "" && |SplitWs(Trim(s))| >= 2
    ensures SplitWs(Trim(s))[0] != [] && SplitWs(Trim(s))[1] != []
    ensures GetInitials(Some(s)) == Ok(Initial(SplitWs(Trim(s))[0]) + Initial(SplitWs(Trim(s))[1]))
  {
    SplitTrimmedGivesWords(Trim(s));
  }

  /** Whitespace around the name changes nothing. */
  lemma InitialsIgnoreSurroundingSpace(ws: string, name: string, ws2: string)
    requires forall i :: 0 <= i < |ws| ==> IsSpace(ws[i])
    requires forall i :: 0 <= i < |ws2| ==> IsSpace(ws2[i])
    requires name != "" && !IsSpace(name[0]) && !IsSpace(name[|name| - 1])
    ensures GetInitials(Some(ws + name + ws2)) == GetInitials(Some(name))
  {
    TrimSkipsPadding(ws, name, ws2);
    TrimUnpadded(name);
  }

  /** A name of one space passes the caller's truthiness check and then throws. */
  lemma WhitespaceNameThrows()
    ensures GetInitials(Some(" ")) == Err(UndefinedUpperCase)
  {
    assert Trim(" ") == [];
  }

  /**
   * `getInitials` as evidently intended: a name with no letter to take gives "" instead of
   * throwing, and every other name gives what `getInitials` gives.
   */
  function Initials(name: Option<string>): (r: string)
    ensures |r| <= 2
    ensures GetInitials(name).Ok? ==> r == GetInitials(name).value
    ensures r == "" <==> name.None? || Trim(name.value) == ""
  {
    match GetInitials(name)
    case Ok(v) => v
    case Err(_) => ""
  }
}

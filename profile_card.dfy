/** `getInitials` of the profile card: up to two upper-cased word initials, or "U". */
module ProfileCard {
  import opened Results
  import Ascii

  /** `s.split(' ')`: the pieces between single space characters, empty
      pieces included, so n spaces give n + 1 pieces. */
  function Split(s: string): (r: seq<string>)
    ensures |r| >= 1
    ensures forall p :: p in r ==> ' ' !in p
  {
    if s == [] then [""]
    else
      var rest := Split(s[1..]);
      if s[0] == ' ' then [""] + rest
      else [[s[0]] + rest[0]] + rest[1..]
  }

  /** `pieces.join(sep)`. */
  function Join(pieces: seq<string>, sep: char): string
  {
    if |pieces| == 0 then ""
    else if |pieces| == 1 then pieces[0]
    else pieces[0] + [sep] + Join(pieces[1..], sep)
  }

  /** Joining the pieces with a space gives back the name: only the space
      character separates, every other character stays inside a piece. */
  lemma {:induction false} SplitJoinRoundTrip(s: string)
    ensures Join(Split(s), ' ') == s
  {
    if s != [] {
      var rest := Split(s[1..]);
      SplitJoinRoundTrip(s[1..]);
      if s[0] == ' ' {
        assert ([""] + rest)[1..] == rest;
      } else {
        var r := [[s[0]] + rest[0]] + rest[1..];
        if |rest| == 1 {
          assert r == [[s[0]] + rest[0]];
        } else {
          assert r[1..] == rest[1..];
        }
      }
    }
  }

  /** `.map(n => n[0]).join('')`: the first character of every piece; an empty
      piece's `n[0]` is undefined and joins as nothing. */
  function FirstChars(pieces: seq<string>): (r: string)
    ensures |r| <= |pieces|
  {
    if pieces == [] then ""
    else (if pieces[0] == "" then "" else [pieces[0][0]]) + FirstChars(pieces[1..])
  }

  /** `s.slice(0, 2)`. */
  function FirstTwo(s: string): string
  {
    if |s| <= 2 then s else s[..2]
  }

  /** `getInitials(name)`: an absent name gives "U"; otherwise the first
      characters of the space-separated pieces, upper-cased, at most two,
      and "U" when that is empty. */
  function GetInitials(name: Option<string>): (r: string)
    ensures 1 <= |r| <= 2
    ensures name.None? ==> r == "U"
  {
    match name
    case None => "U"
    case Some(s) =>
      var initials := FirstTwo(Ascii.Upper(FirstChars(Split(s))));
      if initials != "" then initials else "U"
  }

  /** Reference definition: the characters that start a word, that is, every
      non-space character at the start of `s` (when `atStart`) or after a space. */
  function WordStarts(s: string, atStart: bool): string
  {
    if s == [] then ""
    else (if s[0] != ' ' && atStart then [s[0]] else "") + WordStarts(s[1..], s[0] == ' ')
  }

  /** The split-and-take-firsts chain picks exactly the word starts. */
  lemma {:induction false} FirstCharsAreWordStarts(s: string, atStart: bool)
    ensures WordStarts(s, atStart) == if atStart then FirstChars(Split(s)) else FirstChars(Split(s)[1..])
  {
    if s != [] {
      var rest := Split(s[1..]);
      FirstCharsAreWordStarts(s[1..], s[0] == ' ');
      if s[0] == ' ' {
        assert ([""] + rest)[1..] == rest;
      } else {
        FirstCharsAreWordStarts(s[1..], false);
        var r := [[s[0]] + rest[0]] + rest[1..];
        assert r[1..] == rest[1..];
        assert r[0][0] == s[0];
      }
    } else {
      assert Split(s)[1..] == [];
    }
  }

  /** The initials of a name are its first two word starts, upper-cased, or
      "U" when the name has no word. */
  lemma InitialsAreWordStarts(s: string)
    ensures var w := Ascii.Upper(WordStarts(s, true));
      GetInitials(Some(s)) == if w == "" then "U" else w[..if |w| <= 2 then |w| else 2]
  {
    FirstCharsAreWordStarts(s, true);
  }

  /** A string of spaces only has no word start. */
  lemma {:induction false} BlankHasNoWordStarts(s: string, atStart: bool)
    requires forall i :: 0 <= i < |s| ==> s[i] == ' '
    ensures WordStarts(s, atStart) == ""
  {
    if s != [] {
      BlankHasNoWordStarts(s[1..], true);
    }
  }

  /** An empty name, or one of spaces only, gives "U". */
  lemma BlankNameGivesU(s: string)
    requires forall i :: 0 <= i < |s| ==> s[i] == ' '
    ensures GetInitials(Some(s)) == "U"
  {
    BlankHasNoWordStarts(s, true);
    InitialsAreWordStarts(s);
  }

  /** A name that starts with a word gives that word's initial first. */
  lemma FirstInitialIsFirstLetter(s: string)
    requires s != [] && s[0] != ' '
    ensures GetInitials(Some(s))[0] == Ascii.ToUpper(s[0])
  {
    InitialsAreWordStarts(s);
  }

  /** A doubled space adds no initial: "a  b" gives "AB". */
  lemma DoubledSpaceExample()
    ensures GetInitials(Some("a  b")) == "AB"
  {
    assert WordStarts("b", true) == "b";
    assert WordStarts(" b", true) == "b";
    assert WordStarts("  b", false) == "b";
    assert WordStarts("a  b", true) == "ab";
    InitialsAreWordStarts("a  b");
  }

  /** A tab does not separate words: "a\tb" gives "A". */
  lemma TabExample()
    ensures GetInitials(Some("a\tb")) == "A"
  {
    assert WordStarts("b", false) == "";
    assert WordStarts("\tb", false) == "";
    assert WordStarts("a\tb", true) == "a";
    InitialsAreWordStarts("a\tb");
  }

  /** Only two initials are kept: "a b c" gives "AB". */
  lemma ThreeWordsExample()
    ensures GetInitials(Some("a b c")) == "AB"
  {
    assert WordStarts("c", true) == "c";
    assert WordStarts(" c", false) == "c";
    assert WordStarts("b c", true) == "bc";
    assert WordStarts(" b c", false) == "bc";
    assert WordStarts("a b c", true) == "abc";
    InitialsAreWordStarts("a b c");
  }
}

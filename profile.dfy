/** `getInitials` and `handleLogout` of src/pages/Profile.jsx. */
module Profile {
  import opened Session

  /** `String.prototype.split(" ")`: the pieces between single spaces, always at least one;
      "" gives [""] and every space starts a new, possibly empty, piece. */
  function SplitSpaces(s: string): (pieces: seq<string>)
    ensures |pieces| >= 1
    ensures forall i :: 0 <= i < |pieces| ==> ' ' !in pieces[i]
    decreases |s|
  {
    if s == [] then [""]
    else if s[0] == ' ' then [""] + SplitSpaces(s[1..])
    else
      var rest := SplitSpaces(s[1..]);
      [[s[0]] + rest[0]] + rest[1..]
  }

  /** Joining the pieces with single spaces. */
  function JoinSpaces(pieces: seq<string>): string
    requires |pieces| >= 1
  {
    if |pieces| == 1 then pieces[0] else pieces[0] + " " + JoinSpaces(pieces[1..])
  }

  /** Splitting loses nothing: joining the pieces back gives the original text. */
  lemma {:induction false} SplitJoin(s: string)
    ensures JoinSpaces(SplitSpaces(s)) == s
    decreases |s|
  {
    if s == [] {
    } else if s[0] == ' ' {
      SplitJoin(s[1..]);
      var rest := SplitSpaces(s[1..]);
      assert SplitSpaces(s)[1..] == rest;
      assert JoinSpaces(SplitSpaces(s)) == "" + " " + JoinSpaces(rest);
    } else {
      SplitJoin(s[1..]);
      var rest := SplitSpaces(s[1..]);
      var pieces := SplitSpaces(s);
      assert pieces[1..] == rest[1..];
      if |rest| > 1 {
        assert JoinSpaces(rest) == rest[0] + " " + JoinSpaces(rest[1..]);
        assert JoinSpaces(pieces) == [s[0]] + rest[0] + " " + JoinSpaces(rest[1..]);
      }
      assert JoinSpaces(pieces) == [s[0]] + JoinSpaces(rest);
    }
  }

  /** `toUpperCase` on one character: a-z become A-Z, everything else is kept. */
  function Upper(c: char): char {
    if 'a' <= c <= 'z' then (c as int - 'a' as int + 'A' as int) as char else c
  }

  /** `word.charAt(0).toUpperCase()`: "" for an empty piece. */
  function Initial(word: string): string {
    if word == [] then "" else [Upper(word[0])]
  }

  function Initials(pieces: seq<string>): string {
    if pieces == [] then "" else Initial(pieces[0]) + Initials(pieces[1..])
  }

  /** `getInitials(name)`: the initials of the first two pieces, joined. */
  function GetInitials(name: string): string {
    var pieces := SplitSpaces(name);
    Initials(pieces[..if |pieces| < 2 then |pieces| else 2])
  }

  /** The position of the first space, or the length when there is none. */
  function FirstSpace(s: string): (i: nat)
    ensures i <= |s| && ' ' !in s[..i]
    ensures i < |s| ==> s[i] == ' '
  {
    if s == [] then 0
    else if s[0] == ' ' then 0
    else
      assert s[..1 + FirstSpace(s[1..])] == [s[0]] + s[1..][..FirstSpace(s[1..])];
      1 + FirstSpace(s[1..])
  }

  /** The first piece is the text up to the first space, and the remaining pieces are those of
      the text after it. */
  lemma {:induction false} SplitHead(s: string)
    ensures SplitSpaces(s)[0] == s[..FirstSpace(s)]
    ensures FirstSpace(s) < |s| ==> SplitSpaces(s)[1..] == SplitSpaces(s[FirstSpace(s) + 1..])
    ensures FirstSpace(s) == |s| ==> |SplitSpaces(s)| == 1
    decreases |s|
  {
    if s != [] && s[0] != ' ' {
      SplitHead(s[1..]);
      if FirstSpace(s) < |s| {
        assert s[1..][FirstSpace(s[1..]) + 1..] == s[FirstSpace(s) + 1..];
      }
    }
  }

  /** The initials read straight off the text: the upper-cased first character if it is not a
      space, then the upper-cased character right after the first space if there is one and it
      is not a space itself. */
  function InitialsByPosition(name: string): string {
    var i := FirstSpace(name);
    (if i > 0 then [Upper(name[0])] else "")
    + (if i + 1 < |name| && name[i + 1] != ' ' then [Upper(name[i + 1])] else "")
  }

  lemma InitialOfPiece(s: string)
    ensures Initial(SplitSpaces(s)[0]) == if FirstSpace(s) > 0 then [Upper(s[0])] else ""
  {
    SplitHead(s);
  }

  /** `getInitials` agrees with the positional reading, so it has at most two characters, ignores
      every piece after the second, and an empty piece takes a position without adding a character. */
  lemma GetInitialsByPosition(name: string)
    ensures GetInitials(name) == InitialsByPosition(name)
    ensures |GetInitials(name)| <= 2
  {
    var pieces := SplitSpaces(name);
    var i := FirstSpace(name);
    SplitHead(name);
    InitialOfPiece(name);
    if i < |name| {
      var rest := name[i + 1..];
      InitialOfPiece(rest);
      assert pieces[1] == SplitSpaces(rest)[0];
      if |rest| > 0 {
        assert rest[0] == name[i + 1];
        if rest[0] == ' ' { assert FirstSpace(rest) == 0; }
      }
      assert pieces[..2] == [pieces[0], pieces[1]];
      assert pieces[..2][1..] == [pieces[1]] && [pieces[1]][1..] == [];
      assert Initials(pieces[..2]) == Initial(pieces[0]) + Initial(pieces[1]);
    } else {
      assert pieces[..1] == [pieces[0]];
      assert pieces[..1][1..] == [];
      assert Initials(pieces[..1]) == Initial(pieces[0]);
    }
  }

  /** A missing name is passed as "" and gives "". */
  lemma GetInitialsEmpty()
    ensures GetInitials("") == ""
  {
    GetInitialsByPosition("");
  }

  /** Pieces after the second are ignored. */
  lemma GetInitialsThreeWords()
    ensures GetInitials("ada king lovelace") == "AK"
  {
    var name := "ada king lovelace";
    assert FirstSpace(name[3..]) == 0;
    assert FirstSpace(name[2..]) == 1;
    assert FirstSpace(name[1..]) == 2;
    assert FirstSpace(name) == 3;
    assert Upper('a') == 'A' && Upper('k') == 'K';
    GetInitialsByPosition(name);
  }

  /** A single word gives one character. */
  lemma GetInitialsOneWord()
    ensures GetInitials("ada") == "A"
  {
    var name := "ada";
    assert FirstSpace(name[3..]) == 0;
    assert FirstSpace(name[2..]) == 1;
    assert FirstSpace(name[1..]) == 2;
    assert FirstSpace(name) == 3;
    GetInitialsByPosition(name);
  }

  /** A leading space or a double space uses up a position with an empty piece. */
  lemma GetInitialsEmptyPieces()
    ensures GetInitials(" bob") == "B"
    ensures GetInitials("a  b") == "A"
  {
    GetInitialsByPosition(" bob");
    assert FirstSpace(" bob") == 0;
    GetInitialsByPosition("a  b");
    assert FirstSpace("a  b") == 1;
  }

  /** `handleLogout`: the token is removed and the browser goes to the login page. */
  method Logout(browser: Browser)
    modifies browser
    ensures browser.storage == old(browser.storage) - {TokenKey}
    ensures browser.location == "/login"
    ensures !HasToken(browser.storage)
  {
    browser.storage := browser.storage - {TokenKey};
    browser.location := "/login";
  }
}

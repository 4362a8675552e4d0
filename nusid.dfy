/** The NUS-ID check and email normaliser of src/pages/LoginPilot.jsx. */
module NusId {
  import Slots

  /** One position of the pattern `^[Ee]\d{7}(@u.nus.edu)?$`: a literal character, the class
      `[Ee]`, a decimal digit `\d`, or the unescaped dot, which matches anything but a line terminator. */
  datatype Atom = Lit(c: char) | EitherCase | Digit | Dot

  predicate IsLineTerminator(c: char) {
    c == '\n' || c == '\r' || c == '\U{2028}' || c == '\U{2029}'
  }

  predicate Holds(atom: Atom, c: char) {
    match atom
    case Lit(l) => c == l
    case EitherCase => c == 'E' || c == 'e'
    case Digit => Slots.IsDigit(c)
    case Dot => !IsLineTerminator(c)
  }

  /** A fixed-length run of atoms matches a string of the same length position by position. */
  predicate MatchesAll(atoms: seq<Atom>, s: string) {
    |atoms| == |s| && forall i :: 0 <= i < |s| ==> Holds(atoms[i], s[i])
  }

  /** `[Ee]\d{7}` */
  const IdAtoms: seq<Atom> := [EitherCase, Digit, Digit, Digit, Digit, Digit, Digit, Digit]
  /** `@u.nus.edu` with its two unescaped dots. */
  const DomainAtoms: seq<Atom> := [Lit('@'), Lit('u'), Dot, Lit('n'), Lit('u'), Lit('s'), Dot, Lit('e'), Lit('d'), Lit('u')]

  /** `emailRegex.test(email)`: anchored at both ends, with the domain group optional. */
  predicate Accepts(email: string) {
    MatchesAll(IdAtoms, email) || MatchesAll(IdAtoms + DomainAtoms, email)
  }

  /** A direct reading of what the pattern accepts: E or e, seven digits, and optionally
      "@u", any non-terminator, "nus", any non-terminator, "edu". */
  predicate IsNusIdText(s: string) {
    (|s| == 8 || |s| == 18)
    && (s[0] == 'E' || s[0] == 'e')
    && (forall i :: 1 <= i < 8 ==> Slots.IsDigit(s[i]))
    && (|s| == 18 ==>
          s[8..10] == "@u" && !IsLineTerminator(s[10]) && s[11..14] == "nus"
          && !IsLineTerminator(s[14]) && s[15..] == "edu")
  }

  /** The pattern accepts exactly the texts described above; in particular an accepted text has
      length 8 or 18. */
  lemma AcceptsCharacterisation(s: string)
    ensures Accepts(s) <==> IsNusIdText(s)
    ensures Accepts(s) ==> |s| == 8 || |s| == 18
  {
    var all := IdAtoms + DomainAtoms;
    if IsNusIdText(s) {
      if |s| == 8 {
        forall i | 0 <= i < 8 ensures Holds(IdAtoms[i], s[i]) {
        }
      } else {
        forall i | 0 <= i < 18 ensures Holds(all[i], s[i]) {
          if 8 <= i < 10 { assert s[i] == s[8..10][i - 8]; }
          if 11 <= i < 14 { assert s[i] == s[11..14][i - 11]; }
          if 15 <= i { assert s[i] == s[15..][i - 15]; }
        }
      }
    }
    if MatchesAll(all, s) {
      assert forall i :: 0 <= i < 18 ==> Holds(all[i], s[i]);
      assert s[8..10] == [s[8], s[9]];
      assert s[11..14] == [s[11], s[12], s[13]];
      assert s[15..] == [s[15], s[16], s[17]];
    }
  }

  /** A bare ID in either case, the full email, and an email whose dots match other characters. */
  lemma AcceptsExamples()
    ensures Accepts("e1234567")
    ensures Accepts("E1234567@u.nus.edu")
    ensures Accepts("e1234567@uXnusYedu")
  {
    AcceptsCharacterisation("e1234567");
    var full := "E1234567@u.nus.edu";
    assert full[8..] == Domain;
    FullEmailAccepted(full);
    var loose := "e1234567@uXnusYedu";
    assert loose[8..10] == "@u" && loose[11..14] == "nus" && loose[15..] == "edu";
    AcceptsCharacterisation(loose);
  }

  /** Too few digits, another leading letter, or anything after the domain. */
  lemma RejectsExamples()
    ensures !Accepts("e123456")
    ensures !Accepts("x1234567")
    ensures !Accepts("E1234567@u.nus.edu.sg")
  {
    AcceptsCharacterisation("e123456");
    AcceptsCharacterisation("x1234567");
    AcceptsCharacterisation("E1234567@u.nus.edu.sg");
  }

  const Domain: string := "@u.nus.edu"

  predicate EndsWith(s: string, suffix: string) {
    |suffix| <= |s| && s[|s| - |suffix|..] == suffix
  }

  /** `s.slice(1)`: everything after the first character, and "" for "". */
  function DropFirst(s: string): string {
    if s == [] then "" else s[1..]
  }

  /** The normaliser: the first character becomes "E" and the domain is appended unless the text
      already ends with it. */
  function Normalise(email: string): string {
    if EndsWith(email, Domain) then "E" + DropFirst(email) else "E" + DropFirst(email) + Domain
  }

  /** The result starts with "E" and ends with the domain, except for the one input "@u.nus.edu",
      whose first character is the domain's own "@". */
  lemma NormaliseShape(s: string)
    ensures |Normalise(s)| > 0 && Normalise(s)[0] == 'E'
    ensures EndsWith(Normalise(s), Domain) <==> s != Domain
  {
    var r := Normalise(s);
    if EndsWith(s, Domain) {
      if s == Domain {
        assert r[|r| - |Domain|] == 'E';
      } else {
        assert |s| > |Domain|;
        assert r[|r| - |Domain|..] == s[|s| - |Domain|..];
      }
    } else {
      assert r[|r| - |Domain|..] == Domain;
    }
  }

  /** Normalising twice is normalising once, for every input but "@u.nus.edu". */
  lemma NormaliseIdempotent(s: string)
    requires s != Domain
    ensures Normalise(Normalise(s)) == Normalise(s)
  {
    NormaliseShape(s);
    var r := Normalise(s);
    assert DropFirst(r) == r[1..];
    assert "E" + r[1..] == r;
  }

  /** For an accepted input the normalised email starts with "E", keeps the seven digits, ends with
      the domain and is stable. */
  lemma NormaliseAccepted(s: string)
    requires Accepts(s)
    ensures Normalise(s)[0] == 'E' && Normalise(s)[1..8] == s[1..8]
    ensures EndsWith(Normalise(s), Domain) && Normalise(Normalise(s)) == Normalise(s)
  {
    AcceptsCharacterisation(s);
    assert s[0] != Domain[0];
    NormaliseShape(s);
    NormaliseIdempotent(s);
    var r := Normalise(s);
    assert r[1..8] == s[1..8];
  }

  /** "E", seven digits and the exact domain form an accepted text. */
  lemma FullEmailAccepted(r: string)
    requires |r| == 18 && r[0] == 'E' && (forall i :: 1 <= i < 8 ==> Slots.IsDigit(r[i])) && r[8..] == Domain
    ensures Accepts(r)
  {
    assert r[8..10] == r[8..][..2];
    assert r[11..14] == r[8..][3..6];
    assert r[15..] == r[8..][7..];
    assert r[10] == r[8..][2] && r[14] == r[8..][6];
    AcceptsCharacterisation(r);
  }

  /** The normalised email passes the check again iff the input was a bare ID or already ended with
      the domain; an accepted email with loose dots grows to 28 characters and fails. */
  lemma NormaliseReaccepted(s: string)
    requires Accepts(s)
    ensures Accepts(Normalise(s)) <==> |s| == 8 || EndsWith(s, Domain)
  {
    AcceptsCharacterisation(s);
    var r := Normalise(s);
    if |s| == 8 {
      assert r == "E" + s[1..] + Domain;
      assert r[8..] == Domain;
      FullEmailAccepted(r);
    } else if EndsWith(s, Domain) {
      assert r == "E" + s[1..];
      assert r[8..] == s[8..];
      FullEmailAccepted(r);
    } else {
      assert |r| == 28;
      AcceptsCharacterisation(r);
    }
  }

  /** A bare ID gets the domain appended. */
  lemma NormaliseBareId()
    ensures Normalise("e1234567") == "E1234567@u.nus.edu"
  {
    assert !EndsWith("e1234567", Domain);
    assert DropFirst("e1234567") == "1234567";
  }

  /** An already normalised email is kept. */
  lemma NormaliseFullEmail()
    ensures Normalise("E1234567@u.nus.edu") == "E1234567@u.nus.edu"
  {
    var s := "E1234567@u.nus.edu";
    assert s[8..] == Domain;
    assert DropFirst(s) == "1234567@u.nus.edu";
  }

  /** An accepted email whose dots matched other characters does not end with the domain, so the
      domain is appended a second time. */
  lemma NormaliseLooseDots()
    ensures Normalise("e1234567@uXnusYedu") == "E1234567@uXnusYedu@u.nus.edu"
  {
    var s := "e1234567@uXnusYedu";
    assert s[8..][2] == 'X' && Domain[2] == '.';
    assert s[|s| - |Domain|..] != Domain;
    assert DropFirst(s) == "1234567@uXnusYedu";
    assert "E" + "1234567@uXnusYedu" + Domain == "E1234567@uXnusYedu@u.nus.edu";
  }

  /** The one input whose normal form lacks the domain. */
  lemma NormaliseDomainAlone()
    ensures Normalise(Domain) == "Eu.nus.edu"
  {
    assert EndsWith(Domain, Domain);
  }
}

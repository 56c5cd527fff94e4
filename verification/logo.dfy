/** The `getInitials` helper of src/components/Logo.tsx. */
module Logo {
  import opened Strings

  /** `part[0]` as joined by `join('')`: `undefined` for an empty part renders as nothing. */
  function FirstChar(part: string): string {
    if |part| == 0 then "" else [part[0]]
  }

  function FirstChars(parts: seq<string>): string {
    Join("", seq(|parts|, i requires 0 <= i < |parts| => FirstChar(parts[i])))
  }

  /**
   * Reference definition of word initials, read left to right: the characters
   * that are not a space and stand at the start of the string or right after
   * a space. `atStart` says whether the previous character was a space (or
   * there was none).
   */
  function WordInitials(s: string, atStart: bool): string
    decreases |s|
  {
    if |s| == 0 then ""
    else if s[0] == ' ' then WordInitials(s[1..], true)
    else (if atStart then [s[0]] else "") + WordInitials(s[1..], false)
  }

  /** `name.split(' ').map(part => part[0]).join('').toUpperCase().substring(0, 2)`. */
  function GetInitials(name: string): (r: string)
    ensures |r| <= 2
    ensures r == Upper(WordInitials(name, true))[..if |WordInitials(name, true)| < 2 then |WordInitials(name, true)| else 2]
  {
    var joined := FirstChars(Split(name, ' '));
    SplitInitials(name);
    var upper := Upper(joined);
    upper[..if |upper| < 2 then |upper| else 2]
  }

  lemma FirstCharsCons(p: string, parts: seq<string>)
    ensures FirstChars([p] + parts) == FirstChar(p) + FirstChars(parts)
  {
    var ps := [p] + parts;
    var cs := seq(|ps|, i requires 0 <= i < |ps| => FirstChar(ps[i]));
    var ds := seq(|parts|, i requires 0 <= i < |parts| => FirstChar(parts[i]));
    assert cs == [FirstChar(p)] + ds;
    if |parts| == 0 {
      assert ds == [];
    } else {
      assert cs[1..] == ds;
    }
  }

  /**
   * The first characters of the space-separated parts are exactly the word
   * initials: for the whole split when at the start of a word, and for all
   * but its first part when inside a word.
   */
  lemma {:induction false} SplitInitials(s: string)
    ensures FirstChars(Split(s, ' ')) == WordInitials(s, true)
    ensures FirstChars(Split(s, ' ')[1..]) == WordInitials(s, false)
    decreases |s|
  {
    if |s| == 0 {
      assert Split(s, ' ') == [""];
      assert FirstChars([""]) == "";
      assert FirstChars([]) == "";
    } else {
      var rest := Split(s[1..], ' ');
      SplitInitials(s[1..]);
      if s[0] == ' ' {
        assert Split(s, ' ') == [""] + rest;
        FirstCharsCons("", rest);
        assert Split(s, ' ')[1..] == rest;
      } else {
        assert Split(s, ' ') == [[s[0]] + rest[0]] + rest[1..];
        FirstCharsCons([s[0]] + rest[0], rest[1..]);
        assert Split(s, ' ')[1..] == rest[1..];
      }
    }
  }

  /** An empty name has no initials. */
  lemma EmptyNameInitials()
    ensures GetInitials("") == ""
  {
  }

  /** A name without spaces yields its first character, upper-cased. */
  lemma {:induction false} SingleWordInitials(name: string)
    requires |name| > 0 && ' ' !in name
    ensures GetInitials(name) == [UpperChar(name[0])]
  {
    NoSpaceInitials(name[1..]);
    assert WordInitials(name, true) == [name[0]];
  }

  lemma {:induction false} NoSpaceInitials(s: string)
    requires ' ' !in s
    ensures WordInitials(s, false) == ""
    decreases |s|
  {
    if |s| > 0 {
      NoSpaceInitials(s[1..]);
    }
  }

  /** Only the space character separates words: a tab does not. */
  lemma TabIsNotASeparator()
    ensures GetInitials("jane\tdoe") == "J"
  {
    SingleWordInitials("jane\tdoe");
  }

  /** Leading spaces contribute nothing. */
  lemma LeadingSpaceIgnored(s: string)
    ensures GetInitials([' '] + s) == GetInitials(s)
  {
    assert ([' '] + s)[1..] == s;
  }

  /** A run of spaces separates words exactly like one space. */
  lemma {:induction false} RepeatedSpaceIgnored(a: string, b: string, atStart: bool)
    ensures WordInitials(a + "  " + b, atStart) == WordInitials(a + " " + b, atStart)
    decreases |a|
  {
    if |a| == 0 {
      assert a + "  " + b == [' '] + (" " + b);
      assert a + " " + b == " " + b;
      assert (" " + b)[1..] == b;
    } else {
      RepeatedSpaceIgnored(a[1..], b, false);
      RepeatedSpaceIgnored(a[1..], b, true);
      assert (a + "  " + b)[1..] == a[1..] + "  " + b;
      assert (a + " " + b)[1..] == a[1..] + " " + b;
    }
  }

  /** Two names differing only in a doubled space have the same initials. */
  lemma DoubleSpaceInitials(a: string, b: string)
    ensures GetInitials(a + "  " + b) == GetInitials(a + " " + b)
  {
    RepeatedSpaceIgnored(a, b, true);
  }
}

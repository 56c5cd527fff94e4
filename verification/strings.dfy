/**
 * The few JavaScript string operations the extension relies on, over `seq<char>`:
 * ASCII case mapping (`toLowerCase`/`toUpperCase`), substring search (`includes`),
 * `Array.prototype.join` and `String.prototype.split` with a one-character separator.
 */
module Strings {

  /** `toLowerCase` on one character, restricted to ASCII. */
  function LowerChar(c: char): char {
    if 'A' <= c <= 'Z' then (c as int + 32) as char else c
  }

  /** `toUpperCase` on one character, restricted to ASCII. */
  function UpperChar(c: char): char {
    if 'a' <= c <= 'z' then (c as int - 32) as char else c
  }

  /** `s.toLowerCase()` on ASCII: same length, no upper-case letter left, every other character kept. */
  function Lower(s: string): (r: string)
    ensures |r| == |s|
    ensures forall i | 0 <= i < |r| :: !('A' <= r[i] <= 'Z')
    ensures forall i | 0 <= i < |s| :: 'A' <= s[i] <= 'Z' ==> r[i] as int == s[i] as int + 32
    ensures forall i | 0 <= i < |s| :: !('A' <= s[i] <= 'Z') ==> r[i] == s[i]
  {
    seq(|s|, i requires 0 <= i < |s| => LowerChar(s[i]))
  }

  /** `s.toUpperCase()` on ASCII: same length, no lower-case letter left, every other character kept. */
  function Upper(s: string): (r: string)
    ensures |r| == |s|
    ensures forall i | 0 <= i < |r| :: !('a' <= r[i] <= 'z')
    ensures forall i | 0 <= i < |s| :: 'a' <= s[i] <= 'z' ==> r[i] as int == s[i] as int - 32
    ensures forall i | 0 <= i < |s| :: !('a' <= s[i] <= 'z') ==> r[i] == s[i]
  {
    seq(|s|, i requires 0 <= i < |s| => UpperChar(s[i]))
  }

  /** Lower-casing twice is lower-casing once. */
  lemma LowerIdempotent(s: string)
    ensures Lower(Lower(s)) == Lower(s)
  {
    assert forall i | 0 <= i < |s| :: Lower(Lower(s))[i] == Lower(s)[i];
  }

  /** `pat` occurs in `s` starting at index `i`. */
  predicate OccursAt(pat: string, s: string, i: nat) {
    i + |pat| <= |s| && s[i..i + |pat|] == pat
  }

  /** `s.includes(pat)`. */
  predicate Includes(s: string, pat: string): (r: bool)
    ensures r ==> |pat| <= |s|
    ensures r ==> forall c | c in pat :: c in s
  {
    exists i: nat | i <= |s| :: OccursAt(pat, s, i)
  }

  /** Every string includes the empty string, and itself. */
  lemma IncludesTrivial(s: string)
    ensures Includes(s, "")
    ensures Includes(s, s)
  {
    assert OccursAt("", s, 0);
    assert OccursAt(s, s, 0);
  }

  /** `parts.join(sep)`: the empty list joins to the empty string. */
  function Join(sep: string, parts: seq<string>): (r: string)
    ensures |parts| == 0 ==> r == ""
    ensures |parts| >= 1 ==> |parts[0]| <= |r| && r[..|parts[0]|] == parts[0]
  {
    if |parts| == 0 then ""
    else if |parts| == 1 then parts[0]
    else parts[0] + sep + Join(sep, parts[1..])
  }

  lemma JoinCons(sep: string, p: string, ps: seq<string>)
    requires |ps| >= 1
    ensures Join(sep, [p] + ps) == p + sep + Join(sep, ps)
  {
    assert ([p] + ps)[1..] == ps;
  }

  /**
   * `s.split(sep)` for a one-character separator: always at least one part,
   * empty parts where separators are adjacent or at either end, and no part
   * holds the separator.
   */
  function Split(s: string, sep: char): (parts: seq<string>)
    ensures |parts| >= 1
    ensures forall i | 0 <= i < |parts| :: sep !in parts[i]
    decreases |s|
  {
    if |s| == 0 then [""]
    else
      var rest := Split(s[1..], sep);
      if s[0] == sep then [""] + rest
      else [[s[0]] + rest[0]] + rest[1..]
  }

  /** Joining the parts of a split with the same separator gives back the string. */
  lemma {:induction false} JoinSplit(s: string, sep: char)
    ensures Join([sep], Split(s, sep)) == s
    decreases |s|
  {
    if |s| > 0 {
      var rest := Split(s[1..], sep);
      JoinSplit(s[1..], sep);
      if s[0] == sep {
        assert Split(s, sep) == [""] + rest;
        assert ([""] + rest)[1..] == rest;
        assert s == [sep] + s[1..];
      } else if |rest| == 1 {
        assert s == [s[0]] + s[1..];
      } else {
        var parts := Split(s, sep);
        assert parts[1..] == rest[1..];
        assert Join([sep], rest) == rest[0] + [sep] + Join([sep], rest[1..]);
        assert s == [s[0]] + s[1..];
      }
    }
  }

  /** A separator-free prefix becomes the front of the first part. */
  lemma {:induction false} SplitPrefix(p: string, s: string, sep: char)
    requires sep !in p
    ensures Split(p + s, sep) == [p + Split(s, sep)[0]] + Split(s, sep)[1..]
    decreases |p|
  {
    if |p| == 0 {
      var parts := Split(s, sep);
      assert p + s == s;
      assert p + parts[0] == parts[0];
      assert parts == [parts[0]] + parts[1..];
    } else {
      assert (p + s)[0] == p[0];
      assert (p + s)[1..] == p[1..] + s;
      SplitPrefix(p[1..], s, sep);
      assert [p[0]] + (p[1..] + Split(s, sep)[0]) == p + Split(s, sep)[0];
    }
  }

  /** Splitting a join of separator-free parts gives back the parts. */
  lemma {:induction false} SplitJoin(parts: seq<string>, sep: char)
    requires |parts| >= 1
    requires forall i | 0 <= i < |parts| :: sep !in parts[i]
    ensures Split(Join([sep], parts), sep) == parts
    decreases |parts|
  {
    if |parts| == 1 {
      SplitPrefix(parts[0], "", sep);
      assert parts[0] + "" == parts[0];
    } else {
      var tail := Join([sep], parts[1..]);
      SplitJoin(parts[1..], sep);
      assert Join([sep], parts) == parts[0] + ([sep] + tail);
      SplitPrefix(parts[0], [sep] + tail, sep);
      assert ([sep] + tail)[1..] == tail;
      assert Split([sep] + tail, sep) == [""] + Split(tail, sep);
      assert parts[0] + "" == parts[0];
      assert parts == [parts[0]] + parts[1..];
    }
  }

  /** A character that is neither in the separator nor in any part is not in the join. */
  lemma {:induction false} NotInJoin(c: char, sep: string, parts: seq<string>)
    requires c !in sep
    requires forall i | 0 <= i < |parts| :: c !in parts[i]
    ensures c !in Join(sep, parts)
    decreases |parts|
  {
    if |parts| > 1 {
      NotInJoin(c, sep, parts[1..]);
    }
  }
}

/** The few operations on Python strings the inviter uses: `pat in s`,
    `s.replace(pat, rep)`, `s.split(sep)` and `sep.join(parts)`, for a
    non-empty pattern (the source only ever uses "<1>" and ":"). */
module Strings {

  /** `pat` occurs in `s` starting at index `i`. */
  predicate OccursAt(s: string, pat: string, i: nat) {
    i + |pat| <= |s| && s[i..i + |pat|] == pat
  }

  /** Python's `pat in s`. */
  predicate Contains(s: string, pat: string)
    requires |pat| > 0
    decreases |s|
  {
    |pat| <= |s| && (s[..|pat|] == pat || Contains(s[1..], pat))
  }

  /** Python's `s.replace(pat, rep)`: scan left to right, replace every
      non-overlapping occurrence. */
  function ReplaceAll(s: string, pat: string, rep: string): string
    requires |pat| > 0
    decreases |s|
  {
    if |s| < |pat| then s
    else if s[..|pat|] == pat then rep + ReplaceAll(s[|pat|..], pat, rep)
    else [s[0]] + ReplaceAll(s[1..], pat, rep)
  }

  /** Python's `s.split(sep)`: the fields between non-overlapping
      occurrences of `sep`, always at least one. */
  function Split(s: string, sep: string): (parts: seq<string>)
    requires |sep| > 0
    ensures |parts| >= 1
    decreases |s|
  {
    if |s| < |sep| then [s]
    else if s[..|sep|] == sep then [[]] + Split(s[|sep|..], sep)
    else
      var rest := Split(s[1..], sep);
      [[s[0]] + rest[0]] + rest[1..]
  }

  /** Python's `sep.join(parts)`. */
  function Join(parts: seq<string>, sep: string): string
    decreases |parts|
  {
    if |parts| == 0 then []
    else if |parts| == 1 then parts[0]
    else parts[0] + sep + Join(parts[1..], sep)
  }

  /** `Contains` is exactly "occurs at some index". */
  lemma {:induction false} ContainsIff(s: string, pat: string)
    requires |pat| > 0
    ensures Contains(s, pat) <==> exists i: nat :: OccursAt(s, pat, i)
    decreases |s|
  {
    if |pat| <= |s| {
      ContainsIff(s[1..], pat);
      if Contains(s, pat) {
        if s[..|pat|] == pat {
          assert OccursAt(s, pat, 0);
        } else {
          var j: nat :| OccursAt(s[1..], pat, j);
          assert s[j + 1..j + 1 + |pat|] == s[1..][j..j + |pat|];
          assert OccursAt(s, pat, j + 1);
        }
      }
      if exists i: nat :: OccursAt(s, pat, i) {
        var i: nat :| OccursAt(s, pat, i);
        if i > 0 {
          var t := s[1..];
          assert t[i - 1..i - 1 + |pat|] == s[i..i + |pat|];
          assert OccursAt(t, pat, i - 1);
        }
      }
    } else {
      forall i: nat ensures !OccursAt(s, pat, i) {}
    }
  }

  /** Replacing a pattern that does not occur leaves the string unchanged. */
  lemma {:induction false} ReplaceAbsent(s: string, pat: string, rep: string)
    requires |pat| > 0 && !Contains(s, pat)
    ensures ReplaceAll(s, pat, rep) == s
    decreases |s|
  {
    if |s| >= |pat| {
      ReplaceAbsent(s[1..], pat, rep);
      assert [s[0]] + s[1..] == s;
    }
  }

  /** `s.replace(pat, rep) == rep.join(s.split(pat))`. */
  lemma {:induction false} ReplaceIsJoinOfSplit(s: string, pat: string, rep: string)
    requires |pat| > 0
    ensures ReplaceAll(s, pat, rep) == Join(Split(s, pat), rep)
    decreases |s|
  {
    if |s| < |pat| {
    } else if s[..|pat|] == pat {
      ReplaceIsJoinOfSplit(s[|pat|..], pat, rep);
      JoinAfterEmptyField(Split(s[|pat|..], pat), rep);
    } else {
      ReplaceIsJoinOfSplit(s[1..], pat, rep);
      JoinExtendFirstField(s[0], Split(s[1..], pat), rep);
    }
  }

  /** Joining an empty first field in front of other fields puts the
      separator in front of their join. */
  lemma JoinAfterEmptyField(fields: seq<string>, sep: string)
    requires |fields| >= 1
    ensures Join([[]] + fields, sep) == sep + Join(fields, sep)
  {
    assert ([[]] + fields)[1..] == fields;
  }

  /** Putting a character in front of the first field puts it in front of
      the join. */
  lemma JoinExtendFirstField(c: char, fields: seq<string>, sep: string)
    requires |fields| >= 1
    ensures Join([[c] + fields[0]] + fields[1..], sep) == [c] + Join(fields, sep)
  {
    var parts := [[c] + fields[0]] + fields[1..];
    if |fields| > 1 {
      assert parts[1..] == fields[1..];
      assert Join(parts, sep) == [c] + fields[0] + sep + Join(fields[1..], sep);
    }
  }

  /** Replacing a pattern by itself is the identity. */
  lemma {:induction false} ReplaceBySelf(s: string, pat: string)
    requires |pat| > 0
    ensures ReplaceAll(s, pat, pat) == s
    decreases |s|
  {
    if |s| < |pat| {
    } else if s[..|pat|] == pat {
      ReplaceBySelf(s[|pat|..], pat);
      assert s[..|pat|] + s[|pat|..] == s;
    } else {
      ReplaceBySelf(s[1..], pat);
      assert [s[0]] + s[1..] == s;
    }
  }

  /** Splitting and joining with the same separator gives back the string. */
  lemma JoinSplitRoundTrip(s: string, sep: string)
    requires |sep| > 0
    ensures Join(Split(s, sep), sep) == s
  {
    ReplaceIsJoinOfSplit(s, sep, sep);
    ReplaceBySelf(s, sep);
  }

  /** The first field of a split on one character `c`: the longest prefix of
      `s` free of `c`; it stops at the first `c` when there is one and is all
      of `s` otherwise. */
  lemma {:induction false} FirstFieldOfSplit(s: string, c: char)
    ensures var h := Split(s, [c])[0];
      && |h| <= |s| && h == s[..|h|]
      && c !in h
      && (c in s ==> |h| < |s| && s[|h|] == c)
      && (c !in s ==> h == s)
    decreases |s|
  {
    if |s| == 0 {
    } else if s[..1] == [c] {
      assert s[0] == c;
    } else {
      FirstFieldOfSplit(s[1..], c);
      var h' := Split(s[1..], [c])[0];
      assert Split(s, [c])[0] == [s[0]] + h';
      assert s[0] != c;
      assert c in s <==> c in s[1..] by {
        assert s == [s[0]] + s[1..];
      }
    }
  }
}

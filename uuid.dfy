/**
 * `checkUuid`: the anchored pattern
 * `^[0-9a-fA-F]{8}-[0-9a-fA-F]{4}-[0-9a-fA-F]{4}-[0-9a-fA-F]{4}-[0-9a-fA-F]{12}$`,
 * the 8-4-4-4-12 layout of section 3 of RFC 4122.
 */
module Uuid {

  /** A character of the class `[0-9a-fA-F]`. */
  predicate IsHex(c: char) {
    '0' <= c <= '9' || 'a' <= c <= 'f' || 'A' <= c <= 'F'
  }

  /** Every character of `s` is a hex digit. */
  predicate AllHex(s: string) {
    forall i | 0 <= i < |s| :: IsHex(s[i])
  }

  /** The repetition counts of the pattern's hex groups, in order. */
  const Groups: seq<nat> := [8, 4, 4, 4, 12]

  /**
   * Whether all of `s` matches `hex{g0}` followed by `-hex{g}` for each later
   * count `g`. The counts are fixed, so the match has no choice to make: the
   * first group takes exactly `g0` characters and the one after must be a dash.
   */
  predicate MatchGroups(s: string, groups: seq<nat>)
    requires |groups| >= 1
    decreases |groups|
  {
    var g := groups[0];
    |s| >= g && AllHex(s[..g]) &&
    if |groups| == 1 then |s| == g
    else |s| > g && s[g] == '-' && MatchGroups(s[g + 1..], groups[1..])
  }

  /** `checkUuid(s)`: the whole string matches the pattern, so nothing precedes or follows it. */
  predicate CheckUuid(s: string) {
    MatchGroups(s, Groups)
  }

  // ---------------------------------------------------------------------
  // The layout the pattern describes, position by position.

  /** The length of a string the groups match: the counts and one dash between each two groups. */
  function Width(groups: seq<nat>): (r: nat)
    requires |groups| >= 1
    ensures r >= groups[0]
    decreases |groups|
  {
    if |groups| == 1 then groups[0] else groups[0] + 1 + Width(groups[1..])
  }

  /** Position `i` of a match holds a dash (and not a hex digit). */
  predicate DashAt(groups: seq<nat>, i: int)
    requires |groups| >= 1
    decreases |groups|
  {
    |groups| > 1 && (i == groups[0] || (i > groups[0] && DashAt(groups[1..], i - groups[0] - 1)))
  }

  /** A string with the layout of `groups`: the right length, dashes at the dash positions, hex digits elsewhere. */
  predicate Layout(s: string, groups: seq<nat>)
    requires |groups| >= 1
  {
    |s| == Width(groups) &&
    forall i | 0 <= i < |s| :: if DashAt(groups, i) then s[i] == '-' else IsHex(s[i])
  }

  /** The matcher accepts exactly the strings with the layout of its groups. */
  lemma {:induction false} MatchGroupsIsLayout(s: string, groups: seq<nat>)
    requires |groups| >= 1
    ensures MatchGroups(s, groups) <==> Layout(s, groups)
    decreases |groups|
  {
    var g := groups[0];
    if |groups| > 1 && |s| > g {
      var t := s[g + 1..];
      MatchGroupsIsLayout(t, groups[1..]);
      assert forall i | g < i < |s| :: s[i] == t[i - g - 1];
      if Layout(s, groups) {
        assert forall j | 0 <= j < |t| :: if DashAt(groups[1..], j) then t[j] == '-' else IsHex(t[j]) by {
          forall j | 0 <= j < |t|
            ensures if DashAt(groups[1..], j) then t[j] == '-' else IsHex(t[j])
          {
            assert DashAt(groups, j + g + 1) == DashAt(groups[1..], j);
          }
        }
        assert s[g] == '-' by { assert DashAt(groups, g); }
        assert AllHex(s[..g]) by {
          forall j | 0 <= j < g ensures IsHex(s[..g][j]) {
            assert !DashAt(groups, j);
          }
        }
      }
      if MatchGroups(s, groups) {
        forall i | 0 <= i < |s|
          ensures if DashAt(groups, i) then s[i] == '-' else IsHex(s[i])
        {
          if i < g {
            assert s[..g][i] == s[i];
          } else if i > g {
            assert DashAt(groups, i) == DashAt(groups[1..], i - g - 1);
          }
        }
      }
    } else if |groups| == 1 {
      if MatchGroups(s, groups) {
        assert s[..g] == s;
      }
      if Layout(s, groups) {
        assert s[..g] == s;
      }
    }
  }

  /** The four dash positions of the 8-4-4-4-12 layout. */
  predicate UuidDash(i: int) {
    i == 8 || i == 13 || i == 18 || i == 23
  }

  /** The pattern's positions: 36 characters, dashes at 8, 13, 18 and 23 only. */
  lemma UuidLayoutPositions(i: int)
    requires 0 <= i < 36
    ensures Width(Groups) == 36
    ensures DashAt(Groups, i) <==> UuidDash(i)
  {
    var g1, g2, g3, g4 := Groups[1..], Groups[2..], Groups[3..], Groups[4..];
    assert g1 == [4, 4, 4, 12] && g1[1..] == g2 && g2 == [4, 4, 12] && g2[1..] == g3;
    assert g3 == [4, 12] && g3[1..] == g4 && g4 == [12];
    assert Width(g4) == 12 && Width(g3) == 17 && Width(g2) == 22 && Width(g1) == 27;
    assert !DashAt(g4, i - 24);
    assert DashAt(g3, i - 19) <==> i == 23;
    assert DashAt(g2, i - 14) <==> i == 18 || i == 23;
    assert DashAt(g1, i - 9) <==> i == 13 || i == 18 || i == 23;
  }

  /**
   * `checkUuid` accepts exactly the strings of 36 characters with a dash at
   * 8, 13, 18 and 23 and a hex digit, of either case, everywhere else.
   */
  lemma CheckUuidExactly(s: string)
    ensures CheckUuid(s) <==>
              |s| == 36 && forall i | 0 <= i < |s| :: if UuidDash(i) then s[i] == '-' else IsHex(s[i])
  {
    MatchGroupsIsLayout(s, Groups);
    UuidLayoutPositions(0);
    forall i | 0 <= i < 36 ensures DashAt(Groups, i) <==> UuidDash(i) {
      UuidLayoutPositions(i);
    }
  }

  /** An accepted string is 36 characters long and has dashes at 8, 13, 18 and 23 and nowhere else. */
  lemma AcceptedShape(s: string)
    requires CheckUuid(s)
    ensures |s| == 36
    ensures forall i | 0 <= i < |s| :: s[i] == '-' <==> UuidDash(i)
    ensures forall i | 0 <= i < |s| && !UuidDash(i) :: IsHex(s[i])
  {
    CheckUuidExactly(s);
  }

  /** Conversely, 36 characters with those four dashes and hex digits elsewhere are accepted. */
  lemma LaidOutAccepted(s: string)
    requires |s| == 36 && s[8] == '-' && s[13] == '-' && s[18] == '-' && s[23] == '-'
    requires forall i | 0 <= i < 36 && !UuidDash(i) :: IsHex(s[i])
    ensures CheckUuid(s)
  {
    CheckUuidExactly(s);
  }

  /** A string of any other length is rejected: the pattern is anchored at both ends. */
  lemma WrongLengthRejected(s: string)
    requires |s| != 36
    ensures !CheckUuid(s)
  {
    CheckUuidExactly(s);
  }

  /** A character outside `[0-9a-fA-F-]` anywhere makes the string rejected. */
  lemma ForeignCharRejected(s: string, i: nat)
    requires i < |s| && !IsHex(s[i]) && s[i] != '-'
    ensures !CheckUuid(s)
  {
    CheckUuidExactly(s);
  }

  /** A dash anywhere but 8, 13, 18 and 23, or something else at one of them, makes the string rejected. */
  lemma MisplacedDashRejected(s: string, i: nat)
    requires i < |s| && (s[i] == '-' <==> !UuidDash(i))
    ensures !CheckUuid(s)
  {
    CheckUuidExactly(s);
  }

  // ---------------------------------------------------------------------
  // Letter case.

  /** ASCII lower-casing of one character. */
  function LowerChar(c: char): char {
    if 'A' <= c <= 'Z' then (c as int + 32) as char else c
  }

  /** ASCII upper-casing of one character. */
  function UpperChar(c: char): char {
    if 'a' <= c <= 'z' then (c as int - 32) as char else c
  }

  function Lower(s: string): (r: string)
    ensures |r| == |s| && forall i | 0 <= i < |s| :: r[i] == LowerChar(s[i])
  {
    seq(|s|, i requires 0 <= i < |s| => LowerChar(s[i]))
  }

  function Upper(s: string): (r: string)
    ensures |r| == |s| && forall i | 0 <= i < |s| :: r[i] == UpperChar(s[i])
  {
    seq(|s|, i requires 0 <= i < |s| => UpperChar(s[i]))
  }

  /** Changing the case of the letters never changes the verdict. */
  lemma CaseInsensitive(s: string)
    ensures CheckUuid(Lower(s)) == CheckUuid(s)
    ensures CheckUuid(Upper(s)) == CheckUuid(s)
  {
    CheckUuidExactly(s);
    CheckUuidExactly(Lower(s));
    CheckUuidExactly(Upper(s));
    assert forall c: char :: (IsHex(LowerChar(c)) <==> IsHex(c)) && (LowerChar(c) == '-' <==> c == '-');
    assert forall c: char :: (IsHex(UpperChar(c)) <==> IsHex(c)) && (UpperChar(c) == '-' <==> c == '-');
  }

  /** A version-4 identifier in lower case is accepted. */
  lemma AcceptsExample()
    ensures CheckUuid("123e4567-e89b-42d3-a456-426614174000")
  {
    var s := "123e4567-e89b-42d3-a456-426614174000";
    forall i | 0 <= i < 36 && !UuidDash(i) ensures IsHex(s[i]) {
      assert s[i] in "0123456789abcdef";
    }
    LaidOutAccepted(s);
  }

  /** One character short, the same identifier is rejected. */
  lemma RejectsShortExample()
    ensures !CheckUuid("123e4567-e89b-42d3-a456-42661417400")
  {
    WrongLengthRejected("123e4567-e89b-42d3-a456-42661417400");
  }
}

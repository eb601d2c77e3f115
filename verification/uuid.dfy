/** The team-id pattern of the practice validator: the 8-4-4-4-12 hexadecimal layout of
    RFC 4122, with the version digit restricted to 1-5 (section 4.1.3) and the variant digit
    to 8, 9, a or b (section 4.1.1), letters accepted in either case. The pattern is modelled
    as a sequence of fixed-width character-class segments matched from the start of the
    string to its end. */
module Uuid {

  datatype CharClass = Hex | Dash | VersionDigit | VariantDigit

  /** `count` consecutive characters of one class, as in `[0-9a-f]{8}`. */
  datatype Segment = Segment(count: nat, cls: CharClass)

  /** `^[0-9a-f]{8}-[0-9a-f]{4}-[1-5][0-9a-f]{3}-[89ab][0-9a-f]{3}-[0-9a-f]{12}$`. */
  const UuidPattern: seq<Segment> := [
    Segment(8, Hex), Segment(1, Dash), Segment(4, Hex), Segment(1, Dash),
    Segment(1, VersionDigit), Segment(3, Hex), Segment(1, Dash),
    Segment(1, VariantDigit), Segment(3, Hex), Segment(1, Dash), Segment(12, Hex)
  ]

  predicate IsHexDigit(c: char) {
    '0' <= c <= '9' || 'a' <= c <= 'f' || 'A' <= c <= 'F'
  }

  /** Membership in a class under the pattern's case-insensitive flag. */
  predicate InClass(c: char, cls: CharClass) {
    match cls
    case Hex => IsHexDigit(c)
    case Dash => c == '-'
    case VersionDigit => '1' <= c <= '5'
    case VariantDigit => c == '8' || c == '9' || c == 'a' || c == 'b' || c == 'A' || c == 'B'
  }

  /** The anchored match from segment `j` on: every segment consumes exactly its characters,
      and nothing is left over. */
  predicate MatchFrom(s: string, pattern: seq<Segment>, j: nat)
    decreases |pattern| - j
  {
    if j >= |pattern| then s == []
    else
      var seg := pattern[j];
      && seg.count <= |s|
      && (forall k :: 0 <= k < seg.count ==> InClass(s[k], seg.cls))
      && MatchFrom(s[seg.count..], pattern, j + 1)
  }

  predicate MatchSegments(s: string, pattern: seq<Segment>) {
    MatchFrom(s, pattern, 0)
  }

  /** The number of characters segments `j..` consume. */
  function LengthFrom(pattern: seq<Segment>, j: nat): nat
    decreases |pattern| - j
  {
    if j >= |pattern| then 0 else pattern[j].count + LengthFrom(pattern, j + 1)
  }

  /** The class segments `j..` expect at offset `i`. */
  function ClassFrom(pattern: seq<Segment>, j: nat, i: nat): CharClass
    requires i < LengthFrom(pattern, j)
    decreases |pattern| - j
  {
    if i < pattern[j].count then pattern[j].cls else ClassFrom(pattern, j + 1, i - pattern[j].count)
  }

  /** Matching segments is a length check plus one class check per position. */
  lemma {:induction false} MatchFromPositional(s: string, pattern: seq<Segment>, j: nat)
    ensures MatchFrom(s, pattern, j) <==>
      |s| == LengthFrom(pattern, j) && forall i :: 0 <= i < |s| ==> InClass(s[i], ClassFrom(pattern, j, i))
    decreases |pattern| - j
  {
    if j < |pattern| {
      var n := pattern[j].count;
      if n <= |s| {
        MatchFromPositional(s[n..], pattern, j + 1);
        if |s| == LengthFrom(pattern, j) {
          forall i | n <= i < |s|
            ensures s[i] == s[n..][i - n]
          {
          }
        }
      }
    }
  }

  /** The UUID layout stated position by position: 36 characters, dashes at 8, 13, 18 and 23,
      the version digit at 14, the variant digit at 19, hexadecimal digits elsewhere. */
  predicate UuidLayout(s: string) {
    && |s| == 36
    && (forall i :: 0 <= i < 36 ==> InClass(s[i], UuidClassAt(i)))
  }

  function UuidClassAt(i: nat): CharClass {
    if i == 8 || i == 13 || i == 18 || i == 23 then Dash
    else if i == 14 then VersionDigit
    else if i == 19 then VariantDigit
    else Hex
  }

  lemma UuidLengths()
    ensures LengthFrom(UuidPattern, 11) == 0 && LengthFrom(UuidPattern, 10) == 12
    ensures LengthFrom(UuidPattern, 9) == 13 && LengthFrom(UuidPattern, 8) == 16
    ensures LengthFrom(UuidPattern, 7) == 17 && LengthFrom(UuidPattern, 6) == 18
    ensures LengthFrom(UuidPattern, 5) == 21 && LengthFrom(UuidPattern, 4) == 22
    ensures LengthFrom(UuidPattern, 3) == 23 && LengthFrom(UuidPattern, 2) == 27
    ensures LengthFrom(UuidPattern, 1) == 28 && LengthFrom(UuidPattern, 0) == 36
  {
  }

  /** The segment pattern expects, at each position, the class of the stated layout. */
  lemma UuidClassFrom(i: nat)
    requires i < 36
    ensures LengthFrom(UuidPattern, 0) == 36 && ClassFrom(UuidPattern, 0, i) == UuidClassAt(i)
  {
    var p := UuidPattern;
    UuidLengths();
    if i >= 8 {
      assert ClassFrom(p, 0, i) == ClassFrom(p, 1, i - 8);
      if i >= 9 {
        assert ClassFrom(p, 1, i - 8) == ClassFrom(p, 2, i - 9);
        if i >= 13 {
          assert ClassFrom(p, 2, i - 9) == ClassFrom(p, 3, i - 13);
          if i >= 14 {
            assert ClassFrom(p, 3, i - 13) == ClassFrom(p, 4, i - 14);
            if i >= 15 {
              assert ClassFrom(p, 4, i - 14) == ClassFrom(p, 5, i - 15);
              if i >= 18 {
                assert ClassFrom(p, 5, i - 15) == ClassFrom(p, 6, i - 18);
                if i >= 19 {
                  assert ClassFrom(p, 6, i - 18) == ClassFrom(p, 7, i - 19);
                  if i >= 20 {
                    assert ClassFrom(p, 7, i - 19) == ClassFrom(p, 8, i - 20);
                    if i >= 23 {
                      assert ClassFrom(p, 8, i - 20) == ClassFrom(p, 9, i - 23);
                      if i >= 24 {
                        assert ClassFrom(p, 9, i - 23) == ClassFrom(p, 10, i - 24);
                      }
                    }
                  }
                }
              }
            }
          }
        }
      }
    }
  }

  /** The team-id check: `uuidRegex.test(teamId)`. */
  predicate MatchesUuid(s: string) {
    MatchSegments(s, UuidPattern)
  }

  /** The anchored segment match accepts exactly the strings with the stated layout. */
  lemma MatchesUuidIffLayout(s: string)
    ensures MatchesUuid(s) <==> UuidLayout(s)
  {
    MatchFromPositional(s, UuidPattern, 0);
    UuidLengths();
    forall i | 0 <= i < 36
      ensures ClassFrom(UuidPattern, 0, i) == UuidClassAt(i)
    {
      UuidClassFrom(i);
    }
  }

  /** The value of a hexadecimal digit. */
  function HexValue(c: char): (v: nat)
    requires IsHexDigit(c)
    ensures v < 16
  {
    if '0' <= c <= '9' then (c as int - '0' as int) as nat
    else if 'a' <= c <= 'f' then (c as int - 'a' as int + 10) as nat
    else (c as int - 'A' as int + 10) as nat
  }

  /** The variant digit is exactly a hexadecimal digit whose two high bits are 1 0
      (RFC 4122, section 4.1.1). */
  lemma VariantDigitIsRfcVariant(c: char)
    ensures InClass(c, VariantDigit) <==> IsHexDigit(c) && HexValue(c) / 4 == 2
  {
  }

  /** The version digit is exactly a decimal digit naming one of the versions 1 to 5
      (RFC 4122, section 4.1.3). */
  lemma VersionDigitIsRfcVersion(c: char)
    ensures InClass(c, VersionDigit) <==> IsHexDigit(c) && 1 <= HexValue(c) <= 5
  {
  }
}

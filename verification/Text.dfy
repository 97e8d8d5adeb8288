/** Blank and trimmed text, as the workers read it. */
module Text {
  /** The characters of Unicode's White_Space property. */
  predicate Space(c: char) {
    || '\U{9}' <= c <= '\U{D}' || c == ' ' || c == '\U{85}' || c == '\U{A0}' || c == '\U{1680}'
    || '\U{2000}' <= c <= '\U{200A}' || c == '\U{2028}' || c == '\U{2029}' || c == '\U{202F}'
    || c == '\U{205F}' || c == '\U{3000}'
  }

  predicate Blank(s: string) {
    forall i :: 0 <= i < |s| ==> Space(s[i])
  }

  function TrimLeft(s: string): string {
    if s != "" && Space(s[0]) then TrimLeft(s[1..]) else s
  }

  function TrimRight(s: string): string {
    if s != "" && Space(s[|s| - 1]) then TrimRight(s[..|s| - 1]) else s
  }

  function Trim(s: string): string {
    TrimRight(TrimLeft(s))
  }

  /** Nothing blank at either end. */
  predicate Trimmed(s: string) {
    s == "" || (!Space(s[0]) && !Space(s[|s| - 1]))
  }

  lemma {:induction false} TrimLeftIs(s: string)
    ensures TrimLeft(s) == "" || !Space(TrimLeft(s)[0])
    ensures TrimLeft(s) == "" <==> Blank(s)
  {
    if s != "" && Space(s[0]) {
      TrimLeftIs(s[1..]);
      assert Blank(s) <==> Blank(s[1..]) by {
        if Blank(s[1..]) { assert forall i :: 0 < i < |s| ==> s[i] == s[1..][i - 1]; }
      }
    }
  }

  lemma {:induction false} TrimRightIs(s: string)
    requires s == "" || !Space(s[0])
    ensures TrimRight(s) == "" <==> s == ""
    ensures TrimRight(s) != "" ==> TrimRight(s)[0] == s[0] && !Space(TrimRight(s)[|TrimRight(s)| - 1])
  {
    if s != "" && Space(s[|s| - 1]) { TrimRightIs(s[..|s| - 1]); }
  }

  /** Trimming leaves nothing exactly of a blank text, and leaves a trimmed one as it is. */
  lemma TrimIs(s: string)
    ensures Trimmed(Trim(s)) && (Trim(s) == "" <==> Blank(s)) && (Trimmed(s) ==> Trim(s) == s)
  {
    TrimLeftIs(s);
    TrimRightIs(TrimLeft(s));
  }

  /** The twenty-five blank characters. */
  lemma SpaceExactly(c: char)
    ensures Space(c) <==> c as int in {
      0x9, 0xA, 0xB, 0xC, 0xD, 0x20, 0x85, 0xA0, 0x1680,
      0x2000, 0x2001, 0x2002, 0x2003, 0x2004, 0x2005, 0x2006, 0x2007, 0x2008, 0x2009, 0x200A,
      0x2028, 0x2029, 0x202F, 0x205F, 0x3000}
  {
  }

  lemma {:induction false} LeftPart(s: string) returns (i: nat)
    ensures i <= |s| && TrimLeft(s) == s[i..] && Blank(s[..i])
  {
    i := 0;
    if s != "" && Space(s[0]) {
      var j := LeftPart(s[1..]);
      i := j + 1;
      assert s[1..][j..] == s[i..];
      assert forall k :: 0 < k < i ==> s[..i][k] == s[1..][..j][k - 1];
    }
  }

  lemma {:induction false} RightPart(s: string) returns (j: nat)
    ensures j <= |s| && TrimRight(s) == s[..j] && Blank(s[j..])
  {
    j := |s|;
    if s != "" && Space(s[|s| - 1]) {
      var init := s[..|s| - 1];
      j := RightPart(init);
      assert init[..j] == s[..j];
      assert forall k :: 0 <= k < |s| - 1 - j ==> s[j..][k] == init[j..][k];
    }
  }

  /** What trimming takes away is blank, and what it leaves is unchanged. */
  lemma TrimKeeps(s: string) returns (i: nat, j: nat)
    ensures i <= j <= |s| && Trim(s) == s[i..j] && Blank(s[..i]) && Blank(s[j..])
  {
    i := LeftPart(s);
    var k := RightPart(TrimLeft(s));
    j := i + k;
    assert s[i..][..k] == s[i..j] && s[i..][k..] == s[j..];
  }
}

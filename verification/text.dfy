/** String helpers the actions and pages rely on: JavaScript's `trim`,
    `startsWith`, `toLowerCase` and the database's case-insensitive
    `contains`. Strings are sequences of characters; lengths count
    characters. */
module Text {

  /** The white-space characters `String.prototype.trim` removes: the
      ASCII ones, the byte-order mark, the two Unicode line terminators and
      every space separator of Unicode category Zs (no-break space, ogham
      space mark, the en-quad to hair-space block, narrow no-break space,
      medium mathematical space and ideographic space). */
  predicate IsSpace(c: char) {
    || c == ' ' || c == '\t' || c == '\n' || c == '\r' || c == '\U{000B}' || c == '\U{000C}'
    || c == '\U{FEFF}' || c == '\U{2028}' || c == '\U{2029}'
    || c == '\U{00A0}' || c == '\U{1680}' || ('\U{2000}' <= c <= '\U{200A}')
    || c == '\U{202F}' || c == '\U{205F}' || c == '\U{3000}'
  }

  /** Every character of `s` is white space (so the empty string is blank). */
  predicate IsBlank(s: string) {
    forall i :: 0 <= i < |s| ==> IsSpace(s[i])
  }

  /** `s` with its leading white space removed. */
  function TrimStart(s: string): (r: string)
    ensures |r| <= |s| && r == s[|s| - |r|..]
    ensures forall i :: 0 <= i < |s| - |r| ==> IsSpace(s[i])
    ensures |r| > 0 ==> !IsSpace(r[0])
  {
    if |s| > 0 && IsSpace(s[0]) then TrimStart(s[1..]) else s
  }

  /** `s` with its trailing white space removed. */
  function TrimEnd(s: string): (r: string)
    ensures |r| <= |s| && r == s[..|r|]
    ensures forall i :: |r| <= i < |s| ==> IsSpace(s[i])
    ensures |r| > 0 ==> !IsSpace(r[|r| - 1])
  {
    if |s| > 0 && IsSpace(s[|s| - 1]) then TrimEnd(s[..|s| - 1]) else s
  }

  /** `r` is the block of `s` starting at offset `a`, and everything of `s`
      outside that block is white space. */
  predicate CutsBlank(s: string, a: int, r: string) {
    0 <= a <= |s| - |r| && r == s[a..a + |r|] && IsBlank(s[..a]) && IsBlank(s[a + |r|..])
  }

  /** `s.trim()`: the longest infix of `s` that neither starts nor ends with
      white space, everything cut off being white space. */
  function Trim(s: string): (r: string)
    ensures |r| <= |s|
    ensures exists a :: CutsBlank(s, a, r)
    ensures |r| > 0 ==> !IsSpace(r[0]) && !IsSpace(r[|r| - 1])
  {
    var t := TrimStart(s);
    var r := TrimEnd(t);
    BlankAroundInfix(s, t, r);
    r
  }

  /** `t` is a suffix of `s` after white space, and `r` a prefix of `t`
      before white space: then `r` sits in `s` with only white space
      around it. */
  lemma BlankAroundInfix(s: string, t: string, r: string)
    requires |t| <= |s| && t == s[|s| - |t|..]
    requires forall i :: 0 <= i < |s| - |t| ==> IsSpace(s[i])
    requires |r| <= |t| && r == t[..|r|]
    requires forall i :: |r| <= i < |t| ==> IsSpace(t[i])
    ensures CutsBlank(s, |s| - |t|, r)
  {
    var a := |s| - |t|;
    var b := a + |r|;
    assert r == s[a..b];
    assert IsBlank(s[..a]) by {
      forall i | 0 <= i < a
        ensures IsSpace(s[..a][i])
      {
        assert s[..a][i] == s[i];
      }
    }
    assert IsBlank(s[b..]) by {
      forall i | 0 <= i < |s| - b
        ensures IsSpace(s[b..][i])
      {
        assert s[b..][i] == s[b + i] == t[|r| + i];
      }
    }
  }

  /** A space before one other character is trimmed away; the string is
      not blank. */
  lemma SpaceThenChar(c: char)
    requires !IsSpace(c)
    ensures Trim([' ', c]) == [c] && !IsBlank([' ', c])
  {
    assert [' ', c][1..] == [c];
    assert TrimStart([' ', c]) == [c];
    assert [' ', c][1] == c;
  }

  /** A string is blank exactly when trimming leaves nothing (`!s.trim()`). */
  lemma TrimEmptyIffBlank(s: string)
    ensures Trim(s) == "" <==> IsBlank(s)
  {
    var r := Trim(s);
    var a :| CutsBlank(s, a, r);
    if r == "" {
      forall i | 0 <= i < |s|
        ensures IsSpace(s[i])
      {
        if i < a {
          assert s[..a][i] == s[i];
        } else {
          assert s[a..][i - a] == s[i];
        }
      }
    } else {
      assert s[a] == r[0];
    }
  }

  /** Trimming an already trimmed string changes nothing. */
  lemma TrimIdempotent(s: string)
    ensures Trim(Trim(s)) == Trim(s)
  {
    var r := Trim(s);
    if |r| > 0 {
      assert TrimStart(r) == r;
      assert TrimEnd(r) == r;
    }
  }

  /** ASCII lower-casing of one character. */
  function LowerChar(c: char): (r: char)
    ensures 'A' <= c <= 'Z' ==> r as int == c as int + 32
    ensures !('A' <= c <= 'Z') ==> r == c
  {
    if 'A' <= c <= 'Z' then (c as int + 32) as char else c
  }

  /** `s.toLowerCase()`, restricted to ASCII letters. */
  function Lower(s: string): (r: string)
    ensures |r| == |s|
    ensures forall i :: 0 <= i < |s| ==> r[i] == LowerChar(s[i])
  {
    seq(|s|, i requires 0 <= i < |s| => LowerChar(s[i]))
  }

  /** Lower-casing twice is lower-casing once. */
  lemma LowerIdempotent(s: string)
    ensures Lower(Lower(s)) == Lower(s)
  {
    forall i | 0 <= i < |s|
      ensures LowerChar(LowerChar(s[i])) == LowerChar(s[i])
    {
    }
  }

  /** `needle` occurs in `hay` as a contiguous block (`hay.includes(needle)`). */
  predicate IsInfix(needle: string, hay: string)
    decreases |hay|
  {
    needle <= hay || (|hay| > 0 && IsInfix(needle, hay[1..]))
  }

  /** `hay` spells out `needle` starting at offset `i`. */
  predicate OccursAt(needle: string, hay: string, i: int) {
    0 <= i <= |hay| - |needle| && hay[i..i + |needle|] == needle
  }

  /** An occurrence at a known offset makes `needle` an infix. */
  lemma {:induction false} InfixFromOffset(needle: string, hay: string, i: int)
    requires OccursAt(needle, hay, i)
    ensures IsInfix(needle, hay)
    decreases i
  {
    if i == 0 {
      assert hay[..|needle|] == needle;
    } else {
      assert hay[1..][i - 1..i - 1 + |needle|] == hay[i..i + |needle|];
      InfixFromOffset(needle, hay[1..], i - 1);
    }
  }

  /** An infix occurs at some offset. */
  lemma {:induction false} OffsetOfInfix(needle: string, hay: string) returns (i: int)
    requires IsInfix(needle, hay)
    ensures OccursAt(needle, hay, i)
    decreases |hay|
  {
    if needle <= hay {
      i := 0;
    } else {
      var j := OffsetOfInfix(needle, hay[1..]);
      assert hay[1..][j..j + |needle|] == hay[j + 1..j + 1 + |needle|];
      i := j + 1;
    }
  }

  /** `IsInfix` agrees with the positional definition: some offset at which
      `hay` spells out `needle`. */
  lemma InfixAtOffset(needle: string, hay: string)
    ensures IsInfix(needle, hay) <==> exists i :: OccursAt(needle, hay, i)
  {
    if IsInfix(needle, hay) {
      var i := OffsetOfInfix(needle, hay);
    }
    if exists i :: OccursAt(needle, hay, i) {
      var i :| OccursAt(needle, hay, i);
      InfixFromOffset(needle, hay, i);
    }
  }

  /** The database's case-insensitive `contains` (`mode: "insensitive"`). */
  predicate ContainsInsensitive(hay: string, needle: string) {
    IsInfix(Lower(needle), Lower(hay))
  }

  /** `s.startsWith(prefix)`. */
  predicate StartsWith(s: string, prefix: string) {
    prefix <= s
  }

  /** The noun after a count: `count === 1 ? one : many`, as the forum's
      category cards ("thread"/"threads") and the search header
      ("result"/"results") print it. */
  function CountNoun(n: nat, one: string, many: string): (s: string)
    requires one != many
    ensures s == one <==> n == 1
    ensures s == one || s == many
  {
    if n == 1 then one else many
  }
}

/** Trimming, and strings that are joined with a separator: these
 can be taken apart again when one side avoids the separator. */
module Text {
  /** White space and line terminators as `trim` knows them. */
  predicate IsSpace(c: char) {
    var code := c as int;
    || 0x09 <= code <= 0x0D || code == 0x20 || code == 0xA0 || code == 0x1680 || 0x2000 <= code <= 0x200A
    || code == 0x2028 || code == 0x2029 || code == 0x202F || code == 0x205F || code == 0x3000 || code == 0xFEFF
  }

  function TrimStart(s: string): string {
    if s != "" && IsSpace(s[0]) then TrimStart(s[1..]) else s
  }

  function TrimEnd(s: string): string {
    if s != "" && IsSpace(s[|s| - 1]) then TrimEnd(s[..|s| - 1]) else s
  }

  function Trim(s: string): string {
    TrimEnd(TrimStart(s))
  }

  predicate Blank(s: string) {
    forall i :: 0 <= i < |s| ==> IsSpace(s[i])
  }

  lemma {:induction false} TrimStartExactly(s: string) returns (before: string)
    ensures s == before + TrimStart(s) && Blank(before) && (TrimStart(s) != "" ==> !IsSpace(TrimStart(s)[0]))
  {
    if s != "" && IsSpace(s[0]) {
      before := TrimStartExactly(s[1..]);
      assert s == [s[0]] + s[1..];
      before := [s[0]] + before;
    } else {
      before := "";
    }
  }

  lemma {:induction false} TrimEndExactly(s: string) returns (after: string)
    ensures s == TrimEnd(s) + after && Blank(after) && (TrimEnd(s) != "" ==> TrimEnd(s)[0] == s[0] && !IsSpace(TrimEnd(s)[|TrimEnd(s)| - 1]))
  {
    if s != "" && IsSpace(s[|s| - 1]) {
      var last := |s| - 1;
      after := TrimEndExactly(s[..last]);
      assert s == s[..last] + [s[last]];
      after := after + [s[last]];
    } else {
      after := "";
    }
  }

  /** Trimming takes blanks off both ends, and all of them. */
  lemma TrimExactly(s: string) returns (before: string, after: string)
    ensures s == before + Trim(s) + after && Blank(before) && Blank(after)
    ensures Trim(s) != "" ==> !IsSpace(Trim(s)[0]) && !IsSpace(Trim(s)[|Trim(s)| - 1])
  {
    before := TrimStartExactly(s);
    after := TrimEndExactly(TrimStart(s));
    assert before + (Trim(s) + after) == before + Trim(s) + after;
  }

  predicate Free(s: string, separator: char) {
    separator !in s
  }

  lemma JoinedOnFirst(a: string, b: string, c: string, d: string, separator: char)
    requires Free(a, separator) && Free(c, separator)
    requires a + [separator] + b == c + [separator] + d
    ensures a == c && b == d
  {
    var whole := a + [separator] + b;
    assert whole[|a|] == separator && whole[|c|] == separator;
    assert a == whole[..|a|] && c == whole[..|c|];
    assert b == whole[|a| + 1..] && d == whole[|c| + 1..];
  }

  lemma JoinedOnLast(a: string, b: string, c: string, d: string, separator: char)
    requires Free(b, separator) && Free(d, separator)
    requires a + [separator] + b == c + [separator] + d
    ensures a == c && b == d
  {
    var whole := a + [separator] + b;
    assert whole[|a|] == separator && whole[|c|] == separator;
    assert a == whole[..|a|] && c == whole[..|c|];
    assert b == whole[|a| + 1..] && d == whole[|c| + 1..];
  }
}

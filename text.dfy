/** The JavaScript string operations the components rely on: `toLowerCase`
    (ASCII letters only), `trim`, `includes`, `split` on one character and
    `join`. */
module Text {

  /** `toLowerCase` on one character, restricted to the ASCII letters. */
  function Lower(c: char): char
  {
    if 'A' <= c <= 'Z' then (c as int + 32) as char else c
  }

  /** `s.toLowerCase()`, character by character. */
  function LowerStr(s: string): (r: string)
    ensures |r| == |s|
    ensures forall i :: 0 <= i < |s| ==> r[i] == Lower(s[i])
  {
    seq(|s|, i requires 0 <= i < |s| => Lower(s[i]))
  }

  /** Lowering twice is lowering once. */
  lemma LowerStrIdempotent(s: string)
    ensures LowerStr(LowerStr(s)) == LowerStr(s)
  {
  }

  /** The characters `String.prototype.trim` strips: ECMAScript's WhiteSpace
      (tab, vertical tab, form feed, space, no-break space, byte order mark
      and the Unicode space separators) and LineTerminator. */
  predicate IsSpace(c: char)
  {
    c == '\t' || c == '\n' || c == '\r' || c == ' ' || c == '\U{000B}' || c == '\U{000C}'
    || c == '\U{00A0}' || c == '\U{FEFF}' || c == '\U{1680}' || ('\U{2000}' <= c <= '\U{200A}')
    || c == '\U{2028}' || c == '\U{2029}' || c == '\U{202F}' || c == '\U{205F}' || c == '\U{3000}'
  }

  /** `s` with its leading white space removed. */
  function TrimStart(s: string): (r: string)
    ensures |r| <= |s| && r == s[|s| - |r|..]
    ensures forall i :: 0 <= i < |s| - |r| ==> IsSpace(s[i])
    ensures r != [] ==> !IsSpace(r[0])
  {
    if s != [] && IsSpace(s[0]) then TrimStart(s[1..]) else s
  }

  /** `s` with its trailing white space removed. */
  function TrimEnd(s: string): (r: string)
    ensures |r| <= |s| && r == s[..|r|]
    ensures forall i :: |r| <= i < |s| ==> IsSpace(s[i])
    ensures r != [] ==> !IsSpace(r[|r| - 1])
  {
    if s != [] && IsSpace(s[|s| - 1]) then TrimEnd(s[..|s| - 1]) else s
  }

  /** `s.trim()`. */
  function Trim(s: string): string
  {
    TrimEnd(TrimStart(s))
  }

  /** `s.trim().length === 0`: the test the search box uses for "no query". */
  predicate IsBlank(s: string)
  {
    |Trim(s)| == 0
  }

  /** A string is blank exactly when every character of it is white space. */
  lemma BlankIffAllSpace(s: string)
    ensures IsBlank(s) <==> forall i :: 0 <= i < |s| ==> IsSpace(s[i])
  {
    var t := TrimStart(s);
    if IsBlank(s) {
      assert |t| == 0;
    } else {
      var r := Trim(s);
      assert !IsSpace(r[|r| - 1]);
      assert r[|r| - 1] == s[|s| - |t| + |r| - 1];
    }
  }

  /** Lower-casing never turns white space into a visible character or back,
      so a query is blank exactly when its lower-cased form is. */
  lemma BlankIgnoresCase(s: string)
    ensures IsBlank(LowerStr(s)) == IsBlank(s)
  {
    BlankIffAllSpace(s);
    BlankIffAllSpace(LowerStr(s));
    assert forall i :: 0 <= i < |s| ==> IsSpace(LowerStr(s)[i]) == IsSpace(s[i]);
  }

  /** `needle` occurs in `hay` starting at index `k`. */
  predicate OccursAt(hay: string, needle: string, k: int)
  {
    0 <= k && k + |needle| <= |hay| && hay[k..k + |needle|] == needle
  }

  /** `hay.includes(needle)`. */
  predicate Contains(hay: string, needle: string)
  {
    exists k :: 0 <= k <= |hay| - |needle| && OccursAt(hay, needle, k)
  }

  /** A needle with two adjacent characters that never stand side by side in
      `hay` does not occur in it. This is how the concrete non-matches of the
      search catalog are shown. */
  lemma MissingPair(hay: string, needle: string, j: nat)
    requires j + 1 < |needle|
    requires forall k :: 0 <= k < |hay| - 1 ==> !(hay[k] == needle[j] && hay[k + 1] == needle[j + 1])
    ensures !Contains(hay, needle)
  {
    forall k | 0 <= k <= |hay| - |needle| ensures !OccursAt(hay, needle, k) {
      assert hay[k..k + |needle|][j] == hay[k + j];
      assert hay[k..k + |needle|][j + 1] == hay[k + j + 1];
    }
  }

  /** The same test on the lower-cased forms, stated on the original
      characters. */
  lemma LowerMissingPair(hay: string, needle: string, j: nat)
    requires j + 1 < |needle|
    requires forall k :: 0 <= k < |hay| - 1 ==>
               !(Lower(hay[k]) == Lower(needle[j]) && Lower(hay[k + 1]) == Lower(needle[j + 1]))
    ensures !Contains(LowerStr(hay), LowerStr(needle))
  {
    MissingPair(LowerStr(hay), LowerStr(needle), j);
  }

  /** A needle holding a character that `hay` lacks, up to letter case, does
      not occur in it, up to letter case. */
  lemma LowerMissingChar(hay: string, needle: string, j: nat)
    requires j < |needle|
    requires forall k :: 0 <= k < |hay| ==> Lower(hay[k]) != Lower(needle[j])
    ensures !Contains(LowerStr(hay), LowerStr(needle))
  {
    var h, n := LowerStr(hay), LowerStr(needle);
    forall k | 0 <= k <= |h| - |n| ensures !OccursAt(h, n, k) {
      assert h[k..k + |n|][j] == h[k + j];
    }
  }

  /** Whatever contains a needle contains the needle without its first
      character. */
  lemma ContainsTail(hay: string, needle: string)
    requires needle != [] && Contains(hay, needle)
    ensures Contains(hay, needle[1..])
  {
    var k :| 0 <= k <= |hay| - |needle| && OccursAt(hay, needle, k);
    assert hay[k + 1..k + 1 + |needle[1..]|] == hay[k..k + |needle|][1..];
    assert OccursAt(hay, needle[1..], k + 1);
  }

  /** `s.split(sep)` for a one-character separator: the maximal runs between
      separators, with an empty string wherever two separators are adjacent or
      `s` starts or ends with one; `"".split(sep)` is `[""]`. */
  function Split(s: string, sep: char): (r: seq<string>)
    ensures |r| >= 1
    ensures forall w :: w in r ==> sep !in w
  {
    if s == [] then [[]]
    else
      var rest := Split(s[1..], sep);
      if s[0] == sep then [[]] + rest
      else
        assert forall w :: w in rest[1..] ==> w in rest;
        [[s[0]] + rest[0]] + rest[1..]
  }

  /** `ws.join(sep)`. */
  function Join(ws: seq<string>, sep: char): string
  {
    if ws == [] then []
    else if |ws| == 1 then ws[0]
    else ws[0] + [sep] + Join(ws[1..], sep)
  }

  /** Splitting and joining back on the same character gives the string back. */
  lemma {:induction false} JoinSplit(s: string, sep: char)
    ensures Join(Split(s, sep), sep) == s
  {
    if s != [] {
      var rest := Split(s[1..], sep);
      JoinSplit(s[1..], sep);
      if s[0] == sep {
        assert s == [sep] + s[1..];
      } else {
        if |rest| == 1 {
          assert s == [s[0]] + rest[0];
        } else {
          assert Join(rest, sep) == rest[0] + [sep] + Join(rest[1..], sep);
          assert s == [s[0]] + s[1..];
        }
      }
    }
  }
}

/** Python's string operations as far as the scripts use them: lines, blanks, searching. */
module Text {

  // ----- Python's notion of lines and blanks

  /** The boundaries of `str.splitlines`. */
  predicate IsLineBreak(c: char) {
    var n := c as int;
    0x0A <= n <= 0x0D || 0x1C <= n <= 0x1E || n == 0x85 || n == 0x2028 || n == 0x2029
  }

  /** The characters `str.strip` removes. */
  predicate IsSpace(c: char) {
    var n := c as int;
    || IsLineBreak(c) || n == 0x09 || n == 0x1F || n == 0x20 || n == 0xA0 || n == 0x1680
    || 0x2000 <= n <= 0x200A || n == 0x202F || n == 0x205F || n == 0x3000
  }

  predicate OneLine(s: string) {
    forall i :: 0 <= i < |s| ==> !IsLineBreak(s[i])
  }

  function LineEnd(s: string): (n: nat)
    ensures n <= |s| && OneLine(s[..n]) && (n < |s| ==> IsLineBreak(s[n]))
  {
    if s == "" || IsLineBreak(s[0]) then 0
    else
      var n := LineEnd(s[1..]);
      assert s[..n + 1] == [s[0]] + s[1..][..n];
      n + 1
  }

  /** A carriage return followed by a line feed is one boundary. */
  function BreakWidth(s: string, n: nat): (w: nat)
    requires n < |s|
    ensures 1 <= w && n + w <= |s|
  {
    if s[n] == '\r' && n + 1 < |s| && s[n + 1] == '\n' then 2 else 1
  }

  function SplitLines(s: string): seq<string>
    decreases |s|
  {
    if s == "" then []
    else
      var n := LineEnd(s);
      if n == |s| then [s] else [s[..n]] + SplitLines(s[n + BreakWidth(s, n)..])
  }

  function StripLeft(s: string): string {
    if s != "" && IsSpace(s[0]) then StripLeft(s[1..]) else s
  }

  function StripRight(s: string): string {
    if s != "" && IsSpace(s[|s| - 1]) then StripRight(s[..|s| - 1]) else s
  }

  function Strip(s: string): string {
    StripRight(StripLeft(s))
  }

  predicate Trimmed(s: string) {
    s == "" || (!IsSpace(s[0]) && !IsSpace(s[|s| - 1]))
  }

  lemma {:induction false} StripLeftFacts(s: string)
    ensures StripLeft(s) != "" ==> !IsSpace(StripLeft(s)[0])
    ensures OneLine(s) ==> OneLine(StripLeft(s))
    ensures forall c :: c in StripLeft(s) ==> c in s
    ensures s != "" && !IsSpace(s[0]) ==> StripLeft(s) == s
  {
    if s != "" && IsSpace(s[0]) {
      StripLeftFacts(s[1..]);
    }
  }

  lemma {:induction false} StripRightFacts(s: string)
    ensures StripRight(s) != "" ==> !IsSpace(StripRight(s)[|StripRight(s)| - 1])
    ensures StripRight(s) <= s
    ensures s != "" && !IsSpace(s[0]) ==> StripRight(s) != ""
    ensures s != "" && !IsSpace(s[|s| - 1]) ==> StripRight(s) == s
  {
    if s != "" && IsSpace(s[|s| - 1]) {
      StripRightFacts(s[..|s| - 1]);
    }
  }

  lemma StripFacts(s: string)
    ensures Trimmed(Strip(s)) && (OneLine(s) ==> OneLine(Strip(s)))
    ensures forall c :: c in Strip(s) ==> c in s
    ensures s != "" && !IsSpace(s[0]) ==> Strip(s) != "" && Strip(s)[0] == s[0]
    ensures Trimmed(s) ==> Strip(s) == s
  {
    StripLeftFacts(s);
    StripRightFacts(StripLeft(s));
    var l, r := StripLeft(s), Strip(s);
    assert r == l[..|r|];
  }

  lemma {:induction false} SplitOneLine(s: string)
    ensures forall i :: 0 <= i < |SplitLines(s)| ==> OneLine(SplitLines(s)[i])
    decreases |s|
  {
    if s != "" {
      var n := LineEnd(s);
      if n < |s| {
        SplitOneLine(s[n + BreakWidth(s, n)..]);
      } else {
        assert s[..n] == s;
      }
    }
  }

  // ----- searching

  function IndexOf(c: char, s: string): (n: nat)
    requires c in s
    ensures n < |s| && s[n] == c && c !in s[..n]
  {
    if s[0] == c then 0 else
      assert c in s[1..];
      1 + IndexOf(c, s[1..])
  }

  lemma {:induction false} IndexOfFirst(c: char, a: string, b: string)
    requires c !in a
    ensures IndexOf(c, a + [c] + b) == |a|
  {
    if a == "" {
      assert (a + [c] + b)[0] == c;
    } else {
      IndexOfFirst(c, a[1..], b);
      assert (a + [c] + b)[1..] == a[1..] + [c] + b;
    }
  }

  predicate OccursAt(s: string, m: string, i: nat) {
    i + |m| <= |s| && s[i..i + |m|] == m
  }

  predicate Contains(s: string, m: string) {
    exists i :: 0 <= i <= |s| && OccursAt(s, m, i)
  }

  lemma ContainsPrefix(a: string, b: string, m: string)
    requires Contains(a, m)
    ensures Contains(a + b, m)
  {
    var i :| 0 <= i <= |a| && OccursAt(a, m, i);
    assert (a + b)[i..i + |m|] == a[i..i + |m|];
    assert OccursAt(a + b, m, i);
  }

  lemma ContainsSuffix(a: string, b: string, m: string)
    requires Contains(b, m)
    ensures Contains(a + b, m)
  {
    var i :| 0 <= i <= |b| && OccursAt(b, m, i);
    assert (a + b)[|a| + i..|a| + i + |m|] == b[i..i + |m|];
    assert OccursAt(a + b, m, |a| + i);
  }

  /** A text is searched for several markers at once. */
  predicate ContainsAny(s: string, markers: seq<string>) {
    exists k :: 0 <= k < |markers| && Contains(s, markers[k])
  }
}

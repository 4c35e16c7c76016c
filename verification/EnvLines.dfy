/** What a hand-edited line of an `.env` file means: blanks around key and value do not matter. */
module EnvLines {
  import opened EnvFile
  import opened Options
  import opened Text

  predicate AllSpace(s: string) {
    forall i :: 0 <= i < |s| ==> IsSpace(s[i])
  }

  lemma {:induction false} StripLeftBlank(a: string, x: string)
    requires AllSpace(a)
    ensures StripLeft(a + x) == StripLeft(x)
  {
    if a == "" {
      assert a + x == x;
    } else {
      StripLeftBlank(a[1..], x);
      assert (a + x)[1..] == a[1..] + x;
    }
  }

  lemma {:induction false} StripRightBlank(x: string, b: string)
    requires AllSpace(b)
    ensures StripRight(x + b) == StripRight(x)
  {
    if b == "" {
      assert x + b == x;
    } else {
      StripRightBlank(x, b[..|b| - 1]);
      assert (x + b)[..|x + b| - 1] == x + b[..|b| - 1];
    }
  }

  lemma {:induction false} StripLeftBefore(u: string, c: char, w: string)
    requires !IsSpace(c)
    ensures StripLeft(u + [c] + w) == StripLeft(u) + [c] + w
  {
    if u == "" {
      assert u + [c] + w == [c] + w;
    } else if IsSpace(u[0]) {
      StripLeftBefore(u[1..], c, w);
      assert (u + [c] + w)[1..] == u[1..] + [c] + w;
    }
  }

  lemma {:induction false} StripRightAfter(u: string, c: char, w: string)
    requires !IsSpace(c)
    ensures StripRight(u + [c] + w) == u + [c] + StripRight(w)
  {
    if w == "" {
      assert u + [c] + w == u + [c];
    } else if IsSpace(w[|w| - 1]) {
      var s := u + [c] + w;
      StripRightAfter(u, c, w[..|w| - 1]);
      assert s[..|s| - 1] == u + [c] + w[..|w| - 1];
    }
  }

  lemma StripLeftAround(a: string, x: string, b: string)
    requires AllSpace(a) && AllSpace(b) && Trimmed(x)
    ensures StripLeft(a + x + b) == if x == "" then "" else x + b
  {
    assert a + x + b == a + (x + b);
    StripLeftBlank(a, x + b);
    if x == "" {
      assert x + b == b && b + "" == b;
      StripLeftBlank(b, "");
    }
  }

  lemma StripRightAround(a: string, x: string, b: string)
    requires AllSpace(a) && AllSpace(b) && Trimmed(x)
    ensures StripRight(a + x + b) == if x == "" then "" else a + x
  {
    StripRightBlank(a + x, b);
    if x == "" {
      assert a + x == a && "" + a == a;
      StripRightBlank("", a);
    } else {
      assert (a + x)[|a + x| - 1] == x[|x| - 1];
    }
  }

  lemma StripAround(a: string, x: string, b: string)
    requires AllSpace(a) && AllSpace(b) && Trimmed(x)
    ensures Strip(a + x + b) == x
  {
    StripLeftAround(a, x, b);
    if x != "" {
      assert "" + x + b == x + b && "" + x == x;
      StripRightAround("", x, b);
    }
  }

  lemma StripEquation(u: string, w: string)
    ensures Strip(u + ['='] + w) == StripLeft(u) + ['='] + StripRight(w)
  {
    StripLeftBefore(u, '=', w);
    StripRightAfter(StripLeft(u), '=', w);
  }

  /** What stripping a line leaves of the key and the blanks around it. */
  function LeftPart(p: Pair, b: string): string {
    if p.key == "" then "" else p.key + b
  }

  function RightPart(p: Pair, c: string): string {
    if p.val == "" then "" else c + p.val
  }

  lemma LeftPartStripped(p: Pair, b: string)
    requires Clean(p) && AllSpace(b)
    ensures Strip(LeftPart(p, b)) == p.key
    ensures '=' !in LeftPart(p, b) && (LeftPart(p, b) != "" ==> LeftPart(p, b)[0] != '#')
  {
    assert "" + p.key + b == p.key + b;
    StripAround("", p.key, b);
    forall i | 0 <= i < |b| ensures b[i] != '=' {
    }
  }

  lemma RightPartStripped(p: Pair, c: string)
    requires Clean(p) && AllSpace(c)
    ensures Strip(RightPart(p, c)) == p.val
  {
    assert c + p.val + "" == c + p.val;
    StripAround(c, p.val, "");
  }

  lemma ParsedEquation(raw: string, left: string, right: string)
    requires Strip(raw) == left + ['='] + right && '=' !in left && (left != "" ==> left[0] != '#')
    ensures ParseLine(raw) == Some(Pair(Strip(left), Strip(right)))
  {
    var line := Strip(raw);
    IndexOfFirst('=', left, right);
    assert line[|left|] == '=';
    assert line[..|left|] == left && line[|left| + 1..] == right;
  }

  /** A key and a value, each with any blanks around it, are parsed to that key and value. */
  lemma ParsedBetweenBlanks(a: string, b: string, c: string, d: string, p: Pair)
    requires AllSpace(a) && AllSpace(b) && AllSpace(c) && AllSpace(d) && Clean(p)
    ensures ParseLine((a + p.key + b) + ['='] + (c + p.val + d)) == Some(p)
  {
    var u, w := a + p.key + b, c + p.val + d;
    StripEquation(u, w);
    StripLeftAround(a, p.key, b);
    StripRightAround(c, p.val, d);
    LeftPartStripped(p, b);
    RightPartStripped(p, c);
    ParsedEquation(u + ['='] + w, LeftPart(p, b), RightPart(p, c));
  }
}

/** Normalising twice: on which strings, of any form, the second pass changes nothing. */
module UrlIdempotence {
  import opened Text
  import opened UrlTemplates

  // ----- cons cells

  lemma OccursInCons(c: char, x: string, m: string, i: nat)
    ensures OccursAt([c] + x, m, i + 1) <==> OccursAt(x, m, i)
  {
    if i + |m| <= |x| {
      assert ([c] + x)[i + 1..i + 1 + |m|] == x[i..i + |m|];
    }
  }

  lemma ContainsCons(c: char, x: string, m: string)
    ensures Contains([c] + x, m) <==> OccursAt([c] + x, m, 0) || Contains(x, m)
  {
    if Contains(x, m) {
      var i :| 0 <= i <= |x| && OccursAt(x, m, i);
      OccursInCons(c, x, m, i);
      assert OccursAt([c] + x, m, i + 1);
    }
    if Contains([c] + x, m) {
      var i :| 0 <= i <= |[c] + x| && OccursAt([c] + x, m, i);
      if i > 0 {
        OccursInCons(c, x, m, i - 1);
        assert OccursAt(x, m, i - 1);
      }
    }
  }

  lemma StarCons(x: string)
    ensures "{*}" + x == ['{'] + (['*'] + (['}'] + x))
  {
  }

  lemma ConsOf(s: string)
    requires s != ""
    ensures s == [s[0]] + s[1..]
  {
  }

  // ----- the first pass leaves normal braces

  /** No brace group but `{*}`. */
  predicate Normal(b: string) {
    SubBraces(b) == b
  }

  predicate Opens(s: string) {
    s != "" && s[0] == '{' && '}' in s[1..] && IndexOf('}', s[1..]) > 0
  }

  lemma StarOpens(x: string)
    ensures Opens("{*}" + x) && SubBraces("{*}" + x) == "{*}" + SubBraces(x)
  {
    BracesMatch("*", x);
    assert "{" + "*" + "}" == "{*}";
    StarTail(x);
    IndexOfFirst('}', "*", x);
  }

  lemma StarTail(x: string)
    ensures ("{*}" + x)[0] == '{' && ("{*}" + x)[1..] == "*" + ['}'] + x
  {
  }

  lemma {:induction false} BracesIdempotent(s: string)
    ensures Normal(SubBraces(s))
    decreases |s|
  {
    if Opens(s) {
      var x := s[IndexOf('}', s[1..]) + 2..];
      BracesIdempotent(x);
      StarOpens(SubBraces(x));
    } else if s != "" {
      BracesIdempotent(s[1..]);
      StaysShut(s);
    }
  }

  /** A brace that opens no group opens none after the rest was rewritten. */
  lemma StaysShut(s: string)
    requires s != "" && !Opens(s)
    ensures !Opens([s[0]] + SubBraces(s[1..]))
    ensures SubBraces([s[0]] + SubBraces(s[1..])) == [s[0]] + SubBraces(SubBraces(s[1..]))
  {
    var y := SubBraces(s[1..]);
    assert ([s[0]] + y)[1..] == y;
    if s[0] == '{' {
      if '}' in s[1..] {
        assert s[1..][0] == '}';
        assert y[0] == '}';
      } else {
        NoClosing(s[1..]);
      }
    }
  }

  lemma {:induction false} NoClosing(s: string)
    requires '}' !in s
    ensures SubBraces(s) == s
  {
    if s != "" {
      NoClosing(s[1..]);
    }
  }

  /** A normal string starts with a `{*}` or a character that opens nothing, and goes on normally. */
  lemma NormalParts(b: string)
    requires Normal(b) && b != ""
    ensures if Opens(b) then |b| >= 3 && b == "{*}" + b[3..] && Normal(b[3..]) else Normal(b[1..])
  {
    if Opens(b) {
      var x := b[IndexOf('}', b[1..]) + 2..];
      assert b == "{*}" + SubBraces(x);
      assert b[1..][1] == '}';
      assert x == b[3..];
    } else {
      assert b[1..] == SubBraces(b[1..]);
    }
  }

  // ----- the second pass, on normal strings

  predicate DollarOpens(s: string) {
    s != "" && s[0] == '$' && Opens(s[1..])
  }

  /** Group by group, dollar group by dollar group, or character by character. */
  lemma DollarParts(b: string)
    requires Normal(b) && b != ""
    ensures Opens(b) ==> SubDollars(b) == "{*}" + SubDollars(b[3..])
    ensures DollarOpens(b) ==>
              |b| >= 4 && b == "${*}" + b[4..] && Normal(b[4..]) && SubDollars(b) == "{*}" + SubDollars(b[4..])
    ensures !Opens(b) && !DollarOpens(b) ==> SubDollars(b) == [b[0]] + SubDollars(b[1..])
  {
    NormalParts(b);
    if Opens(b) {
      DollarsSkip("{*}", b[3..]);
    } else if DollarOpens(b) {
      NormalParts(b[1..]);
      assert b[1..][3..] == b[4..];
      DollarGroup(b, b[4..]);
    } else {
      NoDollarGroup(b);
    }
  }

  lemma DollarGroup(b: string, x: string)
    requires b != "" && b[0] == '$' && b[1..] == "{*}" + x
    ensures b == "${*}" + x && SubDollars(b) == "{*}" + SubDollars(x)
  {
    ConsOf(b);
    assert "$" + ("{*}" + x) == "${*}" + x;
    DollarsMatch(x);
  }

  lemma NoDollarGroup(b: string)
    requires b != "" && !DollarOpens(b)
    ensures SubDollars(b) == [b[0]] + SubDollars(b[1..])
  {
    if |b| > 1 {
      assert b[1..][1..] == b[2..];
    }
  }

  lemma {:induction false} NoClosingDollars(s: string)
    requires '}' !in s
    ensures SubDollars(s) == s
  {
    if s != "" {
      NoClosingDollars(s[1..]);
    }
  }

  /** What starts with no group starts with none after the second pass. */
  lemma StaysShutDollars(b: string)
    requires Normal(b) && b != "" && !Opens(b) && !DollarOpens(b)
    ensures !Opens(SubDollars(b))
  {
    DollarParts(b);
    var y := SubDollars(b[1..]);
    assert SubDollars(b)[1..] == y;
    if b[0] == '{' {
      if '}' in b[1..] {
        assert b[1..][0] == '}' && y[0] == '}';
      } else {
        NoClosingDollars(b[1..]);
      }
    }
  }

  lemma NormalCons(c: char, x: string)
    requires Normal(x) && !Opens([c] + x)
    ensures Normal([c] + x)
  {
    assert ([c] + x)[1..] == x;
  }

  lemma {:induction false} NormalDollars(b: string)
    requires Normal(b)
    ensures Normal(SubDollars(b))
    decreases |b|
  {
    if b != "" {
      NormalParts(b);
      DollarParts(b);
      if Opens(b) {
        NormalDollars(b[3..]);
        StarOpens(SubDollars(b[3..]));
      } else if DollarOpens(b) {
        NormalDollars(b[4..]);
        StarOpens(SubDollars(b[4..]));
      } else {
        NormalDollars(b[1..]);
        StaysShutDollars(b);
        NormalCons(b[0], SubDollars(b[1..]));
      }
    }
  }

  // ----- cutting the query

  lemma CutCons(c: char, x: string)
    ensures CutQuery([c] + x) == if c == '?' then "" else [c] + CutQuery(x)
  {
    assert ([c] + x)[1..] == x;
  }

  lemma CutStar(x: string)
    ensures CutQuery("{*}" + x) == "{*}" + CutQuery(x)
  {
    StarCons(x);
    CutCons('{', ['*'] + (['}'] + x));
    CutCons('*', ['}'] + x);
    CutCons('}', x);
    StarCons(CutQuery(x));
  }

  lemma CutShut(b: string)
    requires b != "" && !Opens(b)
    ensures !Opens(CutQuery(b))
  {
    if b[0] == '{' && '}' in b[1..] {
      assert b[1..][0] == '}';
      ConsOf(b);
      ConsOf(b[1..]);
      CutCons('{', b[1..]);
      CutCons('}', b[1..][1..]);
      assert CutQuery(b)[1..] == CutQuery(b[1..]);
    }
  }

  /** On normal strings the query may be cut before the second pass or after it. */
  lemma {:induction false} CutCommutes(b: string)
    requires Normal(b)
    ensures Normal(CutQuery(b)) && CutQuery(SubDollars(b)) == SubDollars(CutQuery(b))
    decreases |b|
  {
    if b != "" {
      NormalParts(b);
      DollarParts(b);
      if Opens(b) {
        CutCommutes(b[3..]);
        CutStar(b[3..]);
        CutStar(SubDollars(b[3..]));
        StarOpens(CutQuery(b[3..]));
        DollarsSkip("{*}", CutQuery(b[3..]));
      } else if DollarOpens(b) {
        CutCommutes(b[4..]);
        CutDollarStar(b[4..]);
        CutStar(SubDollars(b[4..]));
        DollarsMatch(CutQuery(b[4..]));
      } else {
        CutCommutesCons(b);
      }
    }
  }

  lemma DollarCons(x: string)
    ensures "${*}" + x == ['$'] + ("{*}" + x)
  {
  }

  lemma CutDollarStar(x: string)
    requires Normal(CutQuery(x))
    ensures CutQuery("${*}" + x) == "${*}" + CutQuery(x) && Normal("${*}" + CutQuery(x))
  {
    DollarCons(x);
    CutCons('$', "{*}" + x);
    CutStar(x);
    DollarCons(CutQuery(x));
    StarOpens(CutQuery(x));
    NormalCons('$', "{*}" + CutQuery(x));
  }

  lemma {:induction false} CutCommutesCons(b: string)
    requires Normal(b) && b != "" && !Opens(b) && !DollarOpens(b)
    ensures Normal(CutQuery(b)) && CutQuery(SubDollars(b)) == SubDollars(CutQuery(b))
    decreases |b|, 0
  {
    NormalParts(b);
    DollarParts(b);
    ConsOf(b);
    CutCons(b[0], b[1..]);
    CutCons(b[0], SubDollars(b[1..]));
    if b[0] != '?' {
      CutCommutes(b[1..]);
      CutShut(b);
      if b[1..] != "" && b[0] == '$' {
        CutShut(b[1..]);
      }
      var c := CutQuery(b);
      NormalCons(b[0], CutQuery(b[1..]));
      assert c[1..] == CutQuery(b[1..]);
      DollarParts(c);
    }
  }

  // ----- where the second pass finds something

  lemma StarHolds(x: string, m: string)
    requires m != "" && m[0] == '$'
    ensures Contains("{*}" + x, m) <==> Contains(x, m)
  {
    StarCons(x);
    ContainsCons('{', ['*'] + (['}'] + x), m);
    ContainsCons('*', ['}'] + x, m);
    ContainsCons('}', x, m);
  }

  /** A dollar group is the only thing the second pass changes, and it makes the string shorter. */
  lemma {:induction false} UnchangedExactly(b: string)
    requires Normal(b)
    ensures SubDollars(b) == b <==> !Contains(b, "${*}")
    ensures |SubDollars(b)| <= |b|
    decreases |b|
  {
    if b != "" {
      NormalParts(b);
      DollarParts(b);
      ConsOf(b);
      if Opens(b) {
        UnchangedExactly(b[3..]);
        StarHolds(b[3..], "${*}");
      } else if DollarOpens(b) {
        UnchangedExactly(b[4..]);
        assert OccursAt(b, "${*}", 0);
      } else {
        UnchangedExactly(b[1..]);
        ContainsCons(b[0], b[1..], "${*}");
        if OccursAt(b, "${*}", 0) {
          StarAfterDollar(b);
        }
      }
    }
  }

  lemma StarAfterDollar(b: string)
    requires OccursAt(b, "${*}", 0)
    ensures DollarOpens(b)
  {
    StarFollows(b);
    StarOpens(b[4..]);
  }

  lemma StarFollows(b: string)
    requires OccursAt(b, "${*}", 0)
    ensures |b| >= 4 && b[0] == '$' && b[1..] == "{*}" + b[4..]
  {
    var m := b[0..4];
    assert m[1..] == "{*}" && m[0] == '$';
    assert b[1..] == m[1..] + b[4..];
  }

  ghost predicate LeftOver(b: string) {
    Contains(SubDollars(b), "${*}") <==> Contains(b, "$${*}")
  }

  /** A dollar group is left over exactly where two dollar signs stood before a group. */
  lemma {:induction false} LeftOverExactly(b: string)
    requires Normal(b)
    ensures LeftOver(b)
    decreases |b|
  {
    if b != "" {
      NormalParts(b);
      DollarParts(b);
      if Opens(b) {
        LeftOverExactly(b[3..]);
        LeftOverGroup(b[3..]);
      } else if DollarOpens(b) {
        LeftOverExactly(b[4..]);
        LeftOverDollarGroup(b[4..]);
      } else {
        LeftOverExactly(b[1..]);
        LeftOverOther(b);
      }
    }
  }

  lemma LeftOverGroup(x: string)
    requires LeftOver(x)
    ensures LeftOver("{*}" + x)
  {
    DollarsSkip("{*}", x);
    StarHolds(x, "$${*}");
    StarHolds(SubDollars(x), "${*}");
  }

  lemma LeftOverDollarGroup(x: string)
    requires LeftOver(x)
    ensures LeftOver("${*}" + x)
  {
    DollarsMatch(x);
    StarHolds(SubDollars(x), "${*}");
    StarHolds(x, "$${*}");
    DollarCons(x);
    ContainsCons('$', "{*}" + x, "$${*}");
    NotDoubled("${*}" + x);
  }

  lemma LeftOverOther(b: string)
    requires Normal(b) && b != "" && !Opens(b) && !DollarOpens(b) && LeftOver(b[1..])
    ensures LeftOver(b)
  {
    DollarParts(b);
    ConsOf(b);
    ContainsCons(b[0], b[1..], "$${*}");
    ContainsCons(b[0], SubDollars(b[1..]), "${*}");
    LeftOverHere(b);
  }

  lemma NotDoubled(b: string)
    requires |b| > 1 && b[1] != '$'
    ensures !OccursAt(b, "$${*}", 0)
  {
    assert "$${*}"[1] == '$';
  }

  lemma LeftOverHere(b: string)
    requires Normal(b) && b != "" && !Opens(b) && !DollarOpens(b)
    ensures OccursAt(SubDollars(b), "${*}", 0) <==> OccursAt(b, "$${*}", 0)
  {
    DollarParts(b);
    NormalParts(b);
    if OccursAt(SubDollars(b), "${*}", 0) {
      LeftOverFrom(b);
    }
    if OccursAt(b, "$${*}", 0) {
      LeftOverOf(b);
    }
  }

  lemma LeftOverFrom(b: string)
    requires b != "" && Normal(b[1..]) && !DollarOpens(b) && SubDollars(b) == [b[0]] + SubDollars(b[1..])
    requires OccursAt(SubDollars(b), "${*}", 0)
    ensures OccursAt(b, "$${*}", 0)
  {
    var x := b[1..];
    StarAfterDollar(SubDollars(b));
    assert SubDollars(b)[1..] == SubDollars(x) && b[0] == '$' && !Opens(x);
    if DollarOpens(x) {
      DollarParts(x);
      Doubled(b, x[4..]);
    } else {
      StaysShutDollars(x);
      assert false;
    }
  }

  lemma Doubled(b: string, x: string)
    requires b != "" && b[0] == '$' && b[1..] == "${*}" + x
    ensures OccursAt(b, "$${*}", 0)
  {
    assert b[0..5] == [b[0]] + b[1..][..4];
    assert ("${*}" + x)[..4] == "${*}";
    assert ['$'] + "${*}" == "$${*}";
  }

  lemma LeftOverOf(b: string)
    requires b != "" && Normal(b[1..]) && SubDollars(b) == [b[0]] + SubDollars(b[1..])
    requires OccursAt(b, "$${*}", 0)
    ensures OccursAt(SubDollars(b), "${*}", 0)
  {
    var x := b[1..];
    DoubledTail(b);
    StarAfterDollar(x);
    DollarParts(x);
    Single(SubDollars(x[4..]));
    assert SubDollars(b) == ['$'] + ("{*}" + SubDollars(x[4..]));
  }

  lemma DoubledTail(b: string)
    requires OccursAt(b, "$${*}", 0)
    ensures b[0] == '$' && OccursAt(b[1..], "${*}", 0)
  {
    var m := b[0..5];
    assert m[0] == '$' && m[1..] == "${*}";
    assert b[1..][0..4] == m[1..];
  }

  lemma Single(x: string)
    ensures OccursAt(['$'] + ("{*}" + x), "${*}", 0)
  {
    DollarCons(x);
    assert ("${*}" + x)[0..4] == "${*}";
  }

  // ----- normalising twice

  /** Normalising is cutting the query between the two passes. */
  lemma NormalizeBetween(s: string)
    ensures Normal(CutQuery(SubBraces(s))) && Normalize(s) == SubDollars(CutQuery(SubBraces(s)))
    ensures Normal(Normalize(s)) && CutQuery(Normalize(s)) == Normalize(s)
  {
    BracesIdempotent(s);
    CutCommutes(SubBraces(s));
    NormalDollars(CutQuery(SubBraces(s)));
  }

  /** Normalising any string is idempotent exactly when, its groups replaced and its query cut, no group
      follows two dollar signs. */
  lemma IdempotentExactly(s: string)
    ensures Normalize(Normalize(s)) == Normalize(s) <==> !Contains(CutQuery(SubBraces(s)), "$${*}")
  {
    NormalizeBetween(s);
    var d := Normalize(s);
    CutCommutes(d);
    assert Normalize(d) == SubDollars(d);
    UnchangedExactly(d);
    LeftOverExactly(CutQuery(SubBraces(s)));
  }

  lemma CutHolds(b: string, m: string)
    ensures Contains(CutQuery(b), m) ==> Contains(b, m)
  {
    if Contains(CutQuery(b), m) {
      var c := CutQuery(b);
      ContainsPrefix(c, b[|c|..], m);
      assert b == c + b[|c|..];
    }
  }

  lemma {:induction false} BracesKeepDollars(s: string)
    ensures Contains(SubBraces(s), "$${*}") ==> Contains(s, "$${")
    decreases |s|
  {
    if s != "" {
      ConsOf(s);
      if Opens(s) {
        var n := IndexOf('}', s[1..]) + 2;
        BracesKeepDollars(s[n..]);
        StarHolds(SubBraces(s[n..]), "$${*}");
        if Contains(s[n..], "$${") {
          ContainsSuffix(s[..n], s[n..], "$${");
          assert s == s[..n] + s[n..];
        }
      } else {
        BracesKeepDollars(s[1..]);
        ContainsCons(s[0], SubBraces(s[1..]), "$${*}");
        ContainsCons(s[0], s[1..], "$${");
        if OccursAt(SubBraces(s), "$${*}", 0) {
          DollarsBefore(s);
        }
      }
    }
  }

  lemma DollarsBefore(s: string)
    requires s != "" && !Opens(s) && OccursAt(SubBraces(s), "$${*}", 0)
    ensures OccursAt(s, "$${", 0)
  {
    var y := SubBraces(s);
    assert y[..5] == "$${*}";
    assert y[0] == '$' && y[1] == '$' && y[2] == '{';
    assert s[0] == '$' && y[1..] == SubBraces(s[1..]);
    assert s[1] == '$' && y[2..] == SubBraces(s[2..]) by {
      assert y[1..][0] == '$';
      assert s[1..][1..] == s[2..];
    }
    assert s[2] == '{' by {
      assert y[2..][0] == '{';
    }
    assert s[0..3] == "$${";
  }

  /** So it is on every string without two dollar signs before a brace. */
  lemma SingleDollarsIdempotent(s: string)
    requires !Contains(s, "$${")
    ensures Normalize(Normalize(s)) == Normalize(s)
  {
    IdempotentExactly(s);
    CutHolds(SubBraces(s), "$${*}");
    BracesKeepDollars(s);
  }

  /** `$${a}` takes two rounds. */
  lemma TwoRounds()
    ensures Normalize("$${a}") == "${*}" && Normalize("${*}") == "{*}"
  {
    DoubledBraces();
    DoubledDollars();
    SingleBraces();
    SingleDollars();
  }

  lemma GroupAfter(l: string, n: string)
    requires '{' !in l && n != "" && '}' !in n
    ensures SubBraces(l + ("{" + n + "}")) == l + "{*}"
  {
    BracesMatch(n, "");
    assert "{" + n + "}" + "" == "{" + n + "}" && "{*}" + SubBraces("") == "{*}";
    BracesSkip(l, "{" + n + "}");
  }

  lemma DoubledBraces()
    ensures SubBraces("$${a}") == "$${*}"
  {
    GroupAfter("$$", "a");
    assert "$$" + ("{" + "a" + "}") == "$${a}";
    assert "$$" + "{*}" == "$${*}";
  }

  lemma SingleBraces()
    ensures SubBraces("${*}") == "${*}"
  {
    GroupAfter("$", "*");
    assert "$" + ("{" + "*" + "}") == "${*}";
  }

  lemma SingleDollars()
    ensures SubDollars("${*}") == "{*}"
  {
    DollarsMatch("");
    assert "${*}" + "" == "${*}" && "{*}" + SubDollars("") == "{*}";
  }

  lemma DoubledDollars()
    ensures SubDollars("$${*}") == "${*}"
  {
    SingleDollars();
    assert "$${*}"[1..] == "${*}";
    NoDollarGroup("$${*}");
    assert ['$'] + "{*}" == "${*}";
  }
}

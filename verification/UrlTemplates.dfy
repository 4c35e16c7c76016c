/** The normal form under which backend routes and frontend calls are compared. */
module UrlTemplates {
  import opened Text

  // ----- the substitutions

  /** `re.sub(r"\{[^}]+\}", "{*}", s)`: a brace, at least one character up to the next closing brace, and that brace. */
  function SubBraces(s: string): string
    decreases |s|
  {
    if s == "" then ""
    else if s[0] == '{' && '}' in s[1..] && IndexOf('}', s[1..]) > 0 then
      "{*}" + SubBraces(s[IndexOf('}', s[1..]) + 2..])
    else [s[0]] + SubBraces(s[1..])
  }

  /** `re.sub(r"\$\{[^}]+\}", "{*}", s)` */
  function SubDollars(s: string): string
    decreases |s|
  {
    if s == "" then ""
    else if |s| > 1 && s[0] == '$' && s[1] == '{' && '}' in s[2..] && IndexOf('}', s[2..]) > 0 then
      "{*}" + SubDollars(s[IndexOf('}', s[2..]) + 3..])
    else [s[0]] + SubDollars(s[1..])
  }

  /** `s.split("?")[0]` */
  function CutQuery(s: string): string {
    if '?' in s then s[..IndexOf('?', s)] else s
  }

  function Normalize(s: string): string {
    CutQuery(SubDollars(SubBraces(s)))
  }

  // ----- templates

  /** Literal text, or literal text and a parameter before more of the template.  A parameter is written
      `{name}` as in a route or `${name}` as in a template string. */
  datatype Template =
    | Last(literal: string)
    | Param(literal: string, dollar: bool, name: string, rest: Template)

  predicate Plain(s: string) {
    '{' !in s && '}' !in s && '$' !in s && '?' !in s
  }

  predicate ValidTemplate(t: Template) {
    Plain(t.literal) && (t.Param? ==> t.name != "" && '}' !in t.name && ValidTemplate(t.rest))
  }

  /** A literal with the dollar sign of the parameter after it. */
  function Lead(literal: string, dollar: bool): string {
    literal + if dollar then "$" else ""
  }

  function Render(t: Template): string {
    match t
    case Last(l) => l
    case Param(l, d, n, r) => Lead(l, d) + ("{" + n + "}") + Render(r)
  }

  /** Nothing, or a question mark and anything after it. */
  predicate IsQuery(q: string) {
    q == "" || q[0] == '?'
  }

  function Literals(t: Template): seq<string> {
    match t
    case Last(l) => [l]
    case Param(l, _, _, r) => [l] + Literals(r)
  }

  function Canon(t: Template): string {
    match t
    case Last(l) => l
    case Param(l, _, _, r) => l + "{*}" + Canon(r)
  }

  /** The template with every parameter named `*`. */
  function Starred(t: Template, keepDollars: bool): Template {
    match t
    case Last(l) => t
    case Param(l, d, _, r) => Param(l, d && keepDollars, "*", Starred(r, keepDollars))
  }

  // ----- the two passes

  lemma BracesOne(c: char, x: string)
    requires c != '{'
    ensures SubBraces([c] + x) == [c] + SubBraces(x)
  {
    assert ([c] + x)[1..] == x;
  }

  lemma {:induction false} BracesSkip(l: string, x: string)
    requires '{' !in l
    ensures SubBraces(l + x) == l + SubBraces(x)
  {
    if l == "" {
      assert l + x == x;
    } else {
      BracesSkip(l[1..], x);
      BracesOne(l[0], l[1..] + x);
      HeadTail(l, x);
      HeadTail(l, SubBraces(x));
    }
  }

  lemma HeadTail(l: string, x: string)
    requires l != ""
    ensures l + x == [l[0]] + (l[1..] + x)
  {
  }

  lemma BracesMatch(n: string, x: string)
    requires n != "" && '}' !in n
    ensures SubBraces("{" + n + "}" + x) == "{*}" + SubBraces(x)
  {
    var s := "{" + n + "}" + x;
    IndexOfFirst('}', n, x);
    assert s[1..] == n + ['}'] + x;
    assert s[1..][|n|] == '}';
    assert s[|n| + 2..] == x;
  }

  lemma BracesStep(lead: string, n: string, x: string, q: string)
    requires '{' !in lead && n != "" && '}' !in n
    ensures SubBraces(lead + ("{" + n + "}") + x + q) == lead + "{*}" + SubBraces(x + q)
  {
    BracesSkip(lead, ("{" + n + "}") + (x + q));
    BracesMatch(n, x + q);
    assert lead + ("{" + n + "}") + x + q == lead + (("{" + n + "}") + (x + q));
  }

  lemma {:induction false} BracesPass(t: Template, q: string)
    requires ValidTemplate(t)
    ensures SubBraces(Render(t) + q) == Render(Starred(t, true)) + SubBraces(q)
  {
    match t
    case Last(l) => BracesSkip(l, q);
    case Param(l, d, n, r) =>
      BracesPass(r, q);
      BracesStep(Lead(l, d), n, Render(r), q);
      StarredLead(l, d, Render(Starred(r, true)), SubBraces(q));
  }

  lemma StarredLead(l: string, d: bool, x: string, q: string)
    ensures Lead(l, d) + "{*}" + (x + q) == Lead(l, d) + ("{" + "*" + "}") + x + q
  {
    assert "{" + "*" + "}" == "{*}";
  }

  lemma DollarsOne(c: char, x: string)
    requires c != '$'
    ensures SubDollars([c] + x) == [c] + SubDollars(x)
  {
    assert ([c] + x)[1..] == x;
  }

  lemma {:induction false} DollarsSkip(l: string, x: string)
    requires '$' !in l
    ensures SubDollars(l + x) == l + SubDollars(x)
  {
    if l == "" {
      assert l + x == x;
    } else {
      DollarsSkip(l[1..], x);
      DollarsOne(l[0], l[1..] + x);
      HeadTail(l, x);
      HeadTail(l, SubDollars(x));
    }
  }

  lemma DollarsMatch(x: string)
    ensures SubDollars("${*}" + x) == "{*}" + SubDollars(x)
  {
    var s := "${*}" + x;
    IndexOfFirst('}', "*", x);
    assert s[2..] == "*" + ['}'] + x;
    assert s[2..][1] == '}';
    assert s[4..] == x;
  }

  lemma Regroup(a: string, b: string, x: string, q: string)
    ensures a + b + x + q == a + (b + (x + q)) == (a + b) + (x + q)
  {
  }

  lemma JoinDollar(l: string, y: string)
    ensures (l + "$") + ("{*}" + y) == l + ("${*}" + y)
  {
    assert "$" + "{*}" == "${*}";
    assert "$" + ("{*}" + y) == "${*}" + y;
  }

  lemma DollarsStep(l: string, d: bool, x: string, q: string)
    requires '$' !in l
    ensures SubDollars(Lead(l, d) + "{*}" + x + q) == l + "{*}" + SubDollars(x + q)
  {
    Regroup(Lead(l, d), "{*}", x, q);
    if d {
      JoinDollar(l, x + q);
      DollarsSkip(l, "${*}" + (x + q));
      DollarsMatch(x + q);
      assert l + ("{*}" + SubDollars(x + q)) == l + "{*}" + SubDollars(x + q);
    } else {
      assert Lead(l, d) == l;
      DollarsSkip(l + "{*}", x + q);
    }
  }

  lemma {:induction false} DollarsPass(t: Template, q: string)
    requires ValidTemplate(t)
    ensures SubDollars(Render(Starred(t, true)) + q) == Canon(t) + SubDollars(q)
  {
    match t
    case Last(l) => DollarsSkip(l, q);
    case Param(l, d, n, r) =>
      DollarsPass(r, q);
      DollarsStep(l, d, Render(Starred(r, true)), q);
      assert "{" + "*" + "}" == "{*}";
      Regroup(l, "{*}", Canon(r), SubDollars(q));
  }

  lemma {:induction false} CanonNoQuery(t: Template)
    requires ValidTemplate(t)
    ensures '?' !in Canon(t)
  {
    if t.Param? {
      CanonNoQuery(t.rest);
    }
  }

  lemma QueryStays(q: string)
    requires IsQuery(q)
    ensures IsQuery(SubDollars(SubBraces(q))) && (SubDollars(SubBraces(q)) == "" <==> q == "")
  {
    if q != "" {
      assert SubBraces(q)[0] == '?';
    }
  }

  /** A rendering, in either style for each parameter and with any query, normalises to the canonical form. */
  lemma NormalizeRendering(t: Template, q: string)
    requires ValidTemplate(t) && IsQuery(q)
    ensures Normalize(Render(t) + q) == Canon(t)
  {
    BracesPass(t, q);
    DollarsPass(t, SubBraces(q));
    CanonNoQuery(t);
    QueryStays(q);
    var c, x := Canon(t), SubDollars(SubBraces(q));
    if x == "" {
      assert c + x == c;
    } else {
      assert c + x == c + ['?'] + x[1..];
      IndexOfFirst('?', c, x[1..]);
      assert (c + x)[|c|] == '?';
    }
  }

  // ----- the canonical form is a complete invariant

  lemma LiteralEnds(l: string, m: string, x: string, y: string)
    requires '{' !in l && '{' !in m && l + "{*}" + x == m + "{*}" + y
    ensures l == m && x == y
  {
    var s := l + "{*}" + x;
    assert s == l + ['{'] + ("*}" + x) && s == m + ['{'] + ("*}" + y);
    IndexOfFirst('{', l, "*}" + x);
    IndexOfFirst('{', m, "*}" + y);
    assert l == s[..|l|] && m == s[..|m|];
    assert x == s[|l| + 3..] && y == s[|m| + 3..];
  }

  lemma {:induction false} CanonComplete(t: Template, u: Template)
    requires ValidTemplate(t) && ValidTemplate(u)
    ensures Canon(t) == Canon(u) <==> Literals(t) == Literals(u)
  {
    match (t, u)
    case (Last(l), Last(m)) =>
    case (Last(l), Param(m, _, _, s)) =>
      assert Canon(u)[|m|] == '{';
      assert |Literals(s)| > 0;
    case (Param(l, _, _, r), Last(m)) =>
      assert Canon(t)[|l|] == '{';
      assert |Literals(r)| > 0;
    case (Param(l, _, _, r), Param(m, _, _, s)) =>
      CanonComplete(r, s);
      if Canon(t) == Canon(u) {
        LiteralEnds(l, m, Canon(r), Canon(s));
      }
      if Literals(t) == Literals(u) {
        assert Literals(t)[0] == l && Literals(t)[1..] == Literals(r);
        assert Literals(u)[0] == m && Literals(u)[1..] == Literals(s);
      }
  }

  /** Two renderings are taken for the same endpoint exactly when they have the same literals in the same
      order: parameter names, styles and queries do not matter, and nothing else is confused. */
  lemma SameEndpointExactly(t: Template, q: string, u: Template, r: string)
    requires ValidTemplate(t) && ValidTemplate(u) && IsQuery(q) && IsQuery(r)
    ensures Normalize(Render(t) + q) == Normalize(Render(u) + r) <==> Literals(t) == Literals(u)
  {
    NormalizeRendering(t, q);
    NormalizeRendering(u, r);
    CanonComplete(t, u);
  }

  lemma {:induction false} CanonIsRendering(t: Template)
    requires ValidTemplate(t)
    ensures Canon(t) == Render(Starred(t, false))
    ensures ValidTemplate(Starred(t, false)) && Canon(Starred(t, false)) == Canon(t)
  {
    if t.Param? {
      CanonIsRendering(t.rest);
      assert "{" + "*" + "}" == "{*}";
      assert Lead(t.literal, false) == t.literal;
    }
  }

  lemma NormalizeIdempotent(t: Template, q: string)
    requires ValidTemplate(t) && IsQuery(q)
    ensures Normalize(Normalize(Render(t) + q)) == Normalize(Render(t) + q)
  {
    NormalizeRendering(t, q);
    CanonIsRendering(t);
    NormalizeRendering(Starred(t, false), "");
    assert Canon(t) + "" == Canon(t);
  }
}

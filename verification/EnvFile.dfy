/** The `.env` format of the deployment secrets: what the generator prints, and what the bootstrap reads back. */
module EnvFile {

  import opened Options
  import opened Text

  /** One variable; a dictionary is a list of these in insertion order, keys distinct. */
  datatype Pair = Pair(key: string, val: string)

  /** `"\n".join(lines)` */
  function Join(lines: seq<string>): string {
    if lines == [] then "" else if |lines| == 1 then lines[0] else lines[0] + "\n" + Join(lines[1..])
  }

  // ----- printing

  /** A line of `=` as comments are ruled with. */
  function Rule(): string {
    "# " + seq(78, _ => '=')
  }

  /** The lines before the pairs.  Their texts are put together from short pieces because a proof about a
      string literal costs with the square of its length. */
  function Header(): seq<string> {
    [
      Rule(),
      "# Cross-Bank Federated" + " Intelligence (CFI) -" + " Local Consortium" + " Sandbox Secrets",
      "# Classification: " + "SINGLE_HOST_DOCKER" + "_SANDBOX (Not " + "multi-institution " + "HSM custody)",
      "# Generated " + "automatically. DO " + "NOT COMMIT OR LEAK" + " THIS FILE.",
      Rule(),
      ""
    ]
  }

  /** A blank line or a comment. */
  predicate Ignorable(line: string) {
    OneLine(line) && (line == "" || line[0] == '#')
  }

  predicate IsSigningKey(key: string) {
    key == "WORKER_BANK_A_SIGNING_KEY" || key == "WORKER_BANK_B_SIGNING_KEY" || key == "WORKER_BANK_C_SIGNING_KEY"
  }

  /** The variables that are printed. */
  function Kept(env: seq<Pair>, strip: bool): seq<Pair> {
    if env == [] then []
    else
      var front, p := Kept(env[..|env| - 1], strip), env[|env| - 1];
      if strip && IsSigningKey(p.key) then front else front + [p]
  }

  function PairLine(p: Pair): string {
    p.key + "=" + p.val
  }

  function PairLines(env: seq<Pair>): seq<string> {
    seq(|env|, i requires 0 <= i < |env| => PairLine(env[i]))
  }

  function EnvText(env: seq<Pair>, strip: bool): string {
    Join(Header() + PairLines(Kept(env, strip)) + [""])
  }

  method FormatEnv(env: seq<Pair>, strip: bool) returns (content: string)
    ensures content == EnvText(env, strip)
  {
    var header := Header();
    var lines := header;
    for i := 0 to |env|
      invariant lines == header + PairLines(Kept(env[..i], strip))
    {
      assert env[..i + 1][..i] == env[..i];
      if !(strip && IsSigningKey(env[i].key)) {
        PairLinesAppend(header, Kept(env[..i], strip), env[i]);
        lines := lines + [PairLine(env[i])];
      }
    }
    assert env[..|env|] == env;
    lines := lines + [""];
    content := Join(lines);
  }

  lemma PairLinesAppend(header: seq<string>, env: seq<Pair>, p: Pair)
    ensures header + PairLines(env + [p]) == header + PairLines(env) + [PairLine(p)]
  {
    assert PairLines(env + [p]) == PairLines(env) + [PairLine(p)];
  }

  // ----- loading

  function ParseLine(raw: string): Option<Pair> {
    var line := Strip(raw);
    if line == "" || line[0] == '#' || '=' !in line then None
    else
      var n := IndexOf('=', line);
      Some(Pair(Strip(line[..n]), Strip(line[n + 1..])))
  }

  function LoadLines(lines: seq<string>): map<string, string> {
    if lines == [] then map[]
    else
      var front := LoadLines(lines[..|lines| - 1]);
      match ParseLine(lines[|lines| - 1])
      case Some(p) => front[p.key := p.val]
      case None => front
  }

  function Load(text: string): map<string, string> {
    LoadLines(SplitLines(text))
  }

  method LoadEnv(text: string) returns (env: map<string, string>)
    ensures env == Load(text)
  {
    env := map[];
    var lines := SplitLines(text);
    for i := 0 to |lines|
      invariant env == LoadLines(lines[..i])
    {
      assert lines[..i + 1] == lines[..i] + [lines[i]];
      LoadOneMore(lines[..i], lines[i]);
      var line := Strip(lines[i]);
      if line == "" || line[0] == '#' || '=' !in line {
        continue;
      }
      var n := IndexOf('=', line);
      env := env[Strip(line[..n]) := Strip(line[n + 1..])];
    }
    assert lines[..|lines|] == lines;
  }

  // ----- the round trip

  /** The dictionary the list stands for. */
  function MapOf(env: seq<Pair>): map<string, string> {
    if env == [] then map[] else MapOf(env[..|env| - 1])[env[|env| - 1].key := env[|env| - 1].val]
  }

  predicate Clean(p: Pair) {
    && OneLine(p.key) && Trimmed(p.key) && '=' !in p.key && (p.key != "" ==> p.key[0] != '#')
    && OneLine(p.val) && Trimmed(p.val)
  }

  lemma OneLineSlice(s: string, lo: nat, hi: nat)
    requires OneLine(s) && lo <= hi <= |s|
    ensures OneLine(s[lo..hi])
  {
    forall i | 0 <= i < hi - lo ensures !IsLineBreak(s[lo..hi][i]) {
      assert s[lo..hi][i] == s[lo + i];
    }
  }

  lemma ParsedClean(raw: string)
    requires OneLine(raw)
    ensures ParseLine(raw).Some? ==> Clean(ParseLine(raw).value)
  {
    if ParseLine(raw).Some? {
      var line := Strip(raw);
      StripFacts(raw);
      var n := IndexOf('=', line);
      OneLineSlice(line, 0, n);
      OneLineSlice(line, n + 1, |line|);
      assert line[0..n] == line[..n] && line[n + 1..|line|] == line[n + 1..];
      StripFacts(line[..n]);
      StripFacts(line[n + 1..]);
    }
  }

  lemma {:induction false} LoadedClean(lines: seq<string>)
    requires forall i :: 0 <= i < |lines| ==> OneLine(lines[i])
    ensures forall k :: k in LoadLines(lines) ==> Clean(Pair(k, LoadLines(lines)[k]))
  {
    if lines != [] {
      LoadedClean(lines[..|lines| - 1]);
      ParsedClean(lines[|lines| - 1]);
    }
  }

  lemma PairLineShape(p: Pair)
    requires Clean(p)
    ensures OneLine(PairLine(p)) && Trimmed(PairLine(p)) && PairLine(p) != "" && PairLine(p)[0] != '#'
  {
    var line := PairLine(p);
    assert line[|line| - 1] == if p.val == "" then '=' else p.val[|p.val| - 1];
    assert line[0] == if p.key == "" then '=' else p.key[0];
  }

  lemma PairLineParses(p: Pair)
    requires Clean(p)
    ensures ParseLine(PairLine(p)) == Some(p)
  {
    var line := PairLine(p);
    PairLineShape(p);
    StripFacts(line);
    assert line[|p.key|] == '=';
    IndexOfFirst('=', p.key, p.val);
    assert line[..|p.key|] == p.key && line[|p.key| + 1..] == p.val;
    StripFacts(p.key);
    StripFacts(p.val);
  }

  lemma OneLineConcat(a: string, b: string)
    requires OneLine(a) && OneLine(b)
    ensures OneLine(a + b)
  {
  }

  lemma TitleIgnorable()
    ensures Ignorable("# Cross-Bank Federated" + " Intelligence (CFI) -" + " Local Consortium" + " Sandbox Secrets")
  {
    var a := "# Cross-Bank Federated";
    assert OneLine(a) && a[0] == '#';
    OneLineConcat(a, " Intelligence (CFI) -");
    OneLineConcat(a + " Intelligence (CFI) -", " Local Consortium");
    OneLineConcat(a + " Intelligence (CFI) -" + " Local Consortium", " Sandbox Secrets");
  }

  lemma ClassificationIgnorable()
    ensures Ignorable("# Classification: " + "SINGLE_HOST_DOCKER" + "_SANDBOX (Not " + "multi-institution " +
                      "HSM custody)")
  {
    var a := "# Classification: ";
    assert OneLine(a) && a[0] == '#';
    OneLineConcat(a, "SINGLE_HOST_DOCKER");
    OneLineConcat(a + "SINGLE_HOST_DOCKER", "_SANDBOX (Not ");
    OneLineConcat(a + "SINGLE_HOST_DOCKER" + "_SANDBOX (Not ", "multi-institution ");
    OneLineConcat(a + "SINGLE_HOST_DOCKER" + "_SANDBOX (Not " + "multi-institution ", "HSM custody)");
  }

  lemma WarningIgnorable()
    ensures Ignorable("# Generated " + "automatically. DO " + "NOT COMMIT OR LEAK" + " THIS FILE.")
  {
    var a := "# Generated ";
    assert OneLine(a) && a[0] == '#';
    OneLineConcat(a, "automatically. DO ");
    OneLineConcat(a + "automatically. DO ", "NOT COMMIT OR LEAK");
    OneLineConcat(a + "automatically. DO " + "NOT COMMIT OR LEAK", " THIS FILE.");
  }

  lemma HeaderIgnorable()
    ensures AllIgnorable(Header())
  {
    TitleIgnorable();
    ClassificationIgnorable();
    WarningIgnorable();
    assert Ignorable(Rule());
  }

  ghost predicate AllIgnorable(header: seq<string>) {
    forall i :: 0 <= i < |header| ==> Ignorable(header[i])
  }

  lemma {:induction false} LoadIgnorable(header: seq<string>)
    requires AllIgnorable(header)
    ensures LoadLines(header) == map[]
  {
    if header != [] {
      LoadIgnorable(header[..|header| - 1]);
      StripFacts(header[|header| - 1]);
    }
  }

  lemma LoadOneMore(lines: seq<string>, line: string)
    ensures LoadLines(lines + [line]) ==
            match ParseLine(line)
            case Some(p) => LoadLines(lines)[p.key := p.val]
            case None => LoadLines(lines)
  {
    assert (lines + [line])[..|lines|] == lines;
  }

  lemma LoadOnePair(lines: seq<string>, env: seq<Pair>, p: Pair)
    requires Clean(p) && LoadLines(lines) == MapOf(env)
    ensures LoadLines(lines + [PairLine(p)]) == MapOf(env + [p])
  {
    PairLineParses(p);
    LoadOneMore(lines, PairLine(p));
    assert (env + [p])[..|env|] == env;
  }

  lemma {:induction false} LoadPairs(header: seq<string>, env: seq<Pair>)
    requires AllIgnorable(header) && AllClean(env)
    ensures LoadLines(header + PairLines(env)) == MapOf(env)
  {
    if env == [] {
      LoadIgnorable(header);
      assert header + PairLines(env) == header;
    } else {
      AllCleanParts(env);
      LoadPairs(header, env[..|env| - 1]);
      PairLinesAppend(header, env[..|env| - 1], env[|env| - 1]);
      LoadOnePair(header + PairLines(env[..|env| - 1]), env[..|env| - 1], env[|env| - 1]);
    }
  }

  ghost predicate AllClean(env: seq<Pair>) {
    forall i :: 0 <= i < |env| ==> Clean(env[i])
  }

  lemma AllCleanParts(env: seq<Pair>)
    requires AllClean(env) && env != []
    ensures env == env[..|env| - 1] + [env[|env| - 1]]
    ensures AllClean(env[..|env| - 1]) && Clean(env[|env| - 1])
  {
  }

  /** Each line followed by a line feed. */
  function Ended(lines: seq<string>): string {
    if lines == [] then "" else lines[0] + "\n" + Ended(lines[1..])
  }

  lemma {:induction false} JoinEnded(lines: seq<string>)
    ensures Join(lines + [""]) == Ended(lines)
  {
    if lines != [] {
      JoinEnded(lines[1..]);
      assert (lines + [""])[1..] == lines[1..] + [""];
    }
  }

  lemma {:induction false} LineEndAt(a: string, rest: string)
    requires OneLine(a)
    ensures LineEnd(a + "\n" + rest) == |a|
  {
    if a == "" {
      assert ("" + "\n" + rest)[0] == '\n';
    } else {
      LineEndAt(a[1..], rest);
      assert (a + "\n" + rest)[1..] == a[1..] + "\n" + rest;
    }
  }

  lemma SplitFirst(a: string, rest: string)
    requires OneLine(a)
    ensures SplitLines(a + "\n" + rest) == [a] + SplitLines(rest)
  {
    var s := a + "\n" + rest;
    LineEndAt(a, rest);
    assert s[|a|] == '\n' && s[..|a|] == a && s[|a| + 1..] == rest;
    assert BreakWidth(s, |a|) == 1;
  }

  lemma {:induction false} SplitEnded(lines: seq<string>)
    requires forall i :: 0 <= i < |lines| ==> OneLine(lines[i])
    ensures SplitLines(Ended(lines)) == lines
  {
    if lines != [] {
      SplitEnded(lines[1..]);
      SplitFirst(lines[0], Ended(lines[1..]));
      assert lines == [lines[0]] + lines[1..];
    }
  }

  lemma CleanRoundTrip(header: seq<string>, env: seq<Pair>)
    requires AllIgnorable(header) && forall i :: 0 <= i < |env| ==> Clean(env[i])
    ensures Load(Join(header + PairLines(env) + [""])) == MapOf(env)
  {
    var lines := header + PairLines(env);
    forall i | 0 <= i < |lines| ensures OneLine(lines[i]) {
      if i >= |header| {
        PairLineShape(env[i - |header|]);
      }
    }
    JoinEnded(lines);
    SplitEnded(lines);
    LoadPairs(header, env);
  }

  ghost predicate DistinctKeys(env: seq<Pair>) {
    forall i, j :: 0 <= i < j < |env| ==> env[i].key != env[j].key
  }

  lemma {:induction false} MapOfAt(env: seq<Pair>, i: nat)
    requires DistinctKeys(env) && i < |env|
    ensures env[i].key in MapOf(env) && MapOf(env)[env[i].key] == env[i].val
  {
    if i < |env| - 1 {
      MapOfAt(env[..|env| - 1], i);
    }
  }

  lemma {:induction false} KeptDistinct(env: seq<Pair>, strip: bool)
    requires DistinctKeys(env)
    ensures DistinctKeys(Kept(env, strip)) && forall i :: 0 <= i < |Kept(env, strip)| ==> Kept(env, strip)[i] in env
  {
    if env != [] {
      KeptDistinct(env[..|env| - 1], strip);
      var front := Kept(env[..|env| - 1], strip);
      forall i | 0 <= i < |front| ensures front[i] in env && front[i].key != env[|env| - 1].key {
        var j :| 0 <= j < |env| - 1 && env[..|env| - 1][j] == front[i];
        assert env[j] == front[i];
      }
    }
  }

  /** Loading what was printed gives back the dictionary, less the signing keys when they are stripped,
      exactly when every printed variable is clean: key and value on one line and without blanks around them,
      the key without `=` and not starting with `#`.  Values may contain `=`, and either part may be empty. */
  lemma RoundTripExactly(env: seq<Pair>, strip: bool)
    requires DistinctKeys(env)
    ensures Load(EnvText(env, strip)) == MapOf(Kept(env, strip)) <==>
            forall i :: 0 <= i < |Kept(env, strip)| ==> Clean(Kept(env, strip)[i])
  {
    var kept := Kept(env, strip);
    KeptDistinct(env, strip);
    if forall i :: 0 <= i < |kept| ==> Clean(kept[i]) {
      HeaderIgnorable();
      CleanRoundTrip(Header(), kept);
    }
    if Load(EnvText(env, strip)) == MapOf(kept) {
      SplitOneLine(EnvText(env, strip));
      LoadedClean(SplitLines(EnvText(env, strip)));
      forall i | 0 <= i < |kept| ensures Clean(kept[i]) {
        MapOfAt(kept, i);
      }
    }
  }
}

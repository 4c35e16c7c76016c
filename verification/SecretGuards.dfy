/** What the guards are for: without `force` no secret in use is lost, whatever goes wrong half-way. */
module SecretGuards {
  import opened EnvFile
  import opened Options
  import opened Text
  import opened SecretFiles

  predicate Blank(text: string) {
    Strip(text) == ""
  }

  lemma {:induction false} StrippedAway(s: string)
    requires Strip(s) == ""
    ensures forall i :: 0 <= i < |s| ==> IsSpace(s[i])
    decreases |s|
  {
    StripRightFacts(StripLeft(s));
    StripLeftFacts(s);
    assert StripLeft(s) == "";
    if s != "" {
      StrippedAway(s[1..]);
      assert forall i :: 1 <= i < |s| ==> s[i] == s[1..][i - 1];
    }
  }

  lemma MarkedNotBlank(text: string)
    requires ContainsAny(text, MARKERS)
    ensures !Blank(text)
  {
    var k :| 0 <= k < |MARKERS| && Contains(text, MARKERS[k]);
    var i :| 0 <= i <= |text| && OccursAt(text, MARKERS[k], i);
    assert text[i..i + |MARKERS[k]|][0] == text[i];
    assert MARKERS[k][0] in "WCA";
    if Blank(text) {
      StrippedAway(text);
      assert false;
    }
  }

  /** The guard refuses exactly the readable files that are not blank; looking for markers adds nothing. */
  lemma GuardRefusesExactly(d: Disk, path: string, force: bool)
    ensures Guard(d, path, force) == Some(Refused(path)) <==>
            !force && path in d && d[path].access.Readable? && !Blank(d[path].content)
    ensures Guard(d, path, force).None? <==>
            || path !in d
            || (!d[path].access.Undecodable? && (force || d[path].access.Unreadable? || Blank(d[path].content)))
  {
    if path in d && ContainsAny(d[path].content, MARKERS) {
      MarkedNotBlank(d[path].content);
    }
    if ContainsAny("", MARKERS) {
      MarkedNotBlank("");
    }
  }

  ghost predicate SameFile(d: Disk, e: Disk, path: string) {
    (path in d <==> path in e) && (path in d ==> d[path] == e[path])
  }

  lemma {:induction false} TargetsPreserve(d: Disk, targets: seq<Target>, p: string)
    ensures NonEmpty(d, p) ==> SameFile(d, WriteTargets(d, targets, false).disk, p)
    decreases |targets|
  {
    if targets != [] && !NonEmpty(d, targets[0].path) {
      TargetsPreserve(Written(d, targets[0].path, targets[0].content), targets[1..], p);
    }
  }

  lemma {:induction false} TargetsFrame(d: Disk, targets: seq<Target>, force: bool, p: string)
    requires forall i :: 0 <= i < |targets| ==> targets[i].path != p
    ensures SameFile(d, WriteTargets(d, targets, force).disk, p)
    decreases |targets|
  {
    if targets != [] && (force || !NonEmpty(d, targets[0].path)) {
      TargetsFrame(Written(d, targets[0].path, targets[0].content), targets[1..], force, p);
    }
  }

  lemma TargetPaths(dir: string, a: string, b: string, c: string)
    ensures forall i :: 0 <= i < 6 ==> KeyTargets(dir, a, b, c)[i].path in CustodyPaths(dir)
    ensures forall p :: p in CustodyPaths(dir) ==>
              p == RegistryPath(dir) || exists i :: 0 <= i < 6 && KeyTargets(dir, a, b, c)[i].path == p
  {
    var ts := KeyTargets(dir, a, b, c);
    forall p | p in CustodyPaths(dir) && p != RegistryPath(dir) ensures exists i :: 0 <= i < 6 && ts[i].path == p {
      assert || p == ts[0].path || p == ts[1].path || p == ts[2].path
             || p == ts[3].path || p == ts[4].path || p == ts[5].path;
    }
  }

  lemma CustodyPreserves(d: Disk, env: map<string, string>, dir: string, p: string)
    ensures NonEmpty(d, p) ==> SameFile(d, WriteCustody(d, env, dir, false).disk, p)
  {
    if FirstMissing(env).None? {
      TargetsPreserve(d, KeyTargets(dir, env[BANK_A], env[BANK_B], env[BANK_C]), p);
    }
  }

  lemma CustodyFrame(d: Disk, env: map<string, string>, dir: string, force: bool, p: string)
    requires p !in CustodyPaths(dir)
    ensures SameFile(d, WriteCustody(d, env, dir, force).disk, p)
  {
    if FirstMissing(env).None? {
      TargetPaths(dir, env[BANK_A], env[BANK_B], env[BANK_C]);
      TargetsFrame(d, KeyTargets(dir, env[BANK_A], env[BANK_B], env[BANK_C]), force, p);
    }
  }

  /** A custody file with something in it stops the custody writes. */
  lemma {:induction false} TargetsStop(d: Disk, targets: seq<Target>, i: nat)
    requires i < |targets| && NonEmpty(d, targets[i].path)
    ensures WriteTargets(d, targets, false).stop.Some?
    decreases |targets|
  {
    if !NonEmpty(d, targets[0].path) {
      TargetsStop(Written(d, targets[0].path, targets[0].content), targets[1..], i - 1);
    }
  }

  lemma CustodyStops(d: Disk, env: map<string, string>, dir: string, p: string)
    requires p in CustodyPaths(dir) && NonEmpty(d, p)
    ensures WriteCustody(d, env, dir, false).stop.Some?
  {
    if FirstMissing(env).None? {
      TargetPaths(dir, env[BANK_A], env[BANK_B], env[BANK_C]);
      var ts := KeyTargets(dir, env[BANK_A], env[BANK_B], env[BANK_C]);
      if i :| 0 <= i < 6 && ts[i].path == p {
        TargetsStop(d, ts, i);
      } else {
        TargetsPreserve(d, ts, p);
      }
    }
  }

  /** Without `force`, on every exit: a custody file that had something in it, an env file that was readable and
      not blank, and every file that is neither, is as it was.  The paths need not be distinct. */
  lemma NothingLost(d: Disk, env: seq<Pair>, path: string, custody: Option<string>, p: string)
    ensures var e := Generate(d, env, path, custody, false).disk;
            && (custody.Some? && p in CustodyPaths(custody.value) && NonEmpty(d, p) ==> SameFile(d, e, p))
            && (p == path && p in d && d[p].access.Readable? && !Blank(d[p].content) ==> SameFile(d, e, p))
            && (p != path && (custody.Some? ==> p !in CustodyPaths(custody.value)) ==> SameFile(d, e, p))
  {
    GuardRefusesExactly(d, path, false);
    if custody.Some? && Guard(d, path, false).None? {
      var dir := custody.value;
      CustodyPreserves(d, MapOf(env), dir, p);
      if p in CustodyPaths(dir) {
        if NonEmpty(d, p) {
          CustodyStops(d, MapOf(env), dir, p);
        }
      } else {
        CustodyFrame(d, MapOf(env), dir, false, p);
      }
    }
  }

  // ----- success

  /** Without force an env file that is not a custody file is kept exactly when the run is stopped, or would have
      written the very same thing; whatever could not be read does not stop it. */
  lemma EnvFileKeptExactly(d: Disk, env: seq<Pair>, path: string, custody: Option<string>)
    requires path in d && (custody.Some? ==> path !in CustodyPaths(custody.value))
    ensures var e := Generate(d, env, path, custody, false);
            SameFile(d, e.disk, path) <==>
              e.stop.Some? || d[path] == File(EnvText(env, custody.Some?), Readable)
  {
    if custody.Some? {
      CustodyFrame(d, MapOf(env), custody.value, false, path);
    }
  }

  /** A secret that cannot be read is overwritten without force. */
  lemma UnreadableOverwritten(env: seq<Pair>)
    ensures var e := Generate(map["p" := File("SECRET_KEY=x", Unreadable)], env, "p", None, false);
            e.stop.None? && Holds(e.disk, "p", EnvText(env, false))
  {
    var d: Disk := map["p" := File("SECRET_KEY=x", Unreadable)];
    GuardRefusesExactly(d, "p", false);
  }

  lemma ChildNames(dir: string, a: string, b: string)
    requires a != b
    ensures Child(dir, a) != Child(dir, b)
  {
    assert Child(dir, a)[|dir| + 1..] == a && Child(dir, b)[|dir| + 1..] == b;
  }

  ghost predicate DistinctPaths(targets: seq<Target>) {
    forall i, j :: 0 <= i < j < |targets| ==> targets[i].path != targets[j].path
  }

  /** The names of the custody files. */
  function Names(): (names: seq<string>)
    ensures |names| == 7
  {
    ["bank_a_signing_key.pem", "bank_a.ed25519.key", "bank_b_signing_key.pem", "bank_b.ed25519.key",
     "bank_c_signing_key.pem", "bank_c.ed25519.key", "institutional_public_keys.json"]
  }

  lemma NamesDiffer(i: nat, j: nat)
    requires i < j < 7
    ensures Names()[i] != Names()[j]
  {
    var names := Names();
    assert names[6][0] == 'i' && forall i :: 0 <= i < 6 ==> names[i][0] == 'b';
    assert names[0][5] == names[1][5] == 'a' && names[2][5] == names[3][5] == 'b' && names[4][5] == names[5][5] == 'c';
    assert forall i :: 0 <= i < 6 ==> names[i][6] == if i % 2 == 0 then '_' else '.';
  }

  lemma KeyTargetsDistinct(dir: string, a: string, b: string, c: string)
    ensures DistinctPaths(KeyTargets(dir, a, b, c))
    ensures forall i :: 0 <= i < 6 ==> KeyTargets(dir, a, b, c)[i].path != RegistryPath(dir)
  {
    var names := Names();
    forall i: nat, j: nat | i < j < 7 ensures Child(dir, names[i]) != Child(dir, names[j]) {
      NamesDiffer(i, j);
      ChildNames(dir, names[i], names[j]);
    }
    assert forall i :: 0 <= i < 6 ==> KeyTargets(dir, a, b, c)[i].path == Child(dir, names[i]);
  }

  lemma {:induction false} TargetsWritten(d: Disk, targets: seq<Target>, force: bool)
    requires DistinctPaths(targets)
    ensures WriteTargets(d, targets, force).stop.None? <==>
            force || forall i :: 0 <= i < |targets| ==> !NonEmpty(d, targets[i].path)
    ensures WriteTargets(d, targets, force).stop.None? ==>
              forall i :: 0 <= i < |targets| ==>
                targets[i].path in WriteTargets(d, targets, force).disk &&
                WriteTargets(d, targets, force).disk[targets[i].path] == File(targets[i].content, Readable)
    decreases |targets|
  {
    if targets != [] && (force || !NonEmpty(d, targets[0].path)) {
      var next := Written(d, targets[0].path, targets[0].content);
      TargetsWritten(next, targets[1..], force);
      TargetsFrame(next, targets[1..], force, targets[0].path);
      assert forall i :: 1 <= i < |targets| ==> targets[i] == targets[1..][i - 1];
      assert forall i :: 0 <= i < |targets[1..]| ==> targets[1..][i] == targets[i + 1];
    }
  }

  predicate HasKeys(env: map<string, string>) {
    FirstMissing(env).None? && REGISTRY in env
  }

  /** The custody writes finish exactly when every variable is there and, unless forced, no file has
      anything in it; then each file holds its bank's key and the registry the public keys. */
  lemma CustodyWritten(d: Disk, env: map<string, string>, dir: string, force: bool)
    ensures WriteCustody(d, env, dir, force).stop.None? <==>
            HasKeys(env) && (force || forall p :: p in CustodyPaths(dir) ==> !NonEmpty(d, p))
    ensures WriteCustody(d, env, dir, force).stop.None? ==> HoldsKeys(WriteCustody(d, env, dir, force).disk, env, dir)
  {
    if FirstMissing(env).None? {
      var ts := KeyTargets(dir, env[BANK_A], env[BANK_B], env[BANK_C]);
      TargetPaths(dir, env[BANK_A], env[BANK_B], env[BANK_C]);
      KeyTargetsDistinct(dir, env[BANK_A], env[BANK_B], env[BANK_C]);
      TargetsWritten(d, ts, force);
      TargetsFrame(d, ts, force, RegistryPath(dir));
      if !force && exists p :: p in CustodyPaths(dir) && NonEmpty(d, p) {
        var p :| p in CustodyPaths(dir) && NonEmpty(d, p);
        CustodyStops(d, env, dir, p);
      }
      if WriteCustody(d, env, dir, force).stop.None? {
        HeldByTargets(WriteTargets(d, ts, force).disk, env, dir);
      }
    }
  }

  ghost predicate Holds(d: Disk, path: string, content: string) {
    path in d && d[path] == File(content, Readable)
  }

  ghost predicate HoldsKeys(d: Disk, env: map<string, string>, dir: string) {
    && HasKeys(env)
    && Holds(d, Child(dir, "bank_a_signing_key.pem"), env[BANK_A])
    && Holds(d, Child(dir, "bank_a.ed25519.key"), env[BANK_A])
    && Holds(d, Child(dir, "bank_b_signing_key.pem"), env[BANK_B])
    && Holds(d, Child(dir, "bank_b.ed25519.key"), env[BANK_B])
    && Holds(d, Child(dir, "bank_c_signing_key.pem"), env[BANK_C])
    && Holds(d, Child(dir, "bank_c.ed25519.key"), env[BANK_C])
    && Holds(d, RegistryPath(dir), env[REGISTRY])
  }

  lemma HeldByTargets(d: Disk, env: map<string, string>, dir: string)
    requires HasKeys(env)
    requires forall i :: 0 <= i < 6 ==>
               var t := KeyTargets(dir, env[BANK_A], env[BANK_B], env[BANK_C])[i]; Holds(d, t.path, t.content)
    ensures HoldsKeys(Written(d, RegistryPath(dir), env[REGISTRY]), env, dir)
  {
    var ts := KeyTargets(dir, env[BANK_A], env[BANK_B], env[BANK_C]);
    KeyTargetsDistinct(dir, env[BANK_A], env[BANK_B], env[BANK_C]);
    forall i | 0 <= i < 6 ensures Holds(Written(d, RegistryPath(dir), env[REGISTRY]), ts[i].path, ts[i].content) {
      assert Holds(d, ts[i].path, ts[i].content);
    }
    assert Holds(Written(d, RegistryPath(dir), env[REGISTRY]), ts[0].path, ts[0].content);
    assert Holds(Written(d, RegistryPath(dir), env[REGISTRY]), ts[1].path, ts[1].content);
    assert Holds(Written(d, RegistryPath(dir), env[REGISTRY]), ts[2].path, ts[2].content);
    assert Holds(Written(d, RegistryPath(dir), env[REGISTRY]), ts[3].path, ts[3].content);
    assert Holds(Written(d, RegistryPath(dir), env[REGISTRY]), ts[4].path, ts[4].content);
    assert Holds(Written(d, RegistryPath(dir), env[REGISTRY]), ts[5].path, ts[5].content);
  }

  /** What the custody file at `p` is to hold. */
  function KeyFor(env: map<string, string>, dir: string, p: string): string
    requires HasKeys(env) && p in CustodyPaths(dir)
  {
    if p == Child(dir, "bank_a_signing_key.pem") || p == Child(dir, "bank_a.ed25519.key") then env[BANK_A]
    else if p == Child(dir, "bank_b_signing_key.pem") || p == Child(dir, "bank_b.ed25519.key") then env[BANK_B]
    else if p == Child(dir, "bank_c_signing_key.pem") || p == Child(dir, "bank_c.ed25519.key") then env[BANK_C]
    else env[REGISTRY]
  }

  lemma HeldKeys(d: Disk, env: map<string, string>, dir: string, p: string)
    requires HoldsKeys(d, env, dir) && p in CustodyPaths(dir)
    ensures Holds(d, p, KeyFor(env, dir, p))
  {
  }

  /** With custody on, the program succeeds exactly when the variables are there and each file may be written.
      An env path that is itself a custody path was written just before, so without force its key must be blank. */
  lemma SucceedsExactly(d: Disk, env: seq<Pair>, path: string, dir: string, force: bool)
    ensures Generate(d, env, path, Some(dir), force).stop.None? <==>
            && HasKeys(MapOf(env)) && Guard(d, path, force).None?
            && (force || forall p :: p in CustodyPaths(dir) ==> !NonEmpty(d, p))
            && (force || (path in CustodyPaths(dir) ==> Blank(KeyFor(MapOf(env), dir, path))))
  {
    var m := MapOf(env);
    CustodyWritten(d, m, dir, force);
    var e := WriteCustody(d, m, dir, force);
    if path !in CustodyPaths(dir) {
      CustodyFrame(d, m, dir, force, path);
    } else if e.stop.None? {
      HeldKeys(e.disk, m, dir, path);
      GuardRefusesExactly(e.disk, path, force);
    }
  }

  /** After success the env file is in place, and so is every custody file that is not the env file itself. */
  lemma InPlace(d: Disk, env: seq<Pair>, path: string, dir: string, force: bool)
    requires Generate(d, env, path, Some(dir), force).stop.None?
    ensures HasKeys(MapOf(env))
    ensures var e := Generate(d, env, path, Some(dir), force).disk;
            && Holds(e, path, EnvText(env, true))
            && forall p :: p in CustodyPaths(dir) && p != path ==> Holds(e, p, KeyFor(MapOf(env), dir, p))
  {
    var m := MapOf(env);
    CustodyWritten(d, m, dir, force);
    var e := WriteCustody(d, m, dir, force).disk;
    forall p | p in CustodyPaths(dir) && p != path
      ensures Holds(Written(e, path, EnvText(env, true)), p, KeyFor(m, dir, p))
    {
      HeldKeys(e, m, dir, p);
    }
  }

  lemma {:induction false} KeptNoSigningKeys(env: seq<Pair>)
    ensures forall k :: IsSigningKey(k) ==> k !in MapOf(Kept(env, true))
  {
    if env != [] {
      KeptNoSigningKeys(env[..|env| - 1]);
      var front, p := Kept(env[..|env| - 1], true), env[|env| - 1];
      assert (front + [p])[..|front|] == front;
    }
  }

  /** What the bootstrap loads from a custody-mode env file: every variable but the signing keys, which stay in
      custody. */
  lemma LoadedWithoutSigningKeys(env: seq<Pair>)
    requires DistinctKeys(env) && forall i :: 0 <= i < |Kept(env, true)| ==> Clean(Kept(env, true)[i])
    ensures Load(EnvText(env, true)) == MapOf(Kept(env, true))
    ensures forall k :: IsSigningKey(k) ==> k !in Load(EnvText(env, true))
    ensures forall i :: 0 <= i < |env| && !IsSigningKey(env[i].key) ==>
              env[i].key in Load(EnvText(env, true)) && Load(EnvText(env, true))[env[i].key] == env[i].val
  {
    RoundTripExactly(env, true);
    KeptNoSigningKeys(env);
    forall i | 0 <= i < |env| && !IsSigningKey(env[i].key)
      ensures env[i].key in MapOf(Kept(env, true)) && MapOf(Kept(env, true))[env[i].key] == env[i].val
    {
      KeptHas(env, i);
    }
  }

  lemma {:induction false} KeptHas(env: seq<Pair>, i: nat)
    requires DistinctKeys(env) && i < |env| && !IsSigningKey(env[i].key)
    ensures env[i].key in MapOf(Kept(env, true)) && MapOf(Kept(env, true))[env[i].key] == env[i].val
  {
    var front, p := Kept(env[..|env| - 1], true), env[|env| - 1];
    assert (front + [p])[..|front|] == front;
    if i < |env| - 1 {
      KeptHas(env[..|env| - 1], i);
    }
  }

  // ----- whatever the flags

  /** A refusal comes before anything is written. */
  lemma RefusedTouchesNothing(d: Disk, env: seq<Pair>, path: string, custody: Option<string>, force: bool)
    requires Guard(d, path, force).Some?
    ensures Generate(d, env, path, custody, force) == Exit(d, Guard(d, path, force))
  {
  }

  /** With or without force, on every exit, only the env file and the custody files are written. */
  lemma OthersUntouched(d: Disk, env: seq<Pair>, path: string, custody: Option<string>, force: bool, p: string)
    requires p != path && (custody.Some? ==> p !in CustodyPaths(custody.value))
    ensures SameFile(d, Generate(d, env, path, custody, force).disk, p)
  {
    if custody.Some? {
      CustodyFrame(d, MapOf(env), custody.value, force, p);
    }
  }

  lemma {:induction false} AllKept(env: seq<Pair>)
    ensures Kept(env, false) == env
  {
    if env != [] {
      AllKept(env[..|env| - 1]);
    }
  }

  lemma LoadedWhole(env: seq<Pair>)
    requires DistinctKeys(env)
    ensures Load(EnvText(env, false)) == MapOf(env) <==> forall i :: 0 <= i < |env| ==> Clean(env[i])
  {
    AllKept(env);
    RoundTripExactly(env, false);
  }

  /** With custody off the program succeeds exactly when the guard lets the env path pass, and stops without having
      written anything. */
  lemma WithoutCustody(d: Disk, env: seq<Pair>, path: string, force: bool)
    ensures var e := Generate(d, env, path, None, force);
            && (e.stop.None? <==> Guard(d, path, force).None?)
            && (e.stop.Some? ==> e.disk == d)
            && (e.stop.None? ==> Holds(e.disk, path, EnvText(env, false)))
  {
  }

  /** Then the env file is the only copy of the secrets: it loads to all variables, the signing keys included,
      exactly when they are all of the kind that survives printing. */
  lemma WholeReadBack(d: Disk, env: seq<Pair>, path: string, force: bool)
    requires Guard(d, path, force).None? && DistinctKeys(env)
    ensures var e := Generate(d, env, path, None, force).disk;
            path in e && (Load(e[path].content) == MapOf(env) <==> forall i :: 0 <= i < |env| ==> Clean(env[i]))
  {
    WithoutCustody(d, env, path, force);
    LoadedWhole(env);
  }

  /** Without custody every variable, signing keys included, can be read back from the file. */
  lemma VariableReadBack(d: Disk, env: seq<Pair>, path: string, force: bool, i: nat)
    requires i < |env| && DistinctKeys(env) && forall j :: 0 <= j < |env| ==> Clean(env[j])
    requires Guard(d, path, force).None?
    ensures var e := Generate(d, env, path, None, force);
            && path in e.disk && env[i].key in Load(e.disk[path].content)
            && Load(e.disk[path].content)[env[i].key] == env[i].val
  {
    WholeReadBack(d, env, path, force);
    MapOfAt(env, i);
  }

  // ----- a run that stops half-way

  /** Without force the files are written up to the first that is not empty, which is named, and no further. */
  lemma {:induction false} TargetsUntil(d: Disk, targets: seq<Target>, k: nat)
    requires DistinctPaths(targets) && k < |targets| && NonEmpty(d, targets[k].path)
    requires forall j :: 0 <= j < k ==> !NonEmpty(d, targets[j].path)
    ensures var e := WriteTargets(d, targets, false);
            && e.stop == Some(Refused(targets[k].path))
            && (forall j :: 0 <= j < k ==> Holds(e.disk, targets[j].path, targets[j].content))
            && (forall j :: k <= j < |targets| ==> SameFile(d, e.disk, targets[j].path))
    decreases |targets|
  {
    if k > 0 {
      var t, rest := targets[0], targets[1..];
      var w := Written(d, t.path, t.content);
      TargetsUntil(w, rest, k - 1);
      TargetsFrame(w, rest, false, t.path);
      assert WriteTargets(d, targets, false) == WriteTargets(w, rest, false);
    }
  }

  /** The same for the custody files, bank after bank with both files of each, the registry coming last. */
  lemma CustodyUntil(d: Disk, env: map<string, string>, dir: string, k: nat)
    requires HasKeys(env) && k < 7 && NonEmpty(d, Child(dir, Names()[k]))
    requires forall j :: 0 <= j < k ==> !NonEmpty(d, Child(dir, Names()[j]))
    ensures var e := WriteCustody(d, env, dir, false);
            && e.stop == Some(Refused(Child(dir, Names()[k])))
            && (forall j :: 0 <= j < k ==>
                  var p := Child(dir, Names()[j]);
                  p in CustodyPaths(dir) && Holds(e.disk, p, KeyFor(env, dir, p)))
            && (forall j :: k <= j < 7 ==> SameFile(d, e.disk, Child(dir, Names()[j])))
  {
    var ts := KeyTargets(dir, env[BANK_A], env[BANK_B], env[BANK_C]);
    KeyTargetsDistinct(dir, env[BANK_A], env[BANK_B], env[BANK_C]);
    TargetsAreFor(env, dir);
    if k < 6 {
      TargetsUntil(d, ts, k);
      TargetsFrame(d, ts, false, RegistryPath(dir));
    } else {
      TargetsWritten(d, ts, false);
      TargetsFrame(d, ts, false, RegistryPath(dir));
    }
  }

  /** Paths in the order of the names differ. */
  lemma ChildrenDiffer(dir: string, i: nat, j: nat)
    requires i < 7 && j < 7 && i != j
    ensures Child(dir, Names()[i]) != Child(dir, Names()[j])
  {
    if i < j {
      NamesDiffer(i, j);
    } else {
      NamesDiffer(j, i);
    }
    ChildNames(dir, Names()[i], Names()[j]);
  }

  lemma KeyForName(env: map<string, string>, dir: string, j: nat)
    requires HasKeys(env) && j < 7
    ensures Child(dir, Names()[j]) in CustodyPaths(dir)
    ensures KeyFor(env, dir, Child(dir, Names()[j])) ==
            env[if j < 2 then BANK_A else if j < 4 then BANK_B else if j < 6 then BANK_C else REGISTRY]
  {
    forall i: nat | i < 7 && i != j ensures Child(dir, Names()[i]) != Child(dir, Names()[j]) {
      ChildrenDiffer(dir, i, j);
    }
    var path := Child(dir, Names()[j]);
    assert 0 != j ==> Child(dir, Names()[0]) != path;
    assert 1 != j ==> Child(dir, Names()[1]) != path;
    assert 2 != j ==> Child(dir, Names()[2]) != path;
    assert 3 != j ==> Child(dir, Names()[3]) != path;
    assert 4 != j ==> Child(dir, Names()[4]) != path;
    assert 5 != j ==> Child(dir, Names()[5]) != path;
  }

  lemma TargetsAreFor(env: map<string, string>, dir: string)
    requires HasKeys(env)
    ensures forall j: nat :: j < 6 ==>
              var t := KeyTargets(dir, env[BANK_A], env[BANK_B], env[BANK_C])[j];
              t.path == Child(dir, Names()[j]) && t.path in CustodyPaths(dir) && t.content == KeyFor(env, dir, t.path)
  {
    forall j: nat | j < 6
      ensures var t := KeyTargets(dir, env[BANK_A], env[BANK_B], env[BANK_C])[j];
              t.path == Child(dir, Names()[j]) && t.path in CustodyPaths(dir) && t.content == KeyFor(env, dir, t.path)
    {
      KeyForName(env, dir, j);
    }
  }

  /** A variable that is missing stops the custody writes before the first, except that of the registry, whose
      file is by then open and empty. */
  lemma MissingVariable(d: Disk, env: map<string, string>, dir: string, force: bool)
    requires !HasKeys(env)
    ensures var e := WriteCustody(d, env, dir, force);
            && e.stop.Some?
            && (BANK_A !in env || BANK_B !in env || BANK_C !in env ==> e.disk == d && e.stop.value.MissingKey?)
            && (e.stop == Some(MissingKey(REGISTRY)) ==> Holds(e.disk, RegistryPath(dir), ""))
  {
    assert BANK_A[0] == BANK_B[0] == BANK_C[0] == 'W' && REGISTRY[0] == 'C';
    if FirstMissing(env).None? {
      MissingRegistry(d, env, dir, force);
    }
  }

  lemma MissingRegistry(d: Disk, env: map<string, string>, dir: string, force: bool)
    requires FirstMissing(env).None? && REGISTRY !in env
    ensures WriteCustody(d, env, dir, force).stop.Some?
    ensures WriteCustody(d, env, dir, force).stop == Some(MissingKey(REGISTRY)) ==>
              Holds(WriteCustody(d, env, dir, force).disk, RegistryPath(dir), "")
  {
    TargetsRefuse(d, KeyTargets(dir, env[BANK_A], env[BANK_B], env[BANK_C]), force);
  }

  lemma {:induction false} TargetsRefuse(d: Disk, targets: seq<Target>, force: bool)
    ensures WriteTargets(d, targets, force).stop.Some? ==> WriteTargets(d, targets, force).stop.value.Refused?
    decreases |targets|
  {
    if targets != [] && (force || !NonEmpty(d, targets[0].path)) {
      TargetsRefuse(Written(d, targets[0].path, targets[0].content), targets[1..], force);
    }
  }
}

/** Writing the generated secrets to disk: guarded creation of the key custody files, the public registry
    and the `.env` file, in the order in which the generator does it. */
module SecretFiles {
  import opened EnvFile
  import opened Options
  import opened Text

  /** How reading a file as UTF-8 text turns out. */
  datatype Access = Readable | Unreadable | Undecodable
  datatype File = File(content: string, access: Access)
  type Disk = map<string, File>

  datatype Stop = Refused(path: string) | DecodeError(path: string) | MissingKey(name: string)

  /** The disk at the exit, and what ended the run early. */
  datatype Exit = Exit(disk: Disk, stop: Option<Stop>)

  /** The second test of the guard, beside the text being blank or not. */
  const MARKERS: seq<string> :=
    ["WORKER_BANK_A_SIGNING_KEY=", "CFI_INSTITUTIONAL_PUBLIC_KEYS_JSON=", "ANALYST_BANK_A_PASSWORD="]

  function Guard(d: Disk, path: string, force: bool): Option<Stop> {
    if path !in d then None
    else if d[path].access.Undecodable? then Some(DecodeError(path))
    else
      var text := if d[path].access.Readable? then d[path].content else "";
      if (Strip(text) != "" || ContainsAny(text, MARKERS)) && !force then Some(Refused(path)) else None
  }

  function Written(d: Disk, path: string, content: string): Disk {
    d[path := File(content, Readable)]
  }

  predicate NonEmpty(d: Disk, path: string) {
    path in d && d[path].content != ""
  }

  /** A file to write, unless it is there with something in it. */
  datatype Target = Target(path: string, content: string)

  function WriteTargets(d: Disk, targets: seq<Target>, force: bool): Exit
    decreases |targets|
  {
    if targets == [] then Exit(d, None)
    else if NonEmpty(d, targets[0].path) && !force then Exit(d, Some(Refused(targets[0].path)))
    else WriteTargets(Written(d, targets[0].path, targets[0].content), targets[1..], force)
  }

  function Child(dir: string, name: string): string {
    dir + "/" + name
  }

  const BANK_A := "WORKER_BANK_A_SIGNING_KEY"
  const BANK_B := "WORKER_BANK_B_SIGNING_KEY"
  const BANK_C := "WORKER_BANK_C_SIGNING_KEY"
  const REGISTRY := "CFI_INSTITUTIONAL_PUBLIC_KEYS_JSON"

  function RegistryPath(dir: string): string {
    Child(dir, "institutional_public_keys.json")
  }

  /** Bank after bank, both representations of its key. */
  function KeyTargets(dir: string, a: string, b: string, c: string): seq<Target> {
    [Target(Child(dir, "bank_a_signing_key.pem"), a), Target(Child(dir, "bank_a.ed25519.key"), a),
     Target(Child(dir, "bank_b_signing_key.pem"), b), Target(Child(dir, "bank_b.ed25519.key"), b),
     Target(Child(dir, "bank_c_signing_key.pem"), c), Target(Child(dir, "bank_c.ed25519.key"), c)]
  }

  function CustodyPaths(dir: string): set<string> {
    {Child(dir, "bank_a_signing_key.pem"), Child(dir, "bank_a.ed25519.key"),
     Child(dir, "bank_b_signing_key.pem"), Child(dir, "bank_b.ed25519.key"),
     Child(dir, "bank_c_signing_key.pem"), Child(dir, "bank_c.ed25519.key"), RegistryPath(dir)}
  }

  function FirstMissing(env: map<string, string>): Option<string> {
    if BANK_A !in env then Some(BANK_A)
    else if BANK_B !in env then Some(BANK_B)
    else if BANK_C !in env then Some(BANK_C)
    else None
  }

  /** The registry's variable is looked up only after its file has been opened and truncated. */
  function WriteRegistry(d: Disk, env: map<string, string>, dir: string, force: bool): Exit {
    if NonEmpty(d, RegistryPath(dir)) && !force then Exit(d, Some(Refused(RegistryPath(dir))))
    else if REGISTRY !in env then Exit(Written(d, RegistryPath(dir), ""), Some(MissingKey(REGISTRY)))
    else Exit(Written(d, RegistryPath(dir), env[REGISTRY]), None)
  }

  function WriteCustody(d: Disk, env: map<string, string>, dir: string, force: bool): Exit {
    match FirstMissing(env)
    case Some(k) => Exit(d, Some(MissingKey(k)))
    case None =>
      var e := WriteTargets(d, KeyTargets(dir, env[BANK_A], env[BANK_B], env[BANK_C]), force);
      if e.stop.Some? then e else WriteRegistry(e.disk, env, dir, force)
  }

  function WriteEnv(d: Disk, env: seq<Pair>, path: string, force: bool, strip: bool): Exit {
    var g := Guard(d, path, force);
    if g.Some? then Exit(d, g) else Exit(Written(d, path, EnvText(env, strip)), None)
  }

  /** The whole program; no custody directory when it is switched off. */
  function Generate(d: Disk, env: seq<Pair>, path: string, custody: Option<string>, force: bool): Exit {
    var g := Guard(d, path, force);
    if g.Some? then Exit(d, g)
    else
      match custody
      case None => WriteEnv(d, env, path, force, false)
      case Some(dir) =>
        var e := WriteCustody(d, MapOf(env), dir, force);
        if e.stop.Some? then e else WriteEnv(e.disk, env, path, force, true)
  }

  class SecretStore {
    var disk: Disk

    constructor (d: Disk)
      ensures disk == d
    {
      disk := d;
    }

    method EnsureSafeTarget(path: string, force: bool) returns (stop: Option<Stop>)
      ensures stop == Guard(disk, path, force)
    {
      if path !in disk {
        return None;
      }
      if disk[path].access.Undecodable? {
        return Some(DecodeError(path));
      }
      var text := if disk[path].access.Readable? then disk[path].content else "";
      if (Strip(text) != "" || ContainsAny(text, MARKERS)) && !force {
        return Some(Refused(path));
      }
      return None;
    }

    method WriteIsolatedKeyFiles(env: map<string, string>, dir: string, force: bool) returns (stop: Option<Stop>)
      modifies this
      ensures Exit(disk, stop) == WriteCustody(old(disk), env, dir, force)
    {
      var missing := FirstMissing(env);
      if missing.Some? {
        return Some(MissingKey(missing.value));
      }
      var targets := KeyTargets(dir, env[BANK_A], env[BANK_B], env[BANK_C]);
      for i := 0 to |targets|
        invariant WriteTargets(disk, targets[i..], force) == WriteTargets(old(disk), targets, force)
      {
        if NonEmpty(disk, targets[i].path) && !force {
          return Some(Refused(targets[i].path));
        }
        assert targets[i..][1..] == targets[i + 1..];
        disk := Written(disk, targets[i].path, targets[i].content);
      }
      var registry := RegistryPath(dir);
      if NonEmpty(disk, registry) && !force {
        return Some(Refused(registry));
      }
      disk := Written(disk, registry, "");
      if REGISTRY !in env {
        return Some(MissingKey(REGISTRY));
      }
      disk := Written(disk, registry, env[REGISTRY]);
      return None;
    }

    method WriteEnvFile(env: seq<Pair>, path: string, force: bool, strip: bool) returns (stop: Option<Stop>)
      modifies this
      ensures Exit(disk, stop) == WriteEnv(old(disk), env, path, force, strip)
    {
      stop := EnsureSafeTarget(path, force);
      if stop.Some? {
        return;
      }
      var content := FormatEnv(env, strip);
      disk := Written(disk, path, content);
    }

    method GenerateSecrets(env: seq<Pair>, path: string, custody: Option<string>, force: bool)
      returns (stop: Option<Stop>)
      modifies this
      ensures Exit(disk, stop) == Generate(old(disk), env, path, custody, force)
    {
      stop := EnsureSafeTarget(path, force);
      if stop.Some? {
        return;
      }
      if custody.Some? {
        stop := WriteIsolatedKeyFiles(MapOf(env), custody.value, force);
        if stop.None? {
          stop := WriteEnvFile(env, path, force, true);
        }
      } else {
        stop := WriteEnvFile(env, path, force, false);
      }
    }
  }
}

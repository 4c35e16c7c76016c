/** Provisioning of institutional principals: register a new one, or verify and keep the one there is. */
module Provisioning {
  import opened Lockouts
  import opened Options

  /** Name normalisation (`lower().strip()`), salted hashing and verification, as arbitrary functions; whether the
      provisioning script can import the verification; the lockout policy; and for each call the times at which
      the clock is read in it, and which of its accesses to the durable store find that corrupted. */
  datatype Platform = Platform(norm: string -> string, hash: (string, nat) -> string, verify: (string, string) -> bool,
                               importable: bool, maxFailures: int, duration: real,
                               clock: (nat, nat) -> real, corrupt: (nat, nat) -> bool)

  /** Normalising twice changes nothing; a password verifies against its own hash under every salt;
      the empty password verifies against nothing. */
  ghost predicate Sound(p: Platform) {
    && (forall u :: p.norm(p.norm(u)) == p.norm(u))
    && (forall w, salt :: w != "" ==> p.verify(w, p.hash(w, salt)))
    && (forall h :: !p.verify("", h))
  }

  function PolicyOf(p: Platform): Policy {
    Policy(p.norm, p.maxFailures, p.duration)
  }

  /** `standing` says that the status of the account reads "active", which is kept apart from its active flag. */
  datatype Principal = Principal(id: nat, hash: string, bank: string, roles: seq<string>, clearance: int,
                                 active: bool, standing: bool)

  /** Principals under normalised names, and failed logins. */
  datatype Store = Store(users: map<string, Principal>, lockouts: Record)

  datatype Request = Request(username: string, password: string, bank: string, roles: seq<string>, clearance: int,
                             rotate: bool)

  datatype Answer = Granted(principal: Principal) | PermissionDenied | EmptyPassword | StoreCorrupted

  // The accesses of one call to the durable store: the first lookup, the one of a login, and saving.
  const LOOKUP := 0
  const LOGIN := 1
  const SAVE := 2

  /** By default the store hides principals that are not active. */
  function Visible(p: Platform, s: Store, username: string): Option<Principal> {
    var u := p.norm(username);
    if u in s.users && s.users[u].active then Some(s.users[u]) else None
  }

  function Registered(p: Platform, r: Request, salt: nat): Principal {
    var roles := if r.roles == [] then ["analyst"] else r.roles;
    Principal(salt, p.hash(r.password, salt), r.bank, roles, r.clearance, true, true)
  }

  /** Hashing refuses the empty password before anything is stored. */
  function Register(p: Platform, s: Store, r: Request, salt: nat): (Store, Answer) {
    if r.password == "" then (s, EmptyPassword)
    else if p.corrupt(salt, SAVE) then (s, StoreCorrupted)
    else (s.(users := s.users[p.norm(p.norm(r.username)) := Registered(p, r, salt)]), Granted(Registered(p, r, salt)))
  }

  predicate Matches(p: Platform, q: Principal, r: Request) {
    p.verify(r.password, q.hash) && q.bank == r.bank && q.active
  }

  /** The default address a login is counted under. */
  const CLIENT := "127.0.0.1"

  /** The checks that come before the password: whether one of them refuses, and what they leave of the record. */
  function Admit(p: Platform, l: Record, username: string, salt: nat): (Record, bool) {
    var key, ip := p.norm(p.norm(username)), p.norm(CLIENT);
    var m := Checked(PolicyOf(p), l, key, p.clock(salt, 0));
    if Locked(l, key, p.clock(salt, 0)) then (l, false)
    else if Locked(m, ip, p.clock(salt, 1)) then (m, false)
    else (Checked(PolicyOf(p), m, ip, p.clock(salt, 1)), true)
  }

  /** A full login: refused while the name or the address is locked or the store is corrupted, counted under
      both when name or password is wrong. */
  function Authenticate(p: Platform, s: Store, username: string, password: string, salt: nat): (Store, bool) {
    var u, key, ip := p.norm(username), p.norm(p.norm(username)), p.norm(CLIENT);
    var (m, admitted) := Admit(p, s.lockouts, username, salt);
    if !admitted || p.corrupt(salt, LOGIN) then (s.(lockouts := m), false)
    else if key in s.users && s.users[key].active && s.users[key].standing && p.verify(password, s.users[key].hash) then
      (s.(lockouts := Cleared(Cleared(m, key), ip)), true)
    else
      var once := Failed(PolicyOf(p), m, key, p.clock(salt, 2));
      (s.(lockouts := Failed(PolicyOf(p), once, ip, p.clock(salt, 3))), false)
  }

  /** Whether the password is taken to be right: verified directly, or by a login when that cannot be imported. */
  function PasswordMatches(p: Platform, s: Store, q: Principal, r: Request, salt: nat): (Store, bool) {
    if p.importable then (s, p.verify(r.password, q.hash)) else Authenticate(p, s, r.username, r.password, salt)
  }

  function Provision(p: Platform, s: Store, r: Request, salt: nat): (Store, Answer) {
    if p.corrupt(salt, LOOKUP) then (s, StoreCorrupted)
    else
      match Visible(p, s, r.username)
      case None => Register(p, s, r, salt)
      case Some(q) =>
        var (t, right) := PasswordMatches(p, s, q, r, salt);
        if right && q.bank == r.bank && q.active then
          (t.(lockouts := Cleared(t.lockouts, p.norm(r.username))), Granted(q))
        else if !r.rotate then (t, PermissionDenied)
        else Register(p, t, r, salt)
  }

  /** The authentication service, whose store and lockout counters the calls update in place. */
  class AuthService {
    const platform: Platform
    const lockouts: LockoutManager
    var users: map<string, Principal>

    constructor (platform: Platform, s: Store)
      ensures this.platform == platform && Ready() && View() == s && fresh(lockouts)
    {
      this.platform, users := platform, s.users;
      lockouts := new LockoutManager(PolicyOf(platform), s.lockouts);
    }

    ghost predicate Ready() {
      lockouts.policy == PolicyOf(platform)
    }

    ghost function View(): Store
      reads this, lockouts
    {
      Store(users, lockouts.View())
    }

    /** What the store holds under a name, unless this access finds it corrupted. */
    method GetUser(username: string, includeInactive: bool, salt: nat, access: nat)
      returns (corrupt: bool, r: Option<Principal>)
      ensures corrupt == platform.corrupt(salt, access)
      ensures !corrupt && !includeInactive ==> r == Visible(platform, View(), username)
      ensures !corrupt && includeInactive ==>
                r == if platform.norm(username) in users then Some(users[platform.norm(username)]) else None
    {
      if platform.corrupt(salt, access) {
        return true, None;
      }
      var u := platform.norm(username);
      if u !in users || (!includeInactive && !users[u].active) {
        return false, None;
      }
      return false, Some(users[u]);
    }

    method RegisterUser(r: Request, salt: nat) returns (a: Answer)
      modifies this
      ensures (View(), a) == Register(platform, old(View()), r, salt)
    {
      var u := platform.norm(r.username);
      if r.password == "" {
        return EmptyPassword;
      }
      var q := Registered(platform, r, salt);
      if platform.corrupt(salt, SAVE) {
        return StoreCorrupted;
      }
      users := users[platform.norm(u) := q];
      return Granted(q);
    }

    method Login(username: string, password: string, salt: nat) returns (granted: bool)
      requires Ready()
      modifies lockouts
      ensures (View(), granted) == Authenticate(platform, old(View()), username, password, salt)
    {
      var u := platform.norm(username);
      var locked := lockouts.CheckLockout(u, platform.clock(salt, 0));
      if locked {
        return false;
      }
      locked := lockouts.CheckLockout(CLIENT, platform.clock(salt, 1));
      if locked {
        return false;
      }
      var corrupt, user := GetUser(u, true, salt, LOGIN);
      if corrupt {
        return false;
      }
      granted := user.Some? && user.value.active && user.value.standing && platform.verify(password, user.value.hash);
      if granted {
        lockouts.Reset(u);
        lockouts.Reset(CLIENT);
      } else {
        lockouts.RecordFailure(u, platform.clock(salt, 2));
        lockouts.RecordFailure(CLIENT, platform.clock(salt, 3));
      }
    }

    method ProvisionOrVerify(r: Request, salt: nat) returns (a: Answer)
      requires Ready()
      modifies this, lockouts
      ensures (View(), a) == Provision(platform, old(View()), r, salt)
    {
      var corrupt, existing := GetUser(r.username, false, salt, LOOKUP);
      if corrupt {
        return StoreCorrupted;
      }
      if existing.None? {
        a := RegisterUser(r, salt);
        return;
      }
      var q := existing.value;
      var passwordMatches;
      if platform.importable {
        passwordMatches := platform.verify(r.password, q.hash);
      } else {
        passwordMatches := Login(r.username, r.password, salt);
      }
      var bankMatches := q.bank == r.bank;
      if passwordMatches && bankMatches && q.active {
        lockouts.Reset(r.username);
        return Granted(q);
      }
      if !r.rotate {
        return PermissionDenied;
      }
      a := RegisterUser(r, salt);
    }
  }

  // ----- one call

  /** The durable store is found intact by every access of a call that provisions directly. */
  predicate Intact(p: Platform, salt: nat) {
    !p.corrupt(salt, LOOKUP) && !p.corrupt(salt, SAVE)
  }

  /** Without rotation a call leaves an existing principal alone, except in one case: with an intact store it
      registers over a principal that is not active, which `get_user` hides, and makes it active with the new
      credentials. */
  lemma KeepsExactly(p: Platform, s: Store, r: Request, salt: nat, u: string)
    requires Sound(p) && !r.rotate && u in s.users
    ensures u in Provision(p, s, r, salt).0.users
    ensures Provision(p, s, r, salt).0.users[u] == s.users[u] <==>
            !(p.norm(r.username) == u && !s.users[u].active && r.password != "" && Intact(p, salt))
  {
  }

  /** A concrete loss: a deactivated principal of another bank, taken over by a call without rotation. */
  lemma InactivePrincipalReplaced(p: Platform, s: Store, r: Request, salt: nat)
    requires Sound(p) && Intact(p, salt) && !r.rotate && r.password != "" && r.bank == "bank_b"
    requires s.users == map[p.norm(r.username) := Principal(7, "old", "bank_a", ["admin"], 3, false, true)]
    ensures Provision(p, s, r, salt).1.Granted?
    ensures var q := Provision(p, s, r, salt).0.users[p.norm(r.username)];
            q.bank == "bank_b" && q.active && p.verify(r.password, q.hash)
  {
  }

  /** A granted call returns the principal now stored under the name: active, of the requested bank, and
      answering to the requested password, and if it is new with the requested clearance and roles; all
      other principals are untouched. */
  lemma GrantedMatches(p: Platform, s: Store, r: Request, salt: nat)
    requires Sound(p) && Provision(p, s, r, salt).1.Granted?
    ensures var (t, a) := Provision(p, s, r, salt);
            && p.norm(r.username) in t.users && t.users[p.norm(r.username)] == a.principal
            && p.verify(r.password, a.principal.hash) && a.principal.bank == r.bank && a.principal.active
            && (Visible(p, s, r.username).None? ==>
                  a.principal.clearance == r.clearance && a.principal.id == salt &&
                  (r.roles != [] ==> a.principal.roles == r.roles) && a.principal.roles != [])
            && forall u :: u != p.norm(r.username) ==>
                 (u in t.users <==> u in s.users) && (u in s.users ==> t.users[u] == s.users[u])
  {
  }

  /** Nothing but name, bank and password can refuse the call: no access finds the store corrupted and, if a
      login is needed, neither the name nor the address is locked. */
  predicate Free(p: Platform, l: Record, r: Request, salt: nat) {
    var u, ip := p.norm(r.username), p.norm(CLIENT);
    && !p.corrupt(salt, LOOKUP)
    && (p.importable || (!p.corrupt(salt, LOGIN) && !Locked(l, u, p.clock(salt, 0)) &&
                         (u == ip || !Locked(l, ip, p.clock(salt, 1)))))
  }

  /** An active principal is verified, without rotation, exactly when bank and password are right, the call is free
      and, if it takes a login, the status of the account reads "active". */
  lemma VerifiedExactly(p: Platform, s: Store, r: Request, salt: nat)
    requires Sound(p) && !r.rotate && Visible(p, s, r.username).Some?
    ensures var q := Visible(p, s, r.username).value;
            Provision(p, s, r, salt).1.Granted? <==>
              Matches(p, q, r) && (p.importable || q.standing) && Free(p, s.lockouts, r, salt)
  {
  }

  /** The stored principal is verified: bank and password are right and, if it takes a login, that is let through. */
  predicate Verified(p: Platform, s: Store, r: Request, salt: nat) {
    var u := p.norm(r.username);
    && u in s.users && s.users[u].active && s.users[u].bank == r.bank && p.verify(r.password, s.users[u].hash)
    && (p.importable || s.users[u].standing) && Free(p, s.lockouts, r, salt)
  }

  /** A call may register when there is no active principal under the name, or rotation is allowed. */
  predicate MayRegister(p: Platform, s: Store, r: Request) {
    var u := p.norm(r.username);
    r.rotate || u !in s.users || !s.users[u].active
  }

  /** When a call is granted, for all calls: the principal there is verified, or one may be registered, the password is
      not empty and the store is intact. */
  lemma GrantedExactly(p: Platform, s: Store, r: Request, salt: nat)
    requires Sound(p)
    ensures Provision(p, s, r, salt).1.Granted? <==>
            Verified(p, s, r, salt) || (MayRegister(p, s, r) && r.password != "" && Intact(p, salt))
  {
  }

  /** What any other call is answered.  It changes no principal. */
  lemma RefusedExactly(p: Platform, s: Store, r: Request, salt: nat)
    requires Sound(p) && !Verified(p, s, r, salt)
    ensures var (t, a) := Provision(p, s, r, salt);
            && (a == PermissionDenied <==> !p.corrupt(salt, LOOKUP) && !MayRegister(p, s, r))
            && (a == EmptyPassword <==> !p.corrupt(salt, LOOKUP) && MayRegister(p, s, r) && r.password == "")
            && (!a.Granted? ==> t.users == s.users)
  {
  }

  /** A call that is granted without the principal being verified registers a fresh one: it answers to the password of
      the request and to what counts for its hash, and to nothing else that was stored before. */
  lemma RegisteredAnew(p: Platform, s: Store, r: Request, salt: nat)
    requires Sound(p) && !Verified(p, s, r, salt) && Provision(p, s, r, salt).1.Granted?
    ensures var (t, a) := Provision(p, s, r, salt);
            var q := Principal(salt, p.hash(r.password, salt), r.bank, if r.roles == [] then ["analyst"] else r.roles,
                               r.clearance, true, true);
            && a == Granted(q) && t.users == s.users[p.norm(r.username) := q]
            && p.verify(r.password, q.hash)
  {
  }

  /** A verified principal is returned and kept as it is. */
  lemma VerifiedKept(p: Platform, s: Store, r: Request, salt: nat)
    requires Sound(p) && Verified(p, s, r, salt)
    ensures var (t, a) := Provision(p, s, r, salt);
            && a == Granted(s.users[p.norm(r.username)]) && t.users == s.users
            && p.norm(r.username) !in t.lockouts.failures && p.norm(r.username) !in t.lockouts.lockedUntil
  {
  }

  /** Where verification is direct, a call that does not verify leaves the failure counters alone. */
  lemma DirectCountsNothing(p: Platform, s: Store, r: Request, salt: nat)
    requires Sound(p) && p.importable && !Verified(p, s, r, salt)
    ensures Provision(p, s, r, salt).0.lockouts == s.lockouts
  {
  }

  /** A login with a wrong password is one more failure of its name, the earlier ones being recent, and locks the
      name exactly when that makes enough of them. */
  lemma FailedLoginCounted(p: Platform, s: Store, username: string, password: string, salt: nat)
    requires var u := p.norm(username);
             && Sound(p) && u != p.norm(CLIENT) && u !in s.lockouts.lockedUntil
             && !Locked(s.lockouts, p.norm(CLIENT), p.clock(salt, 1)) && !p.corrupt(salt, LOGIN)
             && (u in s.users ==> !p.verify(password, s.users[u].hash))
             && AllRecent(FailuresOf(s.lockouts.failures, u), p, salt)
    ensures var (t, granted) := Authenticate(p, s, username, password, salt);
            var (u, before) := (p.norm(username), FailuresOf(s.lockouts.failures, p.norm(username)));
            && !granted
            && FailuresOf(t.lockouts.failures, u) == before + [p.clock(salt, 2)]
            && (u in t.lockouts.lockedUntil <==> |before| + 1 >= p.maxFailures)
            && p.clock(salt, 3) in FailuresOf(t.lockouts.failures, p.norm(CLIENT))
  {
    var before := FailuresOf(s.lockouts.failures, p.norm(username));
    RecentAll(before, p.clock(salt, 0), p.duration);
    RecentAll(before, p.clock(salt, 2), p.duration);
  }

  /** A login under a locked name is refused without being counted. */
  lemma LockedOutCountsNothing(p: Platform, s: Store, username: string, password: string, salt: nat)
    requires Sound(p) && Locked(s.lockouts, p.norm(username), p.clock(salt, 0))
    ensures Authenticate(p, s, username, password, salt) == (s, false)
  {
  }

  ghost predicate AllRecent(times: seq<real>, p: Platform, salt: nat) {
    forall i :: 0 <= i < |times| ==>
      p.clock(salt, 0) - times[i] <= p.duration && p.clock(salt, 2) - times[i] <= p.duration
  }

  // ----- sequences of calls

  /** Calls one after the other, each with its own salt. */
  function ProvisionAll(p: Platform, s: Store, rs: seq<Request>, salt: nat): Store
    decreases |rs|
  {
    if rs == [] then s else ProvisionAll(p, Provision(p, s, rs[0], salt).0, rs[1..], salt + 1)
  }

  predicate AllGranted(p: Platform, s: Store, rs: seq<Request>, salt: nat)
    decreases |rs|
  {
    rs == [] ||
    (Provision(p, s, rs[0], salt).1.Granted? && AllGranted(p, Provision(p, s, rs[0], salt).0, rs[1..], salt + 1))
  }

  ghost predicate NoRotation(rs: seq<Request>) {
    forall i :: 0 <= i < |rs| ==> !rs[i].rotate
  }

  /** No sequence of calls without rotation changes an active principal in any field. */
  lemma {:induction false} ActiveKept(p: Platform, s: Store, rs: seq<Request>, salt: nat, u: string)
    requires Sound(p) && NoRotation(rs) && u in s.users && s.users[u].active
    ensures u in ProvisionAll(p, s, rs, salt).users && ProvisionAll(p, s, rs, salt).users[u] == s.users[u]
    decreases |rs|
  {
    if rs != [] {
      KeepsExactly(p, s, rs[0], salt, u);
      ActiveKept(p, Provision(p, s, rs[0], salt).0, rs[1..], salt + 1, u);
    }
  }

  /** After a sequence that was granted throughout, every request of it finds its principal in place. */
  lemma {:induction false} GrantedStay(p: Platform, s: Store, rs: seq<Request>, salt: nat)
    requires Sound(p) && NoRotation(rs) && AllGranted(p, s, rs, salt)
    ensures forall i :: 0 <= i < |rs| ==> Satisfied(p, ProvisionAll(p, s, rs, salt), rs[i])
    decreases |rs|
  {
    if rs != [] {
      var t := Provision(p, s, rs[0], salt).0;
      GrantedMatches(p, s, rs[0], salt);
      ActiveKept(p, t, rs[1..], salt + 1, p.norm(rs[0].username));
      GrantedStay(p, t, rs[1..], salt + 1);
      assert forall i :: 1 <= i < |rs| ==> rs[i] == rs[1..][i - 1];
    }
  }

  predicate Satisfied(p: Platform, s: Store, r: Request) {
    var u := p.norm(r.username);
    u in s.users && Matches(p, s.users[u], r) && (p.importable || s.users[u].standing)
  }

  /** A granted login leaves no lock on its name or on the address, and touches no other. */
  lemma SatisfiedOnce(p: Platform, s: Store, r: Request, salt: nat)
    requires Sound(p) && Satisfied(p, s, r) && !r.rotate
    ensures var (t, a) := Provision(p, s, r, salt);
            && t.users == s.users && (a.Granted? <==> Free(p, s.lockouts, r, salt))
            && (a.Granted? && !p.importable ==>
                  t.lockouts.lockedUntil == s.lockouts.lockedUntil - {p.norm(r.username), p.norm(CLIENT)})
  {
    VerifiedExactly(p, s, r, salt);
  }

  /** What the calls before the i-th have unlocked, each having been granted by a login. */
  predicate UnlockedBefore(p: Platform, rs: seq<Request>, i: nat, key: string)
    requires i <= |rs|
  {
    (i > 0 && key == p.norm(CLIENT)) || exists j :: 0 <= j < i && p.norm(rs[j].username) == key
  }

  /** The i-th call is free after those before it were granted: what still counts are the locks there were at first. */
  predicate FreeAt(p: Platform, l: Record, rs: seq<Request>, salt: nat, i: nat)
    requires i < |rs|
  {
    var u, ip := p.norm(rs[i].username), p.norm(CLIENT);
    && !p.corrupt(salt + i, LOOKUP)
    && (p.importable ||
        (&& !p.corrupt(salt + i, LOGIN)
         && (UnlockedBefore(p, rs, i, u) || !Locked(l, u, p.clock(salt + i, 0)))
         && (UnlockedBefore(p, rs, i, ip) || u == ip || !Locked(l, ip, p.clock(salt + i, 1)))))
  }

  predicate AllFree(p: Platform, l: Record, rs: seq<Request>, salt: nat) {
    forall i: nat :: i < |rs| ==> FreeAt(p, l, rs, salt, i)
  }

  lemma FreeFirst(p: Platform, l: Record, rs: seq<Request>, salt: nat)
    requires rs != []
    ensures FreeAt(p, l, rs, salt, 0) <==> Free(p, l, rs[0], salt)
  {
  }

  lemma UnlockedTail(p: Platform, rs: seq<Request>, i: nat, key: string)
    requires rs != [] && i < |rs|
    ensures UnlockedBefore(p, rs, i + 1, key) <==>
            key == p.norm(rs[0].username) || key == p.norm(CLIENT) || UnlockedBefore(p, rs[1..], i, key)
  {
    if UnlockedBefore(p, rs[1..], i, key) && key != p.norm(CLIENT) {
      var j :| 0 <= j < i && p.norm(rs[1..][j].username) == key;
      assert rs[1..][j] == rs[j + 1];
    }
    if j :| 0 <= j < i + 1 && p.norm(rs[j].username) == key && j > 0 {
      assert rs[1..][j - 1] == rs[j];
    }
  }

  lemma FreeLater(p: Platform, l: Record, m: Record, rs: seq<Request>, salt: nat, i: nat)
    requires i + 1 < |rs|
    requires !p.importable ==> m.lockedUntil == l.lockedUntil - {p.norm(rs[0].username), p.norm(CLIENT)}
    ensures FreeAt(p, l, rs, salt, i + 1) <==> FreeAt(p, m, rs[1..], salt + 1, i)
  {
    UnlockedTail(p, rs, i, p.norm(rs[i + 1].username));
    UnlockedTail(p, rs, i, p.norm(CLIENT));
  }

  lemma {:induction false} SatisfiedReplay(p: Platform, s: Store, rs: seq<Request>, salt: nat)
    requires Sound(p) && NoRotation(rs) && forall i :: 0 <= i < |rs| ==> Satisfied(p, s, rs[i])
    ensures ProvisionAll(p, s, rs, salt).users == s.users
    ensures AllGranted(p, s, rs, salt) <==> AllFree(p, s.lockouts, rs, salt)
    decreases |rs|
  {
    if rs != [] {
      var (t, a) := Provision(p, s, rs[0], salt);
      SatisfiedOnce(p, s, rs[0], salt);
      FreeFirst(p, s.lockouts, rs, salt);
      forall i | 0 <= i < |rs[1..]| ensures Satisfied(p, t, rs[1..][i]) {
        assert Satisfied(p, s, rs[i + 1]);
      }
      SatisfiedReplay(p, t, rs[1..], salt + 1);
      if a.Granted? {
        FreeAll(p, s.lockouts, t.lockouts, rs, salt, rs[1..], salt + 1);
      }
    }
  }

  lemma FreeAll(p: Platform, l: Record, m: Record, rs: seq<Request>, salt: nat, tail: seq<Request>, next: nat)
    requires rs != [] && tail == rs[1..] && next == salt + 1 && FreeAt(p, l, rs, salt, 0)
    requires !p.importable ==> m.lockedUntil == l.lockedUntil - {p.norm(rs[0].username), p.norm(CLIENT)}
    ensures AllFree(p, l, rs, salt) <==> AllFree(p, m, tail, next)
  {
    forall i: nat | i < |tail| ensures FreeAt(p, l, rs, salt, i + 1) <==> FreeAt(p, m, tail, next, i) {
      FreeLater(p, l, m, rs, salt, i);
    }
    if AllFree(p, m, tail, next) {
      forall i: nat | i < |rs| ensures FreeAt(p, l, rs, salt, i) {
        if i > 0 {
          assert FreeAt(p, m, tail, next, i - 1);
        }
      }
    }
  }

  /** Replaying a granted sequence changes no principal.  It is granted again exactly when the store is found intact
      and, where logins are needed, no name is locked at its first call, nor the address at the first call of all. */
  lemma ReplayChangesNothing(p: Platform, s: Store, rs: seq<Request>, salt: nat, later: nat)
    requires Sound(p) && NoRotation(rs) && AllGranted(p, s, rs, salt)
    ensures var t := ProvisionAll(p, s, rs, salt);
            && ProvisionAll(p, t, rs, later).users == t.users
            && (AllGranted(p, t, rs, later) <==> AllFree(p, t.lockouts, rs, later))
  {
    GrantedStay(p, s, rs, salt);
    SatisfiedReplay(p, ProvisionAll(p, s, rs, salt), rs, later);
  }
}

/**
 The authenticator: a user registry, a cache of successful credentials, and trust-on-first-use provisioning of
 accounts that still carry the `init` sentinel.  Argon2id and HMAC are parameters.
 */
module Auth {
  import opened Text

  const INIT := "init"

  /** `other` stands for the fields a login never looks at. */
  datatype User = User(name: string, hash: string, enabled: bool, other: string)

  type Registry = seq<User>

  /** Index of the first record with a name; later duplicates never match. */
  function Find(users: Registry, name: string): (r: Option<nat>)
    ensures r.Some? ==> r.value < |users| && users[r.value].name == name
    ensures r.Some? ==> forall i | 0 <= i < r.value :: users[i].name != name
    ensures r.None? ==> forall i | 0 <= i < |users| :: users[i].name != name
  {
    if users == [] then None
    else if users[0].name == name then Some(0)
    else match Find(users[1..], name)
      case None => None
      case Some(i) => Some(i + 1)
  }

  function SetHash(users: Registry, name: string, hash: string): Registry {
    match Find(users, name)
    case None => users
    case Some(i) => users[i := users[i].(hash := hash)]
  }

  /** Hashing takes fresh salt; verifying says no to a malformed hash too. */
  datatype Crypto = Crypto(
    compute: (string, nat) -> string,
    verify: (string, string) -> bool,
    hmac: (nat, string, string) -> string)

  ghost predicate Sound(c: Crypto) {
    && (forall password, salt :: c.verify(c.compute(password, salt), password))
    && (forall password, salt :: c.compute(password, salt) != INIT)
    && (forall secret, name, p, q :: c.hmac(secret, name, p) == c.hmac(secret, name, q) ==> p == q)
  }

  /** The laws can be met. */
  lemma SoundCryptoExists()
    ensures exists c: Crypto :: Sound(c)
  {
    var c := Crypto((password, salt) => "h" + password, (hash, password) => hash == "h" + password,
                    (secret, name, password) => password);
    forall password, salt ensures c.compute(password, salt) != INIT {
      assert c.compute(password, salt)[0] == 'h';
    }
    assert Sound(c);
  }

  datatype Entry = Entry(hashSnapshot: string, mac: string)

  type Cache = map<string, Entry>

  /** Some password produced this entry and verifies against the very hash it carries. */
  ghost predicate Proved(c: Crypto, secret: nat, name: string, e: Entry) {
    exists password :: e.mac == c.hmac(secret, name, password) && c.verify(e.hashSnapshot, password)
  }

  ghost predicate CacheOk(c: Crypto, secret: nat, cache: Cache) {
    forall name | name in cache :: Proved(c, secret, name, cache[name])
  }

  predicate Hits(c: Crypto, secret: nat, cache: Cache, name: string, password: string, hash: string) {
    name in cache && cache[name].hashSnapshot == hash && cache[name].mac == c.hmac(secret, name, password)
  }

  /** The fast path never disagrees with Argon2: a hit against a hash is a password that verifies against it. */
  lemma HitVerifies(c: Crypto, secret: nat, cache: Cache, name: string, password: string, hash: string)
    requires Sound(c) && CacheOk(c, secret, cache) && Hits(c, secret, cache, name, password, hash)
    ensures c.verify(hash, password)
  {
    assert Proved(c, secret, name, cache[name]);
    var p :| cache[name].mac == c.hmac(secret, name, p) && c.verify(cache[name].hashSnapshot, p);
  }

  lemma PublishKeepsCache(c: Crypto, secret: nat, cache: Cache, name: string, password: string, hash: string)
    requires CacheOk(c, secret, cache) && c.verify(hash, password)
    ensures CacheOk(c, secret, cache[name := Entry(hash, c.hmac(secret, name, password))])
  {
  }

  datatype Save = Saved | NotSaved(tookEffect: bool)

  /** The registry file, and what the calls on it will report. */
  class Disk {
    var registry: Registry
    const lockFails: bool
    const loadFails: bool
    const saveResult: Save

    constructor (registry: Registry, lockFails: bool, loadFails: bool, saveResult: Save)
      ensures this.registry == registry && this.lockFails == lockFails && this.loadFails == loadFails
      ensures this.saveResult == saveResult
    {
      this.registry, this.lockFails, this.loadFails, this.saveResult := registry, lockFails, loadFails, saveResult;
    }

    method SaveRegistry(users: Registry) returns (ok: bool)
      modifies `registry
      ensures ok == saveResult.Saved?
      ensures registry == if ok || saveResult.tookEffect then users else old(registry)
    {
      ok := saveResult.Saved?;
      if ok || saveResult.tookEffect {
        registry := users;
      }
    }
  }

  /** What `resolve_init` is about to do, once it holds the locks and has read the registry. */
  datatype Standing = Gone | Lost(hash: string) | Claimable

  function StandingOf(users: Registry, name: string): (r: Standing)
    ensures r.Claimable? <==>
      Find(users, name).Some? && users[Find(users, name).value].enabled && users[Find(users, name).value].hash == INIT
    ensures r.Lost? <==>
      Find(users, name).Some? && users[Find(users, name).value].enabled && users[Find(users, name).value].hash != INIT
    ensures r.Lost? ==>
      Find(users, name).Some? && users[Find(users, name).value].enabled && users[Find(users, name).value].hash == r.hash
  {
    match Find(users, name)
    case None => Gone
    case Some(i) =>
      if !users[i].enabled then Gone
      else if users[i].hash != INIT then Lost(users[i].hash)
      else Claimable
  }

  /** The first record with the name is enabled and carries this hash. */
  ghost predicate HasHash(users: Registry, name: string, hash: string) {
    exists i ::
      && 0 <= i < |users| && users[i].name == name && (forall j | 0 <= j < i :: users[j].name != name)
      && users[i].enabled && users[i].hash == hash
  }

  lemma StandingIs(users: Registry, name: string)
    ensures StandingOf(users, name).Claimable? <==> HasHash(users, name, "init")
    ensures forall h :: StandingOf(users, name) == Lost(h) <==> h != "init" && HasHash(users, name, h)
    ensures forall g, h :: HasHash(users, name, g) && HasHash(users, name, h) ==> g == h
  {
    if Find(users, name).Some? {
      var i := Find(users, name).value;
      assert users[i].enabled ==> HasHash(users, name, users[i].hash);
    }
  }

  class AuthState {
    var users: Registry
    var cache: Cache
    const secret: nat
    const crypto: Crypto

    constructor (users: Registry, secret: nat, crypto: Crypto)
      requires Sound(crypto)
      ensures Valid() && this.users == users && cache == map[] && this.secret == secret && this.crypto == crypto
    {
      this.users, this.secret, this.crypto := users, secret, crypto;
      cache := map[];
    }

    ghost predicate Valid()
      reads this
    {
      Sound(crypto) && CacheOk(crypto, secret, cache)
    }

    /** Fast path or slow path, the answer is Argon2's. */
    method VerifyWithCache(name: string, password: string, hash: string) returns (accepted: bool)
      requires Valid()
      modifies `cache
      ensures Valid()
      ensures accepted == crypto.verify(hash, password)
      ensures !accepted ==> cache == old(cache)
      ensures accepted ==> cache == old(cache)[name := Entry(hash, crypto.hmac(secret, name, password))]
    {
      var candidate := crypto.hmac(secret, name, password);
      if name in cache {
        if cache[name].hashSnapshot == hash && cache[name].mac == candidate {
          HitVerifies(crypto, secret, cache, name, password, hash);
          assert cache == cache[name := Entry(hash, candidate)];
          return true;
        }
      }
      accepted := crypto.verify(hash, password);
      if accepted {
        PublishKeepsCache(crypto, secret, cache, name, password, hash);
        cache := cache[name := Entry(hash, candidate)];
      }
    }

    /** The registry a first use decides on: the file, or memory where nothing is persisted. */
    ghost function Authority(disk: Disk?): Registry
      reads this, disk
    {
      if disk == null then users else disk.registry
    }

    /** Trust on first use.  The authoritative registry changes only when the account is claimable there, and then
        only in that account's hash; memory and cache follow the disk, never lead it. */
    method ResolveInit(name: string, password: string, salt: nat, disk: Disk?) returns (accepted: bool)
      requires Valid()
      modifies `users, `cache, disk
      ensures Valid()
      ensures (
        || (disk != null && (disk.lockFails || disk.loadFails)) || password == ""
        || StandingOf(old(Authority(disk)), name).Gone?
      ) ==>
        && !accepted && users == old(users) && cache == old(cache)
        && (disk != null ==> disk.registry == old(disk.registry))
      ensures password != "" && (disk != null ==> !disk.lockFails && !disk.loadFails) ==>
        match StandingOf(old(Authority(disk)), name)
        case Gone => !accepted
        case Lost(hash) =>
          && accepted == crypto.verify(hash, password)
          && users == Authority(disk) == old(Authority(disk))
        case Claimable =>
          var claimed := SetHash(old(Authority(disk)), name, crypto.compute(password, salt));
          && (accepted <==> disk == null || disk.saveResult.Saved?)
          && (disk != null ==>
                disk.registry == if accepted || disk.saveResult.tookEffect then claimed else old(disk.registry))
          && users == (if accepted then claimed else old(users))
          && (!accepted ==> cache == old(cache))
    {
      if password == "" {
        return false;
      }
      var newHash := crypto.compute(password, salt);
      if disk != null && disk.lockFails {
        return false;
      }
      if disk != null && disk.loadFails {
        return false;
      }
      var current := if disk != null then disk.registry else users;
      match StandingOf(current, name) {
        case Gone =>
          return false;
        case Lost(h) =>
          users := current;
          accepted := VerifyWithCache(name, password, h);
          return;
        case Claimable =>
      }
      current := SetHash(current, name, newHash);
      if disk != null {
        var saved := disk.SaveRegistry(current);
        if !saved {
          return false;
        }
      }
      users := current;
      PublishKeepsCache(crypto, secret, cache, name, password, newHash);
      cache := cache[name := Entry(newHash, crypto.hmac(secret, name, password))];
      accepted := true;
    }

    /** The locks and the load work, and the file shows the account enabled: still `init` and the save works, or
        with a hash the password meets. */
    ghost predicate FirstUseSucceeds(registry: Registry, disk: Disk, name: string, password: string) {
      && !disk.lockFails && !disk.loadFails
      && exists hash ::
           && HasHash(registry, name, hash)
           && if hash != "init" then crypto.verify(hash, password) else disk.saveResult.Saved?
    }

    /** A login: unknown and disabled accounts are refused, a hashed account answers as Argon2 does, and only an
        account that memory still shows as `init` goes through first use. */
    method Verify(name: string, password: string, salt: nat, disk: Disk?) returns (accepted: bool)
      requires Valid()
      modifies `users, `cache, disk
      ensures Valid()
      ensures !StandingOf(old(users), name).Claimable? ==>
        users == old(users) && (disk != null ==> disk.registry == old(disk.registry))
      ensures StandingOf(old(users), name).Gone? ==> !accepted && cache == old(cache)
      ensures StandingOf(old(users), name).Lost? ==>
        accepted == crypto.verify(StandingOf(old(users), name).hash, password)
      ensures StandingOf(old(users), name).Claimable? && accepted ==>
        && users == Authority(disk) && StandingOf(users, name).Lost?
        && crypto.verify(StandingOf(users, name).hash, password)
      ensures accepted <==>
        exists hash ::
          && HasHash(old(users), name, hash)
          && if hash != "init" then crypto.verify(hash, password)
             else password != "" && (disk == null || FirstUseSucceeds(old(disk.registry), disk, name, password))
    {
      StandingIs(users, name);
      if disk != null { StandingIs(disk.registry, name); }
      match StandingOf(users, name) {
        case Gone => return false;
        case Lost(h) =>
          accepted := VerifyWithCache(name, password, h);
        case Claimable =>
          SetHashStanding(Authority(disk), name, crypto.compute(password, salt));
          accepted := ResolveInit(name, password, salt, disk);
      }
    }
  }

  /** After the transition the account stands with its new hash, and nothing else about any account changed. */
  lemma SetHashStanding(users: Registry, name: string, hash: string)
    ensures |SetHash(users, name, hash)| == |users|
    ensures forall i | 0 <= i < |users| ::
      SetHash(users, name, hash)[i] == if Find(users, name) == Some(i) then users[i].(hash := hash) else users[i]
    ensures !StandingOf(users, name).Gone? && hash != INIT ==>
      StandingOf(SetHash(users, name, hash), name) == Lost(hash)
  {
    var after := SetHash(users, name, hash);
    var found := Find(after, name);
    if Find(users, name).Some? && found != Find(users, name) {
      assert after[Find(users, name).value].name == name;
    }
  }
}

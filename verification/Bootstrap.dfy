/** The secret bootstrap of the desktop app: layered lookup, generation of what is missing, and the persisted file. */
module Bootstrap {
  import opened Collections
  import opened EnvFile

  const JWT := "JWT_SECRET"
  const STORAGE := "STORAGE_ENCRYPTION_KEY"
  const VERSION := "STORAGE_ENCRYPTION_KEY_VERSION"
  const API := "API_KEY_SECRET"
  const BOOTSTRAPPED := "OMNIROUTE_BOOTSTRAPPED"

  /** Freshly generated secrets: hex text. */
  datatype Generated = Generated(jwt: string, storage: string, api: string)

  predicate Hex(s: string)
  {
    s != "" && forall c :: c in s ==> '0' <= c <= '9' || 'a' <= c <= 'f'
  }

  predicate AllHex(g: Generated)
  {
    Hex(g.jwt) && Hex(g.storage) && Hex(g.api)
  }

  /** JavaScript's !env.k */
  predicate Blank(env: Env, k: string)
  {
    k !in env || env[k] == ""
  }

  /** What a start arrives at before it writes: refused if the storage key is lost while it is still needed. */
  datatype Boot = Boot(serverEnv: Env, persisted: Env, changed: bool, refused: bool)

  function Ensure(b: Boot, key: string, value: string): Boot
  {
    if Blank(b.serverEnv, key)
    then Boot(b.serverEnv[key := value], b.persisted[key := value], true, b.refused)
    else b
  }

  function EnsureStorage(b: Boot, value: string, credentialsExist: bool): Boot
  {
    if !Blank(b.serverEnv, STORAGE) then b
    else if credentialsExist then b.(refused := true)
    else Ensure(b, STORAGE, value).(
        serverEnv := b.serverEnv[STORAGE := value][VERSION := "v1"],
        persisted := b.persisted[STORAGE := value][VERSION := "v1"])
  }

  /** overrides are the preferred .env file with the process environment on top. */
  function Plan(persisted: Env, overrides: Env, g: Generated, credentialsExist: bool): Boot
  {
    var b := EnsureStorage(Ensure(Boot(persisted + overrides, persisted, false, false), JWT, g.jwt), g.storage,
                           credentialsExist);
    if b.refused then b
    else
      var c := Ensure(b, API, g.api);
      if c.changed then c.(serverEnv := c.serverEnv[BOOTSTRAPPED := "true"]) else c
  }

  const SECRETS := {JWT, STORAGE, API}

  predicate NoBlankOverride(overrides: Env)
  {
    forall k :: k in SECRETS && k in overrides ==> overrides[k] != ""
  }

  lemma KeysDiffer()
    ensures JWT != STORAGE && JWT != VERSION && JWT != API && STORAGE != VERSION && STORAGE != API && VERSION != API
    ensures BOOTSTRAPPED != JWT && BOOTSTRAPPED != STORAGE && BOOTSTRAPPED != API && BOOTSTRAPPED != VERSION
  {
    assert JWT[0] == 'J' && STORAGE[0] == 'S' && VERSION[0] == 'S' && API[0] == 'A' && BOOTSTRAPPED[0] == 'O';
    assert |STORAGE| == 22 && |VERSION| == 30;
  }

  /** Old entries stay, except secrets that were blank in the layered environment. */
  lemma PlanKeeps(persisted: Env, overrides: Env, g: Generated, credentialsExist: bool, k: string)
    requires k in persisted && k != VERSION && (k in SECRETS ==> !Blank(persisted + overrides, k))
    ensures var b := Plan(persisted, overrides, g, credentialsExist);
      k in b.persisted && b.persisted[k] == persisted[k]
  {
    hide JWT, STORAGE, VERSION, API, BOOTSTRAPPED;
    KeysDiffer();
  }

  /** After a start no secret is missing, and overrides have the last word. */
  lemma PlanFills(persisted: Env, overrides: Env, g: Generated, credentialsExist: bool, k: string)
    requires AllHex(g) && !Plan(persisted, overrides, g, credentialsExist).refused && k in SECRETS
    ensures var b := Plan(persisted, overrides, g, credentialsExist);
      !Blank(b.serverEnv, k) &&
      (k in overrides && overrides[k] != "" ==> b.serverEnv[k] == overrides[k]) &&
      (k !in overrides ==> k in b.persisted && b.persisted[k] == b.serverEnv[k])
  {
    hide JWT, STORAGE, VERSION, API, BOOTSTRAPPED, Hex, Ensure, EnsureStorage, Blank, Layered;
    KeysDiffer();
    HexNonempty(g.jwt);
    HexNonempty(g.storage);
    HexNonempty(g.api);
    var a := Boot(persisted + overrides, persisted, false, false);
    var b := Ensure(a, JWT, g.jwt);
    var c := EnsureStorage(b, g.storage, credentialsExist);
    FirstLayers(persisted, overrides, k);
    EnsureLayers(overrides, a, JWT, g.jwt, k);
    StorageLayers(overrides, b, g.storage, credentialsExist, k);
    EnsureLayers(overrides, c, API, g.api, k);
    LayeredMeans(overrides, Ensure(c, API, g.api), k);
  }

  /** Overrides have the last word on k, and what is set without one is persisted. */
  predicate Layered(overrides: Env, b: Boot, k: string)
  {
    (k in overrides && overrides[k] != "" ==> k in b.serverEnv && b.serverEnv[k] == overrides[k]) &&
    (k !in overrides && !Blank(b.serverEnv, k) ==> k in b.persisted && b.persisted[k] == b.serverEnv[k])
  }

  lemma FirstLayers(persisted: Env, overrides: Env, k: string)
    ensures Layered(overrides, Boot(persisted + overrides, persisted, false, false), k)
  {
  }

  lemma EnsureLayers(overrides: Env, b: Boot, key: string, value: string, k: string)
    requires Layered(overrides, b, k) && value != ""
    ensures var c := Ensure(b, key, value);
      Layered(overrides, c, k) && (k == key || !Blank(b.serverEnv, k) ==> !Blank(c.serverEnv, k)) &&
      c.refused == b.refused
  {
  }

  lemma StorageLayers(overrides: Env, b: Boot, value: string, credentialsExist: bool, k: string)
    requires Layered(overrides, b, k) && value != "" && k != VERSION
    ensures var c := EnsureStorage(b, value, credentialsExist);
      Layered(overrides, c, k) && ((k == STORAGE && !c.refused) || !Blank(b.serverEnv, k) ==> !Blank(c.serverEnv, k))
  {
    hide STORAGE, VERSION;
  }

  lemma LayeredMeans(overrides: Env, b: Boot, k: string)
    requires Layered(overrides, b, k) && !Blank(b.serverEnv, k) && k != BOOTSTRAPPED
    ensures forall c :: (c == b || c == b.(serverEnv := b.serverEnv[BOOTSTRAPPED := "true"])) ==>
      !Blank(c.serverEnv, k) &&
      (k in overrides && overrides[k] != "" ==> c.serverEnv[k] == overrides[k]) &&
      (k !in overrides ==> k in c.persisted && c.persisted[k] == c.serverEnv[k])
  {
    hide BOOTSTRAPPED;
  }

  /** No usable value: no entry, or an empty one. */
  predicate Missing(env: Env, k: string)
  {
    k in env ==> |env[k]| == 0
  }

  /** What a start does, entry by entry. */
  ghost predicate Started(before: Env, overrides: Env, g: Generated, credentialsExist: bool, b: Boot)
  {
    var layered := before + overrides;
    var jwt, key := Missing(layered, "JWT_SECRET"), Missing(layered, "STORAGE_ENCRYPTION_KEY");
    var api := Missing(layered, "API_KEY_SECRET");
    (b.refused <==> credentialsExist && key) &&
    (b.refused ==> Missing(b.serverEnv, "STORAGE_ENCRYPTION_KEY") &&
                   Lookup(b.persisted, "STORAGE_ENCRYPTION_KEY") == Lookup(before, "STORAGE_ENCRYPTION_KEY")) &&
    (!b.refused ==>
       (b.changed <==> jwt || key || api) &&
       Lookup(b.serverEnv, "JWT_SECRET") == (if jwt then Some(g.jwt) else Lookup(layered, "JWT_SECRET")) &&
       Lookup(b.serverEnv, "STORAGE_ENCRYPTION_KEY") ==
         (if key then Some(g.storage) else Lookup(layered, "STORAGE_ENCRYPTION_KEY")) &&
       Lookup(b.serverEnv, "STORAGE_ENCRYPTION_KEY_VERSION") ==
         (if key then Some("v1") else Lookup(layered, "STORAGE_ENCRYPTION_KEY_VERSION")) &&
       Lookup(b.serverEnv, "API_KEY_SECRET") == (if api then Some(g.api) else Lookup(layered, "API_KEY_SECRET")) &&
       Lookup(b.serverEnv, "OMNIROUTE_BOOTSTRAPPED") ==
         (if b.changed then Some("true") else Lookup(layered, "OMNIROUTE_BOOTSTRAPPED")) &&
       Lookup(b.persisted, "JWT_SECRET") == (if jwt then Some(g.jwt) else Lookup(before, "JWT_SECRET")) &&
       Lookup(b.persisted, "STORAGE_ENCRYPTION_KEY") ==
         (if key then Some(g.storage) else Lookup(before, "STORAGE_ENCRYPTION_KEY")) &&
       Lookup(b.persisted, "STORAGE_ENCRYPTION_KEY_VERSION") ==
         (if key then Some("v1") else Lookup(before, "STORAGE_ENCRYPTION_KEY_VERSION")) &&
       Lookup(b.persisted, "API_KEY_SECRET") == (if api then Some(g.api) else Lookup(before, "API_KEY_SECRET")) &&
       Lookup(b.persisted, "OMNIROUTE_BOOTSTRAPPED") == Lookup(before, "OMNIROUTE_BOOTSTRAPPED") &&
       forall k :: k !in NAMES ==>
         Lookup(b.serverEnv, k) == Lookup(layered, k) && Lookup(b.persisted, k) == Lookup(before, k))
  }

  const NAMES := {"JWT_SECRET", "STORAGE_ENCRYPTION_KEY", "STORAGE_ENCRYPTION_KEY_VERSION", "API_KEY_SECRET",
                  "OMNIROUTE_BOOTSTRAPPED"}

  function Lookup(env: Env, k: string): Option<string>
  {
    if k in env then Some(env[k]) else None
  }

  lemma PlanStarts(before: Env, overrides: Env, g: Generated, credentialsExist: bool)
    ensures Started(before, overrides, g, credentialsExist, Plan(before, overrides, g, credentialsExist))
  {
    hide Ensure, EnsureStorage;
    KeysDiffer();
    var a := Boot(before + overrides, before, false, false);
    var b := Ensure(a, JWT, g.jwt);
    var c := EnsureStorage(b, g.storage, credentialsExist);
    EnsureEffect(a, JWT, g.jwt);
    StorageEffect(b, g.storage, credentialsExist);
    EnsureEffect(c, API, g.api);
    NamesAre();
    var l := before + overrides;
    assert Lookup(b.serverEnv, STORAGE) == Lookup(l, STORAGE);
    assert Lookup(c.serverEnv, API) == Lookup(b.serverEnv, API) == Lookup(l, API);
  }

  lemma NamesAre()
    ensures NAMES == {JWT, STORAGE, VERSION, API, BOOTSTRAPPED}
    ensures JWT == "JWT_SECRET" && STORAGE == "STORAGE_ENCRYPTION_KEY" && VERSION == "STORAGE_ENCRYPTION_KEY_VERSION"
    ensures API == "API_KEY_SECRET" && BOOTSTRAPPED == "OMNIROUTE_BOOTSTRAPPED"
  {
  }

  lemma EnsureEffect(b: Boot, key: string, value: string)
    ensures var c, missing := Ensure(b, key, value), Missing(b.serverEnv, key);
      c.refused == b.refused && c.changed == (b.changed || missing) &&
      Lookup(c.serverEnv, key) == (if missing then Some(value) else Lookup(b.serverEnv, key)) &&
      Lookup(c.persisted, key) == (if missing then Some(value) else Lookup(b.persisted, key)) &&
      forall k :: k != key ==>
        Lookup(c.serverEnv, k) == Lookup(b.serverEnv, k) && Lookup(c.persisted, k) == Lookup(b.persisted, k)
  {
  }

  lemma StorageEffect(b: Boot, value: string, credentialsExist: bool)
    requires !b.refused
    ensures var c, missing := EnsureStorage(b, value, credentialsExist), Missing(b.serverEnv, STORAGE);
      c.refused == (missing && credentialsExist) && (c.refused ==> c == b.(refused := true)) &&
      (!c.refused ==>
         c.changed == (b.changed || missing) &&
         Lookup(c.serverEnv, STORAGE) == (if missing then Some(value) else Lookup(b.serverEnv, STORAGE)) &&
         Lookup(c.persisted, STORAGE) == (if missing then Some(value) else Lookup(b.persisted, STORAGE)) &&
         Lookup(c.serverEnv, VERSION) == (if missing then Some("v1") else Lookup(b.serverEnv, VERSION)) &&
         Lookup(c.persisted, VERSION) == (if missing then Some("v1") else Lookup(b.persisted, VERSION)) &&
         forall k :: k != STORAGE && k != VERSION ==>
           Lookup(c.serverEnv, k) == Lookup(b.serverEnv, k) && Lookup(c.persisted, k) == Lookup(b.persisted, k))
  {
    KeysDiffer();
    hide STORAGE, VERSION;
  }

  lemma HexNonempty(s: string)
    ensures Hex(s) ==> s != ""
  {
  }

  /** A start whose file holds what an earlier start persisted generates nothing exactly if no secret is blanked out. */
  lemma RestartGeneratesNothingIff(persisted: Env, overrides: Env, g: Generated, credentialsExist: bool,
                                   again: Generated, laterCredentials: bool)
    requires AllHex(g) && AllHex(again) && !Plan(persisted, overrides, g, credentialsExist).refused
    ensures var first := Plan(persisted, overrides, g, credentialsExist);
      var second := Plan(first.persisted, overrides, again, laterCredentials);
      !second.changed && !second.refused <==> NoBlankOverride(overrides)
  {
    hide JWT, STORAGE, VERSION, API, BOOTSTRAPPED, Plan;
    var first := Plan(persisted, overrides, g, credentialsExist);
    forall k | k in SECRETS { PlanFills(persisted, overrides, g, credentialsExist, k); }
    IdleIff(first.persisted, overrides, again, laterCredentials);
    assert forall k :: k in SECRETS ==>
      (Blank(first.persisted + overrides, k) <==> k in overrides && overrides[k] == "");
  }

  lemma IdleIff(persisted: Env, overrides: Env, g: Generated, credentialsExist: bool)
    ensures var b := Plan(persisted, overrides, g, credentialsExist);
      !b.changed && !b.refused <==> forall k :: k in SECRETS ==> !Blank(persisted + overrides, k)
    ensures var b := Plan(persisted, overrides, g, credentialsExist);
      !b.changed && !b.refused ==> b.persisted == persisted && b.serverEnv == persisted + overrides
  {
    hide JWT, STORAGE, VERSION, API, BOOTSTRAPPED;
    KeysDiffer();
  }

  /** And then it finds the same three secrets and leaves every persisted entry as it was. */
  lemma RestartStable(persisted: Env, overrides: Env, g: Generated, credentialsExist: bool,
                      again: Generated, laterCredentials: bool)
    requires AllHex(g) && AllHex(again) && !Plan(persisted, overrides, g, credentialsExist).refused
    requires NoBlankOverride(overrides)
    ensures var first := Plan(persisted, overrides, g, credentialsExist);
      var second := Plan(first.persisted, overrides, again, laterCredentials);
      !second.changed && !second.refused && second.persisted == first.persisted &&
      forall k :: k in SECRETS ==>
        k in second.serverEnv && k in first.serverEnv && second.serverEnv[k] == first.serverEnv[k]
  {
    hide JWT, STORAGE, VERSION, API, BOOTSTRAPPED, Plan;
    var first := Plan(persisted, overrides, g, credentialsExist);
    forall k | k in SECRETS { PlanFills(persisted, overrides, g, credentialsExist, k); }
    RestartGeneratesNothingIff(persisted, overrides, g, credentialsExist, again, laterCredentials);
    IdleIff(first.persisted, overrides, again, laterCredentials);
  }

  /** Everything a start persists can be written and read back, whatever text the file held before. */
  lemma PlanPrintable(persisted: Env, overrides: Env, g: Generated, credentialsExist: bool)
    requires AllHex(g) && AllPrintable(persisted)
    ensures AllPrintable(Plan(persisted, overrides, g, credentialsExist).persisted)
  {
    hide JWT, STORAGE, VERSION, API, BOOTSTRAPPED, Printable, Hex;
    SecretsPrintable(g.jwt);
    SecretsPrintable(g.storage);
    SecretsPrintable(g.api);
  }

  lemma SecretsPrintable(s: string)
    requires Hex(s)
    ensures Printable(JWT, s) && Printable(STORAGE, s) && Printable(API, s) && Printable(VERSION, "v1")
  {
    HexPlain(s);
    NamesPlain();
  }

  lemma HexPlain(s: string)
    requires Hex(s)
    ensures Text.Trimmed(s) && '\n' !in s
  {
    assert s[0] in s && s[|s| - 1] in s;
  }

  predicate PlainName(k: string)
  {
    k != "" && Text.Trimmed(k) && k[0] != '#' && '=' !in k && '\n' !in k
  }

  lemma NamesPlain()
    ensures PlainName(JWT) && PlainName(STORAGE) && PlainName(API) && PlainName(VERSION)
    ensures Text.Trimmed("v1") && '\n' !in "v1"
  {
    hide PlainName;
    JwtPlain();
    StoragePlain();
    ApiPlain();
    VersionPlain();
  }

  lemma JwtPlain()
    ensures PlainName(JWT)
  {
    assert JWT[0] == 'J' && JWT[|JWT| - 1] == 'T';
  }

  lemma StoragePlain()
    ensures PlainName(STORAGE)
  {
    assert STORAGE[0] == 'S' && STORAGE[|STORAGE| - 1] == 'Y';
  }

  lemma ApiPlain()
    ensures PlainName(API)
  {
    assert API[0] == 'A' && API[|API| - 1] == 'T';
  }

  lemma VersionPlain()
    ensures PlainName(VERSION)
  {
    assert VERSION[0] == 'S' && VERSION[|VERSION| - 1] == 'N';
  }

  /** The data directory's server.env, and the starts that use it. */
  class ServerEnvFile {
    var content: Option<string>

    constructor (content: Option<string>)
      ensures this.content == content
    {
      this.content := content;
    }

    function Persisted(): Env
      reads this
    {
      if content.Some? then Parse(content.value) else map[]
    }

    /**
     * One start of the server. written tells whether the file system takes the write; a start that is refused
     * writes nothing, not even secrets it has generated before it noticed.
     */
    method StartServer(preferredFile: Option<string>, process: Env, g: Generated, credentialsExist: bool, written: bool)
      returns (b: Boot)
      requires AllHex(g)
      modifies this
      ensures b == Plan(old(Persisted()), (if preferredFile.Some? then Parse(preferredFile.value) else map[]) + process,
                        g, credentialsExist)
      ensures Started(old(Persisted()), (if preferredFile.Some? then Parse(preferredFile.value) else map[]) + process,
                      g, credentialsExist, b)
      ensures !b.refused && b.changed && written ==> Persisted() == b.persisted
      ensures b.refused || !b.changed || !written ==> content == old(content)
    {
      hide JWT, STORAGE, VERSION, API, BOOTSTRAPPED, Parse, AllPrintable, Started;
      ghost var before := Persisted();
      PlanStarts(before, (if preferredFile.Some? then Parse(preferredFile.value) else map[]) + process, g,
                 credentialsExist);
      var preferredEnv := ParseEnvFile(preferredFile);
      var persisted := ParseEnvFile(content);
      var serverEnv := persisted + preferredEnv + process;
      assert serverEnv == before + (preferredEnv + process);
      var changed := false;
      if Blank(serverEnv, JWT) {
        serverEnv, persisted, changed := serverEnv[JWT := g.jwt], persisted[JWT := g.jwt], true;
      }
      if Blank(serverEnv, STORAGE) {
        if credentialsExist { return Boot(serverEnv, persisted, changed, true); }
        serverEnv, persisted := serverEnv[STORAGE := g.storage], persisted[STORAGE := g.storage];
        serverEnv, persisted := serverEnv[VERSION := "v1"], persisted[VERSION := "v1"];
        changed := true;
      }
      if Blank(serverEnv, API) {
        serverEnv, persisted, changed := serverEnv[API := g.api], persisted[API := g.api], true;
      }
      if changed {
        serverEnv := serverEnv[BOOTSTRAPPED := "true"];
        if written { Write(persisted, before, preferredEnv + process, g, credentialsExist); }
      }
      b := Boot(serverEnv, persisted, changed, false);
    }

    method Write(persisted: Env, ghost before: Env, ghost overrides: Env, ghost g: Generated,
                 ghost credentialsExist: bool)
      requires AllHex(g) && before == Persisted() && persisted == Plan(before, overrides, g, credentialsExist).persisted
      modifies this
      ensures Persisted() == persisted
    {
      hide Plan, Parse, Render, AllPrintable;
      var keys := ListKeys(persisted);
      if content.Some? { ParseIsPrintable(content.value); } else { NothingPrintable(); }
      PlanPrintable(before, overrides, g, credentialsExist);
      RoundTripIff(persisted, keys);
      content := Some(Render(persisted, keys));
    }

    /** Object.keys: each key once, in no order that matters. */
    static method ListKeys(m: Env) returns (keys: seq<string>)
      ensures Elems(keys) == m.Keys
    {
      keys := [];
      var todo := m.Keys;
      while todo != {}
        invariant Elems(keys) + todo == m.Keys
        decreases todo
      {
        var k :| k in todo;
        assert Elems(keys + [k]) == Elems(keys) + {k};
        keys, todo := keys + [k], todo - {k};
      }
    }
  }

  lemma NothingPrintable()
    ensures AllPrintable(map[])
  {
  }

  /** A first start that writes its secrets, then any number of later ones in the same environment. */
  method Restarts(file: ServerEnvFile, preferredFile: Option<string>, process: Env, first: Generated,
                  credentialsExist: bool, later: seq<(Generated, bool)>) returns (boots: seq<Boot>)
    requires AllHex(first) && forall i :: 0 <= i < |later| ==> AllHex(later[i].0)
    requires NoBlankOverride((if preferredFile.Some? then Parse(preferredFile.value) else map[]) + process)
    modifies file
    ensures |boots| == 1 + |later|
    ensures !boots[0].refused ==> forall i :: 0 < i < |boots| ==>
      !boots[i].changed && !boots[i].refused && boots[i].persisted == boots[0].persisted &&
      forall k :: k in SECRETS ==>
        k in boots[i].serverEnv && k in boots[0].serverEnv && boots[i].serverEnv[k] == boots[0].serverEnv[k]
  {
    hide Plan, Parse, SECRETS, NoBlankOverride;
    ghost var before := file.Persisted();
    var b := file.StartServer(preferredFile, process, first, credentialsExist, true);
    boots := [b];
    ghost var overrides := (if preferredFile.Some? then Parse(preferredFile.value) else map[]) + process;
    if !b.refused && !b.changed { IdleKeeps(before, overrides, first, credentialsExist); }
    for i := 0 to |later|
      invariant |boots| == i + 1 && boots[0] == b
      invariant !b.refused ==> file.Persisted() == b.persisted
      invariant !b.refused ==> forall j :: 0 < j < |boots| ==>
        !boots[j].changed && !boots[j].refused && boots[j].persisted == b.persisted &&
        forall k :: k in SECRETS ==>
          k in boots[j].serverEnv && k in b.serverEnv && boots[j].serverEnv[k] == b.serverEnv[k]
    {
      if !b.refused { RestartStable(before, overrides, first, credentialsExist, later[i].0, later[i].1); }
      var next := file.StartServer(preferredFile, process, later[i].0, later[i].1, true);
      boots := boots + [next];
    }
    assert boots[0] == b && |boots| == 1 + |later|;
  }

  lemma IdleKeeps(persisted: Env, overrides: Env, g: Generated, credentialsExist: bool)
    requires var b := Plan(persisted, overrides, g, credentialsExist); !b.changed && !b.refused
    ensures Plan(persisted, overrides, g, credentialsExist).persisted == persisted
  {
    hide Plan;
    IdleIff(persisted, overrides, g, credentialsExist);
  }
}

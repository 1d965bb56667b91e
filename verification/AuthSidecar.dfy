/**
 Loading and saving of the authentication settings in src/config/auth_sidecar.rs,
 with the three fields that environment variables override.
 */
module AuthSidecar {
  import opened Wrappers
  import opened Text

  datatype Factor = Passkey | HardwareKey | Totp | Other(name: string)

  datatype StepUp = StepUp(required: bool, factor: Factor, oidcRequiresPasskey: bool)

  /** `other` stands for the fields that nothing here looks at. */
  datatype AuthConfig = AuthConfig(
    issuer: string, redirectPath: string, clientSecret: string, passwordHash: string, cidrs: seq<string>,
    stepUp: StepUp, lastCounter: Option<nat>, lastUsed: map<string, int>, other: string)

  datatype File = Missing | Corrupt | Valid(config: AuthConfig)

  datatype Error = Unreadable | WriteFailed | BadEnvironment

  const DEFAULT_CIDRS := ["127.0.0.1/32", "::1/128"]

  // ---- The environment ----

  /** The values of the three variables, and how an IP network is written in canonical form. */
  datatype Env = Env(
    secret: Option<string>, hash: Option<string>, cidrs: Option<string>, network: string -> Option<string>)

  predicate IsSet(v: Option<string>) {
    v.Some? && Trim(v.value, RustSpace) != ""
  }

  /** The networks named in the variable, or None when one is invalid. */
  function Networks(parts: seq<string>, network: string -> Option<string>): Option<seq<string>> {
    if parts == [] then Some([])
    else
      var value := Trim(parts[0], RustSpace);
      var rest := Networks(parts[1..], network);
      if value == "" then rest
      else if network(value).None? || rest.None? then None
      else Some([network(value).value] + rest.value)
  }

  function EnvCidrs(env: Env): Option<seq<string>>
    requires IsSet(env.cidrs)
  {
    var parsed := Networks(Split(env.cidrs.value, ','), env.network);
    if parsed == Some([]) then None else parsed
  }

  predicate EnvUsable(env: Env) {
    IsSet(env.cidrs) ==> EnvCidrs(env).Some?
  }

  function ApplyEnv(env: Env, a: AuthConfig): Result<AuthConfig, Error> {
    if !EnvUsable(env) then Err(BadEnvironment)
    else
      Ok(a.(clientSecret := if IsSet(env.secret) then env.secret.value else a.clientSecret,
            passwordHash := if IsSet(env.hash) then env.hash.value else a.passwordHash,
            cidrs := if IsSet(env.cidrs) then EnvCidrs(env).value else a.cidrs))
  }

  // ---- Normalisation ----

  function NormalStepUp(s: StepUp): StepUp {
    var migrated := if s.oidcRequiresPasskey then StepUp(true, Passkey, false) else s;
    if migrated.factor.Other? then migrated.(factor := Passkey) else migrated
  }

  function Normal(a: AuthConfig): AuthConfig {
    a.(issuer := Trim(a.issuer, RustSpace),
       redirectPath := if a.redirectPath == "/auth/callback" then "/api/auth/callback" else a.redirectPath,
       stepUp := NormalStepUp(a.stepUp))
  }

  lemma NormalIsStable(a: AuthConfig)
    ensures Normal(Normal(a)) == Normal(a)
  {
    TrimTwice(a.issuer, RustSpace);
  }

  /** The text is this one between spaces, and neither end of it is a space. */
  ghost predicate TrimmedTo(s: string, t: string) {
    Trimmed(t, RustSpace) && exists a, b :: AllSpace(a, RustSpace) && AllSpace(b, RustSpace) && s == a + t + b
  }

  /**
   What each setting means after normalising: a legacy demand for a passkey with OIDC becomes a required passkey, a
   factor that is not known becomes the passkey, the old callback path the new one, and nothing else changes but the
   spaces around the issuer.
   */
  lemma NormalMeans(a: AuthConfig)
    ensures var b := Normal(a);
            && TrimmedTo(a.issuer, b.issuer)
            && (a.redirectPath == "/auth/callback" ==> b.redirectPath == "/api/auth/callback")
            && (a.redirectPath != "/auth/callback" ==> b.redirectPath == a.redirectPath)
            && !b.stepUp.oidcRequiresPasskey
            && (b.stepUp.required <==> a.stepUp.required || a.stepUp.oidcRequiresPasskey)
            && (b.stepUp.factor == HardwareKey <==> a.stepUp.factor == HardwareKey && !a.stepUp.oidcRequiresPasskey)
            && (b.stepUp.factor == Totp <==> a.stepUp.factor == Totp && !a.stepUp.oidcRequiresPasskey)
            && (b.stepUp.factor == Passkey
                <==> a.stepUp.oidcRequiresPasskey || a.stepUp.factor == Passkey || a.stepUp.factor.Other?)
            && b == a.(issuer := b.issuer, redirectPath := b.redirectPath, stepUp := b.stepUp)
  {
    var x, y := TrimSplits(a.issuer, RustSpace);
  }

  // ---- Saving and loading ----

  function Existing(f: File): Option<AuthConfig> {
    if f.Valid? then Some(f.config) else None
  }

  /** What save_auth writes: an overridden field keeps what the file has for it. */
  function ForPersistence(env: Env, f: File, a: AuthConfig): AuthConfig {
    var existing := Existing(f);
    a.(clientSecret := if !IsSet(env.secret) then a.clientSecret
                       else if existing.Some? then existing.value.clientSecret else "",
       passwordHash := if !IsSet(env.hash) then a.passwordHash
                       else if existing.Some? then existing.value.passwordHash else "",
       cidrs := if !IsSet(env.cidrs) then a.cidrs else if existing.Some? then existing.value.cidrs else DEFAULT_CIDRS)
  }

  function Save(env: Env, f: File, a: AuthConfig, writes: bool): (File, Result<(), Error>) {
    if f.Corrupt? then (f, Err(Unreadable))
    else if !writes then (f, Err(WriteFailed))
    else (Valid(ForPersistence(env, f, a)), Ok(()))
  }

  /** `seeded` is the default configuration merged with the TOML seed. */
  function Load(env: Env, f: File, seeded: AuthConfig, writes: bool): (File, Result<AuthConfig, Error>) {
    if f.Corrupt? then (f, Err(Unreadable))
    else if f.Missing? && !writes then (f, Err(WriteFailed))
    else
      var raw := if f.Valid? then f.config else seeded;
      var present := Valid(raw);
      if Normal(raw) == raw then (present, ApplyEnv(env, raw))
      else
        var (saved, result) := Save(env, present, Normal(raw), writes);
        if result.Err? then (saved, Err(result.error)) else (saved, ApplyEnv(env, Normal(raw)))
  }

  method NormalizeAuthConfig(auth: AuthConfig) returns (out: AuthConfig, changed: bool)
    ensures out == Normal(auth)
    ensures changed <==> out != auth
  {
    out, changed := auth, false;
    var issuer := Trim(out.issuer, RustSpace);
    if issuer != out.issuer {
      out := out.(issuer := issuer);
      changed := true;
    }
    if out.redirectPath == "/auth/callback" {
      out := out.(redirectPath := "/api/auth/callback");
      changed := true;
    }
    var s := out.stepUp;
    if s.oidcRequiresPasskey {
      s := StepUp(true, Passkey, false);
      changed := true;
    }
    if s.factor.Other? {
      s := s.(factor := Passkey);
      changed := true;
    }
    out := out.(stepUp := s);
  }

  class AuthFile {
    var file: File

    constructor (file: File)
      ensures this.file == file
    {
      this.file := file;
    }

    method SaveAuth(env: Env, auth: AuthConfig, writes: bool) returns (result: Result<(), Error>)
      modifies this
      ensures (file, result) == Save(env, old(file), auth, writes)
    {
      if file.Corrupt? {
        return Err(Unreadable);
      }
      var persisted := auth;
      if IsSet(env.secret) {
        persisted := persisted.(clientSecret := if file.Valid? then file.config.clientSecret else "");
      }
      if IsSet(env.hash) {
        persisted := persisted.(passwordHash := if file.Valid? then file.config.passwordHash else "");
      }
      if IsSet(env.cidrs) {
        persisted := persisted.(cidrs := if file.Valid? then file.config.cidrs else DEFAULT_CIDRS);
      }
      result := WriteAuth(persisted, writes);
    }

    method WriteAuth(auth: AuthConfig, writes: bool) returns (result: Result<(), Error>)
      modifies this
      ensures (file, result) == if writes then (Valid(auth), Ok(())) else (old(file), Err(WriteFailed))
    {
      if !writes {
        return Err(WriteFailed);
      }
      file := Valid(auth);
      return Ok(());
    }

    method LoadAuth(env: Env, seeded: AuthConfig, writes: bool) returns (result: Result<AuthConfig, Error>)
      modifies this
      ensures (file, result) == Load(env, old(file), seeded, writes)
    {
      if file.Corrupt? {
        return Err(Unreadable);
      }
      var out := seeded;
      if file.Valid? {
        out := file.config;
      } else {
        var written := WriteAuth(out, writes);
        if written.Err? {
          return Err(written.error);
        }
      }
      var changed;
      out, changed := NormalizeAuthConfig(out);
      if changed {
        var saved := SaveAuth(env, out, writes);
        if saved.Err? {
          return Err(saved.error);
        }
      }
      return ApplyEnv(env, out);
    }
  }

  // ---- What holds of loads and saves ----

  /** An operation in its environment, with the configuration to save or the seed to load with. */
  datatype Op =
    | Loading(env: Env, seeded: AuthConfig, writes: bool)
    | Saving(env: Env, auth: AuthConfig, writes: bool)

  function After(f: File, op: Op): File {
    match op
    case Loading(env, seeded, writes) => Load(env, f, seeded, writes).0
    case Saving(env, auth, writes) => Save(env, f, auth, writes).0
  }

  function AfterAll(f: File, ops: seq<Op>): File {
    if |ops| == 0 then f else After(AfterAll(f, ops[..|ops| - 1]), ops[|ops| - 1])
  }

  /** Is a variable set in the environment of every operation? */
  predicate AlwaysSet(variable: Env -> Option<string>, ops: seq<Op>) {
    forall i | 0 <= i < |ops| :: IsSet(variable(ops[i].env))
  }

  const SECRET := (env: Env) => env.secret
  const HASH := (env: Env) => env.hash
  const CIDRS := (env: Env) => env.cidrs

  lemma OneOpKeeps(a: AuthConfig, op: Op)
    ensures After(Valid(a), op).Valid?
    ensures var b := After(Valid(a), op).config;
            && (IsSet(op.env.secret) ==> b.clientSecret == a.clientSecret)
            && (IsSet(op.env.hash) ==> b.passwordHash == a.passwordHash)
            && (IsSet(op.env.cidrs) ==> b.cidrs == a.cidrs)
  {}

  /**
   No sequence of loads and saves changes a field of an existing file whose variable is set for each of them,
   whatever its values are and whatever happens to the other variables.
   */
  lemma {:induction false} OverriddenFieldsStay(start: AuthConfig, ops: seq<Op>)
    ensures AfterAll(Valid(start), ops).Valid?
    ensures var last := AfterAll(Valid(start), ops).config;
            && (AlwaysSet(SECRET, ops) ==> last.clientSecret == start.clientSecret)
            && (AlwaysSet(HASH, ops) ==> last.passwordHash == start.passwordHash)
            && (AlwaysSet(CIDRS, ops) ==> last.cidrs == start.cidrs)
  {
    if |ops| > 0 {
      var before, op := ops[..|ops| - 1], ops[|ops| - 1];
      OverriddenFieldsStay(start, before);
      OneOpKeeps(AfterAll(Valid(start), before).config, op);
      assert forall i | 0 <= i < |before| :: before[i] == ops[i];
    }
  }

  /** The configuration has the value of every variable that is set. */
  predicate Carries(env: Env, a: AuthConfig) {
    && EnvUsable(env)
    && (IsSet(env.secret) ==> a.clientSecret == env.secret.value)
    && (IsSet(env.hash) ==> a.passwordHash == env.hash.value)
    && (IsSet(env.cidrs) ==> a.cidrs == EnvCidrs(env).value)
  }

  /** Loading what was saved gives it back, and a second load finds nothing to rewrite. */
  lemma LoadAfterSave(env: Env, f: File, a: AuthConfig, seeded: AuthConfig, writes: bool)
    requires !f.Corrupt? && Normal(a) == a && Carries(env, a)
    ensures var (saved, result) := Save(env, f, a, true);
            result.Ok? && Load(env, saved, seeded, writes) == (saved, Ok(a))
  {}

  /**
   A load that succeeds gives a normalised configuration that carries the environment; saving it and loading
   again gives it back.
   */
  lemma LoadIsFixpoint(env: Env, f: File, seeded: AuthConfig, writes: bool)
    requires Load(env, f, seeded, writes).1.Ok?
    ensures var (loaded, result) := Load(env, f, seeded, writes);
            var a := result.value;
            && Normal(a) == a && Carries(env, a)
            && Load(env, Save(env, loaded, a, true).0, seeded, true).1 == Ok(a)
            && Save(env, loaded, a, true).0 == loaded
  {
    var raw := if f.Valid? then f.config else seeded;
    NormalIsStable(raw);
    assert Normal(raw) == raw || Normal(Normal(raw)) == Normal(raw);
  }

  /** A variable counts when it has a character that is no space. */
  lemma SetIff(v: Option<string>)
    ensures IsSet(v) <==> v.Some? && exists c :: c in v.value && !RustSpace(c)
  {
    if v.Some? {
      var a, b := TrimSplits(v.value, RustSpace);
      var t := Trim(v.value, RustSpace);
      if t != "" {
        assert t[0] in v.value && !RustSpace(t[0]);
      }
    }
  }

  /** What the file, or without one the seed, says. */
  function Stored(f: File, seeded: AuthConfig): AuthConfig {
    if f.Valid? then f.config else seeded
  }

  /**
   A load gives each of the three fields as its variable says, exactly when that is set, and everything else as the
   normalised file or seed says.  It fails when the file cannot be read, when it has to be written and cannot be, or
   when the variable for the networks is set and of no use.
   */
  lemma LoadMeans(env: Env, f: File, seeded: AuthConfig, writes: bool)
    ensures var (after, result) := Load(env, f, seeded, writes);
            var base := Normal(Stored(f, seeded));
            var rewrites := !f.Valid? || base != f.config;
            && (result.Ok? <==> !f.Corrupt? && (rewrites ==> writes) && EnvUsable(env))
            && (result.Ok? ==>
                  var a := result.value;
                  && a.clientSecret == (if IsSet(env.secret) then env.secret.value else base.clientSecret)
                  && a.passwordHash == (if IsSet(env.hash) then env.hash.value else base.passwordHash)
                  && (!IsSet(env.cidrs) ==> a.cidrs == base.cidrs)
                  && a == base.(clientSecret := a.clientSecret, passwordHash := a.passwordHash, cidrs := a.cidrs))
  {
    NormalIsStable(Stored(f, seeded));
  }

  /** The networks of two lists together. */
  function Both(x: Option<seq<string>>, y: Option<seq<string>>): Option<seq<string>> {
    if x.None? || y.None? then None else Some(x.value + y.value)
  }

  lemma BothAssociates(x: Option<seq<string>>, y: Option<seq<string>>, z: Option<seq<string>>)
    ensures Both(x, Both(y, z)) == Both(Both(x, y), z)
    ensures Both(Some([]), x) == x
  {
    if x.Some? && y.Some? && z.Some? {
      assert x.value + (y.value + z.value) == x.value + y.value + z.value;
    }
    assert x.Some? ==> [] + x.value == x.value;
  }

  lemma NetworksCons(part: string, rest: seq<string>, parts: seq<string>, network: string -> Option<string>)
    requires parts == [part] + rest
    ensures Networks(parts, network) == Both(Networks([part], network), Networks(rest, network))
  {
    assert parts[1..] == rest && [part][1..] == [];
    assert Networks([], network) == Some([]);
    var more := Networks(rest, network);
    BothAssociates(more, more, more);
    NetworksOfOne(part, network);
  }

  /** The networks of a list are those of its parts, in order, and one invalid part spoils it. */
  lemma {:induction false} NetworksConcat(a: seq<string>, b: seq<string>, network: string -> Option<string>)
    ensures Networks(a + b, network) == Both(Networks(a, network), Networks(b, network))
  {
    var y := Networks(b, network);
    if a == [] {
      assert a + b == b;
      BothAssociates(y, y, y);
    } else {
      var rest := a[1..];
      var first := Networks([a[0]], network);
      NetworksConcat(rest, b, network);
      NetworksCons(a[0], rest, a, network);
      NetworksCons(a[0], rest + b, a + b, network);
      BothAssociates(first, Networks(rest, network), y);
    }
  }

  /** A blank part names no network; another one names the network that its trimmed text is, or spoils the list. */
  lemma NetworksOfOne(part: string, network: string -> Option<string>)
    ensures var text := Trim(part, RustSpace);
            Networks([part], network)
            == if text == "" then Some([]) else if network(text).None? then None else Some([network(text).value])
  {
    assert [part][1..] == [];
    assert Networks([], network) == Some([]);
    var named := network(Trim(part, RustSpace));
    assert named.Some? ==> [named.value] + [] == [named.value];
  }

  /** A set variable for the networks is of use exactly when no part of it is invalid and some part is not blank. */
  lemma CidrsUsableIff(env: Env, a: AuthConfig)
    requires IsSet(env.cidrs)
    ensures var named := Networks(Split(env.cidrs.value, ','), env.network);
            && (ApplyEnv(env, a).Ok? <==> named.Some? && named.value != [])
            && (ApplyEnv(env, a).Ok? ==> ApplyEnv(env, a).value.cidrs == named.value)
  {}

  /**
   A save that succeeds writes every field but those whose variable is set; these keep what the file has, or stay
   empty, and for the networks at their default, when there is no file.  So no value from the environment is written.
   */
  lemma SaveMeans(env: Env, f: File, a: AuthConfig, writes: bool)
    ensures var (after, result) := Save(env, f, a, writes);
            && (result.Ok? <==> writes && !f.Corrupt?)
            && (result.Err? ==> after == f)
            && (result.Ok? ==>
                  after.Valid? && var b := after.config;
                  && b.clientSecret == (if !IsSet(env.secret) then a.clientSecret
                                        else if f.Valid? then f.config.clientSecret else "")
                  && b.passwordHash == (if !IsSet(env.hash) then a.passwordHash
                                        else if f.Valid? then f.config.passwordHash else "")
                  && b.cidrs == (if !IsSet(env.cidrs) then a.cidrs
                                 else if f.Valid? then f.config.cidrs else ["127.0.0.1/32", "::1/128"])
                  && b == a.(clientSecret := b.clientSecret, passwordHash := b.passwordHash, cidrs := b.cidrs))
  {}
}

/**
 The desired-state database: account profiles, their secrets and the instances bound to them, with
 one transaction or one autocommitted statement of the HTTP handlers as one step. `accounts::update`
 validates in one step and commits in another, and any number of such updates may be in flight.
 */
module Store {
  import opened Wrappers

  type Id = nat

  datatype Mode = Free | WarpPlus | ZeroTrust

  datatype Kind = License | ClientId | ClientSecret

  const DEFAULT_PROFILE: Id := 1

  const KINDS: seq<Kind> := [License, ClientId, ClientSecret]

  datatype Profile = Profile(name: string, mode: Mode, org: Option<string>)

  datatype Instance = Instance(name: string, enabled: bool, running: bool, profile: Option<Id>, pending: bool,
      command: nat)

  /** The three tables; secrets are keyed by profile and kind and hold the plaintext they decrypt to. */
  datatype Db = Db(profiles: map<Id, Profile>, secrets: map<(Id, Kind), string>, instances: map<Id, Instance>)

  /** Credential fields of a request: None keeps, "" clears, anything else sets. */
  type Creds = map<Kind, string>

  datatype StoreError = Validation | NotFound | Conflict | AlreadyBound | ForeignKey | UniqueName

  const MIGRATED := Db(map[DEFAULT_PROFILE := Profile("free", Free, None)], map[], map[])

  // ---------- requirements of a mode ----------

  function RequiredKinds(mode: Mode): set<Kind> {
    match mode
    case Free => {}
    case WarpPlus => {License}
    case ZeroTrust => {ClientId, ClientSecret}
  }

  /** `secret_would_present` */
  predicate WouldBePresent(creds: Creds, kind: Kind, current: bool) {
    if kind in creds then creds[kind] != "" else current
  }

  predicate Present(db: Db, id: Id, kind: Kind) {
    (id, kind) in db.secrets
  }

  /** `validate_credentials` against the secrets the profile will have. */
  predicate CredentialsValid(mode: Mode, org: Option<string>, present: Kind -> bool) {
    (mode == ZeroTrust ==> org.Some?) && forall k :: k in RequiredKinds(mode) ==> present(k)
  }

  function Bound(db: Db, id: Id): set<Id> {
    set i | i in db.instances && db.instances[i].profile == Some(id)
  }

  // ---------- the invariant ----------

  predicate ProfileOk(db: Db, id: Id)
    requires id in db.profiles
  {
    var p := db.profiles[id];
    && (p.mode == Free <==> id == DEFAULT_PROFILE)
    && CredentialsValid(p.mode, p.org, k => Present(db, id, k))
  }

  ghost predicate Inv(db: Db) {
    && DEFAULT_PROFILE in db.profiles
    && db.profiles[DEFAULT_PROFILE] == MIGRATED.profiles[DEFAULT_PROFILE]
    && (forall id :: id in db.profiles ==> ProfileOk(db, id))
    && (forall s :: s in db.secrets ==> s.0 in db.profiles && db.secrets[s] != "")
    && (forall i :: i in db.instances && db.instances[i].profile.Some? ==>
        db.instances[i].profile.value in db.profiles)
    && (forall id, i, j ::
          id in db.profiles && db.profiles[id].mode == WarpPlus && i in Bound(db, id) && j in Bound(db, id) ==>
            i == j)
    && (forall i :: i in db.instances ==> db.instances[i].enabled)
    && (forall id, id' ::
          id in db.profiles && id' in db.profiles && db.profiles[id].name == db.profiles[id'].name ==>
            id == id')
  }

  // ---------- credential resolution ----------

  datatype Resolved = FreeAccount | PlusAccount(license: string) | TrustAccount(org: string, clientId: string,
      clientSecret: string)

  function SecretFor(db: Db, id: Id, kind: Kind, global: map<Kind, string>): Option<string> {
    if (id, kind) in db.secrets then Some(db.secrets[(id, kind)])
    else if id == DEFAULT_PROFILE && kind in global then Some(global[kind])
    else None
  }

  /** `SqliteCredentialResolver::resolve` */
  function Resolve(db: Db, profile: Option<Id>, global: map<Kind, string>): Result<Resolved, StoreError> {
    var id := if profile.Some? then profile.value else DEFAULT_PROFILE;
    if id !in db.profiles then Err(NotFound)
    else
      var p := db.profiles[id];
      match p.mode
      case Free => Ok(FreeAccount)
      case WarpPlus =>
        var license := SecretFor(db, id, License, global);
        if license.Some? then Ok(PlusAccount(license.value)) else Err(Validation)
      case ZeroTrust =>
        var clientId, clientSecret := SecretFor(db, id, ClientId, global), SecretFor(db, id, ClientSecret, global);
        if p.org.Some? && clientId.Some? && clientSecret.Some? then
          Ok(TrustAccount(p.org.value, clientId.value, clientSecret.value))
        else Err(Validation)
  }

  /** A secret of the profile itself, or a global one for the default profile alone. */
  predicate Available(db: Db, id: Id, kind: Kind, global: map<Kind, string>) {
    (id, kind) in db.secrets || (id == DEFAULT_PROFILE && kind in global)
  }

  /**
   * In any database, consistent or not, resolution fails exactly for what is missing, and global
   * secrets serve the default profile only.
   */
  lemma ResolvesExactly(db: Db, profile: Option<Id>, global: map<Kind, string>, other: map<Kind, string>)
    ensures var id, r := if profile.Some? then profile.value else DEFAULT_PROFILE, Resolve(db, profile, global);
            && (r == Err(NotFound) <==> id !in db.profiles)
            && (r.Err? ==> r.error in {NotFound, Validation})
            && (id in db.profiles ==>
                  (r.Ok? <==>
                     match db.profiles[id].mode
                     case Free => true
                     case WarpPlus => Available(db, id, License, global)
                     case ZeroTrust =>
                       && db.profiles[id].org.Some?
                       && Available(db, id, ClientId, global) && Available(db, id, ClientSecret, global)))
            && (id != DEFAULT_PROFILE ==> r == Resolve(db, profile, other))
            && (r.Ok? && r.value.PlusAccount? && (id, License) in db.secrets ==>
                  r.value.license == db.secrets[(id, License)])
            && (r.Ok? && r.value.PlusAccount? && (id, License) !in db.secrets ==>
                  License in global && r.value.license == global[License])
  {
  }

  /** In every state the handlers can reach, every instance's credentials resolve, to those of its own profile. */
  lemma ResolveNeverFails(db: Db, i: Id, global: map<Kind, string>)
    requires Inv(db) && i in db.instances
    ensures Resolve(db, db.instances[i].profile, global).Ok?
    ensures db.instances[i].profile == None ==> Resolve(db, db.instances[i].profile, global) == Ok(FreeAccount)
    ensures Resolve(db, db.instances[i].profile, global).value.PlusAccount? ==>
              db.instances[i].profile.Some? && Bound(db, db.instances[i].profile.value) == {i}
  {
    var id := if db.instances[i].profile.Some? then db.instances[i].profile.value else DEFAULT_PROFILE;
    assert ProfileOk(db, id);
    assert License in RequiredKinds(WarpPlus) && ClientId in RequiredKinds(ZeroTrust) &&
        ClientSecret in RequiredKinds(ZeroTrust);
    if db.profiles[id].mode == WarpPlus {
      assert i in Bound(db, id);
      assert forall j :: j in Bound(db, id) ==> j == i;
    }
  }

  /** And to exactly what is stored for that profile: no secret of another profile or kind, and no global one. */
  lemma ResolvedExactly(db: Db, i: Id, global: map<Kind, string>)
    requires Inv(db) && i in db.instances
    ensures var id := if db.instances[i].profile.Some? then db.instances[i].profile.value else DEFAULT_PROFILE;
            id in db.profiles && Resolve(db, db.instances[i].profile, global).Ok?
            && var p, r := db.profiles[id], Resolve(db, db.instances[i].profile, global).value;
            && (p.mode == Free <==> r.FreeAccount?)
            && (p.mode == WarpPlus <==> r.PlusAccount?)
            && (p.mode == ZeroTrust <==> r.TrustAccount?)
            && (r.PlusAccount? ==> (id, License) in db.secrets && r.license == db.secrets[(id, License)])
            && (r.TrustAccount? ==>
                  && p.org == Some(r.org)
                  && (id, ClientId) in db.secrets && r.clientId == db.secrets[(id, ClientId)]
                  && (id, ClientSecret) in db.secrets && r.clientSecret == db.secrets[(id, ClientSecret)])
  {
    var id := if db.instances[i].profile.Some? then db.instances[i].profile.value else DEFAULT_PROFILE;
    assert id in db.profiles;
    SecretsStored(db, id);
    hide Inv;
  }

  lemma SecretsStored(db: Db, id: Id)
    requires Inv(db) && id in db.profiles
    ensures db.profiles[id].mode == WarpPlus ==> Present(db, id, License)
    ensures db.profiles[id].mode == ZeroTrust ==>
              db.profiles[id].org.Some? && Present(db, id, ClientId) && Present(db, id, ClientSecret)
  {
    assert ProfileOk(db, id);
    assert License in RequiredKinds(WarpPlus) && ClientId in RequiredKinds(ZeroTrust) &&
        ClientSecret in RequiredKinds(ZeroTrust);
  }

  // ---------- transactions ----------

  function WithCreds(secrets: map<(Id, Kind), string>, id: Id, creds: Creds): map<(Id, Kind), string> {
    map s | s in secrets.Keys + (set k | k in creds :: (id, k)) &&
            (if s.0 == id && s.1 in creds then creds[s.1] != "" else true) ::
      if s.0 == id && s.1 in creds then creds[s.1] else secrets[s]
  }

  predicate NameTaken(db: Db, name: string, except: Option<Id>) {
    exists id :: id in db.profiles && Some(id) != except && db.profiles[id].name == name
  }

  predicate FreeTaken(db: Db, except: Option<Id>) {
    exists id :: id in db.profiles && Some(id) != except && db.profiles[id].mode == Free
  }

  /** An update that passed validation and waits for its transaction. */
  datatype Pending = Pending(id: Id, name: string, mode: Mode, org: Option<string>, creds: Creds)

  /** What the validation step of `accounts::update` checks, on the state it reads. */
  predicate UpdateValidates(db: Db, p: Pending) {
    && p.id in db.profiles && db.profiles[p.id].mode != Free
    && Bound(db, p.id) == {}
    && CredentialsValid(p.mode, p.org, k => WouldBePresent(p.creds, k, Present(db, p.id, k)))
  }

  /** `update_profile_with_credentials`; a missing profile is only noticed by the secrets' foreign key. */
  function CommitUpdate(db: Db, p: Pending): Result<Db, StoreError> {
    if p.mode == Free && FreeTaken(db, Some(p.id)) then Err(Conflict)
    else if p.id in db.profiles && NameTaken(db, p.name, Some(p.id)) then Err(UniqueName)
    else if p.id !in db.profiles && exists k :: k in p.creds && p.creds[k] != "" then Err(ForeignKey)
    else if p.id !in db.profiles then Ok(db)
    else Ok(db.(profiles := db.profiles[p.id := Profile(p.name, p.mode, p.org)],
        secrets := WithCreds(db.secrets, p.id, p.creds)))
  }

  /** `create_profile_with_credentials` after the handler's checks; `id` is the new rowid. */
  function CreateProfile(db: Db, id: Id, name: string, mode: Mode, org: Option<string>,
      creds: Creds): Result<Db, StoreError> {
    if !CredentialsValid(mode, org, k => WouldBePresent(creds, k, false)) then Err(Validation)
    else if mode == Free && FreeTaken(db, None) then Err(Conflict)
    else if NameTaken(db, name, None) then Err(UniqueName)
    else Ok(db.(profiles := db.profiles[id := Profile(name, mode, org)], secrets := WithCreds(db.secrets, id, creds)))
  }

  /** First statement of `profiles.delete`. */
  function UnbindDisabled(db: Db, id: Id): Db {
    db.(instances := map i | i in db.instances ::
          if db.instances[i].profile == Some(id) && !db.instances[i].enabled then db.instances[i].(profile := None)
          else db.instances[i])
  }

  /** Second statement: foreign keys reject it while bound, and cascade to the secrets. */
  function DeleteRow(db: Db, id: Id): Result<Db, StoreError> {
    if id == DEFAULT_PROFILE || Bound(db, id) != {} then Err(Conflict)
    else Ok(db.(profiles := db.profiles - {id}, secrets := map s | s in db.secrets && s.0 != id :: db.secrets[s]))
  }

  /** `ensure_warp_plus_bindable` and the foreign key, for instance `self` or a new one. */
  predicate Bindable(db: Db, profile: Option<Id>, self: Option<Id>) {
    profile.Some? && profile.value in db.profiles && db.profiles[profile.value].mode == WarpPlus ==>
      forall i :: i in Bound(db, profile.value) ==> Some(i) == self
  }

  /** `create_guarded` */
  function CreateInstance(db: Db, id: Id, name: string, profile: Option<Id>): Result<Db, StoreError> {
    if !Bindable(db, profile, None) then Err(AlreadyBound)
    else if profile.Some? && profile.value !in db.profiles then Err(ForeignKey)
    else Ok(db.(instances := db.instances[id := Instance(name, true, true, profile, false, 0)]))
  }

  /** `rebind_profile_guarded` */
  function Rebind(db: Db, id: Id, profile: Option<Id>): Result<Db, StoreError> {
    if !Bindable(db, profile, Some(id)) then Err(AlreadyBound)
    else if id in db.instances && profile.Some? && profile.value !in db.profiles then Err(ForeignKey)
    else if id !in db.instances then Ok(db)
    else Ok(db.(instances := db.instances[id := db.instances[id].(profile := profile, pending := true)]))
  }

  function SetDesired(db: Db, id: Id, running: bool): Db {
    if id in db.instances then
      db.(instances := db.instances[id := db.instances[id].(enabled := true, running := running)])
    else db
  }

  function RequestRestart(db: Db, id: Id): Db {
    if id in db.instances then
      db.(instances := db.instances[id := db.instances[id].(command := db.instances[id].command + 1)])
    else db
  }

  function DeleteInstance(db: Db, id: Id): Db {
    db.(instances := db.instances - {id})
  }

  // ---------- what each transaction leaves ----------

  /** The secret of a profile after a request: a missing field keeps, an empty one clears, any other sets. */
  function SecretAfter(before: Option<string>, creds: Creds, kind: Kind): Option<string> {
    if kind !in creds then before else if creds[kind] == "" then None else Some(creds[kind])
  }

  function SecretOf(db: Db, id: Id, kind: Kind): Option<string> {
    if (id, kind) in db.secrets then Some(db.secrets[(id, kind)]) else None
  }

  /** Profile `id`, its secrets and nothing else may differ. */
  ghost predicate OnlyProfile(a: Db, b: Db, id: Id) {
    && b.instances == a.instances
    && b.profiles - {id} == a.profiles - {id}
    && forall j, k :: j != id ==> SecretOf(b, j, k) == SecretOf(a, j, k)
  }

  /** A created profile is the one asked for, with the secrets given. */
  lemma CreatedExactly(db: Db, id: Id, name: string, mode: Mode, org: Option<string>, creds: Creds)
    requires Inv(db) && id !in db.profiles
    ensures var r := CreateProfile(db, id, name, mode, org, creds);
            && (r.Ok? <==>
                  && mode != Free && (mode == ZeroTrust ==> org.Some?)
                  && (forall k :: k in RequiredKinds(mode) ==> k in creds && creds[k] != "")
                  && (forall j :: j in db.profiles ==> db.profiles[j].name != name))
            && (r == Err(Conflict) <==> mode == Free)
            && (r.Ok? ==>
                  && OnlyProfile(db, r.value, id) && id in r.value.profiles
                  && r.value.profiles[id].name == name && r.value.profiles[id].mode == mode
                  && r.value.profiles[id].org == org
                  && forall k :: SecretOf(r.value, id, k) == SecretAfter(None, creds, k))
  {
    assert mode == Free ==> FreeTaken(db, None);
    var r := CreateProfile(db, id, name, mode, org, creds);
    if r.Ok? {
      forall s { WithCredsMember(db.secrets, id, creds, s); }
      assert r.value.profiles - {id} == db.profiles - {id};
    }
    hide WithCreds;
  }

  /**
   * A validated update succeeds exactly if it does not ask for the free mode and no other profile has the
   * name. Then name, mode and org are the requested ones, and every secret is kept, cleared or set as asked.
   */
  lemma UpdatedExactly(db: Db, p: Pending)
    requires Inv(db) && p.id in db.profiles && p.id != DEFAULT_PROFILE
    ensures var r := CommitUpdate(db, p);
            && (r.Ok? <==> p.mode != Free && forall j :: j in db.profiles && j != p.id ==>
                db.profiles[j].name != p.name)
            && (r == Err(Conflict) <==> p.mode == Free)
            && (r.Err? ==> r.error in {Conflict, UniqueName})
            && (r.Ok? ==>
                  && OnlyProfile(db, r.value, p.id) && p.id in r.value.profiles
                  && r.value.profiles[p.id].name == p.name && r.value.profiles[p.id].mode == p.mode
                  && r.value.profiles[p.id].org == p.org
                  && forall k :: SecretOf(r.value, p.id, k) == SecretAfter(SecretOf(db, p.id, k), p.creds, k))
  {
    assert db.profiles[DEFAULT_PROFILE].mode == Free && FreeTaken(db, Some(p.id));
    var r := CommitUpdate(db, p);
    if r.Ok? {
      forall s { WithCredsMember(db.secrets, p.id, p.creds, s); }
      assert r.value.profiles - {p.id} == db.profiles - {p.id};
    }
    hide WithCreds;
  }

  /** Instance `id` alone may differ. */
  predicate OnlyInstance(a: Db, b: Db, id: Id) {
    b.profiles == a.profiles && b.secrets == a.secrets && b.instances - {id} == a.instances - {id}
  }

  /** Start and stop write the wish of their own row, a restart its command, a deletion takes the row out. */
  lemma RowStatements(db: Db, id: Id, running: bool)
    ensures OnlyInstance(db, SetDesired(db, id, running), id) && OnlyInstance(db, RequestRestart(db, id), id)
            && OnlyInstance(db, DeleteInstance(db, id), id)
    ensures id !in DeleteInstance(db, id).instances
    ensures id !in db.instances ==> SetDesired(db, id, running) == db == RequestRestart(db, id)
    ensures id in db.instances ==>
              && id in SetDesired(db, id, running).instances && id in RequestRestart(db, id).instances
              && var row, wished, restarted := db.instances[id], SetDesired(db, id, running).instances[id],
                     RequestRestart(db, id).instances[id];
              && wished.enabled && wished.running == running
              && wished.name == row.name && wished.profile == row.profile && wished.pending == row.pending
              && wished.command == row.command
              && restarted.command == row.command + 1
              && restarted.name == row.name && restarted.profile == row.profile && restarted.pending == row.pending
              && restarted.enabled == row.enabled && restarted.running == row.running
  {
    assert (db.instances - {id}) - {id} == db.instances - {id};
    assert SetDesired(db, id, running).instances - {id} == db.instances - {id};
    assert RequestRestart(db, id).instances - {id} == db.instances - {id};
  }

  /** A new instance is enabled, wanted and without a command; a rebind writes the binding and raises the flag. */
  lemma BindingStatements(db: Db, id: Id, name: string, profile: Option<Id>)
    ensures var r := CreateInstance(db, id, name, profile);
            r.Ok? ==>
              && OnlyInstance(db, r.value, id) && id in r.value.instances
              && var row := r.value.instances[id];
              && row.name == name && row.profile == profile && row.enabled && row.running
              && !row.pending && row.command == 0
    ensures var r := Rebind(db, id, profile);
            r.Ok? ==>
              && OnlyInstance(db, r.value, id) && (id in r.value.instances <==> id in db.instances)
              && (id in db.instances ==>
                    var row, before := r.value.instances[id], db.instances[id];
                    && row.profile == profile && row.pending
                    && row.name == before.name && row.enabled == before.enabled && row.running == before.running
                    && row.command == before.command)
  {
    var r, b := CreateInstance(db, id, name, profile), Rebind(db, id, profile);
    assert r.Ok? ==> r.value.instances - {id} == db.instances - {id};
    assert b.Ok? ==> b.value.instances - {id} == db.instances - {id};
  }

  /** The first statement of a deletion unbinds the disabled instances of the profile and changes nothing else. */
  lemma UnboundExactly(db: Db, id: Id, i: Id)
    ensures var db' := UnbindDisabled(db, id);
            && db'.profiles == db.profiles && db'.secrets == db.secrets && db'.instances.Keys == db.instances.Keys
            && (i in db.instances ==>
                  var before, after := db.instances[i], db'.instances[i];
                  if before.profile == Some(id) && !before.enabled
                  then after == before.(profile := after.profile) && after.profile.None?
                  else after == before)
  {
  }

  /** A deleted profile takes its own secrets along and leaves all others. */
  lemma DeletedExactly(db: Db, id: Id)
    ensures var r := DeleteRow(db, id);
            && (r.Ok? <==> id != DEFAULT_PROFILE && Bound(db, id) == {})
            && (r.Ok? ==>
                  OnlyProfile(db, r.value, id) && id !in r.value.profiles && forall k ::
                      SecretOf(r.value, id, k) == None)
  {
    var r := DeleteRow(db, id);
    assert r.Ok? ==> r.value.profiles - {id} == db.profiles - {id};
  }

  // ---------- which transactions keep the invariant ----------

  predicate SameBinding(a: map<Id, Instance>, b: map<Id, Instance>) {
    && b.Keys <= a.Keys
    && forall i :: i in b ==> b[i].profile == a[i].profile && b[i].enabled == a[i].enabled
  }

  lemma InstancesKeep(db: Db, instances: map<Id, Instance>)
    requires Inv(db) && SameBinding(db.instances, instances)
    ensures Inv(db.(instances := instances))
  {
    var db' := db.(instances := instances);
    assert forall id :: Bound(db', id) <= Bound(db, id);
    assert forall id :: id in db'.profiles ==> ProfileOk(db, id) && ProfileOk(db', id);
  }

  lemma RowStatementsKeep(db: Db, id: Id, running: bool)
    requires Inv(db)
    ensures Inv(SetDesired(db, id, running)) && Inv(RequestRestart(db, id)) && Inv(DeleteInstance(db, id))
  {
    InstancesKeep(db, SetDesired(db, id, running).instances);
    InstancesKeep(db, RequestRestart(db, id).instances);
    InstancesKeep(db, DeleteInstance(db, id).instances);
    hide Inv;
  }

  lemma CreateProfileKeeps(db: Db, id: Id, name: string, mode: Mode, org: Option<string>, creds: Creds)
    requires Inv(db) && id !in db.profiles
    ensures CreateProfile(db, id, name, mode, org, creds).Ok? ==>
        Inv(CreateProfile(db, id, name, mode, org, creds).value)
    ensures mode == Free ==> CreateProfile(db, id, name, mode, org, creds).Err?
  {
    assert mode == Free ==> FreeTaken(db, None);
    if CreateProfile(db, id, name, mode, org, creds).Ok? {
      var db' := CreateProfile(db, id, name, mode, org, creds).value;
      forall j | j in db'.profiles ensures ProfileOk(db', j) {
        if j != id {
          assert ProfileOk(db, j);
          forall k | Present(db, j, k) ensures Present(db', j, k) {}
        } else {
          forall k | WouldBePresent(creds, k, false) ensures Present(db', id, k) {}
        }
      }
      assert forall j :: Bound(db', j) == Bound(db, j);
      assert Bound(db, id) == {};
    }
  }

  lemma DeleteRowKeeps(db: Db, id: Id)
    requires Inv(db)
    ensures DeleteRow(db, id).Ok? ==> Inv(DeleteRow(db, id).value)
    ensures UnbindDisabled(db, id) == db
  {
    assert UnbindDisabled(db, id).instances == db.instances;
    if DeleteRow(db, id).Ok? {
      var db' := DeleteRow(db, id).value;
      assert forall j :: Bound(db', j) == Bound(db, j);
      forall j | j in db'.profiles ensures ProfileOk(db', j) {
        assert ProfileOk(db, j);
        forall k | Present(db, j, k) ensures Present(db', j, k) {}
      }
      forall i | i in db'.instances && db'.instances[i].profile.Some?
        ensures db'.instances[i].profile.value in db'.profiles
      {
        assert i in Bound(db, db.instances[i].profile.value);
      }
    }
  }

  lemma CreateInstanceKeeps(db: Db, id: Id, name: string, profile: Option<Id>)
    requires Inv(db) && id !in db.instances
    ensures CreateInstance(db, id, name, profile).Ok? ==> Inv(CreateInstance(db, id, name, profile).value)
  {
    if CreateInstance(db, id, name, profile).Ok? {
      var db' := CreateInstance(db, id, name, profile).value;
      BindKeeps(db, db', id, profile);
    }
  }

  lemma RebindKeeps(db: Db, id: Id, profile: Option<Id>)
    requires Inv(db)
    ensures Rebind(db, id, profile).Ok? ==> Inv(Rebind(db, id, profile).value)
  {
    if Rebind(db, id, profile).Ok? && id in db.instances {
      BindKeeps(db, Rebind(db, id, profile).value, id, profile);
    }
  }

  lemma BindKeeps(db: Db, db': Db, id: Id, profile: Option<Id>)
    requires Inv(db) && db' == db.(instances := db'.instances) && id in db'.instances
    requires db'.instances == db.instances[id := db'.instances[id]]
    requires db'.instances[id].profile == profile && db'.instances[id].enabled
    requires Bindable(db, profile, Some(id)) && (profile.Some? ==> profile.value in db.profiles)
    ensures Inv(db')
  {
    forall p, i, j | p in db'.profiles && db'.profiles[p].mode == WarpPlus && i in Bound(db', p) && j in Bound(db', p)
      ensures i == j
    {
      assert i != id ==> i in Bound(db, p);
      assert j != id ==> j in Bound(db, p);
    }
    forall p | p in db'.profiles ensures ProfileOk(db', p) { assert ProfileOk(db, p); }
  }

  /**
   * What the transaction would have to find again: the credentials of the new mode and, for WARP+, at
   * most one binding.
   */
  predicate StillValid(db: Db, p: Pending) {
    && CredentialsValid(p.mode, p.org, k => WouldBePresent(p.creds, k, Present(db, p.id, k)))
    && (p.mode == WarpPlus ==> forall i, j :: i in Bound(db, p.id) && j in Bound(db, p.id) ==> i == j)
  }

  /** A committed update keeps the database consistent exactly when its validation would still pass. */
  lemma CommitExact(db: Db, p: Pending)
    requires Inv(db) && p.id != DEFAULT_PROFILE && CommitUpdate(db, p).Ok?
    ensures Inv(CommitUpdate(db, p).value) <==> p.id !in db.profiles || StillValid(db, p)
  {
    if p.id in db.profiles {
      var db' := CommitUpdate(db, p).value;
      assert db.profiles[DEFAULT_PROFILE].mode == Free && FreeTaken(db, Some(p.id));
      if StillValid(db, p) {
        CommitKeeps(db, p);
      }
      if Inv(db') {
        CommitNeeds(db, p);
      }
    }
  }

  lemma CommitNeeds(db: Db, p: Pending)
    requires CommitUpdate(db, p).Ok? && p.id in db.profiles && Inv(CommitUpdate(db, p).value)
    ensures StillValid(db, p)
  {
    var db' := CommitUpdate(db, p).value;
    assert ProfileOk(db', p.id);
    assert Bound(db', p.id) == Bound(db, p.id);
    forall k ensures Present(db', p.id, k) <==> WouldBePresent(p.creds, k, Present(db, p.id, k)) {}
  }

  lemma CommitKeeps(db: Db, p: Pending)
    requires Inv(db) && p.id != DEFAULT_PROFILE && CommitUpdate(db, p).Ok? && p.id in db.profiles
    requires StillValid(db, p) && p.mode != Free
    ensures Inv(CommitUpdate(db, p).value)
  {
    var db' := CommitUpdate(db, p).value;
    assert forall j :: Bound(db', j) == Bound(db, j);
    forall j | j in db'.profiles ensures ProfileOk(db', j) { CommitProfileOk(db, p, j); }
    CommitKeepsRows(db, p);
    hide ProfileOk, CommitUpdate, StillValid;
  }

  lemma CommitKeepsRows(db: Db, p: Pending)
    requires Inv(db) && p.id != DEFAULT_PROFILE && CommitUpdate(db, p).Ok? && p.id in db.profiles && p.mode != Free
    ensures var db' := CommitUpdate(db, p).value;
            && db'.instances == db.instances
            && (forall s :: s in db'.secrets ==> db'.secrets[s] != "")
            && (forall id, id' ::
                  id in db'.profiles && id' in db'.profiles && db'.profiles[id].name == db'.profiles[id'].name ==>
                    id == id')
  {
    hide ProfileOk;
    assert !NameTaken(db, p.name, Some(p.id));
  }

  lemma CommitProfileOk(db: Db, p: Pending, j: Id)
    requires Inv(db) && p.id != DEFAULT_PROFILE && CommitUpdate(db, p).Ok? && p.id in db.profiles
    requires StillValid(db, p) && p.mode != Free && j in db.profiles
    ensures ProfileOk(CommitUpdate(db, p).value, j)
  {
    var db' := CommitUpdate(db, p).value;
    assert ProfileOk(db, j);
    if j != p.id {
      forall k ensures Present(db', j, k) <==> Present(db, j, k) {}
    } else {
      forall k ensures Present(db', j, k) <==> WouldBePresent(p.creds, k, Present(db, j, k)) {}
    }
  }

  lemma FreeIsTaken(db: Db, p: Pending)
    requires Inv(db) && p.id in db.profiles && db.profiles[p.id].mode != Free
    ensures FreeTaken(db, Some(p.id))
  {
    assert db.profiles[DEFAULT_PROFILE].mode == Free;
  }

  /** Validated and committed in one breath, an update always keeps the invariant. */
  lemma AtomicUpdateKeeps(db: Db, p: Pending)
    requires Inv(db) && UpdateValidates(db, p) && CommitUpdate(db, p).Ok?
    ensures Inv(CommitUpdate(db, p).value)
  {
    assert ProfileOk(db, p.id);
    CommitExact(db, p);
  }

  // ---------- whole runs ----------

  datatype Action =
    | CreateProfileTx(id: Id, name: string, mode: Mode, org: Option<string>, creds: Creds)
    | ValidateUpdate(p: Pending)
    | CommitTx(p: Pending)
    | UnbindStatement(id: Id)
    | DeleteStatement(id: Id)
    | CreateInstanceTx(id: Id, name: string, profile: Option<Id>)
    | RebindTx(id: Id, profile: Option<Id>)
    | SetDesiredTx(id: Id, running: bool)
    | RestartTx(id: Id)
    | DeleteInstanceTx(id: Id)

  /** The database and the updates validated so far, in any number and at any distance from their commits. */
  datatype Sys = Sys(db: Db, validated: set<Pending>)

  function OrSame(r: Result<Db, StoreError>, db: Db): Db {
    if r.Ok? then r.value else db
  }

  predicate Enabled(s: Sys, a: Action) {
    match a
    case CreateProfileTx(id, _, _, _, _) => id !in s.db.profiles
    case CommitTx(p) => p in s.validated
    case CreateInstanceTx(id, _, _) => id !in s.db.instances
    case _ => true
  }

  function Apply(s: Sys, a: Action): Sys {
    match a
    case CreateProfileTx(id, name, mode, org,
        creds) => s.(db := OrSame(CreateProfile(s.db, id, name, mode, org, creds), s.db))
    case ValidateUpdate(p) => if UpdateValidates(s.db, p) then s.(validated := s.validated + {p}) else s
    case CommitTx(p) => s.(db := OrSame(CommitUpdate(s.db, p), s.db))
    case UnbindStatement(id) => s.(db := UnbindDisabled(s.db, id))
    case DeleteStatement(id) => s.(db := OrSame(DeleteRow(s.db, id), s.db))
    case CreateInstanceTx(id, name, profile) => s.(db := OrSame(CreateInstance(s.db, id, name, profile), s.db))
    case RebindTx(id, profile) => s.(db := OrSame(Rebind(s.db, id, profile), s.db))
    case SetDesiredTx(id, running) => s.(db := SetDesired(s.db, id, running))
    case RestartTx(id) => s.(db := RequestRestart(s.db, id))
    case DeleteInstanceTx(id) => s.(db := DeleteInstance(s.db, id))
  }

  ghost predicate SysInv(s: Sys) {
    Inv(s.db) && forall p :: p in s.validated ==> p.id != DEFAULT_PROFILE
  }

  predicate CommitTimely(s: Sys, a: Action) {
    a.CommitTx? && CommitUpdate(s.db, a.p).Ok? ==> a.p.id !in s.db.profiles || StillValid(s.db, a.p)
  }

  /** Of all transactions, only the commit of a stale update can break consistency, and then it does. */
  lemma StepExact(s: Sys, a: Action)
    requires SysInv(s) && Enabled(s, a)
    ensures SysInv(Apply(s, a)) <==> CommitTimely(s, a)
  {
    match a {
      case CreateProfileTx(id, name, mode, org, creds) => CreateProfileKeeps(s.db, id, name, mode, org, creds);
      case ValidateUpdate(p) =>
        if UpdateValidates(s.db, p) { assert ProfileOk(s.db, p.id); }
      case CommitTx(p) => if CommitUpdate(s.db, p).Ok? { CommitExact(s.db, p); }
      case UnbindStatement(id) => DeleteRowKeeps(s.db, id);
      case DeleteStatement(id) => DeleteRowKeeps(s.db, id);
      case CreateInstanceTx(id, name, profile) => CreateInstanceKeeps(s.db, id, name, profile);
      case RebindTx(id, profile) => RebindKeeps(s.db, id, profile);
      case SetDesiredTx(id, running) => RowStatementsKeep(s.db, id, running);
      case RestartTx(id) => RowStatementsKeep(s.db, id, false);
      case DeleteInstanceTx(id) => RowStatementsKeep(s.db, id, false);
    }
  }

  function Run(actions: seq<Action>): Sys {
    if actions == [] then Sys(MIGRATED, {}) else Apply(Run(actions[..|actions| - 1]), actions[|actions| - 1])
  }

  ghost predicate Permitted(actions: seq<Action>) {
    forall i :: 0 <= i < |actions| ==>
        Enabled(Run(actions[..i]), actions[i]) && CommitTimely(Run(actions[..i]), actions[i])
  }

  /** From the migrated database, every interleaving whose commits are timely stays consistent. */
  lemma {:induction false} RunsStayConsistent(actions: seq<Action>)
    requires Permitted(actions)
    ensures SysInv(Run(actions))
  {
    if actions != [] {
      var init := actions[..|actions| - 1];
      forall i | 0 <= i < |init| ensures Enabled(Run(init[..i]), init[i]) && CommitTimely(Run(init[..i]), init[i]) {
        assert init[..i] == actions[..i];
      }
      RunsStayConsistent(init);
      StepExact(Run(init), actions[|actions| - 1]);
    } else {
      assert ProfileOk(MIGRATED, DEFAULT_PROFILE);
    }
  }

  // ---------- where credentials come from ----------

  /** Of all actions, only a committed update and the deletion touch a profile that exists. */
  predicate Touches(a: Action, id: Id) {
    (a.CommitTx? && a.p.id == id) || (a.DeleteStatement? && a.id == id)
  }

  /** Profile `id` and its secrets are the same. */
  ghost predicate SameProfile(a: Db, b: Db, id: Id) {
    && id in a.profiles && id in b.profiles && a.profiles[id] == b.profiles[id]
    && forall k :: SecretOf(b, id, k) == SecretOf(a, id, k)
  }

  lemma OthersLeaveProfile(s: Sys, a: Action, id: Id)
    requires SysInv(s) && Enabled(s, a) && id in s.db.profiles && !Touches(a, id)
    ensures SameProfile(s.db, Apply(s, a).db, id)
  {
    match a {
      case CreateProfileTx(j, name, mode, org, creds) =>
        CreatedExactly(s.db, j, name, mode, org, creds);
        OnlyProfileKeeps(s.db, Apply(s, a).db, j, id);
      case CommitTx(p) =>
        if p.id in s.db.profiles {
          UpdatedExactly(s.db, p);
        }
        OnlyProfileKeeps(s.db, Apply(s, a).db, p.id, id);
      case DeleteStatement(j) =>
        DeletedExactly(s.db, j);
        OnlyProfileKeeps(s.db, Apply(s, a).db, j, id);
      case CreateInstanceTx(j, name, profile) => BindingStatements(s.db, j, name, profile);
      case RebindTx(j, profile) => BindingStatements(s.db, j, "", profile);
      case SetDesiredTx(j, running) => RowStatements(s.db, j, running);
      case RestartTx(j) => RowStatements(s.db, j, false);
      case DeleteInstanceTx(j) => RowStatements(s.db, j, false);
      case _ =>
    }
  }

  lemma OnlyProfileKeeps(a: Db, b: Db, j: Id, id: Id)
    requires j != id && id in a.profiles
    ensures a == b || OnlyProfile(a, b, j) ==> SameProfile(a, b, id)
  {
    if OnlyProfile(a, b, j) {
      assert id in a.profiles - {j} && id in b.profiles - {j};
      assert (a.profiles - {j})[id] == a.profiles[id] && (b.profiles - {j})[id] == b.profiles[id];
    }
  }

  /** So a profile and its secrets stay as they are over any run that has no such action on it. */
  lemma {:induction false} ProfileStays(actions: seq<Action>, n: nat, id: Id)
    requires Permitted(actions) && n <= |actions| && id in Run(actions[..n]).db.profiles
    requires forall k :: n <= k < |actions| ==> !Touches(actions[k], id)
    ensures SameProfile(Run(actions[..n]).db, Run(actions).db, id)
  {
    var m := |actions| - 1;
    if n == |actions| {
      assert actions[..n] == actions;
    } else {
      var init := actions[..m];
      PrefixPermitted(actions, m);
      assert init[..n] == actions[..n];
      ProfileStays(init, n, id);
      RunsStayConsistent(init);
      OthersLeaveProfile(Run(init), actions[m], id);
    }
  }

  lemma PrefixPermitted(actions: seq<Action>, n: nat)
    requires Permitted(actions) && n <= |actions|
    ensures Permitted(actions[..n])
  {
    var init := actions[..n];
    forall i | 0 <= i < n ensures Enabled(Run(init[..i]), init[i]) && CommitTimely(Run(init[..i]), init[i]) {
      assert init[..i] == actions[..i];
    }
  }

  /** What a profile of this mode and org resolves to with these secrets. */
  predicate Gives(r: Resolved, mode: Mode, org: Option<string>, license: Option<string>, clientId: Option<string>,
      clientSecret: Option<string>)
  {
    match mode
    case Free => r.FreeAccount?
    case WarpPlus => r.PlusAccount? && license == Some(r.license)
    case ZeroTrust =>
      r.TrustAccount? && org == Some(r.org) && clientId == Some(r.clientId) && clientSecret == Some(r.clientSecret)
  }

  /**
   * In every run: an instance bound to a profile resolves to what the profile was created with, as long as no
   * update of the profile has been committed since.
   */
  lemma {:induction false} CreatedResolves(actions: seq<Action>, n: nat, i: Id, global: map<Kind, string>)
    requires Permitted(actions) && n < |actions| && actions[n].CreateProfileTx?
    requires var a := actions[n];
             CreateProfile(Run(actions[..n]).db, a.id, a.name, a.mode, a.org, a.creds).Ok?
    requires forall k :: n < k < |actions| ==> !Touches(actions[k], actions[n].id)
    requires i in Run(actions).db.instances && Run(actions).db.instances[i].profile == Some(actions[n].id)
    ensures var a, r := actions[n], Resolve(Run(actions).db, Some(actions[n].id), global);
            r.Ok? && Gives(r.value, a.mode, a.org, SecretAfter(None, a.creds, License),
              SecretAfter(None, a.creds, ClientId), SecretAfter(None, a.creds, ClientSecret))
  {
    var a, before := actions[n], Run(actions[..n]);
    CreatedInRun(actions, n);
    assert Run(actions[..n + 1]).db == CreateProfile(before.db, a.id, a.name, a.mode, a.org, a.creds).value;
    hide *;
    StoredResolves(actions, n + 1, a.id, i, global);
  }

  lemma {:induction false} CreatedInRun(actions: seq<Action>, n: nat)
    requires Permitted(actions) && n < |actions| && actions[n].CreateProfileTx?
    ensures Run(actions[..n + 1]) == Apply(Run(actions[..n]), actions[n])
    ensures var a, db := actions[n], Run(actions[..n]).db;
            var r := CreateProfile(db, a.id, a.name, a.mode, a.org, a.creds);
            r.Ok? ==>
              && a.id in r.value.profiles && r.value.profiles[a.id].mode == a.mode &&
                  r.value.profiles[a.id].org == a.org
              && forall k :: SecretOf(r.value, a.id, k) == SecretAfter(None, a.creds, k)
  {
    var a, before := actions[n], Run(actions[..n]);
    assert actions[..n + 1][..n] == actions[..n];
    PrefixPermitted(actions, n);
    RunsStayConsistent(actions[..n]);
    assert Inv(before.db) && Enabled(before, a);
    hide Inv, SysInv, Permitted, CreateProfile, SecretOf, SecretAfter, OnlyProfile;
    CreatedExactly(before.db, a.id, a.name, a.mode, a.org, a.creds);
  }

  /** And to what the last committed update has made of it. */
  lemma {:induction false} UpdatedResolves(actions: seq<Action>, n: nat, i: Id, global: map<Kind, string>)
    requires Permitted(actions) && n < |actions| && actions[n].CommitTx?
    requires actions[n].p.id in Run(actions[..n]).db.profiles && CommitUpdate(Run(actions[..n]).db, actions[n].p).Ok?
    requires forall k :: n < k < |actions| ==> !Touches(actions[k], actions[n].p.id)
    requires i in Run(actions).db.instances && Run(actions).db.instances[i].profile == Some(actions[n].p.id)
    ensures var p, db, r := actions[n].p, Run(actions[..n]).db,
        Resolve(Run(actions).db, Some(actions[n].p.id), global);
            r.Ok? && Gives(r.value, p.mode, p.org, SecretAfter(SecretOf(db, p.id, License), p.creds, License),
              SecretAfter(SecretOf(db, p.id, ClientId), p.creds, ClientId),
              SecretAfter(SecretOf(db, p.id, ClientSecret), p.creds, ClientSecret))
  {
    var p, before := actions[n].p, Run(actions[..n]);
    UpdatedInRun(actions, n);
    assert Run(actions[..n + 1]).db == CommitUpdate(before.db, p).value;
    hide *;
    StoredResolves(actions, n + 1, p.id, i, global);
  }

  lemma {:induction false} UpdatedInRun(actions: seq<Action>, n: nat)
    requires Permitted(actions) && n < |actions| && actions[n].CommitTx?
    requires actions[n].p.id in Run(actions[..n]).db.profiles
    ensures Run(actions[..n + 1]) == Apply(Run(actions[..n]), actions[n])
    ensures var p, db := actions[n].p, Run(actions[..n]).db;
            var r := CommitUpdate(db, p);
            r.Ok? ==>
              && p.id in r.value.profiles && r.value.profiles[p.id].mode == p.mode &&
                  r.value.profiles[p.id].org == p.org
              && forall k :: SecretOf(r.value, p.id, k) == SecretAfter(SecretOf(db, p.id, k), p.creds, k)
  {
    var p, before := actions[n].p, Run(actions[..n]);
    assert actions[..n + 1][..n] == actions[..n];
    PrefixPermitted(actions, n);
    RunsStayConsistent(actions[..n]);
    assert Inv(before.db) && Enabled(before, actions[n]) && p.id != DEFAULT_PROFILE;
    hide Inv, SysInv, Permitted, CommitUpdate, SecretOf, SecretAfter, OnlyProfile;
    UpdatedExactly(before.db, p);
  }

  lemma {:induction false} StoredResolves(actions: seq<Action>, n: nat, id: Id, i: Id, global: map<Kind, string>)
    requires Permitted(actions) && n <= |actions| && id in Run(actions[..n]).db.profiles
    requires forall k :: n <= k < |actions| ==> !Touches(actions[k], id)
    requires i in Run(actions).db.instances && Run(actions).db.instances[i].profile == Some(id)
    ensures var db, r := Run(actions[..n]).db, Resolve(Run(actions).db, Some(id), global);
            r.Ok? && Gives(r.value, db.profiles[id].mode, db.profiles[id].org, SecretOf(db, id, License),
              SecretOf(db, id, ClientId), SecretOf(db, id, ClientSecret))
  {
    ProfileStays(actions, n, id);
    RunsStayConsistent(actions);
    ResolvedExactly(Run(actions).db, i, global);
  }

  // ---------- a race that breaks consistency ----------

  const TRUST := Profile("team", ZeroTrust, Some("org"))

  const TO_PLUS := Pending(2, "team", WarpPlus, None, map[License := "key"])

  /** Two instances bind to an unbound Zero Trust profile while its change to WARP+ sits between check and commit. */
  const RACE: seq<Action> := [
    CreateProfileTx(2, "team", ZeroTrust, Some("org"), map[ClientId := "a", ClientSecret := "b"]),
    ValidateUpdate(TO_PLUS),
    CreateInstanceTx(1, "first", Some(2)),
    CreateInstanceTx(2, "second", Some(2)),
    CommitTx(TO_PLUS)]

  const CHECKED := Sys(
    Db(MIGRATED.profiles[2 := TRUST], map[(2, ClientId) := "a", (2, ClientSecret) := "b"], map[]), {TO_PLUS})

  const BOUND_TWICE := CHECKED.(db := CHECKED.db.(instances := map[
    1 := Instance("first", true, true, Some(2), false, 0),
    2 := Instance("second", true, true, Some(2), false, 0)]))

  lemma RunMore(actions: seq<Action>, a: Action)
    ensures Run(actions + [a]) == Apply(Run(actions), a)
  {
    assert (actions + [a])[..|actions|] == actions;
  }

  const CREATED := Sys(CHECKED.db, {})

  lemma RaceCreates()
    ensures Run(RACE[..1]) == CREATED
  {
    RunMore([], RACE[0]);
    assert [] + [RACE[0]] == RACE[..1];
    var creds: Creds := map[ClientId := "a", ClientSecret := "b"];
    forall s ensures s in WithCreds(map[], 2, creds) <==> s in {(2, ClientId), (2, ClientSecret)} {
      WithCredsMember(map[], 2, creds, s);
    }
    assert WithCreds(map[], 2, creds) == CHECKED.db.secrets;
    NamesDiffer();
    assert !NameTaken(MIGRATED, "team", None);
  }

  lemma RaceChecks()
    ensures Run(RACE[..2]) == CHECKED
  {
    RaceCreates();
    RunMore(RACE[..1], RACE[1]);
    assert RACE[..1] + [RACE[1]] == RACE[..2];
    assert Bound(CREATED.db, 2) == {};
  }

  lemma NamesDiffer()
    ensures "free" != "team"
  {
    assert "free"[0] != "team"[0];
  }

  lemma RaceBinds()
    ensures Run(RACE[..4]) == BOUND_TWICE
  {
    RaceChecks();
    RunMore(RACE[..2], RACE[2]);
    RunMore(RACE[..3], RACE[3]);
    assert RACE[..2] + [RACE[2]] == RACE[..3] && RACE[..3] + [RACE[3]] == RACE[..4];
    assert Run(RACE[..3]).db.instances == map[1 := Instance("first", true, true, Some(2), false, 0)];
  }

  /** Every step before the commit keeps consistency; the commit leaves one WARP+ license with two instances. */
  lemma RaceBindsTwice()
    ensures TO_PLUS in Run(RACE[..4]).validated && SysInv(Run(RACE[..4]))
    ensures var db := Run(RACE).db;
            2 in db.profiles && db.profiles[2].mode == WarpPlus && Bound(db, 2) == {1, 2}
    ensures !SysInv(Run(RACE))
  {
    RaceBinds();
    RaceIsPermitted(BOUND_TWICE);
    RunMore(RACE[..4], RACE[4]);
    assert RACE[..4] + [RACE[4]] == RACE;
    assert Bound(BOUND_TWICE.db, 2) == {1, 2} && 1 in Bound(BOUND_TWICE.db, 2) && 2 in Bound(BOUND_TWICE.db, 2);
    StepExact(BOUND_TWICE, CommitTx(TO_PLUS));
    assert Bound(Run(RACE).db, 2) == {1, 2};
  }

  lemma RaceIsPermitted(s: Sys)
    requires s.db.profiles == MIGRATED.profiles[2 := TRUST] && s.validated == {TO_PLUS}
    requires s.db.secrets == map[(2, ClientId) := "a", (2, ClientSecret) := "b"]
    requires s.db.instances == map[1 := Instance("first", true, true, Some(2), false, 0),
                                   2 := Instance("second", true, true, Some(2), false, 0)]
    ensures SysInv(s) && CommitUpdate(s.db, TO_PLUS).Ok?
  {
    NamesDiffer();
    assert !NameTaken(s.db, "team", Some(2));
    assert forall id :: id in s.db.profiles ==> ProfileOk(s.db, id);
  }

  // ---------- the statements as the program runs them ----------

  class Database {
    var profiles: map<Id, Profile>
    var secrets: map<(Id, Kind), string>
    var instances: map<Id, Instance>

    function Contents(): Db
      reads this
    {
      Db(profiles, secrets, instances)
    }

    constructor ()
      ensures Contents() == MIGRATED && Inv(Contents())
    {
      profiles, secrets, instances := MIGRATED.profiles, map[], map[];
      new;
      assert ProfileOk(MIGRATED, DEFAULT_PROFILE);
    }

    /** The credential loop shared by both profile transactions: a missing field keeps, "" clears, a value sets. */
    method WriteCredentials(id: Id, creds: Creds)
      modifies this`secrets
      ensures secrets == WithCreds(old(secrets), id, creds)
    {
      NothingWritten(secrets, id, creds);
      hide WithCreds, Restrict;
      var i := 0;
      assert KINDS[..0] == [];
      while i < |KINDS|
        invariant 0 <= i <= |KINDS|
        invariant secrets == WithCreds(old(secrets), id, Restrict(creds, KINDS[..i]))
      {
        var kind := KINDS[i];
        assert KINDS[..i + 1] == KINDS[..i] + [kind];
        ghost var before := secrets;
        if kind in creds {
          if creds[kind] == "" {
            secrets := secrets - {(id, kind)};
          } else {
            secrets := secrets[(id, kind) := creds[kind]];
          }
        }
        OneMoreKind(old(secrets), id, creds, KINDS[..i], kind);
        i := i + 1;
      }
      AllKinds(creds);
    }

    /** `create_profile_with_credentials` behind its handler's checks. */
    method InsertProfile(id: Id, name: string, mode: Mode, org: Option<string>, creds: Creds)
      returns (r: Result<(), StoreError>)
      requires Inv(Contents()) && id !in profiles
      modifies this
      ensures Inv(Contents())
      ensures r.Ok? <==> CreateProfile(old(Contents()), id, name, mode, org, creds).Ok?
      ensures Contents() == OrSame(CreateProfile(old(Contents()), id, name, mode, org, creds), old(Contents()))
    {
      CreateProfileKeeps(Contents(), id, name, mode, org, creds);
      if !CredentialsValid(mode, org, k => WouldBePresent(creds, k, false)) {
        return Err(Validation);
      }
      if mode == Free && FreeTaken(Contents(), None) {
        return Err(Conflict);
      }
      if NameTaken(Contents(), name, None) {
        return Err(UniqueName);
      }
      profiles := profiles[id := Profile(name, mode, org)];
      WriteCredentials(id, creds);
      return Ok(());
    }

    /** The whole `accounts::update`, validation and transaction without a step of anyone else in between. */
    method UpdateProfile(p: Pending) returns (r: Result<(), StoreError>)
      requires Inv(Contents())
      modifies this
      ensures Inv(Contents())
      ensures r.Ok? <==> UpdateValidates(old(Contents()), p) && CommitUpdate(old(Contents()), p).Ok?
      ensures r.Ok? ==> Contents() == CommitUpdate(old(Contents()), p).value
      ensures r.Err? ==> Contents() == old(Contents())
      ensures r.Ok? ==> p.mode != Free && old(profiles)[p.id].mode != Free && Bound(old(Contents()), p.id) == {}
      ensures r.Ok? ==> profiles[p.id].name == p.name && profiles[p.id].mode == p.mode && profiles[p.id].org == p.org
    {
      var db := Contents();
      if p.id !in profiles {
        return Err(NotFound);
      }
      if profiles[p.id].mode == Free || Bound(db, p.id) != {} {
        return Err(Conflict);
      }
      if !CredentialsValid(p.mode, p.org, k => WouldBePresent(p.creds, k, Present(db, p.id, k))) {
        return Err(Validation);
      }
      FreeIsTaken(db, p);
      if p.mode == Free && FreeTaken(db, Some(p.id)) {
        return Err(Conflict);
      }
      if NameTaken(db, p.name, Some(p.id)) {
        return Err(UniqueName);
      }
      AtomicUpdateKeeps(db, p);
      profiles := profiles[p.id := Profile(p.name, p.mode, p.org)];
      WriteCredentials(p.id, p.creds);
      return Ok(());
    }

    /** `profiles.delete`: unbind disabled instances, then delete under the foreign keys. */
    method RemoveProfile(id: Id) returns (r: Result<(), StoreError>)
      requires Inv(Contents())
      modifies this
      ensures Inv(Contents())
      ensures r.Ok? <==> id != DEFAULT_PROFILE && Bound(old(Contents()), id) == {}
      ensures r.Err? ==> Contents() == old(Contents())
      ensures r.Ok? ==> id !in profiles && profiles == old(profiles) - {id} && instances == old(instances)
      ensures r.Ok? ==> forall k :: (id, k) !in secrets
      ensures r.Ok? ==> forall s :: s in old(secrets) && s.0 != id ==> s in secrets && secrets[s] == old(secrets)[s]
    {
      DeleteRowKeeps(Contents(), id);
      if id == DEFAULT_PROFILE {
        return Err(Conflict);
      }
      instances := UnbindDisabled(Contents(), id).instances;
      assert Contents() == old(Contents());
      if Bound(Contents(), id) != {} {
        return Err(Conflict);
      }
      profiles := profiles - {id};
      secrets := map s | s in secrets && s.0 != id :: secrets[s];
      return Ok(());
    }

    method InsertInstance(id: Id, name: string, profile: Option<Id>) returns (r: Result<(), StoreError>)
      requires Inv(Contents()) && id !in instances
      modifies this`instances
      ensures Inv(Contents())
      ensures r.Err? ==> instances == old(instances)
      ensures r.Ok? ==> id in instances && instances[id].profile == profile && instances - {id} == old(instances)
      ensures r.Ok? && profile.Some? && profiles[profile.value].mode == WarpPlus ==>
          Bound(Contents(), profile.value) == {id}
      ensures r == Err(AlreadyBound) <==>
                profile.Some? && profile.value in profiles && profiles[profile.value].mode == WarpPlus
                && Bound(old(Contents()), profile.value) != {}
      ensures r == Err(ForeignKey) <==> profile.Some? && profile.value !in profiles
      ensures r.Err? ==> r.error in {AlreadyBound, ForeignKey}
      ensures r.Ok? ==> Contents() == CreateInstance(old(Contents()), id, name, profile).value
    {
      CreateInstanceKeeps(Contents(), id, name, profile);
      if !Bindable(Contents(), profile, None) {
        return Err(AlreadyBound);
      }
      if profile.Some? && profile.value !in profiles {
        return Err(ForeignKey);
      }
      instances := instances[id := Instance(name, true, true, profile, false, 0)];
      assert instances - {id} == old(instances);
      if profile.Some? {
        assert Bound(Contents(), profile.value) == Bound(old(Contents()), profile.value) + {id};
      }
      return Ok(());
    }

    /** The statement behind start and stop. */
    method WriteDesired(id: Id, running: bool)
      modifies this`instances
      ensures Contents() == SetDesired(old(Contents()), id, running)
    {
      if id in instances {
        instances := instances[id := instances[id].(enabled := true, running := running)];
      }
    }

    /** The statement behind restart, with the new command; 0 stands for no such row. */
    method CountRestart(id: Id) returns (n: nat)
      modifies this`instances
      ensures Contents() == RequestRestart(old(Contents()), id)
      ensures n == if id in instances then instances[id].command else 0
    {
      n := 0;
      if id in instances {
        n := instances[id].command + 1;
        instances := instances[id := instances[id].(command := n)];
      }
    }

    method RemoveInstance(id: Id)
      modifies this`instances
      ensures Contents() == DeleteInstance(old(Contents()), id)
    {
      instances := instances - {id};
    }

    method RebindInstance(id: Id, profile: Option<Id>) returns (r: Result<(), StoreError>)
      requires Inv(Contents())
      modifies this`instances
      ensures Inv(Contents())
      ensures r.Err? ==> instances == old(instances)
      ensures r.Ok? && id in old(instances) ==>
                instances == old(instances)[id := old(instances)[id].(profile := profile, pending := true)]
      ensures r.Ok? && id !in old(instances) ==> instances == old(instances)
      ensures r == Err(AlreadyBound) <==>
                profile.Some? && profile.value in profiles && profiles[profile.value].mode == WarpPlus
                && Bound(old(Contents()), profile.value) - {id} != {}
      ensures r.Err? && r.error != AlreadyBound ==> profile.Some? && profile.value !in profiles
    {
      RebindKeeps(Contents(), id, profile);
      if !Bindable(Contents(), profile, Some(id)) {
        ghost var other :| other in Bound(Contents(), profile.value) && Some(other) != Some(id);
        assert other in Bound(Contents(), profile.value) - {id};
        return Err(AlreadyBound);
      }
      if id in instances {
        if profile.Some? && profile.value !in profiles {
          return Err(ForeignKey);
        }
        instances := instances[id := instances[id].(profile := profile, pending := true)];
      }
      return Ok(());
    }
  }

  function Restrict(creds: Creds, kinds: seq<Kind>): Creds {
    map k | k in creds && k in kinds :: creds[k]
  }

  lemma NothingWritten(secrets: map<(Id, Kind), string>, id: Id, creds: Creds)
    ensures WithCreds(secrets, id, Restrict(creds, [])) == secrets
  {
  }

  lemma AllKinds(creds: Creds)
    ensures Restrict(creds, KINDS) == creds && KINDS[..|KINDS|] == KINDS
  {
    assert KINDS == [License, ClientId, ClientSecret];
    forall k: Kind ensures k in KINDS {
      match k { case License => assert KINDS[0] == k; case ClientId => assert KINDS[1] == k;
          case ClientSecret => assert KINDS[2] == k; }
    }
  }

  lemma OneMoreKind(secrets: map<(Id, Kind), string>, id: Id, creds: Creds, kinds: seq<Kind>, kind: Kind)
    ensures var before := WithCreds(secrets, id, Restrict(creds, kinds));
            WithCreds(secrets, id, Restrict(creds, kinds + [kind]))
            == if kind !in creds then before
               else if creds[kind] == "" then before - {(id, kind)}
               else before[(id, kind) := creds[kind]]
  {
    var before, after := WithCreds(secrets, id, Restrict(creds, kinds)),
        WithCreds(secrets, id, Restrict(creds, kinds + [kind]));
    var expected := if kind !in creds then before
                    else if creds[kind] == "" then before - {(id, kind)}
                    else before[(id, kind) := creds[kind]];
    forall s: (Id, Kind)
      ensures s in after <==> s in expected
      ensures s in after && s in expected ==> after[s] == expected[s]
    {
      OneMoreKindAt(secrets, id, creds, kinds, kind, s);
    }
    SameMap(after, expected);
  }

  lemma SameMap(a: map<(Id, Kind), string>, b: map<(Id, Kind), string>)
    requires forall s :: (s in a <==> s in b) && (s in a && s in b ==> a[s] == b[s])
    ensures a == b
  {
  }

  lemma OneMoreKindAt(secrets: map<(Id, Kind), string>, id: Id, creds: Creds, kinds: seq<Kind>, kind: Kind,
      s: (Id, Kind))
    ensures var before, after := WithCreds(secrets, id, Restrict(creds, kinds)),
        WithCreds(secrets, id, Restrict(creds, kinds + [kind]));
            if s == (id, kind) && kind in creds then
              (s in after <==> creds[kind] != "") && (s in after ==> after[s] == creds[kind])
            else (s in after <==> s in before) && (s in after && s in before ==> after[s] == before[s])
  {
    var few, more := Restrict(creds, kinds), Restrict(creds, kinds + [kind]);
    assert s.1 in more <==> s.1 in few || (s.1 == kind && kind in creds);
    WithCredsMember(secrets, id, few, s);
    WithCredsMember(secrets, id, more, s);
  }

  lemma WithCredsMember(secrets: map<(Id, Kind), string>, id: Id, creds: Creds, s: (Id, Kind))
    ensures s in WithCreds(secrets, id, creds) <==>
              if s.0 == id && s.1 in creds then creds[s.1] != "" else s in secrets
    ensures s in WithCreds(secrets, id, creds) ==>
              WithCreds(secrets, id, creds)[s] == if s.0 == id && s.1 in creds then creds[s.1] else secrets[s]
  {
    if s.0 == id && s.1 in creds { assert s == (id, s.1); }
  }
}

/** Managed agent profiles: the consolidation that reconciles a user's profiles with the
    templates bound to that user, and the older assignment pass it absorbs. */
module AgentModel {
  import opened Common

  // ----- Tables -----

  datatype Template = Template(
    name: string, display: string, description: string, model: int, class_: string,
    version: int, active: bool)
  datatype Binding = Binding(
    template: int, scope: string, org: Option<int>, dept: Option<int>, role: Option<int>, user: Option<int>)
  datatype User = User(org: int, dept: Option<int>)

  /** `kind` is the column profile_type. */
  datatype Profile = Profile(
    model: Option<int>, display: string, description: string, status: string, class_: string,
    kind: string, managed: bool, template: Option<int>, version: Option<int>, sources: seq<string>)

  /** Profiles are identified by their unique key (user, name). */
  type ProfileKey = (int, string)
  datatype SourceKey = SourceKey(profile: ProfileKey, template: int, scope: string, id: int)

  datatype State = State(
    templates: map<int, Template>,
    bindings: seq<Binding>,
    users: map<int, User>,
    roleBindings: set<(int, int)>,
    names: map<(string, int), string>,
    profiles: map<ProfileKey, Profile>,
    recorded: map<SourceKey, string>)

  // ----- Matching -----

  predicate Reaches(s: State, u: int, b: Binding) {
    u in s.users &&
    ((b.scope == "organization" && b.org == Some(s.users[u].org)) ||
     (b.scope == "department" && b.dept.Some? && b.dept == s.users[u].dept) ||
     (b.scope == "user" && b.user == Some(u)) ||
     (b.scope == "role" && b.role.Some? && (u, b.role.value) in s.roleBindings))
  }

  predicate IsMatched(s: State, u: int, t: int) {
    t in s.templates && s.templates[t].active && exists b | b in s.bindings :: b.template == t && Reaches(s, u, b)
  }

  /** The join of the older pass: the organization of the binding must agree as well. */
  predicate IsMatchedByAssign(s: State, u: int, t: int) {
    t in s.templates && s.templates[t].active && u in s.users &&
    exists b | b in s.bindings ::
      b.template == t && b.org == Some(s.users[u].org) &&
      (b.scope == "organization" || (b.scope == "department" && b.dept.Some? && b.dept == s.users[u].dept))
  }

  lemma {:induction false} AssignMatchesLess(s: State, u: int, t: int)
    requires IsMatchedByAssign(s, u, t)
    ensures IsMatched(s, u, t)
  {
    var b :| b in s.bindings && b.template == t && b.org == Some(s.users[u].org) &&
      (b.scope == "organization" || (b.scope == "department" && b.dept.Some? && b.dept == s.users[u].dept));
    assert Reaches(s, u, b);
  }

  function Matched(s: State, u: int): set<int> {
    set t | t in s.templates && IsMatched(s, u, t)
  }

  function Key(s: State, u: int, t: int): ProfileKey
    requires t in s.templates
  {
    (u, s.templates[t].name)
  }

  predicate DistinctNames(s: State, u: int) {
    forall t, v | t in Matched(s, u) && v in Matched(s, u) && s.templates[t].name == s.templates[v].name :: t == v
  }

  // ----- Assignment sources -----

  function OrZero(id: Option<int>): int {
    if id.Some? then id.value else 0
  }

  function SourceId(b: Binding): int {
    if b.scope == "department" then OrZero(b.dept)
    else if b.scope == "role" then OrZero(b.role)
    else if b.scope == "user" then OrZero(b.user)
    else OrZero(b.org)
  }

  /** The name of the source, or its kind when it has none. */
  function Label(s: State, scope: string, id: int): string {
    if (scope, id) in s.names && s.names[(scope, id)] != "" then s.names[(scope, id)] else scope
  }

  /** SELECT DISTINCT over the bindings of a template that reach the user. */
  function SourceRows(s: State, u: int, t: int, n: nat): seq<Binding>
    requires n <= |s.bindings|
  {
    if n == 0 then []
    else
      var rest, b := SourceRows(s, u, t, n - 1), s.bindings[n - 1];
      if b.template == t && Reaches(s, u, b) && b !in rest then rest + [b] else rest
  }

  function Sources(s: State, u: int, t: int): seq<Binding> {
    SourceRows(s, u, t, |s.bindings|)
  }

  function SourceTexts(s: State, bs: seq<Binding>): seq<string> {
    seq(|bs|, i requires 0 <= i < |bs| => bs[i].scope + ": " + Label(s, bs[i].scope, SourceId(bs[i])))
  }

  function KeyOf(k: ProfileKey, t: int, b: Binding): SourceKey {
    SourceKey(k, t, b.scope, SourceId(b))
  }

  /** The upserts into profile_assignment_sources for one profile and template. */
  function Recorded(s: State, k: ProfileKey, t: int, bs: seq<Binding>): map<SourceKey, string> {
    map key | key in (set b | b in bs :: KeyOf(k, t, b)) :: Label(s, key.scope, key.id)
  }

  // ----- The two passes, row by row -----

  function NullableId(id: int): Option<int> {
    if id == 0 then None else Some(id)
  }

  /** The row a matched template leaves behind. */
  function RowFor(s: State, u: int, t: int, kind: string): Profile
    requires t in s.templates
  {
    var p := s.templates[t];
    Profile(NullableId(p.model), p.display, p.description, "active", p.class_,
            kind, true, Some(t), Some(p.version), SourceTexts(s, Sources(s, u, t)))
  }

  /** INSERT .. ON DUPLICATE KEY UPDATE: an existing row keeps only its kind. */
  function KindAt(s: State, k: ProfileKey): string {
    if k in s.profiles then s.profiles[k].kind else "managed"
  }

  function Upsert(s: State, u: int, t: int): State
    requires t in s.templates
  {
    var k := Key(s, u, t);
    s.(profiles := s.profiles[k := RowFor(s, u, t, KindAt(s, k))],
       recorded := s.recorded + Recorded(s, k, t, Sources(s, u, t)))
  }

  function UpsertAll(s: State, u: int, rows: seq<int>): State
    requires forall t | t in rows :: t in s.templates
    decreases |rows|
  {
    if rows == [] then s else UpsertAll(Upsert(s, u, rows[0]), u, rows[1..])
  }

  predicate Orphaned(s: State, u: int, k: ProfileKey)
    requires k in s.profiles
  {
    k.0 == u && s.profiles[k].managed &&
    (s.profiles[k].template.None? || s.profiles[k].template.value !in Matched(s, u))
  }

  /** The disable update that ends a consolidation. */
  function Sweep(s: State, u: int): State {
    s.(profiles := map k | k in s.profiles ::
         if Orphaned(s, u, k) then s.profiles[k].(status := "disabled") else s.profiles[k])
  }

  /** `rows` is the order in which the database returns the matched templates. */
  function Consolidate(s: State, u: int, rows: seq<int>): State
    requires forall t | t in rows :: t in s.templates
  {
    Sweep(UpsertAll(s, u, rows), u)
  }

  predicate RowsOf(s: State, u: int, rows: seq<int>) {
    (forall t | t in rows :: t in Matched(s, u)) && (forall t | t in Matched(s, u) :: t in rows) &&
    forall i, j | 0 <= i < j < |rows| :: rows[i] != rows[j]
  }

  /** INSERT IGNORE: only a missing row is written. */
  function AssignOne(s: State, u: int, t: int): State
    requires t in s.templates
  {
    var p, k := s.templates[t], Key(s, u, t);
    if k in s.profiles then s
    else s.(profiles := s.profiles[k := Profile(NullableId(p.model), p.display, p.description, "active", p.class_,
                                                "managed", true, Some(t), None, [])])
  }

  function Assign(s: State, u: int, rows: seq<int>): State
    requires forall t | t in rows :: t in s.templates
    decreases |rows|
  {
    if rows == [] then s else Assign(AssignOne(s, u, rows[0]), u, rows[1..])
  }

  // ----- The declarative target -----

  predicate Owns(s: State, u: int, t: int, k: ProfileKey) {
    t in Matched(s, u) && k == Key(s, u, t)
  }

  function Lookup<K, V>(m: map<K, V>, k: K): Option<V> {
    if k in m then Some(m[k]) else None
  }

  /** What the row at key k must be once its user is reconciled. */
  ghost function TargetRow(s: State, k: ProfileKey): Option<Profile> {
    if exists t :: Owns(s, k.0, t, k) then
      var t :| Owns(s, k.0, t, k);
      Some(RowFor(s, k.0, t, KindAt(s, k)))
    else if k in s.profiles && Orphaned(s, k.0, k) then Some(s.profiles[k].(status := "disabled"))
    else Lookup(s.profiles, k)
  }

  function OwnedKeys(s: State, us: set<int>): set<ProfileKey> {
    set u, t | u in us && t in Matched(s, u) :: Key(s, u, t)
  }

  /** The source row `key` is written when a user of `us` is reconciled. */
  ghost predicate SourceOwned(s: State, us: set<int>, key: SourceKey) {
    key.profile.0 in us && key.template in Matched(s, key.profile.0) &&
    key.profile == Key(s, key.profile.0, key.template) &&
    exists b | b in Sources(s, key.profile.0, key.template) :: b.scope == key.scope && SourceId(b) == key.id
  }

  function OwnedSources(s: State, us: set<int>): set<SourceKey> {
    set u, t, b | u in us && t in Matched(s, u) && b in Sources(s, u, t) :: KeyOf(Key(s, u, t), t, b)
  }

  /** The state in which exactly the users in `us` have been reconciled. */
  ghost function Target(s: State, us: set<int>): State {
    s.(profiles := map k | k in s.profiles.Keys + OwnedKeys(s, us) && TargetAt(s, us, k).Some? ::
         TargetAt(s, us, k).value,
       recorded := map key | key in s.recorded.Keys + OwnedSources(s, us) && RecordedAt(s, us, key).Some? ::
         RecordedAt(s, us, key).value)
  }

  ghost function TargetAt(s: State, us: set<int>, k: ProfileKey): Option<Profile> {
    if k.0 in us then TargetRow(s, k) else Lookup(s.profiles, k)
  }

  ghost function RecordedAt(s: State, us: set<int>, key: SourceKey): Option<string> {
    if SourceOwned(s, us, key) then Some(Label(s, key.scope, key.id)) else Lookup(s.recorded, key)
  }
}

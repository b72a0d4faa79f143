/** Who may see a knowledge base: policies by subject, most specific first, and bindings as an
    allow-list where no policy speaks. */
module KnowledgeModel {
  import opened Common
  import opened Decimal

  // ----- Tables -----

  /** A missing department is stored as NULL and read as 0. */
  datatype User = User(org: int, dept: int)
  datatype Profile = Profile(id: int, user: int, template: int, active: bool)
  datatype Policy = Policy(kb: int, scope: string, key: string, level: string)

  /** Missing targets are read as 0. */
  datatype Binding = Binding(
    kb: int, kind: string, org: int, dept: int, role: int, profile: int, template: int, policy: string)

  datatype State = State(
    users: map<int, User>,
    roleBindings: seq<(int, int)>,
    profiles: seq<Profile>,
    policies: seq<Policy>,
    bindings: seq<Binding>)

  // ----- Facts about a user -----

  predicate HasRole(s: State, uid: int, role: int) {
    (uid, role) in s.roleBindings
  }

  predicate HasProfile(s: State, uid: int, profile: int) {
    exists p | p in s.profiles :: p.user == uid && p.active && p.id == profile
  }

  predicate HasTemplate(s: State, uid: int, template: int) {
    exists p | p in s.profiles :: p.user == uid && p.active && p.template == template
  }

  // ----- Policies -----

  function Key(scope: string, target: int): string {
    scope + ":" + Format(target)
  }

  /** The key names one of the user's roles. */
  ghost predicate NamesRole(s: State, uid: int, key: string) {
    exists r :: HasRole(s, uid, r) && key == Key("role", r)
  }

  /** How specific a policy of the knowledge base is for the user; 0 when it does not match. */
  ghost function Rank(s: State, uid: int, kb: int, p: Policy): nat
    requires uid in s.users
  {
    var u := s.users[uid];
    if p.kb != kb then 0
    else if p.scope == "organization" then
      if p.key == "organization" || p.key == "organization:0" || p.key == Key("organization", u.org) then 1 else 0
    else if p.scope == "department" then if p.key == Key("department", u.dept) then 2 else 0
    else if p.scope == "role" then if NamesRole(s, uid, p.key) then 3 else 0
    else if p.scope == "user" then if p.key == Key("user", uid) then 4 else 0
    else 0
  }

  /** The policy at i matches, nothing outranks it, and later ones of its rank do not exist. */
  ghost predicate Decisive(s: State, uid: int, kb: int, i: nat)
    requires uid in s.users
  {
    i < |s.policies| && Rank(s, uid, kb, s.policies[i]) > 0 &&
    forall j | 0 <= j < |s.policies| ::
      Rank(s, uid, kb, s.policies[j]) < Rank(s, uid, kb, s.policies[i]) ||
      (Rank(s, uid, kb, s.policies[j]) == Rank(s, uid, kb, s.policies[i]) && j <= i)
  }

  // ----- Bindings -----

  predicate Admits(s: State, uid: int, kb: int, b: Binding)
    requires uid in s.users
  {
    b.kb == kb && b.policy != "blocked" &&
    ((b.kind == "organization" && b.org == s.users[uid].org) ||
     (b.kind == "department" && b.dept == s.users[uid].dept) ||
     (b.role > 0 && HasRole(s, uid, b.role)) ||
     (b.profile > 0 && HasProfile(s, uid, b.profile)) ||
     (b.template > 0 && HasTemplate(s, uid, b.template)))
  }

  // ----- The declarative access level -----

  ghost function Access(s: State, uid: int, kb: int): string {
    if uid !in s.users then "none"
    else if exists i: nat :: Decisive(s, uid, kb, i) then
      var i: nat :| Decisive(s, uid, kb, i);
      s.policies[i].level
    else if exists b | b in s.bindings :: Admits(s, uid, kb, b) then "read"
    else "none"
  }

  // ----- Saving a policy -----

  datatype PolicyRequest = PolicyRequest(
    scope: string, level: string, dept: Option<int>, role: Option<int>, user: Option<int>)

  predicate IsLevel(level: string) {
    level in {"query_only", "read", "contribute", "manage"}
  }

  /** The subject key of a request, or None when the request is malformed. */
  function Subject(req: PolicyRequest, org: int): Option<string> {
    if !IsLevel(req.level) then None
    else if req.scope == "organization" then
      if req.dept.Some? || req.role.Some? || req.user.Some? then None else Some(Key("organization", org))
    else if req.scope == "department" then
      if req.dept.None? || req.role.Some? || req.user.Some? then None else Some(Key("department", req.dept.value))
    else if req.scope == "role" then
      if req.role.None? || req.dept.Some? || req.user.Some? then None else Some(Key("role", req.role.value))
    else if req.scope == "user" then
      if req.user.None? || req.dept.Some? || req.role.Some? then None else Some(Key("user", req.user.value))
    else None
  }

  /** The id a well-formed request is about. */
  function TargetOf(req: PolicyRequest, org: int): int {
    if req.scope == "department" && req.dept.Some? then req.dept.value
    else if req.scope == "role" && req.role.Some? then req.role.value
    else if req.scope == "user" && req.user.Some? then req.user.value
    else org
  }

  /** INSERT .. ON DUPLICATE KEY UPDATE on (knowledge base, key): only the level changes. */
  function Upsert(ps: seq<Policy>, p: Policy): seq<Policy> {
    if ps == [] then [p]
    else if ps[0].kb == p.kb && ps[0].key == p.key then [ps[0].(level := p.level)] + ps[1..]
    else [ps[0]] + Upsert(ps[1..], p)
  }

  /** `known`: the target exists in the organization. */
  function Save(s: State, org: int, kb: int, req: PolicyRequest, known: bool): State {
    var key := Subject(req, org);
    if key.None? || !known then s
    else s.(policies := Upsert(s.policies, Policy(kb, req.scope, key.value, req.level)))
  }

  /** The unique key of the table, and keys that start with their scope; a row without a
      target was migrated under a key of its own kind. */
  predicate PoliciesOk(ps: seq<Policy>) {
    (forall i, j | 0 <= i < j < |ps| :: ps[i].kb != ps[j].kb || ps[i].key != ps[j].key) &&
    forall i | 0 <= i < |ps| :: ScopeOfKey(ps[i].key) == ps[i].scope || ScopeOfKey(ps[i].key) == "legacy"
  }

  /** The part before the first colon, or all of it. */
  function ScopeOfKey(key: string): string {
    if key == "" || key[0] == ':' then "" else [key[0]] + ScopeOfKey(key[1..])
  }

  /** `strings.SplitN(key, ":", 2)` as the listing uses it: the part behind the first colon. */
  function TargetText(key: string): Option<string> {
    if key == "" then None else if key[0] == ':' then Some(key[1..]) else TargetText(key[1..])
  }

  /** The target id the listing shows for a key. */
  function ListedTarget(key: string): Option<int> {
    match TargetText(key)
    case None => None
    case Some(text) => Parse(text)
  }
}

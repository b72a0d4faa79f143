/** Which skills a profile gets: template and assignment contributions merged by policy, then
    the skills its owner installed. */
module SkillModel {
  import opened Common

  // ----- Tables -----

  datatype Skill = Skill(id: int, name: string, display: string)
  datatype Template = Template(skills: seq<string>, policies: map<string, string>)
  datatype Assignment = Assignment(
    skill: int, policy: string, scope: string,
    org: Option<int>, dept: Option<int>, user: Option<int>, profile: Option<int>, role: Option<int>)
  datatype Install = Install(profile: int, skill: int, version: Option<int>, status: string)

  datatype State = State(
    catalog: seq<Skill>,
    templates: map<int, Template>,
    assignments: seq<Assignment>,
    roleBindings: seq<(int, int)>,
    installs: seq<Install>)

  /** The profile a configuration is resolved for; a missing department is 0. */
  datatype Target = Target(
    profile: int, user: int, org: int, dept: int, template: Option<int>, templateName: string)

  // ----- Contributions -----

  datatype Contribution = Contribution(skill: int, policy: string, source: string)
  datatype Item = Item(id: int, policy: string, source: string, enabled: bool, version: Option<int>)

  function Priority(policy: string): nat {
    if policy == "blocked" then 5
    else if policy == "mandatory" then 4
    else if policy == "explicit" then 3
    else if policy == "default" then 2
    else if policy == "optional" then 1
    else 0
  }

  predicate InCatalog(s: State, id: int) {
    exists k | k in s.catalog :: k.id == id
  }

  /** The first skill with this name or display name. */
  function Lookup(catalog: seq<Skill>, name: string): (id: Option<int>)
    ensures id.Some? ==> exists k | k in catalog :: k.id == id.value && (k.name == name || k.display == name)
    ensures id.None? ==> forall k | k in catalog :: k.name != name && k.display != name
  {
    if catalog == [] then None
    else if catalog[0].name == name || catalog[0].display == name then Some(catalog[0].id)
    else Lookup(catalog[1..], name)
  }

  function PolicyFor(t: Template, name: string): string {
    if name in t.policies && t.policies[name] != "" then t.policies[name] else "default"
  }

  /** What the first n skill names of a template contribute; unknown names contribute nothing. */
  function FromTemplate(s: State, t: Template, n: nat, source: string): seq<Contribution>
    requires n <= |t.skills|
  {
    if n == 0 then []
    else
      var before, id := FromTemplate(s, t, n - 1, source), Lookup(s.catalog, t.skills[n - 1]);
      if id.None? then before else before + [Contribution(id.value, PolicyFor(t, t.skills[n - 1]), source)]
  }

  /** A missing department never matches a department assignment. */
  predicate Applies(s: State, p: Target, a: Assignment) {
    a.org == Some(p.org) ||
    (p.dept != 0 && a.dept == Some(p.dept)) ||
    a.user == Some(p.user) ||
    a.profile == Some(p.profile) ||
    (a.role.Some? && (p.user, a.role.value) in s.roleBindings)
  }

  function FromAssignments(s: State, p: Target, rows: seq<Assignment>): seq<Contribution> {
    if rows == [] then []
    else
      var before, a := FromAssignments(s, p, rows[..|rows| - 1]), rows[|rows| - 1];
      if Applies(s, p, a) then before + [Contribution(a.skill, a.policy, a.scope)] else before
  }

  function TemplatePart(s: State, p: Target): seq<Contribution> {
    if p.template.Some? && p.template.value in s.templates then
      var t := s.templates[p.template.value];
      FromTemplate(s, t, |t.skills|, p.templateName)
    else []
  }

  function Contributions(s: State, p: Target): seq<Contribution> {
    TemplatePart(s, p) + FromAssignments(s, p, s.assignments)
  }

  // ----- The declarative result -----

  predicate Named(cs: seq<Contribution>, id: int) {
    exists c | c in cs :: c.skill == id
  }

  predicate Blocked(cs: seq<Contribution>, id: int) {
    exists c | c in cs :: c.skill == id && c.policy == "blocked"
  }

  /** No contribution to the skill outranks c. */
  predicate Top(cs: seq<Contribution>, id: int, c: Contribution) {
    c in cs && c.skill == id &&
    forall d | d in cs && d.skill == id :: Priority(d.policy) <= Priority(c.policy)
  }

  /** The last contribution of greatest priority to the skill. */
  predicate LastTop(cs: seq<Contribution>, id: int, i: nat) {
    i < |cs| && cs[i].skill == id &&
    forall j | 0 <= j < |cs| && cs[j].skill == id ::
      Priority(cs[j].policy) < Priority(cs[i].policy) ||
      (Priority(cs[j].policy) == Priority(cs[i].policy) && j <= i)
  }

  function ItemOf(c: Contribution): Item {
    Item(c.skill, c.policy, c.source, c.policy != "blocked", None)
  }

  /** One item per catalogued skill that some contribution names, from its last top one. */
  predicate Merged(s: State, cs: seq<Contribution>, items: seq<Item>) {
    (forall i, j | 0 <= i < j < |items| :: items[i].id != items[j].id) &&
    (forall x | x in items :: InCatalog(s, x.id) && Decided(cs, x)) &&
    forall c | c in cs && InCatalog(s, c.skill) :: Lists(items, c.skill)
  }

  predicate Decided(cs: seq<Contribution>, x: Item) {
    exists i | 0 <= i < |cs| :: LastTop(cs, x.id, i) && x == ItemOf(cs[i])
  }

  predicate Lists(items: seq<Item>, id: int) {
    exists x | x in items :: x.id == id
  }

  // ----- Installed skills -----

  /** A row the query returns and the scan accepts: a row without a version is skipped. */
  predicate Counts(s: State, profile: int, row: Install) {
    row.profile == profile && row.status == "installed" && row.version.Some? && InCatalog(s, row.skill)
  }

  predicate Installed(s: State, profile: int, id: int) {
    exists row | row in s.installs :: Counts(s, profile, row) && row.skill == id
  }

  function InstallItem(row: Install): Item {
    Item(row.skill, "explicit", "profile_install", true, row.version)
  }

  /** The row is the first that counts for its skill. */
  predicate FirstFor(s: State, profile: int, i: nat) {
    i < |s.installs| && Counts(s, profile, s.installs[i]) &&
    forall j | 0 <= j < i && Counts(s, profile, s.installs[j]) :: s.installs[j].skill != s.installs[i].skill
  }

  /** The base list, then one item for each installed skill it does not list yet. */
  predicate Extended(s: State, profile: int, base: seq<Item>, out: seq<Item>) {
    base <= out &&
    (forall i, j | 0 <= i < j < |out| :: out[i].id != out[j].id) &&
    (forall k | |base| <= k < |out| :: Appended(s, profile, out[k])) &&
    forall row | row in s.installs && Counts(s, profile, row) :: Lists(out, row.skill)
  }

  predicate Appended(s: State, profile: int, x: Item) {
    exists i | 0 <= i < |s.installs| :: FirstFor(s, profile, i) && x == InstallItem(s.installs[i])
  }

  /** What a profile ends up with: a merged list, extended by its installs. */
  ghost predicate Effective(s: State, p: Target, out: seq<Item>) {
    exists base :: Merged(s, Contributions(s, p), base) && Extended(s, p.profile, base, out)
  }
}

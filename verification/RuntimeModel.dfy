/** Which runtime template a user gets: an explicit assignment, else the binding of greatest
    priority, else the default; equal priorities on different templates are a conflict. */
module RuntimeModel {
  import opened Common

  // ----- Tables -----

  datatype Template = Template(id: int, name: string, org: int, isDefault: bool, active: bool)
  datatype Binding = Binding(template: int, kind: Source, role: Option<int>, dept: Option<int>, priority: int)
  datatype Source = Role | Department | Organization | ExplicitUser

  /** A user without a department, or an unknown one, is missing from `departments`. */
  datatype State = State(
    templates: seq<Template>,
    bindings: seq<Binding>,
    roleBindings: seq<(int, int)>,
    departments: map<int, int>,
    assignedTemplate: map<int, int>)

  // ----- Candidates -----

  datatype Candidate = Candidate(id: int, name: string, source: Source, priority: int)

  function ById(ts: seq<Template>, id: int): Option<Template> {
    if ts == [] then None else if ts[0].id == id then Some(ts[0]) else ById(ts[1..], id)
  }

  function Dept(s: State, uid: int): int {
    if uid in s.departments then s.departments[uid] else 0
  }

  predicate Selected(s: State, uid: int, source: Source, b: Binding) {
    b.kind == source &&
    if source == Role then b.role.Some? && (uid, b.role.value) in s.roleBindings
    else source == Department && b.dept == Some(Dept(s, uid))
  }

  /** What one binding row yields: its template must exist and be active. */
  function RowOf(s: State, uid: int, source: Source, b: Binding): Option<Candidate> {
    var t := ById(s.templates, b.template);
    if Selected(s, uid, source, b) && t.Some? && t.value.active then
      Some(Candidate(t.value.id, t.value.name, source, b.priority))
    else None
  }

  /** SELECT DISTINCT over the binding rows. */
  function Query(s: State, uid: int, source: Source, bs: seq<Binding>): seq<Candidate> {
    if bs == [] then []
    else
      var before, c := Query(s, uid, source, bs[..|bs| - 1]), RowOf(s, uid, source, bs[|bs| - 1]);
      if c.None? || c.value in before then before else before + [c.value]
  }

  function Default(ts: seq<Template>): Option<Candidate> {
    if ts == [] then None
    else if ts[0].org == 1 && ts[0].isDefault && ts[0].active then
      Some(Candidate(ts[0].id, ts[0].name, Organization, 0))
    else Default(ts[1..])
  }

  function FromRoles(s: State, uid: int): seq<Candidate> {
    Query(s, uid, Role, s.bindings)
  }

  function FromDepartment(s: State, uid: int): seq<Candidate> {
    if Dept(s, uid) > 0 then Query(s, uid, Department, s.bindings) else []
  }

  function Candidates(s: State, uid: int): seq<Candidate> {
    var bound, fallback := FromRoles(s, uid) + FromDepartment(s, uid), Default(s.templates);
    if bound != [] then bound else if fallback.Some? then [fallback.value] else []
  }

  // ----- The verdict -----

  datatype Verdict =
    | Unresolved
    | Resolved(best: Candidate)
    | Conflict(candidates: seq<Candidate>)

  /** The first candidate of greatest priority. */
  predicate FirstMax(cs: seq<Candidate>, i: nat) {
    i < |cs| &&
    forall j | 0 <= j < |cs| ::
      cs[j].priority < cs[i].priority || (cs[j].priority == cs[i].priority && i <= j)
  }

  /** Candidates of the same priority for other templates. */
  function Others(cs: seq<Candidate>, best: Candidate): seq<Candidate> {
    if cs == [] then []
    else
      var before, x := Others(cs[..|cs| - 1], best), cs[|cs| - 1];
      if x.priority == best.priority && x.id != best.id then before + [x] else before
  }

  function Against(best: Candidate, others: seq<Candidate>): Verdict {
    if others == [] then Resolved(best) else Conflict([best] + others)
  }

  predicate Judged(cs: seq<Candidate>, v: Verdict) {
    if cs == [] then v == Unresolved
    else exists i | 0 <= i < |cs| :: FirstMax(cs, i) && v == Against(cs[i], Others(cs, cs[i]))
  }

  predicate ResolvesTo(s: State, uid: int, v: Verdict) {
    if uid in s.assignedTemplate then
      var id := s.assignedTemplate[uid];
      var t := ById(s.templates, id);
      v == Resolved(Candidate(id, if t.Some? then t.value.name else "", ExplicitUser, 1000))
    else Judged(Candidates(s, uid), v)
  }
}

/** The runtime template resolver as it runs. */
module RuntimeStore {
  import opened Common
  import opened RuntimeModel

  class Server {
    var templates: seq<Template>
    var bindings: seq<Binding>
    var roleBindings: seq<(int, int)>
    var departments: map<int, int>
    var assignedTemplate: map<int, int>

    function View(): State
      reads this
    {
      State(templates, bindings, roleBindings, departments, assignedTemplate)
    }

    method TemplateById(id: int) returns (t: Option<Template>)
      ensures t == ById(templates, id)
    {
      for i := 0 to |templates|
        invariant ById(templates, id) == ById(templates[i..], id)
      {
        if templates[i].id == id {
          return Some(templates[i]);
        }
      }
      return None;
    }

    /** The rows of one query, appended behind the candidates found before. */
    method Collect(uid: int, source: Source, found: seq<Candidate>) returns (cs: seq<Candidate>)
      requires source == Role || source == Department
      ensures cs == found + Query(View(), uid, source, bindings)
    {
      var rows: seq<Candidate> := [];
      var dept := if uid in departments then departments[uid] else 0;
      for i := 0 to |bindings|
        invariant rows == Query(View(), uid, source, bindings[..i])
      {
        var b := bindings[i];
        assert bindings[..i + 1][..i] == bindings[..i];
        var t := TemplateById(b.template);
        var matches := b.kind == source &&
          if source == Role then b.role.Some? && (uid, b.role.value) in roleBindings else b.dept == Some(dept);
        if matches && t.Some? && t.value.active {
          var c := Candidate(t.value.id, t.value.name, source, b.priority);
          if c !in rows {
            rows := rows + [c];
          }
        }
      }
      assert bindings[..|bindings|] == bindings;
      cs := found + rows;
    }

    method DefaultTemplate() returns (c: Option<Candidate>)
      ensures c == Default(templates)
    {
      for i := 0 to |templates|
        invariant Default(templates) == Default(templates[i..])
      {
        var t := templates[i];
        if t.org == 1 && t.isDefault && t.active {
          return Some(Candidate(t.id, t.name, Organization, 0));
        }
      }
      return None;
    }

    method ResolveRuntimeTemplate(uid: int) returns (v: Verdict)
      ensures ResolvesTo(View(), uid, v)
    {
      if uid in assignedTemplate {
        var t := TemplateById(assignedTemplate[uid]);
        return Resolved(Candidate(assignedTemplate[uid], if t.Some? then t.value.name else "", ExplicitUser, 1000));
      }
      var candidates := Collect(uid, Role, []);
      var dept := if uid in departments then departments[uid] else 0;
      if dept > 0 {
        candidates := Collect(uid, Department, candidates);
      }
      assert candidates == FromRoles(View(), uid) + FromDepartment(View(), uid);
      if |candidates| == 0 {
        var fallback := DefaultTemplate();
        if fallback.Some? {
          candidates := candidates + [fallback.value];
        }
      }
      assert candidates == Candidates(View(), uid);
      v := Judge(candidates);
    }

    /** The first strictly greatest candidate, then its conflicts. */
    method Judge(candidates: seq<Candidate>) returns (v: Verdict)
      ensures Judged(candidates, v)
    {
      if |candidates| == 0 {
        return Unresolved;
      }
      var best := candidates[0];
      ghost var at := 0;
      for i := 1 to |candidates|
        invariant at < i && best == candidates[at]
        invariant FirstMax(candidates[..i], at)
      {
        if candidates[i].priority > best.priority {
          best := candidates[i];
          at := i;
        }
      }
      assert candidates[..|candidates|] == candidates;
      var conflicts: seq<Candidate> := [];
      for i := 0 to |candidates|
        invariant conflicts == Others(candidates[..i], best)
      {
        var x := candidates[i];
        assert candidates[..i + 1][..i] == candidates[..i];
        if x.priority == best.priority && x.id != best.id {
          conflicts := conflicts + [x];
        }
      }
      if |conflicts| > 0 {
        return Conflict([best] + conflicts);
      }
      return Resolved(best);
    }
  }
}

/** What the runtime resolver answers, in terms of the tables alone: the explicit template first,
    then the bound ones, then the default. */
module RuntimeOutcomes {
  import opened Common
  import opened RuntimeModel
  import opened RuntimeTheorems

  /** The first template row with the id. */
  predicate TemplateRow(s: State, id: int, t: Template) {
    exists i | 0 <= i < |s.templates| ::
      s.templates[i] == t && t.id == id && forall j | 0 <= j < i :: s.templates[j].id != id
  }

  lemma {:induction false} ByIdIs(ts: seq<Template>, id: int)
    ensures ById(ts, id).None? ==> forall t | t in ts :: t.id != id
    ensures ById(ts, id).Some? ==>
              exists i | 0 <= i < |ts| ::
                ts[i] == ById(ts, id).value && ts[i].id == id && forall j | 0 <= j < i :: ts[j].id != id
  {
    if ts != [] && ts[0].id != id {
      ByIdIs(ts[1..], id);
      if ById(ts, id).Some? {
        var i :| 0 <= i < |ts[1..]| && ts[1..][i] == ById(ts, id).value && ts[1..][i].id == id &&
                 forall j | 0 <= j < i :: ts[1..][j].id != id;
        assert ts[i + 1] == ts[1..][i];
        assert forall j | 0 < j < i + 1 :: ts[j] == ts[1..][j - 1];
      }
    }
  }

  lemma {:induction false} RowIsById(s: State, id: int, t: Template)
    ensures TemplateRow(s, id, t) <==> ById(s.templates, id) == Some(t)
  {
    ByIdIs(s.templates, id);
    if TemplateRow(s, id, t) {
      var i :| 0 <= i < |s.templates| && s.templates[i] == t && t.id == id &&
               forall j | 0 <= j < i :: s.templates[j].id != id;
      assert s.templates[i] in s.templates;
    }
  }

  /** A user with an explicit template gets it, active or not, at priority 1000, whatever is
      bound; its name is empty when the template does not exist. */
  lemma {:induction false} ExplicitTemplateWins(s: State, uid: int, v: Verdict)
    requires uid in s.assignedTemplate && ResolvesTo(s, uid, v)
    ensures v.Resolved? && v.best.id == s.assignedTemplate[uid]
    ensures v.best.source == ExplicitUser && v.best.priority == 1000
    ensures forall t | TemplateRow(s, s.assignedTemplate[uid], t) :: v.best.name == t.name
    ensures (forall t | t in s.templates :: t.id != s.assignedTemplate[uid]) ==> v.best.name == ""
  {
    var id := s.assignedTemplate[uid];
    ByIdIs(s.templates, id);
    forall t | TemplateRow(s, id, t) ensures v.best.name == t.name {
      RowIsById(s, id, t);
    }
  }

  /** The binding is one for a role of the user or for the user's department. */
  predicate Binds(s: State, uid: int, b: Binding) {
    (b.kind == Role && b.role.Some? && (uid, b.role.value) in s.roleBindings) ||
    (b.kind == Department && uid in s.departments && s.departments[uid] > 0 && b.dept == Some(s.departments[uid]))
  }

  predicate ActiveCalled(s: State, id: int, name: string) {
    exists t | t in s.templates :: TemplateRow(s, id, t) && t.active && t.name == name
  }

  /** An active template bound to the user, with the priority of the binding. */
  predicate Bound(s: State, uid: int, c: Candidate) {
    exists b | b in s.bindings ::
      Binds(s, uid, b) && b.kind == c.source && b.priority == c.priority && b.template == c.id &&
      ActiveCalled(s, b.template, c.name)
  }

  lemma {:induction false} RowOfIs(s: State, uid: int, source: Source, b: Binding, c: Candidate)
    requires source == Role || (source == Department && Dept(s, uid) > 0)
    ensures RowOf(s, uid, source, b) == Some(c) <==>
              c.source == source && Binds(s, uid, b) && b.kind == source && b.priority == c.priority &&
              b.template == c.id && ActiveCalled(s, b.template, c.name)
  {
    ByIdIs(s.templates, b.template);
    var found := ById(s.templates, b.template);
    if found.Some? {
      RowIsById(s, b.template, found.value);
      assert found.value in s.templates;
    }
    forall t | TemplateRow(s, b.template, t) ensures found == Some(t) {
      RowIsById(s, b.template, t);
    }
  }

  /** The candidates from roles and department are exactly the active templates bound to the
      user. */
  lemma {:induction false} BoundCandidates(s: State, uid: int, c: Candidate)
    ensures c in FromRoles(s, uid) + FromDepartment(s, uid) <==> Bound(s, uid, c)
  {
    QueryHolds(s, uid, Role, s.bindings, c);
    QueryHolds(s, uid, Department, s.bindings, c);
    forall b ensures RowOf(s, uid, Role, b) == Some(c) <==>
              c.source == Role && Binds(s, uid, b) && b.kind == Role && b.priority == c.priority &&
              b.template == c.id && ActiveCalled(s, b.template, c.name)
    {
      RowOfIs(s, uid, Role, b, c);
    }
    if Dept(s, uid) > 0 {
      forall b ensures RowOf(s, uid, Department, b) == Some(c) <==>
                c.source == Department && Binds(s, uid, b) && b.kind == Department && b.priority == c.priority &&
                b.template == c.id && ActiveCalled(s, b.template, c.name)
      {
        RowOfIs(s, uid, Department, b, c);
      }
    }
  }

  /** Among several bound templates only those of greatest priority count: a resolved template
      is one of them and they all are that template; a conflict lists two or more. */
  lemma {:induction false} StrongestBindingDecides(s: State, uid: int, v: Verdict, c: Candidate)
    requires uid !in s.assignedTemplate && Bound(s, uid, c) && ResolvesTo(s, uid, v)
    ensures !v.Unresolved?
    ensures v.Resolved? ==> Bound(s, uid, v.best) && c.priority <= v.best.priority
    ensures v.Resolved? && c.priority == v.best.priority ==> c.id == v.best.id
    ensures v.Conflict? ==>
              |v.candidates| >= 2 && (forall x | x in v.candidates :: Bound(s, uid, x) && c.priority <= x.priority) &&
              exists x, y | x in v.candidates && y in v.candidates :: x.id != y.id
  {
    BoundCandidates(s, uid, c);
    var cs := FromRoles(s, uid) + FromDepartment(s, uid);
    assert cs != [] && Candidates(s, uid) == cs;
    VerdictSpec(cs, v);
    if v.Resolved? {
      BoundCandidates(s, uid, v.best);
      assert Top(cs, c) ==> c.id in TopIds(cs);
    }
    if v.Conflict? {
      forall x | x in v.candidates ensures Bound(s, uid, x) && c.priority <= x.priority {
        BoundCandidates(s, uid, x);
      }
      TwoIds(v.candidates);
    }
  }

  lemma {:induction false} TwoIds(cs: seq<Candidate>)
    requires |Ids(cs)| > 1
    ensures |cs| >= 2 && exists x, y | x in cs && y in cs :: x.id != y.id
  {
    var a := Pick(Ids(cs));
    var rest := Ids(cs) - {a};
    assert |{a}| == 1 && Ids(cs) != {a};
    assert rest != {};
    var b := Pick(rest);
    var x :| x in cs && x.id == a;
    var y :| y in cs && y.id == b;
    assert x.id != y.id;
    var i :| 0 <= i < |cs| && cs[i] == x;
    var j :| 0 <= j < |cs| && cs[j] == y;
    assert i != j;
  }

  /** The default: the first active template of organization 1 that is marked as default. */
  predicate IsDefault(s: State, t: Template) {
    exists i | 0 <= i < |s.templates| ::
      s.templates[i] == t && t.org == 1 && t.isDefault && t.active &&
      forall j | 0 <= j < i :: !(s.templates[j].org == 1 && s.templates[j].isDefault && s.templates[j].active)
  }

  lemma {:induction false} DefaultIs(ts: seq<Template>)
    ensures Default(ts).None? ==> forall t | t in ts :: !(t.org == 1 && t.isDefault && t.active)
    ensures Default(ts).Some? ==>
              exists i | 0 <= i < |ts| ::
                ts[i].org == 1 && ts[i].isDefault && ts[i].active &&
                Default(ts) == Some(Candidate(ts[i].id, ts[i].name, Organization, 0)) &&
                forall j | 0 <= j < i :: !(ts[j].org == 1 && ts[j].isDefault && ts[j].active)
  {
    if ts != [] && !(ts[0].org == 1 && ts[0].isDefault && ts[0].active) {
      DefaultIs(ts[1..]);
      if Default(ts).Some? {
        var rest := ts[1..];
        var i :| 0 <= i < |rest| && rest[i].org == 1 && rest[i].isDefault && rest[i].active &&
                 Default(rest) == Some(Candidate(rest[i].id, rest[i].name, Organization, 0)) &&
                 forall j | 0 <= j < i :: !(rest[j].org == 1 && rest[j].isDefault && rest[j].active);
        assert ts[i + 1] == rest[i];
        assert forall j | 0 < j < i + 1 :: ts[j] == rest[j - 1];
      }
    }
  }

  /** A user with neither an explicit nor a bound template gets the default at priority 0, and
      is unresolved exactly when there is none. */
  lemma {:induction false} DefaultForTheUnbound(s: State, uid: int, v: Verdict)
    requires uid !in s.assignedTemplate && (forall c :: !Bound(s, uid, c)) && ResolvesTo(s, uid, v)
    ensures v.Unresolved? <==> forall t | t in s.templates :: !(t.org == 1 && t.isDefault && t.active)
    ensures !v.Unresolved? ==>
              exists t | t in s.templates :: IsDefault(s, t) && v == Resolved(Candidate(t.id, t.name, Organization, 0))
  {
    var cs := FromRoles(s, uid) + FromDepartment(s, uid);
    if cs != [] {
      BoundCandidates(s, uid, cs[0]);
    }
    DefaultIs(s.templates);
    var fallback := Default(s.templates);
    if fallback.Some? {
      var i :| 0 <= i < |s.templates| &&
               s.templates[i].org == 1 && s.templates[i].isDefault && s.templates[i].active &&
               fallback == Some(Candidate(s.templates[i].id, s.templates[i].name, Organization, 0)) &&
               forall j | 0 <= j < i ::
                 !(s.templates[j].org == 1 && s.templates[j].isDefault && s.templates[j].active);
      assert s.templates[i] in s.templates && IsDefault(s, s.templates[i]);
      OnlyCandidate(fallback.value, v);
    }
  }

  lemma {:induction false} OnlyCandidate(c: Candidate, v: Verdict)
    requires Judged([c], v)
    ensures v == Resolved(c)
  {
    assert FirstMax([c], 0);
    JudgedAt([c], 0, v);
    NoOthers(c, c);
  }
}

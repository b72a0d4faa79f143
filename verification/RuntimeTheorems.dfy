/** The verdict is unique and independent of row order; role bindings beat department bindings
    only where priorities say so. */
module RuntimeTheorems {
  import opened Common
  import opened RuntimeModel

  // ----- Candidates of greatest priority -----

  predicate Top(cs: seq<Candidate>, c: Candidate) {
    c in cs && forall d | d in cs :: d.priority <= c.priority
  }

  lemma {:induction false} FirstMaxIsTop(cs: seq<Candidate>, i: nat)
    requires FirstMax(cs, i)
    ensures Top(cs, cs[i])
  {
    forall d | d in cs ensures d.priority <= cs[i].priority {
      var j :| 0 <= j < |cs| && cs[j] == d;
    }
  }

  lemma {:induction false} FirstMaxIsUnique(cs: seq<Candidate>, i: nat, j: nat)
    requires FirstMax(cs, i) && FirstMax(cs, j)
    ensures i == j
  {
    assert cs[i].priority == cs[j].priority;
  }

  lemma {:induction false} FirstMaxExists(cs: seq<Candidate>) returns (i: nat)
    requires cs != []
    ensures FirstMax(cs, i)
  {
    var n := |cs| - 1;
    if n == 0 {
      i := 0;
    } else {
      i := FirstMaxExists(cs[..n]);
      assert forall j | 0 <= j < n :: cs[..n][j] == cs[j];
      if cs[n].priority > cs[i].priority {
        i := n;
      }
    }
  }

  lemma {:induction false} OthersAre(cs: seq<Candidate>, best: Candidate)
    ensures forall x :: x in Others(cs, best) <==> x in cs && x.priority == best.priority && x.id != best.id
  {
    if cs != [] {
      OthersAre(cs[..|cs| - 1], best);
      assert cs == cs[..|cs| - 1] + [cs[|cs| - 1]];
    }
  }

  lemma {:induction false} OthersAppend(cs: seq<Candidate>, ds: seq<Candidate>, best: Candidate)
    ensures Others(cs + ds, best) == Others(cs, best) + Others(ds, best)
  {
    if ds == [] {
      assert cs + ds == cs;
    } else {
      OthersAppend(cs, ds[..|ds| - 1], best);
      assert (cs + ds)[..|cs + ds| - 1] == cs + ds[..|ds| - 1];
    }
  }

  // ----- Exactly one verdict -----

  /** Every candidate list has exactly one verdict. */
  lemma {:induction false} VerdictIsUnique(cs: seq<Candidate>) returns (v: Verdict)
    ensures Judged(cs, v)
    ensures forall u :: Judged(cs, u) ==> u == v
  {
    if cs == [] {
      v := Unresolved;
    } else {
      var i := FirstMaxExists(cs);
      v := Against(cs[i], Others(cs, cs[i]));
      forall j: nat | FirstMax(cs, j) ensures j == i {
        FirstMaxIsUnique(cs, i, j);
      }
    }
  }

  function Ids(cs: seq<Candidate>): set<int> {
    set c | c in cs :: c.id
  }

  /** The templates of greatest priority. */
  function TopIds(cs: seq<Candidate>): set<int> {
    set c | c in cs && Top(cs, c) :: c.id
  }

  lemma {:induction false} TopIdsAre(cs: seq<Candidate>, i: nat)
    requires FirstMax(cs, i)
    ensures TopIds(cs) == {cs[i].id} + Ids(Others(cs, cs[i]))
    ensures forall x | x in Others(cs, cs[i]) :: Top(cs, x) && x.id != cs[i].id
  {
    FirstMaxIsTop(cs, i);
    OthersAre(cs, cs[i]);
    forall id ensures id in TopIds(cs) <==> id == cs[i].id || id in Ids(Others(cs, cs[i])) {
      if id in TopIds(cs) {
        var c :| c in cs && Top(cs, c) && c.id == id;
        assert c.id == cs[i].id || c in Others(cs, cs[i]);
      }
      if id in Ids(Others(cs, cs[i])) {
        var c :| c in Others(cs, cs[i]) && c.id == id;
        assert c in cs && Top(cs, c);
      }
    }
  }

  lemma {:induction false} SubsetIsSmaller(a: set<int>, b: set<int>)
    requires a <= b
    ensures |a| <= |b|
  {
    assert b == a + (b - a);
  }

  predicate Fits(cs: seq<Candidate>, v: Verdict) {
    match v
    case Unresolved => cs == []
    case Resolved(best) => Top(cs, best) && TopIds(cs) == {best.id}
    case Conflict(list) =>
      list != [] && (forall x | x in list :: Top(cs, x)) && Ids(list) == TopIds(cs) && |TopIds(cs)| > 1
  }

  lemma {:induction false} AgainstFits(cs: seq<Candidate>, i: nat)
    requires FirstMax(cs, i)
    ensures Fits(cs, Against(cs[i], Others(cs, cs[i])))
  {
    var best, others := cs[i], Others(cs, cs[i]);
    FirstMaxIsTop(cs, i);
    TopIdsAre(cs, i);
    if others != [] {
      var x := others[0];
      assert x in others && x.id in Ids(others);
      SubsetIsSmaller({best.id, x.id}, TopIds(cs));
      assert Ids([best] + others) == {best.id} + Ids(others);
    }
  }

  /** Resolved means that all candidates of greatest priority name one template; conflict that
      they do not, and then exactly their templates are reported. */
  lemma {:induction false} VerdictSpec(cs: seq<Candidate>, v: Verdict)
    requires Judged(cs, v)
    ensures Fits(cs, v)
    ensures v.Unresolved? <==> |TopIds(cs)| == 0
    ensures v.Resolved? <==> |TopIds(cs)| == 1
    ensures v.Conflict? <==> |TopIds(cs)| > 1
  {
    if cs == [] {
      assert TopIds(cs) == {};
    } else {
      var i :| 0 <= i < |cs| && FirstMax(cs, i) && v == Against(cs[i], Others(cs, cs[i]));
      AgainstFits(cs, i);
    }
  }

  // ----- Row order -----

  /** Same status, same priority, same resolved template, same templates in conflict. */
  predicate SameVerdict(v: Verdict, u: Verdict) {
    match v
    case Unresolved => u.Unresolved?
    case Resolved(best) => u.Resolved? && best.id == u.best.id && best.priority == u.best.priority
    case Conflict(candidates) =>
      u.Conflict? && Ids(candidates) == Ids(u.candidates) &&
      forall x, y | x in candidates && y in u.candidates :: x.priority == y.priority
  }

  lemma {:induction false} SameElementsBothEmpty(cs: seq<Candidate>, ds: seq<Candidate>)
    requires forall c :: c in cs <==> c in ds
    ensures cs == [] <==> ds == []
  {
    assert cs != [] ==> cs[0] in ds;
    assert ds != [] ==> ds[0] in cs;
  }

  lemma {:induction false} SameElementsSameTops(cs: seq<Candidate>, ds: seq<Candidate>)
    requires forall c :: c in cs <==> c in ds
    ensures forall c :: Top(cs, c) <==> Top(ds, c)
    ensures TopIds(cs) == TopIds(ds)
  {
    forall c ensures Top(cs, c) <==> Top(ds, c) {
    }
  }

  lemma {:induction false} TopsShareThePriority(cs: seq<Candidate>, ds: seq<Candidate>, c: Candidate, d: Candidate)
    requires forall x :: Top(cs, x) <==> Top(ds, x)
    requires Top(cs, c) && Top(ds, d)
    ensures c.priority == d.priority
  {
    assert Top(cs, d);
  }

  lemma {:induction false} SameElementsSameVerdict(cs: seq<Candidate>, ds: seq<Candidate>, v: Verdict, u: Verdict)
    requires forall c :: c in cs <==> c in ds
    requires Judged(cs, v) && Judged(ds, u)
    ensures SameVerdict(v, u)
  {
    SameElementsBothEmpty(cs, ds);
    SameElementsSameTops(cs, ds);
    VerdictSpec(cs, v);
    VerdictSpec(ds, u);
    if v.Resolved? {
      TopsShareThePriority(cs, ds, v.best, u.best);
      assert u.best.id in TopIds(cs);
    }
    if v.Conflict? {
      forall x, y | x in v.candidates && y in u.candidates ensures x.priority == y.priority {
        TopsShareThePriority(cs, ds, x, y);
      }
    }
  }

  predicate Reordered(s: State, t: State) {
    t == s.(bindings := t.bindings) && multiset(t.bindings) == multiset(s.bindings)
  }

  lemma {:induction false} QueryHolds(s: State, uid: int, source: Source, bs: seq<Binding>, c: Candidate)
    ensures c in Query(s, uid, source, bs) <==> exists b | b in bs :: RowOf(s, uid, source, b) == Some(c)
  {
    if bs != [] {
      QueryHolds(s, uid, source, bs[..|bs| - 1], c);
      assert bs == bs[..|bs| - 1] + [bs[|bs| - 1]];
    }
  }

  lemma {:induction false} QueryIgnoresOrder(s: State, t: State, uid: int, source: Source)
    requires Reordered(s, t)
    ensures forall c :: c in Query(s, uid, source, s.bindings) <==> c in Query(t, uid, source, t.bindings)
  {
    forall c ensures c in Query(s, uid, source, s.bindings) <==> c in Query(t, uid, source, t.bindings) {
      QueryHolds(s, uid, source, s.bindings, c);
      QueryHolds(t, uid, source, t.bindings, c);
      assert forall b :: RowOf(t, uid, source, b) == RowOf(s, uid, source, b);
      forall b ensures b in s.bindings <==> b in t.bindings {
        assert b in s.bindings <==> b in multiset(s.bindings);
        assert b in t.bindings <==> b in multiset(t.bindings);
      }
    }
  }

  /** Status, priority and template do not depend on the order of the binding rows. */
  lemma {:induction false} BindingOrderIsIrrelevant(s: State, t: State, uid: int, v: Verdict, u: Verdict)
    requires Reordered(s, t) && ResolvesTo(s, uid, v) && ResolvesTo(t, uid, u)
    ensures SameVerdict(v, u)
  {
    if uid !in s.assignedTemplate {
      QueryIgnoresOrder(s, t, uid, Role);
      QueryIgnoresOrder(s, t, uid, Department);
      assert Dept(s, uid) == Dept(t, uid);
      var cs, ds := FromRoles(s, uid) + FromDepartment(s, uid), FromRoles(t, uid) + FromDepartment(t, uid);
      assert forall c :: c in cs <==> c in ds;
      SameElementsBothEmpty(cs, ds);
      SameElementsSameVerdict(Candidates(s, uid), Candidates(t, uid), v, u);
    }
  }

  // ----- Roles against departments -----

  /** The department row does not touch the winner: it has less priority, or the same priority
      and the same template. */
  predicate Harmless(best: Candidate, d: Candidate) {
    d.priority < best.priority || (d.priority == best.priority && d.id == best.id)
  }

  lemma {:induction false} HarmlessRowsAddNothing(rs: seq<Candidate>, ds: seq<Candidate>, i: nat)
    requires FirstMax(rs, i)
    ensures FirstMax(rs + ds, i) <==> forall d | d in ds :: d.priority <= rs[i].priority
    ensures (forall d | d in ds :: Harmless(rs[i], d)) <==>
            FirstMax(rs + ds, i) && Others(rs + ds, rs[i]) == Others(rs, rs[i])
  {
    var cs := rs + ds;
    assert forall j | 0 <= j < |rs| :: cs[j] == rs[j];
    assert forall j | |rs| <= j < |cs| :: cs[j] == ds[j - |rs|] && cs[j] in ds;
    if FirstMax(cs, i) {
      FirstMaxIsTop(cs, i);
      assert forall d | d in ds :: d in cs;
    }
    OthersAppend(rs, ds, rs[i]);
    OthersAre(ds, rs[i]);
    if Others(ds, rs[i]) != [] {
      assert Others(ds, rs[i])[0] in Others(ds, rs[i]);
    }
  }

  lemma {:induction false} JudgedAt(cs: seq<Candidate>, i: nat, v: Verdict)
    requires FirstMax(cs, i)
    ensures Judged(cs, v) <==> v == Against(cs[i], Others(cs, cs[i]))
  {
    forall j: nat | FirstMax(cs, j) ensures j == i {
      FirstMaxIsUnique(cs, i, j);
    }
  }

  lemma {:induction false} WinnerOf(v: Verdict, best: Candidate, others: seq<Candidate>)
    requires v == Against(best, others)
    ensures v == Resolved(best) || (v.Conflict? && v.candidates[0] == best && v.candidates[1..] == others)
  {
  }

  lemma {:induction false} VerdictStaysIff(rs: seq<Candidate>, ds: seq<Candidate>, i: nat, v: Verdict, u: Verdict)
    requires FirstMax(rs, i) && Judged(rs, v) && Judged(rs + ds, u)
    ensures u == v <==> forall d | d in ds :: Harmless(rs[i], d)
  {
    var cs := rs + ds;
    HarmlessRowsAddNothing(rs, ds, i);
    JudgedAt(rs, i, v);
    WinnerOf(v, rs[i], Others(rs, rs[i]));
    if FirstMax(cs, i) {
      assert cs[i] == rs[i];
      JudgedAt(cs, i, u);
      WinnerOf(u, rs[i], Others(cs, rs[i]));
    } else {
      var d :| d in ds && d.priority > rs[i].priority;
      assert d in cs;
      var j := FirstMaxExists(cs);
      FirstMaxIsTop(cs, j);
      JudgedAt(cs, j, u);
      WinnerOf(u, cs[j], Others(cs, cs[j]));
    }
  }

  /** For a user without an explicit template and with role bindings, the department bindings
      leave the verdict on the role bindings alone exactly when each of them is harmless to
      the role winner. */
  lemma {:induction false} RoleDecidesIff(s: State, uid: int, i: nat)
    requires uid !in s.assignedTemplate && FirstMax(FromRoles(s, uid), i)
    ensures forall v, u | Judged(FromRoles(s, uid), v) && ResolvesTo(s, uid, u) ::
              u == v <==> forall d | d in FromDepartment(s, uid) :: Harmless(FromRoles(s, uid)[i], d)
  {
    var rs, ds := FromRoles(s, uid), FromDepartment(s, uid);
    assert rs + ds != [] && Candidates(s, uid) == rs + ds;
    forall v, u | Judged(rs, v) && ResolvesTo(s, uid, u)
      ensures u == v <==> forall d | d in ds :: Harmless(rs[i], d)
    {
      VerdictStaysIff(rs, ds, i, v, u);
    }
  }

  /** Documented order is role before department. A department binding above every role
      binding wins all the same. */
  lemma {:induction false} DepartmentCanBeatRole(s: State, uid: int, v: Verdict, d: Candidate)
    requires uid !in s.assignedTemplate && ResolvesTo(s, uid, v)
    requires d in FromDepartment(s, uid) && forall r | r in FromRoles(s, uid) :: r.priority < d.priority
    ensures v.Resolved? ==> v.best in FromDepartment(s, uid)
    ensures v.Conflict? ==> forall x | x in v.candidates :: x in FromDepartment(s, uid)
  {
    var cs := Candidates(s, uid);
    assert d in cs;
    VerdictSpec(cs, v);
    assert forall c | Top(cs, c) :: c in FromDepartment(s, uid);
  }

  lemma {:induction false} SingleRow(s: State, uid: int, source: Source, bs: seq<Binding>, i: nat, c: Candidate)
    requires i < |bs| && RowOf(s, uid, source, bs[i]) == Some(c)
    requires forall j | 0 <= j < |bs| && j != i :: RowOf(s, uid, source, bs[j]) == None
    ensures Query(s, uid, source, bs) == [c]
  {
    var front := bs[..|bs| - 1];
    if i == |bs| - 1 {
      NoRows(s, uid, source, front);
    } else {
      SingleRow(s, uid, source, front, i, c);
    }
  }

  lemma {:induction false} NoRows(s: State, uid: int, source: Source, bs: seq<Binding>)
    requires forall j | 0 <= j < |bs| :: RowOf(s, uid, source, bs[j]) == None
    ensures Query(s, uid, source, bs) == []
  {
    if bs != [] {
      NoRows(s, uid, source, bs[..|bs| - 1]);
    }
  }

  /** The smallest tables: a user with a role bound to one template at priority 5 and in a
      department bound to another at priority 9. */
  predicate RoleAndDepartment(s: State, uid: int, r: Template, d: Template) {
    s.templates == [r, d] && r.id != d.id && r.active && d.active &&
    s.bindings == [Binding(r.id, Role, Some(7), None, 5), Binding(d.id, Department, None, Some(3), 9)] &&
    s.roleBindings == [(uid, 7)] && s.departments == map[uid := 3] && uid !in s.assignedTemplate
  }

  lemma {:induction false} CandidatesHere(s: State, uid: int, r: Template, d: Template)
    requires RoleAndDepartment(s, uid, r, d)
    ensures FromRoles(s, uid) == [Candidate(r.id, r.name, Role, 5)]
    ensures FromDepartment(s, uid) == [Candidate(d.id, d.name, Department, 9)]
  {
    assert ById([r, d], r.id) == Some(r) && ById([r, d], d.id) == Some(d) by {
      assert [r, d][1..] == [d];
    }
    SingleRow(s, uid, Role, s.bindings, 0, Candidate(r.id, r.name, Role, 5));
    SingleRow(s, uid, Department, s.bindings, 1, Candidate(d.id, d.name, Department, 9));
  }

  lemma {:induction false} DepartmentBeatsRoleHere(s: State, uid: int, r: Template, d: Template, v: Verdict)
    requires RoleAndDepartment(s, uid, r, d) && ResolvesTo(s, uid, v)
    ensures FromRoles(s, uid) == [Candidate(r.id, r.name, Role, 5)]
    ensures v == Resolved(Candidate(d.id, d.name, Department, 9))
  {
    CandidatesHere(s, uid, r, d);
    var low, high := Candidate(r.id, r.name, Role, 5), Candidate(d.id, d.name, Department, 9);
    assert Candidates(s, uid) == [low] + [high] == [low, high];
    VerdictHere([low, high], low, high, v);
  }

  lemma {:induction false} NoOthers(c: Candidate, best: Candidate)
    requires c.priority < best.priority || c.id == best.id
    ensures Others([c], best) == []
  {
    assert [c][..|[c]| - 1] == [];
  }

  lemma {:induction false} VerdictHere(cs: seq<Candidate>, low: Candidate, high: Candidate, v: Verdict)
    requires cs == [low, high] && low.priority < high.priority && Judged(cs, v)
    ensures v == Resolved(high)
  {
    assert FirstMax(cs, 1);
    JudgedAt(cs, 1, v);
    OthersAppend([low], [high], high);
    NoOthers(low, high);
    NoOthers(high, high);
    assert cs == [low] + [high];
  }
}

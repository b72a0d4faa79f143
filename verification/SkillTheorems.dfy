/** Blocked always wins, installs never undo it, and row order matters only between policies
    of equal priority. */
module SkillTheorems {
  import opened SkillModel

  predicate Known(policy: string) {
    policy in {"blocked", "mandatory", "explicit", "default", "optional"}
  }

  lemma {:induction false} PriorityIsInjective(p: string, q: string)
    requires Priority(p) == Priority(q) && Known(p)
    ensures p == q
  {
  }

  // ----- The merged policy -----

  lemma {:induction false} LastTopIsTop(cs: seq<Contribution>, id: int, i: nat)
    requires LastTop(cs, id, i)
    ensures Top(cs, id, cs[i])
  {
    forall d | d in cs && d.skill == id ensures Priority(d.policy) <= Priority(cs[i].policy) {
      var j :| 0 <= j < |cs| && cs[j] == d;
    }
  }

  lemma {:induction false} LastTopExists(cs: seq<Contribution>, id: int) returns (i: nat)
    requires Named(cs, id)
    ensures LastTop(cs, id, i)
  {
    var n := |cs| - 1;
    var front := cs[..n];
    if Named(front, id) {
      i := LastTopExists(front, id);
      assert forall j | 0 <= j < n :: front[j] == cs[j];
      if cs[n].skill == id && Priority(cs[n].policy) >= Priority(cs[i].policy) {
        i := n;
      }
    } else {
      assert forall j | 0 <= j < n :: cs[j] == front[j] && cs[j] in front;
      i := n;
    }
  }

  /** Each merged item carries the greatest policy among the contributions to its skill, and
      for the five known policies that greatest policy is the only one of its priority. */
  lemma {:induction false} MergedPolicyIsMaximum(s: State, cs: seq<Contribution>, items: seq<Item>, x: Item)
    requires Merged(s, cs, items) && x in items
    ensures exists c | c in cs :: c.skill == x.id && c.policy == x.policy && c.source == x.source
    ensures forall c | c in cs && c.skill == x.id ::
              Priority(c.policy) <= Priority(x.policy) &&
              (Known(x.policy) && c.policy != x.policy ==> Priority(c.policy) < Priority(x.policy))
  {
    var i :| 0 <= i < |cs| && LastTop(cs, x.id, i) && x == ItemOf(cs[i]);
    LastTopIsTop(cs, x.id, i);
    forall c | c in cs && c.skill == x.id && Known(x.policy) && c.policy != x.policy
      ensures Priority(c.policy) < Priority(x.policy)
    {
      if Priority(c.policy) == Priority(x.policy) {
        PriorityIsInjective(x.policy, c.policy);
      }
    }
  }

  /** A merged skill is disabled exactly when some contribution blocks it. */
  lemma {:induction false} DisabledIffBlocked(s: State, cs: seq<Contribution>, items: seq<Item>, x: Item)
    requires Merged(s, cs, items) && x in items
    ensures !x.enabled <==> Blocked(cs, x.id)
  {
    var i :| 0 <= i < |cs| && LastTop(cs, x.id, i) && x == ItemOf(cs[i]);
    LastTopIsTop(cs, x.id, i);
    assert cs[i] in cs;
    if Blocked(cs, x.id) {
      var c :| c in cs && c.skill == x.id && c.policy == "blocked";
      assert Priority(c.policy) == 5;
      PriorityIsInjective(c.policy, cs[i].policy);
    }
  }

  // ----- The effective configuration -----

  predicate Enabled(items: seq<Item>, id: int) {
    exists x | x in items :: x.id == id && x.enabled
  }

  lemma {:induction false} BaseItemStands(s: State, profile: int, base: seq<Item>, out: seq<Item>, x: Item)
    requires Extended(s, profile, base, out) && x in out && Lists(base, x.id)
    ensures x in base
  {
    var y :| y in base && y.id == x.id;
    var i :| 0 <= i < |base| && base[i] == y;
    var j :| 0 <= j < |out| && out[j] == x;
    assert out[i] == base[i];
  }

  /** A skill is enabled for the profile exactly when it is in the catalog, something
      contributes or installs it, and nothing blocks it. */
  lemma {:induction false} EnabledIff(s: State, p: Target, out: seq<Item>, id: int)
    requires Effective(s, p, out)
    ensures var cs := Contributions(s, p);
            Enabled(out, id) <==>
              InCatalog(s, id) && !Blocked(cs, id) && (Named(cs, id) || Installed(s, p.profile, id))
    ensures forall i, j | 0 <= i < j < |out| :: out[i].id != out[j].id
  {
    var base :| Merged(s, Contributions(s, p), base) && Extended(s, p.profile, base, out);
    EnabledInExtended(s, p.profile, Contributions(s, p), base, out, id);
  }

  lemma {:induction false} EnabledInExtended(
      s: State, profile: int, cs: seq<Contribution>, base: seq<Item>, out: seq<Item>, id: int)
    requires Merged(s, cs, base) && Extended(s, profile, base, out)
    ensures Enabled(out, id) <==>
            InCatalog(s, id) && !Blocked(cs, id) && (Named(cs, id) || Installed(s, profile, id))
  {
    if Enabled(out, id) {
      var x :| x in out && x.id == id && x.enabled;
      if Lists(base, id) {
        BaseItemStands(s, profile, base, out, x);
        DisabledIffBlocked(s, cs, base, x);
        var i :| 0 <= i < |cs| && LastTop(cs, id, i) && x == ItemOf(cs[i]);
        assert cs[i] in cs;
      } else {
        var k :| 0 <= k < |out| && out[k] == x;
        assert forall i | 0 <= i < |base| :: base[i] in base && out[i] == base[i];
        var i :| 0 <= i < |s.installs| && FirstFor(s, profile, i) && x == InstallItem(s.installs[i]);
        assert s.installs[i] in s.installs;
      }
    }
    if InCatalog(s, id) && !Blocked(cs, id) && (Named(cs, id) || Installed(s, profile, id)) {
      if Lists(base, id) {
        var x :| x in base && x.id == id;
        DisabledIffBlocked(s, cs, base, x);
        assert x in out by {
          var k :| 0 <= k < |base| && base[k] == x;
          assert out[k] == x;
        }
      } else {
        assert !Named(cs, id);
        assert Lists(out, id);
        var x :| x in out && x.id == id;
        var k :| 0 <= k < |out| && out[k] == x;
        assert forall i | 0 <= i < |base| :: base[i] in base && out[i] == base[i];
        assert Appended(s, profile, out[k]);
      }
    }
  }

  // ----- Row order -----

  predicate Reordered(s: State, t: State) {
    t == s.(assignments := t.assignments) && multiset(t.assignments) == multiset(s.assignments)
  }

  /** All assignments of top priority for the skill name the same policy. */
  ghost predicate AssignedTopsAgree(s: State, p: Target, id: int) {
    var cs, b := Contributions(s, p), FromAssignments(s, p, s.assignments);
    forall x, y | x in b && y in b && Top(cs, id, x) && Top(cs, id, y) :: x.policy == y.policy
  }

  /** Whatever order the assignment rows come in, the skill's policy is the same. */
  ghost predicate OrderIsIrrelevant(s: State, p: Target, id: int) {
    forall t, i: nat, j: nat |
      Reordered(s, t) && LastTop(Contributions(s, p), id, i) && LastTop(Contributions(t, p), id, j) ::
      Contributions(s, p)[i].policy == Contributions(t, p)[j].policy
  }

  lemma {:induction false} AssignmentsOf(s: State, p: Target, rows: seq<Assignment>, c: Contribution)
    ensures c in FromAssignments(s, p, rows) <==>
            exists a | a in rows :: Applies(s, p, a) && c == Contribution(a.skill, a.policy, a.scope)
  {
    if rows != [] {
      var front, a := rows[..|rows| - 1], rows[|rows| - 1];
      AssignmentsOf(s, p, front, c);
      assert rows == front + [a];
    }
  }

  lemma {:induction false} OtherFieldsDecide(s: State, t: State, p: Target, rows: seq<Assignment>)
    requires t == s.(assignments := t.assignments)
    ensures FromAssignments(t, p, rows) == FromAssignments(s, p, rows)
  {
    if rows != [] {
      OtherFieldsDecide(s, t, p, rows[..|rows| - 1]);
    }
  }

  lemma {:induction false} TemplateIgnoresAssignments(s: State, t: State, tpl: Template, n: nat, source: string)
    requires t == s.(assignments := t.assignments) && n <= |tpl.skills|
    ensures FromTemplate(t, tpl, n, source) == FromTemplate(s, tpl, n, source)
  {
    if n > 0 {
      TemplateIgnoresAssignments(s, t, tpl, n - 1, source);
    }
  }

  /** Reordering keeps the template part in place and permutes the assigned part. */
  lemma {:induction false} ReorderingPermutes(s: State, t: State, p: Target)
    requires Reordered(s, t)
    ensures TemplatePart(t, p) == TemplatePart(s, p)
    ensures forall c :: c in FromAssignments(t, p, t.assignments) <==> c in FromAssignments(s, p, s.assignments)
  {
    if p.template.Some? && p.template.value in s.templates {
      var tpl := s.templates[p.template.value];
      TemplateIgnoresAssignments(s, t, tpl, |tpl.skills|, p.templateName);
    }
    OtherFieldsDecide(s, t, p, t.assignments);
    forall c ensures c in FromAssignments(t, p, t.assignments) <==> c in FromAssignments(s, p, s.assignments) {
      AssignmentsOf(s, p, t.assignments, c);
      AssignmentsOf(s, p, s.assignments, c);
      forall a ensures a in t.assignments <==> a in s.assignments {
        assert a in t.assignments <==> a in multiset(t.assignments);
        assert a in s.assignments <==> a in multiset(s.assignments);
      }
    }
  }

  /** Two lists with the same head part and the same elements behind it have the same tops. */
  lemma {:induction false} SameTops(a: seq<Contribution>, b: seq<Contribution>, c: seq<Contribution>, id: int)
    requires forall x :: x in b <==> x in c
    ensures forall x :: Top(a + b, id, x) <==> Top(a + c, id, x)
  {
    assert forall x :: x in a + b <==> x in a + c;
  }

  /** The deciding contribution is an assignment whenever some assignment is a top one. */
  lemma {:induction false} AssignedTopDecides(
      a: seq<Contribution>, b: seq<Contribution>, id: int, i: nat, x: Contribution)
    requires LastTop(a + b, id, i) && x in b && Top(a + b, id, x)
    ensures (a + b)[i] in b
  {
    var j :| 0 <= j < |b| && b[j] == x;
    assert (a + b)[|a| + j] == x;
    assert (a + b)[i] in a + b;
  }

  lemma {:induction false} AgreeingTopsFixPolicy(
      a: seq<Contribution>, b: seq<Contribution>, c: seq<Contribution>, id: int, i: nat, j: nat)
    requires forall x :: x in b <==> x in c
    requires forall x, y | x in b && y in b && Top(a + b, id, x) && Top(a + b, id, y) :: x.policy == y.policy
    requires LastTop(a + b, id, i) && LastTop(a + c, id, j)
    ensures (a + b)[i].policy == (a + c)[j].policy
  {
    SameTops(a, b, c, id);
    LastTopIsTop(a + b, id, i);
    LastTopIsTop(a + c, id, j);
    if x :| x in b && Top(a + b, id, x) {
      AssignedTopDecides(a, b, id, i, x);
      AssignedTopDecides(a, c, id, j, x);
    } else {
      assert forall k | |a| <= k < |a + b| :: (a + b)[k] in b;
      assert forall k | |a| <= k < |a + c| :: (a + c)[k] in c;
      assert (a + b)[j] == a[j] && (a + c)[i] == a[i];
    }
  }

  lemma {:induction false} MovedToEnd(rows: seq<Assignment>, k: nat)
    requires k < |rows|
    ensures multiset(rows[..k] + rows[k + 1..] + [rows[k]]) == multiset(rows)
  {
    assert rows == rows[..k] + [rows[k]] + rows[k + 1..];
  }

  lemma {:induction false} FinalTopDecides(cs: seq<Contribution>, id: int, x: Contribution)
    requires Top(cs, id, x) && cs[|cs| - 1] == x
    ensures LastTop(cs, id, |cs| - 1)
  {
    assert forall i | 0 <= i < |cs| :: cs[i] in cs;
  }

  lemma {:induction false} LastRowContributesLast(t: State, p: Target, others: seq<Assignment>, a: Assignment)
    requires t.assignments == others + [a] && Applies(t, p, a)
    ensures var cs := Contributions(t, p);
            cs != [] && cs[|cs| - 1] == Contribution(a.skill, a.policy, a.scope)
  {
    assert t.assignments[..|others|] == others;
  }

  /** Moving the row behind a top contribution to the end makes it decide. */
  lemma {:induction false} LastRowDecides(s: State, p: Target, id: int, x: Contribution) returns (t: State, j: nat)
    requires x in FromAssignments(s, p, s.assignments) && Top(Contributions(s, p), id, x)
    ensures Reordered(s, t) && LastTop(Contributions(t, p), id, j) && Contributions(t, p)[j] == x
  {
    AssignmentsOf(s, p, s.assignments, x);
    var a :| a in s.assignments && Applies(s, p, a) && x == Contribution(a.skill, a.policy, a.scope);
    var k :| 0 <= k < |s.assignments| && s.assignments[k] == a;
    var others := s.assignments[..k] + s.assignments[k + 1..];
    t := s.(assignments := others + [a]);
    MovedToEnd(s.assignments, k);
    ReorderingPermutes(s, t, p);
    SameTops(TemplatePart(s, p), FromAssignments(s, p, s.assignments), FromAssignments(t, p, t.assignments), id);
    LastRowContributesLast(t, p, others, a);
    j := |Contributions(t, p)| - 1;
    FinalTopDecides(Contributions(t, p), id, x);
  }

  /** The policy of a skill is the same for every order of the assignment rows exactly when
      the assignments of top priority agree. */
  lemma {:induction false} RowOrderIsIrrelevantIff(s: State, p: Target, id: int)
    ensures OrderIsIrrelevant(s, p, id) <==> AssignedTopsAgree(s, p, id)
  {
    var cs, b := Contributions(s, p), FromAssignments(s, p, s.assignments);
    if AssignedTopsAgree(s, p, id) {
      forall t, i: nat, j: nat | Reordered(s, t) && LastTop(cs, id, i) && LastTop(Contributions(t, p), id, j)
        ensures cs[i].policy == Contributions(t, p)[j].policy
      {
        ReorderingPermutes(s, t, p);
        AgreeingTopsFixPolicy(TemplatePart(s, p), b, FromAssignments(t, p, t.assignments), id, i, j);
      }
    }
    if OrderIsIrrelevant(s, p, id) {
      forall x, y | x in b && y in b && Top(cs, id, x) && Top(cs, id, y) ensures x.policy == y.policy {
        assert Named(cs, id);
        var i := LastTopExists(cs, id);
        var t, j := LastRowDecides(s, p, id, x);
        var u, k := LastRowDecides(s, p, id, y);
        assert cs[i].policy == Contributions(t, p)[j].policy;
        assert cs[i].policy == Contributions(u, p)[k].policy;
      }
    }
  }

  /** So with the five known policies the order never matters. */
  lemma {:induction false} KnownPoliciesIgnoreOrder(s: State, p: Target, id: int)
    requires forall c | c in FromAssignments(s, p, s.assignments) && c.skill == id :: Known(c.policy)
    ensures OrderIsIrrelevant(s, p, id)
  {
    var cs, b := Contributions(s, p), FromAssignments(s, p, s.assignments);
    forall x, y | x in b && y in b && Top(cs, id, x) && Top(cs, id, y) ensures x.policy == y.policy {
      PriorityIsInjective(x.policy, y.policy);
    }
    RowOrderIsIrrelevantIff(s, p, id);
  }
}

/** The skill policies in their order of strength, where they come from, and what an installed
    skill looks like, in terms of the tables alone. */
module SkillOrder {
  import opened Common
  import opened SkillModel
  import opened SkillTheorems

  // ----- Where contributions come from -----

  /** The template of the target lists a name of the skill, which is the first in the catalog
      with it, and has this policy for the name, or none and the policy is default. */
  predicate TemplateSays(s: State, p: Target, id: int, policy: string) {
    p.template.Some? && p.template.value in s.templates &&
    var t := s.templates[p.template.value];
    exists i | 0 <= i < |t.skills| ::
      FirstCalled(s, t.skills[i], id) &&
      policy == if t.skills[i] !in t.policies || t.policies[t.skills[i]] == "" then "default"
                else t.policies[t.skills[i]]
  }

  predicate Called(k: Skill, name: string) {
    k.name == name || k.display == name
  }

  predicate CalledFirst(catalog: seq<Skill>, i: nat, name: string, id: int) {
    i < |catalog| && catalog[i].id == id && Called(catalog[i], name) &&
    forall j | 0 <= j < i :: !Called(catalog[j], name)
  }

  predicate FirstCalled(s: State, name: string, id: int) {
    exists i | 0 <= i < |s.catalog| :: CalledFirst(s.catalog, i, name, id)
  }

  /** An assignment of the skill to the target's organization, department, user, profile, or to
      a role of the user; a missing department matches no assignment. */
  predicate AssignmentSays(s: State, p: Target, id: int, policy: string, scope: string) {
    exists a | a in s.assignments ::
      a.skill == id && a.policy == policy && a.scope == scope &&
      (a.org == Some(p.org) || (a.dept == Some(p.dept) && p.dept != 0) || a.user == Some(p.user) ||
       a.profile == Some(p.profile) || (a.role.Some? && (p.user, a.role.value) in s.roleBindings))
  }

  lemma {:induction false} LookupIs(catalog: seq<Skill>, name: string, id: int)
    ensures Lookup(catalog, name) == Some(id) <==> exists i | 0 <= i < |catalog| :: CalledFirst(catalog, i, name, id)
  {
    if catalog != [] {
      var rest := catalog[1..];
      LookupIs(rest, name, id);
      if Called(catalog[0], name) {
        assert CalledFirst(catalog, 0, name, catalog[0].id);
      } else {
        forall i | 0 <= i < |rest| ensures CalledFirst(rest, i, name, id) <==> CalledFirst(catalog, i + 1, name, id) {
          CalledLater(catalog, i, name, id);
        }
        if i :| 0 <= i < |catalog| && CalledFirst(catalog, i, name, id) {
          assert CalledFirst(rest, i - 1, name, id);
        }
      }
    }
  }

  lemma {:induction false} CalledLater(catalog: seq<Skill>, i: nat, name: string, id: int)
    requires i + 1 < |catalog| && !Called(catalog[0], name)
    ensures CalledFirst(catalog[1..], i, name, id) <==> CalledFirst(catalog, i + 1, name, id)
  {
    if CalledFirst(catalog[1..], i, name, id) {
      forall j | 0 <= j < i + 1 ensures !Called(catalog[j], name) {
        assert j > 0 ==> catalog[1..][j - 1] == catalog[j];
      }
    }
  }

  lemma {:induction false} TemplateContributions(s: State, t: Template, n: nat, source: string, c: Contribution)
    requires n <= |t.skills|
    ensures c in FromTemplate(s, t, n, source) <==>
              c.source == source && exists i | 0 <= i < n ::
                FirstCalled(s, t.skills[i], c.skill) &&
                c.policy == if t.skills[i] !in t.policies || t.policies[t.skills[i]] == "" then "default"
                            else t.policies[t.skills[i]]
  {
    if n > 0 {
      TemplateContributions(s, t, n - 1, source, c);
      LookupIs(s.catalog, t.skills[n - 1], c.skill);
    }
  }

  /** The contributions are exactly what the template and the assignments say. */
  lemma {:induction false} ContributionsAre(s: State, p: Target, c: Contribution)
    ensures c in Contributions(s, p) <==>
              (TemplateSays(s, p, c.skill, c.policy) && c.source == p.templateName) ||
              AssignmentSays(s, p, c.skill, c.policy, c.source)
  {
    AssignmentsOf(s, p, s.assignments, c);
    if p.template.Some? && p.template.value in s.templates {
      var t := s.templates[p.template.value];
      TemplateContributions(s, t, |t.skills|, p.templateName, c);
    }
  }

  // ----- The strongest policy -----

  /** Some contribution to the skill carries the policy. */
  predicate Says(cs: seq<Contribution>, id: int, policy: string) {
    exists c | c in cs :: c.skill == id && c.policy == policy
  }

  /** The first of the five policies that some contribution to the skill carries. */
  function Strongest(cs: seq<Contribution>, id: int): string {
    if Says(cs, id, "blocked") then "blocked"
    else if Says(cs, id, "mandatory") then "mandatory"
    else if Says(cs, id, "explicit") then "explicit"
    else if Says(cs, id, "default") then "default"
    else "optional"
  }

  lemma {:induction false} Strengths()
    ensures Priority("blocked") > Priority("mandatory") > Priority("explicit")
    ensures Priority("explicit") > Priority("default") > Priority("optional") > 0
    ensures forall p | !Known(p) :: Priority(p) == 0
  {
  }

  lemma {:induction false} TopIsStrongest(cs: seq<Contribution>, id: int, c: Contribution)
    requires Top(cs, id, c) && Known(c.policy)
    ensures c.policy == Strongest(cs, id)
  {
    Strengths();
    assert Says(cs, id, c.policy);
    var best := Strongest(cs, id);
    if best != c.policy {
      assert Says(cs, id, best);
      var d :| d in cs && d.skill == id && d.policy == best;
      assert Priority(best) <= Priority(c.policy);
    }
  }

  /** A skill with some known policy among its contributions carries the first of blocked,
      mandatory, explicit, default and optional that occurs; unknown policies yield to it. */
  lemma {:induction false} StrongestPolicyWins(s: State, cs: seq<Contribution>, items: seq<Item>, x: Item)
    requires Merged(s, cs, items) && x in items
    requires exists c | c in cs :: c.skill == x.id && Known(c.policy)
    ensures x.policy == Strongest(cs, x.id)
    ensures x.policy == "blocked" <==> Says(cs, x.id, "blocked")
    ensures x.policy == "mandatory" <==> Says(cs, x.id, "mandatory") && !Says(cs, x.id, "blocked")
  {
    var i :| 0 <= i < |cs| && LastTop(cs, x.id, i) && x == ItemOf(cs[i]);
    LastTopIsTop(cs, x.id, i);
    var c :| c in cs && c.skill == x.id && Known(c.policy);
    Strengths();
    KnownIsPositive(c.policy);
    KnownIsPositive(cs[i].policy);
    TopIsStrongest(cs, x.id, cs[i]);
  }

  lemma {:induction false} KnownIsPositive(policy: string)
    ensures Known(policy) <==> Priority(policy) > 0
  {
  }

  /** A skill without any known policy takes the last contribution as it is. */
  lemma {:induction false} UnknownPoliciesTakeTheLast(s: State, cs: seq<Contribution>, items: seq<Item>, x: Item)
    requires Merged(s, cs, items) && x in items
    requires forall c | c in cs && c.skill == x.id :: !Known(c.policy)
    ensures exists i | 0 <= i < |cs| ::
              cs[i].skill == x.id && x == Item(x.id, cs[i].policy, cs[i].source, true, None) &&
              forall j | i < j < |cs| :: cs[j].skill != x.id
  {
    var i :| 0 <= i < |cs| && LastTop(cs, x.id, i) && x == ItemOf(cs[i]);
    Strengths();
    assert forall j | 0 <= j < |cs| :: cs[j] in cs;
  }

  /** The source shown is that of the last contribution with the merged policy, and the item is
      enabled unless that policy is blocked. */
  lemma {:induction false} SourceShown(s: State, cs: seq<Contribution>, items: seq<Item>, x: Item)
    requires Merged(s, cs, items) && x in items
    ensures exists i | 0 <= i < |cs| ::
              cs[i].skill == x.id && x == Item(x.id, cs[i].policy, cs[i].source, cs[i].policy != "blocked", None) &&
              forall j | i < j < |cs| && cs[j].skill == x.id :: cs[j].policy != x.policy
  {
    var i :| 0 <= i < |cs| && LastTop(cs, x.id, i) && x == ItemOf(cs[i]);
  }

  // ----- The whole configuration -----

  /** The five policies decide, tables in hand: an item of the effective configuration is either
      merged from template and assignments, or an explicit one for an installed skill that
      neither of them names. */
  lemma {:induction false} EffectiveItems(s: State, p: Target, out: seq<Item>, x: Item)
    requires Effective(s, p, out) && x in out
    ensures exists k | k in s.catalog :: k.id == x.id
    ensures (exists c | c in Contributions(s, p) :: c.skill == x.id) ==> x.version == None
    ensures !(exists c | c in Contributions(s, p) :: c.skill == x.id) ==>
              x.policy == "explicit" && x.source == "profile_install" && x.enabled &&
              exists row | row in s.installs ::
                row.profile == p.profile && row.skill == x.id && row.status == "installed" &&
                row.version.Some? && x.version == row.version
  {
    var cs := Contributions(s, p);
    var base :| Merged(s, cs, base) && Extended(s, p.profile, base, out);
    if Lists(base, x.id) {
      BaseItemStands(s, p.profile, base, out, x);
      SourceShown(s, cs, base, x);
      var i :| 0 <= i < |cs| && cs[i].skill == x.id;
      assert cs[i] in cs;
    } else {
      var k :| 0 <= k < |out| && out[k] == x;
      assert forall i | 0 <= i < |base| :: base[i] in base && out[i] == base[i];
      assert Appended(s, p.profile, out[k]);
      var i :| 0 <= i < |s.installs| && FirstFor(s, p.profile, i) && x == InstallItem(s.installs[i]);
      assert s.installs[i] in s.installs && InCatalog(s, x.id);
      assert forall c | c in cs && InCatalog(s, c.skill) :: Lists(base, c.skill);
    }
  }
}

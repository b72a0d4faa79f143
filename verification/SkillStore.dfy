/** The effective skill queries as they run. */
module SkillStore {
  import opened Common
  import opened SkillModel

  datatype Value = Value(item: Item, priority: nat)

  /** The values map holds, for each named skill of the catalog, its last top contribution. */
  ghost predicate Holds(s: State, cs: seq<Contribution>, values: map<int, Value>) {
    (forall id :: id in values <==> InCatalog(s, id) && Named(cs, id)) &&
    forall id | id in values :: values[id].item.id == id && Decided(cs, values[id].item) &&
                                values[id].priority == Priority(values[id].item.policy)
  }

  /** Behind an earlier top contribution a new one decides unless it has less priority. */
  lemma {:induction false} DecidedAppend(cs: seq<Contribution>, c: Contribution, x: Item)
    requires Decided(cs, x)
    ensures c.skill != x.id || Priority(c.policy) < Priority(x.policy) ==> Decided(cs + [c], x)
    ensures c.skill == x.id && Priority(c.policy) >= Priority(x.policy) ==> Decided(cs + [c], ItemOf(c))
  {
    var i :| 0 <= i < |cs| && LastTop(cs, x.id, i) && x == ItemOf(cs[i]);
    var ds := cs + [c];
    assert forall j | 0 <= j < |cs| :: ds[j] == cs[j];
    if c.skill == x.id && Priority(c.policy) >= Priority(x.policy) {
      assert LastTop(ds, x.id, |cs|);
    } else {
      assert LastTop(ds, x.id, i);
    }
  }

  lemma {:induction false} DecidedFirst(cs: seq<Contribution>, c: Contribution)
    requires !Named(cs, c.skill)
    ensures Decided(cs + [c], ItemOf(c))
  {
    var ds := cs + [c];
    assert forall j | 0 <= j < |cs| :: ds[j] == cs[j] && cs[j] in cs;
    assert LastTop(ds, c.skill, |cs|);
  }

  lemma {:induction false} ListsAppend(items: seq<Item>, x: Item)
    ensures forall id :: Lists(items + [x], id) <==> Lists(items, id) || id == x.id
  {
    assert x in items + [x];
  }

  lemma {:induction false} ListedIsMerged(
      s: State, cs: seq<Contribution>, values: map<int, Value>, out: seq<Item>)
    requires Holds(s, cs, values)
    requires forall i | 0 <= i < |out| :: out[i].id in values && out[i] == values[out[i].id].item
    requires forall i, j | 0 <= i < j < |out| :: out[i].id != out[j].id
    requires forall id | id in values :: Lists(out, id)
    ensures Merged(s, cs, out)
  {
  }

  class Server {
    var catalog: seq<Skill>
    var templates: map<int, Template>
    var assignments: seq<Assignment>
    var roleBindings: seq<(int, int)>
    var installs: seq<Install>

    function View(): State
      reads this
    {
      State(catalog, templates, assignments, roleBindings, installs)
    }

    /** The closure `add`; cs are the contributions added so far. */
    method Add(ghost cs: seq<Contribution>, values: map<int, Value>, c: Contribution)
      returns (next: map<int, Value>)
      requires Holds(View(), cs, values)
      ensures Holds(View(), cs + [c], next)
    {
      ghost var ds := cs + [c];
      assert forall id :: Named(ds, id) <==> Named(cs, id) || id == c.skill;
      assert forall id | id in values :: DecidedWhere(cs, c, values[id].item) by {
        forall id | id in values ensures DecidedWhere(cs, c, values[id].item) {
          DecidedAppend(cs, c, values[id].item);
        }
      }
      if !exists k | k in catalog :: k.id == c.skill {
        return values;
      }
      var p := Priority(c.policy);
      if c.skill in values && values[c.skill].priority > p {
        return values;
      }
      if c.skill !in values {
        DecidedFirst(cs, c);
      }
      next := values[c.skill := Value(Item(c.skill, c.policy, c.source, c.policy != "blocked", None), p)];
    }

    ghost predicate DecidedWhere(cs: seq<Contribution>, c: Contribution, x: Item) {
      (c.skill != x.id || Priority(c.policy) < Priority(x.policy) ==> Decided(cs + [c], x)) &&
      (c.skill == x.id && Priority(c.policy) >= Priority(x.policy) ==> Decided(cs + [c], ItemOf(c)))
    }

    /** `SELECT id FROM skills WHERE name=? OR display_name=?` */
    method FindSkill(name: string) returns (id: Option<int>)
      ensures id == Lookup(catalog, name)
    {
      for i := 0 to |catalog|
        invariant Lookup(catalog, name) == Lookup(catalog[i..], name)
      {
        if catalog[i].name == name || catalog[i].display == name {
          return Some(catalog[i].id);
        }
      }
      return None;
    }

    method EffectiveSkills(p: Target) returns (out: seq<Item>)
      ensures Merged(View(), Contributions(View(), p), out)
    {
      var values: map<int, Value> := map[];
      ghost var cs: seq<Contribution> := [];
      if p.template.Some? && p.template.value in templates {
        var t := templates[p.template.value];
        for i := 0 to |t.skills|
          invariant cs == FromTemplate(View(), t, i, p.templateName)
          invariant Holds(View(), cs, values)
        {
          var name := t.skills[i];
          var id := FindSkill(name);
          if id.Some? {
            var policy := if name in t.policies then t.policies[name] else "";
            if policy == "" {
              policy := "default";
            }
            values := Add(cs, values, Contribution(id.value, policy, p.templateName));
            cs := cs + [Contribution(id.value, policy, p.templateName)];
          }
        }
      }
      ghost var first := cs;
      for i := 0 to |assignments|
        invariant cs == first + FromAssignments(View(), p, assignments[..i])
        invariant Holds(View(), cs, values)
      {
        var a := assignments[i];
        assert assignments[..i + 1][..i] == assignments[..i];
        if Applies(View(), p, a) {
          values := Add(cs, values, Contribution(a.skill, a.policy, a.scope));
          cs := cs + [Contribution(a.skill, a.policy, a.scope)];
        }
      }
      assert assignments[..|assignments|] == assignments;
      assert cs == Contributions(View(), p);
      out := ItemsOf(cs, values);
    }

    /** The range over the values map, in whatever order. */
    method ItemsOf(ghost cs: seq<Contribution>, values: map<int, Value>) returns (out: seq<Item>)
      requires Holds(View(), cs, values)
      ensures Merged(View(), cs, out)
    {
      out := [];
      var keys := values.Keys;
      while keys != {}
        invariant keys <= values.Keys
        invariant forall i | 0 <= i < |out| ::
                    out[i].id in values && out[i].id !in keys && out[i] == values[out[i].id].item
        invariant forall i, j | 0 <= i < j < |out| :: out[i].id != out[j].id
        invariant forall id | id in values && id !in keys :: Lists(out, id)
        decreases |keys|
      {
        ghost var w := Pick(keys);
        var id :| id in keys;
        ghost var before := out;
        out := out + [values[id].item];
        keys := keys - {id};
        ListsAppend(before, values[id].item);
      }
      ListedIsMerged(View(), cs, values, out);
    }

    /** Installed skills are appended behind the merged ones; `seen` keeps ids distinct. */
    method EffectiveSkillsWithInstalls(p: Target) returns (out: seq<Item>)
      ensures Effective(View(), p, out)
    {
      out := EffectiveSkills(p);
      ghost var base := out;
      var seen: set<int> := {};
      for i := 0 to |out|
        invariant seen == set j | 0 <= j < i :: out[j].id
      {
        seen := seen + {out[i].id};
      }
      assert forall id :: id in seen <==> Lists(out, id);
      for i := 0 to |installs|
        invariant base <= out
        invariant forall j, k | 0 <= j < k < |out| :: out[j].id != out[k].id
        invariant forall id :: id in seen <==> Lists(out, id)
        invariant forall k | |base| <= k < |out| :: Appended(View(), p.profile, out[k])
        invariant forall j | 0 <= j < i && Counts(View(), p.profile, installs[j]) :: installs[j].skill in seen
      {
        var row := installs[i];
        if row.profile == p.profile && row.status == "installed" && row.version.Some? &&
           (exists k | k in catalog :: k.id == row.skill) && row.skill !in seen {
          assert FirstFor(View(), p.profile, i);
          ghost var before := out;
          out := out + [Item(row.skill, "explicit", "profile_install", true, row.version)];
          seen := seen + {row.skill};
          ListsAppend(before, InstallItem(row));
          assert Appended(View(), p.profile, out[|before|]);
        }
      }
      assert Extended(View(), p.profile, base, out);
    }
  }
}

/** The reconciliation handlers as they run on the tables. */
module AgentStore {
  import opened Common
  import opened AgentModel
  import opened AgentTheorems

  // ----- Runtimes -----

  /** The resource columns that a runtime takes over from its template. */
  datatype Resources = Resources(
    cpu: string, memory: string, storage: string, profileLimit: int, jobs: int, image: string,
    provider: string, class_: string, network: string, autoStart: bool, autoSuspend: bool)

  datatype RuntimeTemplate = RuntimeTemplate(id: int, resources: Resources)
  datatype Runtime = Runtime(user: int, status: string, template: Option<int>, resources: Resources)

  /** The runtimes of the user take over the default template, or are just started. */
  function Provisioned(r: Runtime, u: int, standard: Option<RuntimeTemplate>): Runtime {
    if r.user != u then r
    else
      match standard
      case None => r.(status := "running")
      case Some(t) =>
        Runtime(u, if t.resources.autoStart then "running" else "stopped", Some(t.id), t.resources)
  }

  class Server {
    var templates: map<int, Template>
    var bindings: seq<Binding>
    var users: map<int, User>
    var roleBindings: set<(int, int)>
    var names: map<(string, int), string>
    var profiles: map<ProfileKey, Profile>
    var recorded: map<SourceKey, string>
    var runtimes: map<int, Runtime>

    function View(): State
      reads this
    {
      State(templates, bindings, users, roleBindings, names, profiles, recorded)
    }

    /** One upsert per source of the template, then the list of labels on the profile. */
    method RecordTemplateSources(k: ProfileKey, t: int, u: int)
      requires k in profiles
      modifies `profiles, `recorded
      ensures profiles == old(profiles[k := profiles[k].(sources := SourceTexts(View(), Sources(View(), u, t)))])
      ensures recorded == old(recorded + Recorded(View(), k, t, Sources(View(), u, t)))
    {
      ghost var s := View();
      var bs, texts := Sources(View(), u, t), [];
      for i := 0 to |bs|
        invariant texts == SourceTexts(s, bs[..i])
        invariant recorded == s.recorded + Recorded(s, k, t, bs[..i])
        modifies `recorded
      {
        var b := bs[i];
        var named := (b.scope, SourceId(b));
        var text := if named in names && names[named] != "" then names[named] else b.scope;
        texts := texts + [b.scope + ": " + text];
        recorded := recorded[KeyOf(k, t, b) := text];
        assert bs[..i + 1] == bs[..i] + [b];
        TextsSnoc(s, bs[..i], b);
        RecordedSnoc(s, k, t, bs[..i], b);
      }
      assert bs[..|bs|] == bs;
      profiles := profiles[k := profiles[k].(sources := texts)];
    }

    /** INSERT .. ON DUPLICATE KEY UPDATE: an existing row keeps its kind and, for now, its
        list of sources. */
    method WriteProfile(u: int, t: int)
      requires t in templates
      modifies `profiles
      ensures var k := Key(View(), u, t);
              k in profiles &&
              profiles == old(profiles)[k := profiles[k]] &&
              profiles[k].(sources := []) == old(RowFor(View(), u, t, KindAt(View(), k))).(sources := [])
    {
      var p := templates[t];
      var k := (u, p.name);
      var kind := if k in profiles then profiles[k].kind else "managed";
      var texts := if k in profiles then profiles[k].sources else [];
      profiles := profiles[k := Profile(NullableId(p.model), p.display, p.description, "active", p.class_,
                                        kind, true, Some(t), Some(p.version), texts)];
    }

    method UpsertManaged(u: int, t: int)
      requires t in templates
      modifies `profiles, `recorded
      ensures View() == old(Upsert(View(), u, t))
    {
      ghost var s := View();
      WriteProfile(u, t);
      InputsDecide(s, View(), u);
      var k := (u, templates[t].name);
      assert SourceTexts(View(), Sources(s, u, t)) == SourceTexts(s, Sources(s, u, t));
      assert Recorded(View(), k, t, Sources(s, u, t)) == Recorded(s, k, t, Sources(s, u, t));
      RecordTemplateSources(k, t, u);
      assert profiles == Upsert(s, u, t).profiles;
    }

    method DisableUnmatched(u: int)
      modifies `profiles
      ensures View() == old(Sweep(View(), u))
    {
      var matched := Matched(View(), u);
      profiles := map k | k in profiles ::
        if k.0 == u && profiles[k].managed && (profiles[k].template.None? || profiles[k].template.value !in matched)
        then profiles[k].(status := "disabled") else profiles[k];
    }

    /** `rows` is the order in which the query returns the matched templates. */
    method Consolidate(u: int, rows: seq<int>)
      requires RowsOf(View(), u, rows)
      modifies `profiles, `recorded
      ensures View() == old(AgentModel.Consolidate(View(), u, rows))
    {
      ghost var s := View();
      assert forall t | t in rows :: t in s.templates;
      for i := 0 to |rows|
        invariant View() == UpsertAll(s, u, rows[..i])
        modifies `profiles, `recorded
      {
        assert rows[i] in rows && rows[..i + 1] == rows[..i] + [rows[i]];
        UpsertLast(s, u, rows[..i], rows[i]);
        UpsertManaged(u, rows[i]);
      }
      assert rows[..|rows|] == rows;
      DisableUnmatched(u);
    }

    method AssignProfileTemplates(u: int, rows: seq<int>)
      requires forall t | t in rows :: t in templates
      modifies `profiles
      ensures View() == old(Assign(View(), u, rows))
    {
      ghost var s := View();
      for i := 0 to |rows|
        invariant Assign(View(), u, rows[i..]) == Assign(s, u, rows)
        modifies `profiles
      {
        assert rows[i..][0] == rows[i] && rows[i..][1..] == rows[i + 1..];
        var p := templates[rows[i]];
        var k := (u, p.name);
        if k !in profiles {
          profiles := profiles[k := Profile(NullableId(p.model), p.display, p.description, "active", p.class_,
                                            "managed", true, Some(rows[i]), None, [])];
        }
      }
    }

    /** Automatic provisioning sets up the user's runtimes and runs the older pass first; the
        profiles end as consolidation alone leaves them. `standard` is the default template. */
    method EnsureAutomaticProvisioned(
        u: int, automatic: bool, standard: Option<RuntimeTemplate>, assign: seq<int>, rows: seq<int>)
      requires forall t | t in assign :: t in templates && IsMatchedByAssign(View(), u, t)
      requires RowsOf(View(), u, rows)
      modifies `profiles, `recorded, `runtimes
      ensures View() == old(AgentModel.Consolidate(View(), u, rows))
      ensures runtimes.Keys == old(runtimes.Keys)
      ensures forall x | x in runtimes ::
                var r := old(runtimes)[x];
                runtimes[x]
                == if !automatic || r.user != u then r
                   else if standard.None? then r.(status := "running")
                   else
                     var t := standard.value;
                     r.(status := if t.resources.autoStart then "running" else "stopped",
                        template := Some(t.id), resources := t.resources)
    {
      if automatic {
        ProvisionRuntimes(u, standard);
        AssignIsAbsorbed(View(), u, assign, rows);
        ghost var s := View();
        AssignProfileTemplates(u, assign);
        InputsDecide(s, View(), u);
        assert RowsOf(View(), u, rows);
      }
      Consolidate(u, rows);
    }

    method ProvisionRuntimes(u: int, standard: Option<RuntimeTemplate>)
      modifies `runtimes
      ensures runtimes.Keys == old(runtimes.Keys)
      ensures forall x | x in runtimes :: runtimes[x] == Provisioned(old(runtimes)[x], u, standard)
    {
      var before := runtimes;
      if standard.Some? {
        var t := standard.value;
        var status := if t.resources.autoStart then "running" else "stopped";
        runtimes := map x | x in before ::
          if before[x].user == u
          then before[x].(status := status, template := Some(t.id), resources := t.resources) else before[x];
      } else {
        runtimes := map x | x in before ::
          if before[x].user == u then before[x].(status := "running") else before[x];
      }
    }

    /** The visits are the active users in the order of the query. */
    method ConsolidateAllManagedAgents(visits: seq<Visit>)
      requires Proper(View(), visits)
      modifies `profiles, `recorded
      ensures View() == old(ConsolidateAll(View(), visits))
      ensures old(forall v | v in visits :: DistinctNames(View(), v.user)) ==>
                View() == old(Target(View(), Users(visits)))
    {
      ghost var s := View();
      for i := 0 to |visits|
        invariant Proper(s, visits[..i]) && View() == ConsolidateAll(s, visits[..i])
        modifies `profiles, `recorded
      {
        assert visits[i] in visits && visits[..i + 1] == visits[..i] + [visits[i]];
        InputsDecide(s, View(), visits[i].user);
        Consolidate(visits[i].user, visits[i].rows);
        assert visits[..i + 1][..i] == visits[..i];
      }
      assert visits[..|visits|] == visits;
      if forall v | v in visits :: DistinctNames(s, v.user) {
        ConsolidateAllIsTarget(s, visits);
      }
    }
  }

  lemma {:induction false} TextsSnoc(s: State, bs: seq<Binding>, b: Binding)
    ensures SourceTexts(s, bs + [b]) == SourceTexts(s, bs) + [b.scope + ": " + Label(s, b.scope, SourceId(b))]
  {
  }

  lemma {:induction false} RecordedSnoc(s: State, k: ProfileKey, t: int, bs: seq<Binding>, b: Binding)
    ensures s.recorded + Recorded(s, k, t, bs + [b])
         == (s.recorded + Recorded(s, k, t, bs))[KeyOf(k, t, b) := Label(s, b.scope, SourceId(b))]
  {
    var left := s.recorded + Recorded(s, k, t, bs + [b]);
    var right := (s.recorded + Recorded(s, k, t, bs))[KeyOf(k, t, b) := Label(s, b.scope, SourceId(b))];
    forall key ensures Lookup(left, key) == Lookup(right, key) {
    }
    MapsEqual(left, right);
  }
}

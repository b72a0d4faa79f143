/** The access resolver and the policy handler as they run. */
module KnowledgeStore {
  import opened Decimal
  import opened KnowledgeModel
  import opened KnowledgeTheorems

  /** The positive ids that occur in a list. */
  method Contains(values: seq<int>, target: int) returns (found: bool)
    ensures found <==> target > 0 && target in values
  {
    for i := 0 to |values|
      invariant target > 0 ==> target !in values[..i]
    {
      if values[i] == target && target > 0 {
        return true;
      }
    }
    found := false;
  }

  class Server {
    var users: map<int, User>
    var roleBindings: seq<(int, int)>
    var profiles: seq<Profile>
    var policies: seq<Policy>
    var bindings: seq<Binding>

    function View(): State
      reads this
    {
      State(users, roleBindings, profiles, policies, bindings)
    }

    method RolesOf(uid: int) returns (ids: seq<int>)
      ensures forall r :: r in ids <==> HasRole(View(), uid, r)
    {
      ids := [];
      for i := 0 to |roleBindings|
        invariant forall r :: r in ids <==> (uid, r) in roleBindings[..i]
      {
        if roleBindings[i].0 == uid {
          ids := ids + [roleBindings[i].1];
        }
      }
      assert roleBindings[..|roleBindings|] == roleBindings;
    }

    method ProfilesOf(uid: int) returns (ids: seq<int>, templates: seq<int>)
      ensures forall p :: p in ids <==> HasProfile(View(), uid, p)
      ensures forall t | t > 0 :: t in templates <==> HasTemplate(View(), uid, t)
    {
      ids, templates := [], [];
      for i := 0 to |profiles|
        invariant forall x :: x in ids <==> exists p | p in profiles[..i] :: p.user == uid && p.active && p.id == x
        invariant forall x | x > 0 ::
                    x in templates <==> exists p | p in profiles[..i] :: p.user == uid && p.active && p.template == x
      {
        var p := profiles[i];
        assert forall q :: q in profiles[..i + 1] <==> q in profiles[..i] || q == p;
        if p.user == uid && p.active {
          ids := ids + [p.id];
          if p.template > 0 {
            templates := templates + [p.template];
          }
        }
      }
      assert profiles[..|profiles|] == profiles;
    }

    method RoleNamed(uid: int, key: string, roleIds: seq<int>) returns (named: bool)
      requires forall r :: r in roleIds <==> HasRole(View(), uid, r)
      ensures named <==> NamesRole(View(), uid, key)
    {
      for i := 0 to |roleIds|
        invariant forall j | 0 <= j < i :: key != Key("role", roleIds[j])
      {
        if key == Key("role", roleIds[i]) {
          assert HasRole(View(), uid, roleIds[i]);
          return true;
        }
      }
      named := false;
    }

    /** The rank of one policy row, by the source's switch; 0 when the row does not match. */
    method RankOf(uid: int, kb: int, p: Policy, roleIds: seq<int>) returns (rank: nat)
      requires uid in users && p.kb == kb
      requires forall r :: r in roleIds <==> HasRole(View(), uid, r)
      ensures rank == Rank(View(), uid, kb, p)
    {
      var org, dept := users[uid].org, users[uid].dept;
      rank := 0;
      if p.scope == "organization" {
        if p.key == "organization" || p.key == "organization:0" || p.key == "organization:" + Format(org) {
          rank := 1;
        }
      } else if p.scope == "department" {
        if p.key == "department:" + Format(dept) {
          rank := 2;
        }
      } else if p.scope == "role" {
        var named := RoleNamed(uid, p.key, roleIds);
        if named {
          rank := 3;
        }
      } else if p.scope == "user" {
        if p.key == "user:" + Format(uid) {
          rank := 4;
        }
      }
    }

    /** The policy loop: the best rank so far and the access level that goes with it. */
    method BestPolicy(uid: int, kb: int, roleIds: seq<int>) returns (bestRank: int, bestAccess: string)
      requires uid in users && forall r :: r in roleIds <==> HasRole(View(), uid, r)
      ensures bestRank < 0 ==> !Spoken(View(), uid, kb)
      ensures bestRank >= 0 ==> exists i: nat :: Decisive(View(), uid, kb, i) && policies[i].level == bestAccess
    {
      bestRank, bestAccess := -1, "none";
      ghost var best, ranks := 0, Ranks(View(), uid, kb);
      for n := 0 to |policies|
        invariant bestRank < 0 ==> forall j | 0 <= j < n :: ranks[j] == 0
        invariant bestRank >= 0 ==>
                    Leads(ranks, n, best) && bestRank == ranks[best] && bestAccess == policies[best].level
      {
        if policies[n].kb == kb {
          var rank := RankOf(uid, kb, policies[n], roleIds);
          assert rank == ranks[n];
          if rank > 0 && rank >= bestRank {
            bestRank, bestAccess := rank, policies[n].level;
            best := n;
          }
        } else {
          assert ranks[n] == 0;
        }
      }
      if bestRank >= 0 {
        LeaderIsDecisive(View(), uid, kb, best);
      }
    }

    /** The binding loop: an allow-list of non-blocked rows. */
    method AnyBinding(uid: int, kb: int, roleIds: seq<int>, profileIds: seq<int>, templateIds: seq<int>)
      returns (found: bool)
      requires uid in users
      requires forall r :: r in roleIds <==> HasRole(View(), uid, r)
      requires forall p :: p in profileIds <==> HasProfile(View(), uid, p)
      requires forall t | t > 0 :: t in templateIds <==> HasTemplate(View(), uid, t)
      ensures found == Bound(View(), uid, kb)
    {
      for n := 0 to |bindings|
        invariant forall j | 0 <= j < n :: !Admits(View(), uid, kb, bindings[j])
      {
        var b := bindings[n];
        if b.kb != kb || b.policy == "blocked" {
          continue;
        }
        var byRole := Contains(roleIds, b.role);
        var byProfile := Contains(profileIds, b.profile);
        var byTemplate := Contains(templateIds, b.template);
        if (b.kind == "organization" && b.org == users[uid].org)
           || (b.kind == "department" && b.dept == users[uid].dept)
           || byRole || byProfile || byTemplate
        {
          assert b in bindings && Admits(View(), uid, kb, b);
          return true;
        }
      }
      found := false;
    }

    method EffectiveAccess(uid: int, kb: int) returns (access: string)
      ensures access == Access(View(), uid, kb)
    {
      if uid !in users {
        return "none";
      }
      AccessSpec(View(), uid, kb);
      var roleIds := RolesOf(uid);
      var profileIds, templateIds := ProfilesOf(uid);
      var bestRank, bestAccess := BestPolicy(uid, kb, roleIds);
      if bestRank >= 0 {
        return bestAccess;
      }
      var found := AnyBinding(uid, kb, roleIds, profileIds, templateIds);
      access := if found then "read" else "none";
    }

    method SavePolicy(org: int, kb: int, req: PolicyRequest, known: bool)
      modifies `policies
      ensures View() == old(Save(View(), org, kb, req, known))
    {
      var key := Subject(req, org);
      if key.None? || !known {
        return;
      }
      var p := Policy(kb, req.scope, key.value, req.level);
      ghost var at := UpsertRows(policies, p);
      for i := 0 to |policies|
        invariant i <= at
      {
        if policies[i].kb == kb && policies[i].key == p.key {
          policies := policies[i := policies[i].(level := p.level)];
          return;
        }
      }
      policies := policies + [p];
    }
  }
}

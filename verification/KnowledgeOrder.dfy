/** The order in which policies and bindings decide about a knowledge base, tier by tier and in
    terms of the tables alone; and what saving a policy writes. */
module KnowledgeOrder {
  import opened Common
  import opened Decimal
  import opened KnowledgeModel
  import opened KnowledgeTheorems

  datatype Tier = ByUser | ByRole | ByDepartment | ByOrganization

  /** The policy is about the user, at this tier. */
  ghost predicate Concerns(s: State, uid: int, kb: int, tier: Tier, p: Policy)
    requires uid in s.users
  {
    p.kb == kb &&
    match tier
    case ByUser => p.scope == "user" && p.key == "user:" + Format(uid)
    case ByRole => p.scope == "role" && exists r :: HasRole(s, uid, r) && p.key == "role:" + Format(r)
    case ByDepartment => p.scope == "department" && p.key == "department:" + Format(s.users[uid].dept)
    case ByOrganization =>
      p.scope == "organization" &&
      (p.key == "organization" || p.key == "organization:0" || p.key == "organization:" + Format(s.users[uid].org))
  }

  ghost predicate Silent(s: State, uid: int, kb: int, tier: Tier)
    requires uid in s.users
  {
    forall p | p in s.policies :: !Concerns(s, uid, kb, tier, p)
  }

  /** The last policy of the tier carries this level. */
  ghost predicate LastSays(s: State, uid: int, kb: int, tier: Tier, level: string)
    requires uid in s.users
  {
    exists i | 0 <= i < |s.policies| ::
      Concerns(s, uid, kb, tier, s.policies[i]) && s.policies[i].level == level &&
      forall j | i < j < |s.policies| :: !Concerns(s, uid, kb, tier, s.policies[j])
  }

  /** A binding of the base that is not blocked and names the user's organization, department,
      a role, an active profile, or the template of one. */
  predicate Allowed(s: State, uid: int, kb: int, b: Binding)
    requires uid in s.users
  {
    b.kb == kb && b.policy != "blocked" &&
    ((b.kind == "organization" && s.users[uid].org == b.org) ||
     (b.kind == "department" && s.users[uid].dept == b.dept) ||
     (b.role > 0 && (uid, b.role) in s.roleBindings) ||
     (b.profile > 0 && exists p | p in s.profiles :: p.user == uid && p.active && p.id == b.profile) ||
     (b.template > 0 && exists p | p in s.profiles :: p.user == uid && p.active && p.template == b.template))
  }

  // ----- Tiers and ranks -----

  function RankOfTier(tier: Tier): nat {
    match tier
    case ByUser => 4
    case ByRole => 3
    case ByDepartment => 2
    case ByOrganization => 1
  }

  lemma {:induction false} KeySpelled(id: int)
    ensures Key("user", id) == "user:" + Format(id) && Key("role", id) == "role:" + Format(id)
    ensures Key("department", id) == "department:" + Format(id)
    ensures Key("organization", id) == "organization:" + Format(id)
  {
    assert "user" + ":" == "user:" && "role" + ":" == "role:";
    assert "department" + ":" == "department:" && "organization" + ":" == "organization:";
  }

  lemma {:induction false} RankIsTier(s: State, uid: int, kb: int, tier: Tier, p: Policy)
    requires uid in s.users
    ensures Concerns(s, uid, kb, tier, p) <==> Rank(s, uid, kb, p) == RankOfTier(tier)
  {
    KeySpelled(uid);
    KeySpelled(s.users[uid].dept);
    KeySpelled(s.users[uid].org);
    forall r ensures Key("role", r) == "role:" + Format(r) {
      KeySpelled(r);
    }
  }

  lemma {:induction false} RankIsSome(s: State, uid: int, kb: int, p: Policy)
    requires uid in s.users
    ensures Rank(s, uid, kb, p) <= 4
  {
  }

  lemma {:induction false} LastTrue(flags: seq<bool>) returns (i: nat)
    requires true in flags
    ensures i < |flags| && flags[i] && forall j | i < j < |flags| :: !flags[j]
  {
    var front := flags[..|flags| - 1];
    if flags[|flags| - 1] {
      i := |flags| - 1;
    } else {
      assert flags == front + [false];
      i := LastTrue(front);
    }
  }

  lemma {:induction false} LastOfTier(s: State, uid: int, kb: int, tier: Tier) returns (i: nat)
    requires uid in s.users && !Silent(s, uid, kb, tier)
    ensures i < |s.policies| && Concerns(s, uid, kb, tier, s.policies[i])
    ensures forall j | i < j < |s.policies| :: !Concerns(s, uid, kb, tier, s.policies[j])
  {
    var flags := seq(|s.policies|, j requires 0 <= j < |s.policies| => Concerns(s, uid, kb, tier, s.policies[j]));
    var p :| p in s.policies && Concerns(s, uid, kb, tier, p);
    var k :| 0 <= k < |s.policies| && s.policies[k] == p;
    assert flags[k];
    i := LastTrue(flags);
    assert flags[i];
    forall j | i < j < |s.policies| ensures !Concerns(s, uid, kb, tier, s.policies[j]) {
      assert !flags[j];
    }
  }

  lemma {:induction false} TierDecides(s: State, uid: int, kb: int, tier: Tier)
    requires uid in s.users && !Silent(s, uid, kb, tier)
    requires forall above: Tier | RankOfTier(above) > RankOfTier(tier) :: Silent(s, uid, kb, above)
    ensures LastSays(s, uid, kb, tier, Access(s, uid, kb))
  {
    var i := LastOfTier(s, uid, kb, tier);
    forall j | 0 <= j < |s.policies|
      ensures Rank(s, uid, kb, s.policies[j]) < Rank(s, uid, kb, s.policies[i]) ||
              (Rank(s, uid, kb, s.policies[j]) == Rank(s, uid, kb, s.policies[i]) && j <= i)
    {
      RankIsTier(s, uid, kb, tier, s.policies[i]);
      RankIsTier(s, uid, kb, tier, s.policies[j]);
      NotAbove(s, uid, kb, tier, j);
    }
    RankIsTier(s, uid, kb, tier, s.policies[i]);
    assert Decisive(s, uid, kb, i);
    AccessSpec(s, uid, kb);
  }

  lemma {:induction false} NotAbove(s: State, uid: int, kb: int, tier: Tier, j: nat)
    requires uid in s.users && j < |s.policies|
    requires forall above: Tier | RankOfTier(above) > RankOfTier(tier) :: Silent(s, uid, kb, above)
    ensures Rank(s, uid, kb, s.policies[j]) <= RankOfTier(tier)
  {
    var p := s.policies[j];
    RankIsSome(s, uid, kb, p);
    forall above: Tier | RankOfTier(above) > RankOfTier(tier) ensures Rank(s, uid, kb, p) != RankOfTier(above) {
      RankIsTier(s, uid, kb, above, p);
      assert p in s.policies;
    }
    assert RankOfTier(ByUser) == 4 && RankOfTier(ByRole) == 3 && RankOfTier(ByDepartment) == 2;
  }

  lemma {:induction false} SilentMeansNoRank(s: State, uid: int, kb: int, p: Policy)
    requires uid in s.users && p in s.policies && forall tier: Tier :: Silent(s, uid, kb, tier)
    ensures Rank(s, uid, kb, p) == 0
  {
    RankIsSome(s, uid, kb, p);
    assert Silent(s, uid, kb, ByUser) && Silent(s, uid, kb, ByRole);
    assert Silent(s, uid, kb, ByDepartment) && Silent(s, uid, kb, ByOrganization);
    RankIsTier(s, uid, kb, ByUser, p);
    RankIsTier(s, uid, kb, ByRole, p);
    RankIsTier(s, uid, kb, ByDepartment, p);
    RankIsTier(s, uid, kb, ByOrganization, p);
  }

  lemma {:induction false} AllowedIsAdmitted(s: State, uid: int, kb: int, b: Binding)
    requires uid in s.users
    ensures Allowed(s, uid, kb, b) <==> Admits(s, uid, kb, b)
  {
  }

  lemma {:induction false} BoundIsAllowed(s: State, uid: int, kb: int)
    requires uid in s.users
    ensures Bound(s, uid, kb) <==> exists b | b in s.bindings :: Allowed(s, uid, kb, b)
  {
    forall b ensures Allowed(s, uid, kb, b) <==> Admits(s, uid, kb, b) {
      AllowedIsAdmitted(s, uid, kb, b);
    }
  }

  lemma {:induction false} BindingsDecide(s: State, uid: int, kb: int)
    requires uid in s.users && forall tier: Tier :: Silent(s, uid, kb, tier)
    ensures Access(s, uid, kb) == if exists b | b in s.bindings :: Allowed(s, uid, kb, b) then "read" else "none"
  {
    forall j | 0 <= j < |s.policies| ensures Rank(s, uid, kb, s.policies[j]) == 0 {
      SilentMeansNoRank(s, uid, kb, s.policies[j]);
    }
    AccessSpec(s, uid, kb);
    BoundIsAllowed(s, uid, kb);
  }

  /** A user's own policy decides, the last one if there are several; without one the last
      policy for a role the user holds; then the last for the department; then the last for the
      organization; and where no policy speaks, read for a user some binding allows, else none.
      An unknown user has no access. */
  lemma {:induction false} TiersDecideInOrder(s: State, uid: int, kb: int)
    ensures uid !in s.users ==> Access(s, uid, kb) == "none"
    ensures uid in s.users ==>
              var access := Access(s, uid, kb);
              if !Silent(s, uid, kb, ByUser) then LastSays(s, uid, kb, ByUser, access)
              else if !Silent(s, uid, kb, ByRole) then LastSays(s, uid, kb, ByRole, access)
              else if !Silent(s, uid, kb, ByDepartment) then LastSays(s, uid, kb, ByDepartment, access)
              else if !Silent(s, uid, kb, ByOrganization) then LastSays(s, uid, kb, ByOrganization, access)
              else access == if exists b | b in s.bindings :: Allowed(s, uid, kb, b) then "read" else "none"
  {
    if uid in s.users {
      if !Silent(s, uid, kb, ByUser) {
        TierDecides(s, uid, kb, ByUser);
      } else if !Silent(s, uid, kb, ByRole) {
        TierDecides(s, uid, kb, ByRole);
      } else if !Silent(s, uid, kb, ByDepartment) {
        TierDecides(s, uid, kb, ByDepartment);
      } else if !Silent(s, uid, kb, ByOrganization) {
        TierDecides(s, uid, kb, ByOrganization);
      } else {
        BindingsDecide(s, uid, kb);
      }
    }
  }

  // ----- Saving -----

  /** The key under which a request is filed, if it has a known level and exactly the target
      its scope asks for. */
  function FiledUnder(req: PolicyRequest, org: int): Option<string> {
    if req.level != "query_only" && req.level != "read" && req.level != "contribute" && req.level != "manage" then None
    else
      match (req.dept, req.role, req.user)
      case (None, None, None) => if req.scope == "organization" then Some("organization:" + Format(org)) else None
      case (Some(d), None, None) => if req.scope == "department" then Some("department:" + Format(d)) else None
      case (None, Some(r), None) => if req.scope == "role" then Some("role:" + Format(r)) else None
      case (None, None, Some(u)) => if req.scope == "user" then Some("user:" + Format(u)) else None
      case _ => None
  }

  lemma {:induction false} FiledUnderSubject(req: PolicyRequest, org: int)
    ensures FiledUnder(req, org) == Subject(req, org)
  {
    assert Key("organization", org) == "organization:" + Format(org);
    if req.dept.Some? {
      assert Key("department", req.dept.value) == "department:" + Format(req.dept.value);
    }
    if req.role.Some? {
      assert Key("role", req.role.value) == "role:" + Format(req.role.value);
    }
    if req.user.Some? {
      assert Key("user", req.user.value) == "user:" + Format(req.user.value);
    }
  }

  /** A request that can be filed and whose target exists changes the level of the row with its
      key, or adds a row behind the others; any other request changes nothing. */
  lemma {:induction false} PolicySaved(s: State, org: int, kb: int, req: PolicyRequest, known: bool)
    ensures var t := Save(s, org, kb, req, known);
            if FiledUnder(req, org).None? || !known then t == s
            else
              var key := FiledUnder(req, org).value;
              t == s.(policies := t.policies) &&
              ((t.policies == s.policies + [Policy(kb, req.scope, key, req.level)] &&
                forall p | p in s.policies :: p.kb != kb || p.key != key) ||
               exists i | 0 <= i < |s.policies| ::
                 s.policies[i].kb == kb && s.policies[i].key == key &&
                 (forall j | 0 <= j < i :: s.policies[j].kb != kb || s.policies[j].key != key) &&
                 t.policies == s.policies[i := s.policies[i].(level := req.level)])
  {
    FiledUnderSubject(req, org);
    if Subject(req, org).Some? && known {
      var p := Policy(kb, req.scope, Subject(req, org).value, req.level);
      var k := UpsertRows(s.policies, p);
      if k == |s.policies| {
        forall q | q in s.policies ensures q.kb != kb || q.key != p.key {
          var j :| 0 <= j < |s.policies| && s.policies[j] == q;
        }
      }
    }
  }
}

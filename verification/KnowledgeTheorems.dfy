/** The resolver depends on the row order only where top-ranking policies disagree; keys are
    injective; saving a policy reaches exactly the users it matches. */
module KnowledgeTheorems {
  import opened Common
  import opened Decimal
  import opened KnowledgeModel

  // ----- The decisive policy -----

  lemma {:induction false} DecisiveIsUnique(s: State, uid: int, kb: int, i: nat, j: nat)
    requires uid in s.users && Decisive(s, uid, kb, i) && Decisive(s, uid, kb, j)
    ensures i == j
  {
    assert j <= i && i <= j;
  }

  ghost function Ranks(s: State, uid: int, kb: int): (ranks: seq<nat>)
    requires uid in s.users
    ensures |ranks| == |s.policies|
    ensures forall j | 0 <= j < |ranks| :: ranks[j] == Rank(s, uid, kb, s.policies[j])
  {
    seq(|s.policies|, j requires 0 <= j < |s.policies| => Rank(s, uid, kb, s.policies[j]))
  }

  /** The last positive maximum among the first n. */
  predicate Leads(ranks: seq<nat>, n: nat, i: nat) {
    i < n <= |ranks| && ranks[i] > 0 &&
    forall j | 0 <= j < n :: ranks[j] < ranks[i] || (ranks[j] == ranks[i] && j <= i)
  }

  lemma {:induction false} LeaderExists(ranks: seq<nat>, n: nat) returns (i: nat)
    requires n <= |ranks| && exists j | 0 <= j < n :: ranks[j] > 0
    ensures Leads(ranks, n, i)
  {
    if exists j | 0 <= j < n - 1 :: ranks[j] > 0 {
      i := LeaderExists(ranks, n - 1);
      if ranks[n - 1] >= ranks[i] {
        i := n - 1;
      }
    } else {
      i := n - 1;
    }
  }

  lemma {:induction false} LeaderIsDecisive(s: State, uid: int, kb: int, i: nat)
    requires uid in s.users
    ensures Leads(Ranks(s, uid, kb), |s.policies|, i) <==> Decisive(s, uid, kb, i)
  {
  }

  /** A policy of greatest rank decides once some policy matches. */
  lemma {:induction false} DecisiveExists(s: State, uid: int, kb: int) returns (i: nat)
    requires uid in s.users && Spoken(s, uid, kb)
    ensures Decisive(s, uid, kb, i)
  {
    var k :| 0 <= k < |s.policies| && Rank(s, uid, kb, s.policies[k]) > 0;
    assert Ranks(s, uid, kb)[k] > 0;
    i := LeaderExists(Ranks(s, uid, kb), |s.policies|);
    LeaderIsDecisive(s, uid, kb, i);
  }

  /** Some policy of the knowledge base speaks about the user. */
  ghost predicate Spoken(s: State, uid: int, kb: int)
    requires uid in s.users
  {
    exists j | 0 <= j < |s.policies| :: Rank(s, uid, kb, s.policies[j]) > 0
  }

  ghost predicate Bound(s: State, uid: int, kb: int)
    requires uid in s.users
  {
    exists b | b in s.bindings :: Admits(s, uid, kb, b)
  }

  /** Access is the level of the last matching policy of greatest specificity; only when no
      policy matches, it is read for a user some non-blocked binding admits, else none. */
  lemma {:induction false} AccessSpec(s: State, uid: int, kb: int)
    ensures uid !in s.users ==> Access(s, uid, kb) == "none"
    ensures uid in s.users ==>
              (forall i: nat | Decisive(s, uid, kb, i) :: Access(s, uid, kb) == s.policies[i].level) &&
              ((exists i: nat :: Decisive(s, uid, kb, i)) <==> Spoken(s, uid, kb)) &&
              (!Spoken(s, uid, kb) ==> Access(s, uid, kb) == if Bound(s, uid, kb) then "read" else "none")
  {
    if uid in s.users {
      forall i: nat | Decisive(s, uid, kb, i) ensures Access(s, uid, kb) == s.policies[i].level {
        forall j: nat | Decisive(s, uid, kb, j) ensures i == j {
          DecisiveIsUnique(s, uid, kb, i, j);
        }
      }
      if Spoken(s, uid, kb) {
        var i := DecisiveExists(s, uid, kb);
      }
    }
  }

  // ----- Policies against bindings -----

  /** The documented union of the allowed bindings. */
  ghost function FromBindings(s: State, uid: int, kb: int): string {
    if uid in s.users && Bound(s, uid, kb) then "read" else "none"
  }

  /** The policy that decides for the user carries this level. */
  ghost predicate Deciding(s: State, uid: int, kb: int, level: string)
    requires uid in s.users
  {
    exists i: nat :: Decisive(s, uid, kb, i) && s.policies[i].level == level
  }

  predicate KnownLevels(ps: seq<Policy>) {
    forall p | p in ps :: IsLevel(p.level)
  }

  lemma {:induction false} DecidingIsAccess(s: State, uid: int, kb: int, level: string)
    requires uid in s.users && Spoken(s, uid, kb)
    ensures Deciding(s, uid, kb, level) <==> Access(s, uid, kb) == level
  {
    AccessSpec(s, uid, kb);
    var i := DecisiveExists(s, uid, kb);
  }

  /** Access is the union of the allowed bindings exactly when no policy matches the user, or
      some binding admits the user and the deciding policy says no more and no less: read. */
  lemma {:induction false} BindingsDecideIff(s: State, uid: int, kb: int)
    requires KnownLevels(s.policies)
    ensures Access(s, uid, kb) == FromBindings(s, uid, kb)
            <==> (uid !in s.users || !Spoken(s, uid, kb) ||
                  (Bound(s, uid, kb) && Deciding(s, uid, kb, "read")))
  {
    AccessSpec(s, uid, kb);
    if uid in s.users && Spoken(s, uid, kb) {
      var i := DecisiveExists(s, uid, kb);
      DecidingIsAccess(s, uid, kb, "read");
      assert s.policies[i] in s.policies;
      assert Access(s, uid, kb) != "none";
    }
  }

  lemma {:induction false} SaveKeepsKnownLevels(s: State, org: int, kb: int, req: PolicyRequest, known: bool)
    requires KnownLevels(s.policies)
    ensures KnownLevels(Save(s, org, kb, req, known).policies)
  {
    if Subject(req, org).Some? {
      var p := Policy(kb, req.scope, Subject(req, org).value, req.level);
      var k := UpsertRows(s.policies, p);
      if k < |s.policies| {
        assert s.policies[k] in s.policies;
      }
    }
  }

  /** One user whom a binding of the organization admits, and one policy for that user. */
  lemma {:induction false} PolicyCanLower(s: State, uid: int, org: int, kb: int)
    requires s.users == map[uid := User(org, 0)]
    requires s.bindings == [Binding(kb, "organization", org, 0, 0, 0, 0, "allow")]
    requires s.policies == [Policy(kb, "user", Key("user", uid), "query_only")]
    ensures FromBindings(s, uid, kb) == "read" && Access(s, uid, kb) == "query_only"
  {
    assert s.bindings[0] in s.bindings && Admits(s, uid, kb, s.bindings[0]);
    assert Rank(s, uid, kb, s.policies[0]) == 4;
    assert Decisive(s, uid, kb, 0);
    AccessSpec(s, uid, kb);
  }

  // ----- Row order -----

  /** No policy of the base outranks p for the user. */
  ghost predicate Top(s: State, uid: int, kb: int, p: Policy)
    requires uid in s.users
  {
    p in s.policies && Rank(s, uid, kb, p) > 0 &&
    forall q | q in s.policies :: Rank(s, uid, kb, q) <= Rank(s, uid, kb, p)
  }

  ghost predicate TopsAgree(s: State, uid: int, kb: int) {
    uid in s.users ==> forall p, q | Top(s, uid, kb, p) && Top(s, uid, kb, q) :: p.level == q.level
  }

  lemma {:induction false} DecisiveIsTop(s: State, uid: int, kb: int, i: nat)
    requires uid in s.users && Decisive(s, uid, kb, i)
    ensures Top(s, uid, kb, s.policies[i])
  {
    forall q | q in s.policies ensures Rank(s, uid, kb, q) <= Rank(s, uid, kb, s.policies[i]) {
      var j :| 0 <= j < |s.policies| && s.policies[j] == q;
    }
  }

  predicate Reordered(s: State, t: State) {
    t == s.(policies := t.policies) && multiset(t.policies) == multiset(s.policies)
  }

  lemma {:induction false} ReorderingKeepsRows(s: State, t: State)
    requires Reordered(s, t)
    ensures forall p :: p in t.policies <==> p in s.policies
  {
    forall p ensures p in t.policies <==> p in s.policies {
      assert p in t.policies <==> p in multiset(t.policies);
      assert p in s.policies <==> p in multiset(s.policies);
    }
  }

  lemma {:induction false} RankIgnoresPolicies(s: State, t: State, uid: int, kb: int)
    requires t == s.(policies := t.policies) && uid in s.users
    ensures forall p :: Rank(t, uid, kb, p) == Rank(s, uid, kb, p)
    ensures Bound(t, uid, kb) == Bound(s, uid, kb)
  {
    assert forall r :: HasRole(t, uid, r) == HasRole(s, uid, r);
    assert forall x :: HasProfile(t, uid, x) == HasProfile(s, uid, x);
    assert forall x :: HasTemplate(t, uid, x) == HasTemplate(s, uid, x);
    assert forall b :: Admits(t, uid, kb, b) == Admits(s, uid, kb, b);
  }

  lemma {:induction false} AgreeingTopsFixAccess(s: State, t: State, uid: int, kb: int)
    requires Reordered(s, t) && TopsAgree(s, uid, kb)
    ensures Access(t, uid, kb) == Access(s, uid, kb)
  {
    AccessSpec(s, uid, kb);
    AccessSpec(t, uid, kb);
    if uid in s.users {
      ReorderingKeepsRows(s, t);
      RankIgnoresPolicies(s, t, uid, kb);
      assert Spoken(s, uid, kb) <==> exists p :: p in s.policies && Rank(s, uid, kb, p) > 0;
      assert Spoken(t, uid, kb) <==> exists p :: p in t.policies && Rank(t, uid, kb, p) > 0;
      if Spoken(s, uid, kb) {
        var i: nat :| Decisive(s, uid, kb, i);
        var j: nat :| Decisive(t, uid, kb, j);
        DecisiveIsTop(s, uid, kb, i);
        DecisiveIsTop(t, uid, kb, j);
        assert Top(s, uid, kb, t.policies[j]);
      }
    }
  }

  /** Moving a top-ranking row to the end makes it decide. */
  lemma {:induction false} LastTopDecides(s: State, uid: int, kb: int, k: nat) returns (t: State)
    requires uid in s.users && k < |s.policies| && Top(s, uid, kb, s.policies[k])
    ensures Reordered(s, t) && Access(t, uid, kb) == s.policies[k].level
  {
    var ps, p := s.policies, s.policies[k];
    t := s.(policies := ps[..k] + ps[k + 1..] + [p]);
    assert ps == ps[..k] + [p] + ps[k + 1..];
    ReorderingKeepsRows(s, t);
    RankIgnoresPolicies(s, t, uid, kb);
    var n := |ps| - 1;
    assert t.policies[n] == p;
    forall j | 0 <= j < |t.policies| ensures Rank(t, uid, kb, t.policies[j]) <= Rank(t, uid, kb, p) {
      assert t.policies[j] in t.policies;
    }
    assert Decisive(t, uid, kb, n);
    AccessSpec(t, uid, kb);
  }

  /** Reordering the policy rows never changes a user's access exactly when all top-ranking
      policies that match the user carry the same level. */
  lemma {:induction false} RowOrderIsIrrelevantIff(s: State, uid: int, kb: int)
    ensures (forall t | Reordered(s, t) :: Access(t, uid, kb) == Access(s, uid, kb)) <==> TopsAgree(s, uid, kb)
  {
    if TopsAgree(s, uid, kb) {
      forall t | Reordered(s, t) ensures Access(t, uid, kb) == Access(s, uid, kb) {
        AgreeingTopsFixAccess(s, t, uid, kb);
      }
    } else {
      var p, q :| Top(s, uid, kb, p) && Top(s, uid, kb, q) && p.level != q.level;
      var i :| 0 <= i < |s.policies| && s.policies[i] == p;
      var j :| 0 <= j < |s.policies| && s.policies[j] == q;
      var t := LastTopDecides(s, uid, kb, i);
      var u := LastTopDecides(s, uid, kb, j);
      assert Access(t, uid, kb) != Access(u, uid, kb);
    }
  }

  // ----- Keys -----

  lemma {:induction false} KeyParts(scope: string, text: string)
    requires ':' !in scope
    ensures ScopeOfKey(scope + ":" + text) == scope && TargetText(scope + ":" + text) == Some(text)
  {
    var key := scope + ":" + text;
    if scope != "" {
      assert key[1..] == scope[1..] + ":" + text;
      KeyParts(scope[1..], text);
    } else {
      assert key[1..] == text;
    }
  }

  predicate Int64(n: int) {
    MIN_INT64 <= n <= MAX_INT64
  }

  /** The listing splits the key of a saved policy at its first colon and reads back scope and
      target id. */
  lemma {:induction false} ListingRecoversTarget(req: PolicyRequest, org: int)
    requires Subject(req, org).Some? && Int64(TargetOf(req, org))
    ensures var key := Subject(req, org).value;
            key == Key(req.scope, TargetOf(req, org)) &&
            ScopeOfKey(key) == req.scope && ListedTarget(key) == Some(TargetOf(req, org))
  {
    KeyParts(req.scope, Format(TargetOf(req, org)));
    RoundTrip(TargetOf(req, org));
  }

  /** Two requests have the same key exactly when they have the same scope and target. */
  lemma {:induction false} KeysAreInjective(a: PolicyRequest, b: PolicyRequest, orgA: int, orgB: int)
    requires Subject(a, orgA).Some? && Subject(b, orgB).Some?
    requires Int64(TargetOf(a, orgA)) && Int64(TargetOf(b, orgB))
    ensures Subject(a, orgA) == Subject(b, orgB)
            <==> a.scope == b.scope && TargetOf(a, orgA) == TargetOf(b, orgB)
  {
    ListingRecoversTarget(a, orgA);
    ListingRecoversTarget(b, orgB);
  }

  // ----- Saving -----

  /** What the upsert does to the rows. */
  lemma {:induction false} UpsertRows(ps: seq<Policy>, p: Policy) returns (k: nat)
    ensures k <= |ps|
    ensures forall j | 0 <= j < k :: ps[j].kb != p.kb || ps[j].key != p.key
    ensures k == |ps| ==> Upsert(ps, p) == ps + [p]
    ensures k < |ps| ==> ps[k].kb == p.kb && ps[k].key == p.key && Upsert(ps, p) == ps[k := ps[k].(level := p.level)]
  {
    if ps == [] {
      k := 0;
    } else if ps[0].kb == p.kb && ps[0].key == p.key {
      k := 0;
    } else {
      k := UpsertRows(ps[1..], p);
      k := k + 1;
    }
  }

  predicate SavedRow(org: int, kb: int, req: PolicyRequest, p: Policy) {
    Subject(req, org).Some? && p == Policy(kb, req.scope, Subject(req, org).value, req.level) &&
    ScopeOfKey(p.key) == p.scope && p.scope != "legacy"
  }

  lemma {:induction false} RequestRow(org: int, kb: int, req: PolicyRequest) returns (p: Policy)
    requires Subject(req, org).Some?
    ensures SavedRow(org, kb, req, p)
  {
    KeyParts(req.scope, Format(TargetOf(req, org)));
    p := Policy(kb, req.scope, Subject(req, org).value, req.level);
    assert p.key == req.scope + ":" + Format(TargetOf(req, org));
  }

  /** Saving keeps one row per knowledge base and key, filed under its own scope. */
  lemma {:induction false} SaveKeepsPoliciesOk(s: State, org: int, kb: int, req: PolicyRequest, known: bool)
    requires PoliciesOk(s.policies)
    ensures PoliciesOk(Save(s, org, kb, req, known).policies)
  {
    if Subject(req, org).Some? && known {
      var p := RequestRow(org, kb, req);
      var k := UpsertRows(s.policies, p);
    }
  }

  /** After a policy for a user is saved, that user's access is exactly the saved level. */
  lemma {:induction false} SavedUserPolicyDecides(s: State, org: int, kb: int, req: PolicyRequest, uid: int)
    requires PoliciesOk(s.policies) && uid in s.users
    requires req.scope == "user" && req.user == Some(uid) && Subject(req, org).Some?
    ensures Access(Save(s, org, kb, req, true), uid, kb) == req.level
  {
    var p := RequestRow(org, kb, req);
    var k := UpsertRows(s.policies, p);
    var t := Save(s, org, kb, req, true);
    SaveKeepsPoliciesOk(s, org, kb, req, true);
    assert t.policies[k] == p;
    assert Rank(t, uid, kb, p) == 4;
    forall j | 0 <= j < |t.policies| && j != k ensures Rank(t, uid, kb, t.policies[j]) < 4 {
    }
    assert Decisive(t, uid, kb, k);
    AccessSpec(t, uid, kb);
  }

  /** Saving a policy leaves every user it does not match, and every other knowledge base, as
      they were. */
  lemma {:induction false} SaveLeavesOthersAlone(
      s: State, org: int, kb: int, req: PolicyRequest, known: bool, uid: int, other: int)
    requires PoliciesOk(s.policies) && Subject(req, org).Some?
    requires uid in s.users ==>
               other != kb || Rank(s, uid, kb, Policy(kb, req.scope, Subject(req, org).value, req.level)) == 0
    ensures Access(Save(s, org, kb, req, known), uid, other) == Access(s, uid, other)
  {
    var t := Save(s, org, kb, req, known);
    if known && uid in s.users {
      var p := RequestRow(org, kb, req);
      var k := UpsertRows(s.policies, p);
      RankIgnoresPolicies(s, t, uid, other);
      assert Rank(s, uid, other, p) == 0;
      assert k < |s.policies| ==> s.policies[k].scope == p.scope && Rank(s, uid, other, s.policies[k]) == 0;
      forall i: nat ensures Decisive(s, uid, other, i) <==> Decisive(t, uid, other, i) {
        SameDecisions(s, t, uid, other, k, i);
      }
      AccessSpec(s, uid, other);
      AccessSpec(t, uid, other);
      if i: nat :| Decisive(s, uid, other, i) {
        assert i != k && t.policies[i] == s.policies[i];
      }
    }
  }

  /** Rows of rank 0 do not take part. */
  lemma {:induction false} SameDecisions(s: State, t: State, uid: int, kb: int, k: nat, i: nat)
    requires uid in s.users && t.users == s.users && k <= |s.policies| <= |t.policies| <= |s.policies| + 1
    requires forall p :: Rank(t, uid, kb, p) == Rank(s, uid, kb, p)
    requires forall j | 0 <= j < |s.policies| && j != k :: t.policies[j] == s.policies[j]
    requires |t.policies| > |s.policies| ==> k == |s.policies|
    requires k < |s.policies| ==> Rank(s, uid, kb, s.policies[k]) == 0
    requires k < |t.policies| ==> Rank(s, uid, kb, t.policies[k]) == 0
    ensures Decisive(s, uid, kb, i) <==> Decisive(t, uid, kb, i)
  {
  }
}

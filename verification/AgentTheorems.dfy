/** Consolidation converges to its declarative target, in any order, and absorbs the older
    assignment pass. */
module AgentTheorems {
  import opened Common
  import opened AgentModel

  // ----- Frames -----

  /** The tables that consolidation only reads. */
  predicate SameInputs(s: State, t: State) {
    s.templates == t.templates && s.bindings == t.bindings && s.users == t.users &&
    s.roleBindings == t.roleBindings && s.names == t.names
  }

  lemma {:induction false} SourceRowsFrame(s: State, s': State, u: int, t: int, n: nat)
    requires SameInputs(s, s') && n <= |s.bindings|
    ensures SourceRows(s, u, t, n) == SourceRows(s', u, t, n)
  {
    if n > 0 {
      SourceRowsFrame(s, s', u, t, n - 1);
    }
  }

  lemma {:induction false} InputsDecide(s: State, s': State, u: int)
    requires SameInputs(s, s')
    ensures Matched(s, u) == Matched(s', u)
    ensures forall t :: Sources(s, u, t) == Sources(s', u, t)
    ensures forall t, kind | t in s.templates :: RowFor(s, u, t, kind) == RowFor(s', u, t, kind)
    ensures forall t, k :: Owns(s, u, t, k) == Owns(s', u, t, k)
  {
    assert forall b :: Reaches(s, u, b) == Reaches(s', u, b);
    assert forall t :: IsMatched(s, u, t) == IsMatched(s', u, t);
    forall t ensures Sources(s, u, t) == Sources(s', u, t) {
      SourceRowsFrame(s, s', u, t, |s.bindings|);
    }
    forall t, kind | t in s.templates ensures RowFor(s, u, t, kind) == RowFor(s', u, t, kind) {
      assert SourceTexts(s, Sources(s, u, t)) == SourceTexts(s', Sources(s', u, t));
    }
  }

  lemma {:induction false} UpsertAllFrame(s: State, u: int, rows: seq<int>)
    requires forall t | t in rows :: t in s.templates
    ensures SameInputs(s, UpsertAll(s, u, rows))
    decreases |rows|
  {
    if rows != [] {
      UpsertAllFrame(Upsert(s, u, rows[0]), u, rows[1..]);
    }
  }

  // ----- The upsert loop, key by key -----

  /** The last template of `rows` with this name. */
  function LastNamed(ts: map<int, Template>, rows: seq<int>, name: string): (t: Option<int>)
    requires forall v | v in rows :: v in ts
    ensures t.Some? ==> t.value in rows && t.value in ts && ts[t.value].name == name
    ensures t.None? ==> forall v | v in rows :: ts[v].name != name
  {
    if rows == [] then None
    else
      var last := rows[|rows| - 1];
      assert last in rows;
      if ts[last].name == name then Some(last) else LastNamed(ts, rows[..|rows| - 1], name)
  }

  lemma {:induction false} UpsertLast(s: State, u: int, rows: seq<int>, t: int)
    requires (forall v | v in rows :: v in s.templates) && t in s.templates
    ensures forall v | v in rows + [t] :: v in s.templates
    ensures SameInputs(s, UpsertAll(s, u, rows))
    ensures UpsertAll(s, u, rows + [t]) == Upsert(UpsertAll(s, u, rows), u, t)
    decreases |rows|
  {
    UpsertAllFrame(s, u, rows);
    if rows == [] {
      assert [] + [t] == [t] && [t][1..] == [];
    } else {
      assert (rows + [t])[1..] == rows[1..] + [t];
      UpsertLast(Upsert(s, u, rows[0]), u, rows[1..], t);
    }
  }

  lemma {:induction false} UpsertedOnto(s: State, mid: State, u: int, t: int, k: ProfileKey)
    requires SameInputs(s, mid) && t in s.templates && KindAt(mid, k) == KindAt(s, k)
    ensures Lookup(Upsert(mid, u, t).profiles, k)
         == if k == Key(s, u, t) then Some(RowFor(s, u, t, KindAt(s, k))) else Lookup(mid.profiles, k)
  {
    InputsDecide(s, mid, u);
  }

  /** The last template of a name decides its row; all of them keep the kind. */
  lemma {:induction false} UpsertedRow(s: State, u: int, rows: seq<int>, k: ProfileKey)
    requires forall t | t in rows :: t in s.templates
    ensures var t := LastNamed(s.templates, rows, k.1);
            Lookup(UpsertAll(s, u, rows).profiles, k)
            == if k.0 == u && t.Some? then Some(RowFor(s, u, t.value, KindAt(s, k))) else Lookup(s.profiles, k)
    decreases |rows|
  {
    if rows != [] {
      var front, last := rows[..|rows| - 1], rows[|rows| - 1];
      var mid := UpsertAll(s, u, front);
      assert rows == front + [last];
      UpsertedRow(s, u, front, k);
      UpsertLast(s, u, front, last);
      assert KindAt(mid, k) == KindAt(s, k);
      UpsertedOnto(s, mid, u, last, k);
    }
  }

  /** Some template of `rows` writes the source row `key`. */
  ghost predicate WrittenBy(s: State, u: int, rows: seq<int>, key: SourceKey)
    requires forall t | t in rows :: t in s.templates
  {
    key.template in rows && key.profile == Key(s, u, key.template) &&
    exists b | b in Sources(s, u, key.template) :: b.scope == key.scope && SourceId(b) == key.id
  }

  lemma {:induction false} RecordedByOne(s: State, u: int, t: int, key: SourceKey)
    requires t in s.templates
    ensures Lookup(Upsert(s, u, t).recorded, key)
         == if WrittenBy(s, u, [t], key) then Some(Label(s, key.scope, key.id)) else Lookup(s.recorded, key)
  {
    var bs, k := Sources(s, u, t), Key(s, u, t);
    if WrittenBy(s, u, [t], key) {
      var b :| b in bs && b.scope == key.scope && SourceId(b) == key.id;
      assert KeyOf(k, t, b) == key;
    }
  }

  lemma {:induction false} UpsertedSources(s: State, u: int, rows: seq<int>, key: SourceKey)
    requires forall t | t in rows :: t in s.templates
    ensures Lookup(UpsertAll(s, u, rows).recorded, key)
         == if WrittenBy(s, u, rows, key) then Some(Label(s, key.scope, key.id)) else Lookup(s.recorded, key)
    decreases |rows|
  {
    if rows != [] {
      var s1 := Upsert(s, u, rows[0]);
      RecordedByOne(s, u, rows[0], key);
      UpsertedSources(s1, u, rows[1..], key);
      InputsDecide(s, s1, u);
      assert key.template in rows <==> key.template == rows[0] || key.template in rows[1..];
    }
  }

  // ----- Consolidation is its target -----

  lemma {:induction false} MapsEqual<K, V>(a: map<K, V>, b: map<K, V>)
    requires forall k :: Lookup(a, k) == Lookup(b, k)
    ensures a == b
  {
    forall k ensures k in a <==> k in b {
      assert Lookup(a, k) == Lookup(b, k);
    }
    forall k | k in a ensures a[k] == b[k] {
      assert Lookup(a, k) == Lookup(b, k);
    }
  }

  /** The target read row by row. */
  lemma {:induction false} TargetProfile(s: State, us: set<int>, k: ProfileKey)
    ensures Lookup(Target(s, us).profiles, k) == TargetAt(s, us, k)
  {
    if TargetAt(s, us, k).Some? && k !in s.profiles {
      var t :| Owns(s, k.0, t, k);
      assert k in OwnedKeys(s, us);
    }
  }

  lemma {:induction false} TargetSource(s: State, us: set<int>, key: SourceKey)
    ensures Lookup(Target(s, us).recorded, key) == RecordedAt(s, us, key)
  {
    if SourceOwned(s, us, key) {
      var b :| b in Sources(s, key.profile.0, key.template) && b.scope == key.scope && SourceId(b) == key.id;
      assert KeyOf(key.profile, key.template, b) == key;
      assert key in OwnedSources(s, us);
    }
  }

  /** A state with the right rows is the target. */
  lemma {:induction false} IsTarget(s: State, us: set<int>, t: State)
    requires SameInputs(s, t)
    requires forall k :: Lookup(t.profiles, k) == TargetAt(s, us, k)
    requires forall key :: Lookup(t.recorded, key) == RecordedAt(s, us, key)
    ensures t == Target(s, us)
  {
    forall k ensures Lookup(t.profiles, k) == Lookup(Target(s, us).profiles, k) {
      TargetProfile(s, us, k);
    }
    forall key ensures Lookup(t.recorded, key) == Lookup(Target(s, us).recorded, key) {
      TargetSource(s, us, key);
    }
    MapsEqual(t.profiles, Target(s, us).profiles);
    MapsEqual(t.recorded, Target(s, us).recorded);
  }

  lemma {:induction false} OwnerIsUnique(s: State, u: int, k: ProfileKey, t: int)
    requires DistinctNames(s, u) && Owns(s, u, t, k)
    ensures forall v | Owns(s, u, v, k) :: v == t
    ensures k.0 == u && TargetRow(s, k) == Some(RowFor(s, u, t, KindAt(s, k)))
  {
  }

  /** Without any condition on names: a key that some matched template is named after carries
      the last such template; any other row is disabled if its source is not matched. */
  lemma {:induction false} ConsolidatedAt(s: State, u: int, rows: seq<int>, k: ProfileKey)
    requires RowsOf(s, u, rows)
    ensures forall t | t in rows :: t in s.templates
    ensures var t := LastNamed(s.templates, rows, k.1);
            Lookup(Consolidate(s, u, rows).profiles, k)
            == if k.0 == u && t.Some? then Some(RowFor(s, u, t.value, KindAt(s, k)))
               else if k in s.profiles && Orphaned(s, u, k) then Some(s.profiles[k].(status := "disabled"))
               else Lookup(s.profiles, k)
  {
    UpsertAllFrame(s, u, rows);
    InputsDecide(s, UpsertAll(s, u, rows), u);
    UpsertedRow(s, u, rows, k);
  }

  lemma {:induction false} ConsolidatedRow(s: State, u: int, rows: seq<int>, k: ProfileKey)
    requires RowsOf(s, u, rows) && DistinctNames(s, u)
    ensures Lookup(Consolidate(s, u, rows).profiles, k) == TargetAt(s, {u}, k)
  {
    ConsolidatedAt(s, u, rows, k);
    var last := LastNamed(s.templates, rows, k.1);
    if k.0 == u && last.Some? {
      assert Owns(s, u, last.value, k);
      OwnerIsUnique(s, u, k, last.value);
    } else {
      assert forall t :: !Owns(s, u, t, k);
    }
  }

  /** With distinct names among the matched templates, the upsert loop and the sweep bring
      the user to the declarative target, whatever the row order. */
  lemma {:induction false} ConsolidateIsTarget(s: State, u: int, rows: seq<int>)
    requires RowsOf(s, u, rows) && DistinctNames(s, u)
    ensures Consolidate(s, u, rows) == Target(s, {u})
  {
    var done := Consolidate(s, u, rows);
    UpsertAllFrame(s, u, rows);
    forall k ensures Lookup(done.profiles, k) == TargetAt(s, {u}, k) {
      ConsolidatedRow(s, u, rows, k);
    }
    forall key ensures Lookup(done.recorded, key) == RecordedAt(s, {u}, key) {
      UpsertedSources(s, u, rows, key);
    }
    IsTarget(s, {u}, done);
  }

  // ----- What the target promises -----

  /** After consolidation: the profile of every matched template is active, managed and at
      the current template version; every managed profile of the user whose source is not
      matched is disabled; unmanaged profiles that no matched template is named after, and
      everything that belongs to other users, are untouched. */
  lemma {:induction false} ConsolidationConverges(s: State, u: int, rows: seq<int>)
    requires RowsOf(s, u, rows) && DistinctNames(s, u)
    ensures var done := Consolidate(s, u, rows).profiles;
            (forall t | t in Matched(s, u) ::
               var k := Key(s, u, t);
               k in done && done[k].status == "active" && done[k].managed && done[k].template == Some(t) &&
               done[k].version == Some(s.templates[t].version) &&
               done[k].sources == SourceTexts(s, Sources(s, u, t))) &&
            (forall k | k in done && k.0 == u && done[k].managed && !SourceMatched(s, u, done[k]) ::
               done[k].status == "disabled") &&
            (forall k | k in s.profiles && (k.0 != u || (!s.profiles[k].managed && k !in OwnedKeys(s, {u}))) ::
               k in done && done[k] == s.profiles[k]) &&
            (forall k | k in done :: k in s.profiles || k in OwnedKeys(s, {u}))
  {
    var done := Consolidate(s, u, rows).profiles;
    forall t | t in Matched(s, u)
      ensures Lookup(done, Key(s, u, t)) == Some(RowFor(s, u, t, KindAt(s, Key(s, u, t))))
    {
      ConsolidatedRow(s, u, rows, Key(s, u, t));
      OwnerIsUnique(s, u, Key(s, u, t), t);
    }
    forall k
      ensures k in done ==> k in s.profiles || k in OwnedKeys(s, {u})
      ensures k in done && k.0 == u && done[k].managed && !SourceMatched(s, u, done[k]) ==>
                done[k].status == "disabled"
      ensures k in s.profiles && (k.0 != u || (!s.profiles[k].managed && k !in OwnedKeys(s, {u}))) ==>
                k in done && done[k] == s.profiles[k]
    {
      ConvergedAt(s, u, rows, k);
    }
  }

  predicate SourceMatched(s: State, u: int, p: Profile) {
    p.template.Some? && p.template.value in Matched(s, u)
  }

  lemma {:induction false} ConvergedAt(s: State, u: int, rows: seq<int>, k: ProfileKey)
    requires RowsOf(s, u, rows)
    ensures var done := Consolidate(s, u, rows).profiles;
            (k in done ==> k in s.profiles || k in OwnedKeys(s, {u})) &&
            (k in done && k.0 == u && done[k].managed && !SourceMatched(s, u, done[k]) ==>
               done[k].status == "disabled") &&
            (k in s.profiles && (k.0 != u || (!s.profiles[k].managed && k !in OwnedKeys(s, {u}))) ==>
               k in done && done[k] == s.profiles[k])
  {
    ConsolidatedAt(s, u, rows, k);
    var last := LastNamed(s.templates, rows, k.1);
    if k.0 == u && last.Some? {
      assert Key(s, u, last.value) == k && k in OwnedKeys(s, {u});
    }
  }

  // ----- Many users, any order, any number of times -----

  lemma {:induction false} ProfilesCompose(s: State, us: set<int>, u: int, k: ProfileKey)
    requires DistinctNames(s, u)
    ensures TargetAt(Target(s, us), {u}, k) == TargetAt(s, us + {u}, k)
  {
    var t := Target(s, us);
    InputsDecide(s, t, u);
    TargetProfile(s, us, k);
    if k.0 == u {
      if v :| Owns(s, u, v, k) {
        OwnerIsUnique(s, u, k, v);
        OwnerIsUnique(t, u, k, v);
      }
    }
  }

  lemma {:induction false} SourcesCompose(s: State, us: set<int>, u: int, key: SourceKey)
    ensures RecordedAt(Target(s, us), {u}, key) == RecordedAt(s, us + {u}, key)
  {
    InputsDecide(s, Target(s, us), u);
    TargetSource(s, us, key);
  }

  lemma {:induction false} TargetsCompose(s: State, us: set<int>, u: int)
    requires DistinctNames(s, u)
    ensures Target(Target(s, us), {u}) == Target(s, us + {u})
  {
    var mid := Target(s, us);
    var left := Target(mid, {u});
    forall k ensures Lookup(left.profiles, k) == TargetAt(s, us + {u}, k) {
      TargetProfile(mid, {u}, k);
      ProfilesCompose(s, us, u, k);
    }
    forall key ensures Lookup(left.recorded, key) == RecordedAt(s, us + {u}, key) {
      TargetSource(mid, {u}, key);
      SourcesCompose(s, us, u, key);
    }
    IsTarget(s, us + {u}, left);
  }

  /** One user reconciled, with the row order the database chose. */
  datatype Visit = Visit(user: int, rows: seq<int>)

  function Users(visits: seq<Visit>): set<int> {
    set v | v in visits :: v.user
  }

  predicate Proper(s: State, visits: seq<Visit>) {
    forall v | v in visits :: RowsOf(s, v.user, v.rows)
  }

  function ConsolidateAll(s: State, visits: seq<Visit>): (t: State)
    requires Proper(s, visits)
    ensures SameInputs(s, t)
    decreases |visits|
  {
    if visits == [] then s
    else
      var most, last := visits[..|visits| - 1], visits[|visits| - 1];
      assert last in visits;
      var mid := ConsolidateAll(s, most);
      UpsertAllFrame(mid, last.user, last.rows);
      Consolidate(mid, last.user, last.rows)
  }

  /** With distinct names, consolidating any sequence of users gives the target of the set of
      users: the order of the users, repetitions, and the row order of each query make no
      difference. */
  lemma {:induction false} ConsolidateAllIsTarget(s: State, visits: seq<Visit>)
    requires Proper(s, visits) && forall v | v in visits :: DistinctNames(s, v.user)
    ensures ConsolidateAll(s, visits) == Target(s, Users(visits))
    decreases |visits|
  {
    if visits == [] {
      TargetOfNobody(s);
    } else {
      var most, last := visits[..|visits| - 1], visits[|visits| - 1];
      ConsolidateAllIsTarget(s, most);
      var mid := ConsolidateAll(s, most);
      assert last in visits;
      InputsDecide(s, mid, last.user);
      ConsolidateIsTarget(mid, last.user, last.rows);
      TargetsCompose(s, Users(most), last.user);
      assert visits == most + [last] && Users(visits) == Users(most) + {last.user};
    }
  }

  lemma {:induction false} TargetOfNobody(s: State)
    ensures Target(s, {}) == s
  {
    IsTarget(s, {}, s);
  }

  // ----- Once and for all, whatever the names -----

  /** What consolidation does to a row depends on that row and the inputs alone. */
  lemma {:induction false} SameRowSameResult(a: State, b: State, u: int, rows: seq<int>, k: ProfileKey)
    requires SameInputs(a, b) && RowsOf(a, u, rows) && Lookup(a.profiles, k) == Lookup(b.profiles, k)
    ensures RowsOf(b, u, rows)
    ensures Lookup(Consolidate(a, u, rows).profiles, k) == Lookup(Consolidate(b, u, rows).profiles, k)
  {
    InputsDecide(a, b, u);
    ConsolidatedAt(a, u, rows, k);
    ConsolidatedAt(b, u, rows, k);
  }

  /** Running consolidation again in the same row order changes nothing, whatever the names. */
  lemma {:induction false} ConsolidationIsIdempotent(s: State, u: int, rows: seq<int>)
    requires RowsOf(s, u, rows)
    ensures var once := Consolidate(s, u, rows);
            RowsOf(once, u, rows) && Consolidate(once, u, rows) == once
  {
    var once := Consolidate(s, u, rows);
    UpsertAllFrame(s, u, rows);
    InputsDecide(s, once, u);
    UpsertAllFrame(once, u, rows);
    var twice := Consolidate(once, u, rows);
    forall k ensures Lookup(twice.profiles, k) == Lookup(once.profiles, k) {
      ConsolidatedAt(s, u, rows, k);
      ConsolidatedAt(once, u, rows, k);
    }
    forall key ensures Lookup(twice.recorded, key) == Lookup(once.recorded, key) {
      UpsertedSources(s, u, rows, key);
      UpsertedSources(once, u, rows, key);
    }
    MapsEqual(twice.profiles, once.profiles);
    MapsEqual(twice.recorded, once.recorded);
  }

  /** Each user is visited in one row order. */
  predicate OneOrderEach(visits: seq<Visit>) {
    forall v, w | v in visits && w in visits && v.user == w.user :: v == w
  }

  lemma {:induction false} VisitedProfile(s: State, visits: seq<Visit>, k: ProfileKey)
    requires Proper(s, visits) && OneOrderEach(visits)
    ensures k.0 !in Users(visits) ==> Lookup(ConsolidateAll(s, visits).profiles, k) == Lookup(s.profiles, k)
    ensures forall v | v in visits && v.user == k.0 ::
              Lookup(ConsolidateAll(s, visits).profiles, k) == Lookup(Consolidate(s, v.user, v.rows).profiles, k)
    decreases |visits|
  {
    if visits != [] {
      var most, last := visits[..|visits| - 1], visits[|visits| - 1];
      var mid := ConsolidateAll(s, most);
      assert visits == most + [last] && last in visits;
      VisitedProfile(s, most, k);
      InputsDecide(s, mid, last.user);
      ConsolidatedAt(mid, last.user, last.rows, k);
      if last.user == k.0 {
        VisitedAgain(s, mid, last, k, last in most);
      }
    }
  }

  lemma {:induction false} VisitedAgain(s: State, mid: State, v: Visit, k: ProfileKey, again: bool)
    requires SameInputs(s, mid) && RowsOf(s, v.user, v.rows)
    requires Lookup(mid.profiles, k)
          == Lookup(if again then Consolidate(s, v.user, v.rows).profiles else s.profiles, k)
    ensures RowsOf(mid, v.user, v.rows)
    ensures Lookup(Consolidate(mid, v.user, v.rows).profiles, k)
         == Lookup(Consolidate(s, v.user, v.rows).profiles, k)
  {
    var once := Consolidate(s, v.user, v.rows);
    InputsDecide(s, mid, v.user);
    UpsertAllFrame(s, v.user, v.rows);
    ConsolidationIsIdempotent(s, v.user, v.rows);
    SameRowSameResult(mid, if again then once else s, v.user, v.rows, k);
  }

  ghost predicate WrittenByVisit(s: State, visits: seq<Visit>, key: SourceKey)
    requires Proper(s, visits)
  {
    exists v | v in visits ::
      assert forall t | t in v.rows :: t in s.templates;
      WrittenBy(s, v.user, v.rows, key)
  }

  lemma {:induction false} WrittenByLast(s: State, visits: seq<Visit>, key: SourceKey)
    requires Proper(s, visits) && visits != []
    ensures var n := |visits| - 1;
            visits[n] in visits && Proper(s, visits[..n]) &&
            (WrittenByVisit(s, visits, key) <==>
               WrittenByVisit(s, visits[..n], key) || WrittenBy(s, visits[n].user, visits[n].rows, key))
  {
    assert visits == visits[..|visits| - 1] + [visits[|visits| - 1]];
  }

  lemma {:induction false} VisitedSource(s: State, visits: seq<Visit>, key: SourceKey)
    requires Proper(s, visits)
    ensures Lookup(ConsolidateAll(s, visits).recorded, key)
         == if WrittenByVisit(s, visits, key) then Some(Label(s, key.scope, key.id)) else Lookup(s.recorded, key)
    decreases |visits|
  {
    if visits != [] {
      var most, last := visits[..|visits| - 1], visits[|visits| - 1];
      var mid := ConsolidateAll(s, most);
      WrittenByLast(s, visits, key);
      VisitedSource(s, most, key);
      InputsDecide(s, mid, last.user);
      UpsertedSources(mid, last.user, last.rows, key);
      assert WrittenBy(mid, last.user, last.rows, key) == WrittenBy(s, last.user, last.rows, key);
    }
  }

  /** Whatever the names, the order in which the users are visited makes no difference. */
  lemma {:induction false} UserOrderIsIrrelevant(s: State, a: seq<Visit>, b: seq<Visit>)
    requires Proper(s, a) && OneOrderEach(a) && forall v :: v in a <==> v in b
    ensures Proper(s, b) && ConsolidateAll(s, a) == ConsolidateAll(s, b)
  {
    var left, right := ConsolidateAll(s, a), ConsolidateAll(s, b);
    assert Users(a) == Users(b);
    forall k ensures Lookup(left.profiles, k) == Lookup(right.profiles, k) {
      VisitedProfile(s, a, k);
      VisitedProfile(s, b, k);
    }
    forall key ensures Lookup(left.recorded, key) == Lookup(right.recorded, key) {
      VisitedSource(s, a, key);
      VisitedSource(s, b, key);
    }
    MapsEqual(left.profiles, right.profiles);
    MapsEqual(left.recorded, right.recorded);
  }

  // ----- When the row order does not matter -----

  lemma {:induction false} LastRowWins(s: State, u: int, rows: seq<int>, t: int)
    requires t in s.templates && RowsOf(s, u, rows + [t])
    ensures var k := Key(s, u, t);
            k in Consolidate(s, u, rows + [t]).profiles &&
            Consolidate(s, u, rows + [t]).profiles[k].template == Some(t)
  {
    ConsolidatedAt(s, u, rows + [t], Key(s, u, t));
  }

  /** Some order in which the database may return a set of rows. */
  lemma {:induction false} Enumerate(ts: set<int>) returns (rows: seq<int>)
    ensures forall t :: t in rows <==> t in ts
    ensures forall i, j | 0 <= i < j < |rows| :: rows[i] != rows[j]
  {
    if ts == {} {
      rows := [];
    } else {
      var t := Pick(ts);
      var rest := Enumerate(ts - {t});
      rows := rest + [t];
    }
  }

  lemma {:induction false} EnumerateWithLast(s: State, u: int, t: int) returns (rows: seq<int>)
    requires t in Matched(s, u)
    ensures RowsOf(s, u, rows + [t])
  {
    rows := Enumerate(Matched(s, u) - {t});
    assert forall v :: v in rows + [t] <==> v in Matched(s, u);
  }

  /** Two matched templates of one name, and row orders that let either win. */
  lemma {:induction false} TwoWinners(s: State, u: int)
    returns (t: int, v: int, a: seq<int>, b: seq<int>)
    requires !DistinctNames(s, u)
    ensures t in Matched(s, u) && v in Matched(s, u) && t != v && Key(s, u, t) == Key(s, u, v)
    ensures RowsOf(s, u, a + [t]) && RowsOf(s, u, b + [v])
  {
    t, v :| t in Matched(s, u) && v in Matched(s, u) && s.templates[t].name == s.templates[v].name && t != v;
    a := EnumerateWithLast(s, u, t);
    b := EnumerateWithLast(s, u, v);
  }

  /** The result is independent of the row order exactly when no two matched templates share
      a name; templates of different organizations may. */
  lemma {:induction false} RowOrderIsIrrelevantIff(s: State, u: int)
    ensures (forall a, b | RowsOf(s, u, a) && RowsOf(s, u, b) :: Consolidate(s, u, a) == Consolidate(s, u, b))
            <==> DistinctNames(s, u)
  {
    if DistinctNames(s, u) {
      forall a, b | RowsOf(s, u, a) && RowsOf(s, u, b) ensures Consolidate(s, u, a) == Consolidate(s, u, b) {
        ConsolidateIsTarget(s, u, a);
        ConsolidateIsTarget(s, u, b);
      }
    } else {
      var t, v, a, b := TwoWinners(s, u);
      LastRowWins(s, u, a, t);
      LastRowWins(s, u, b, v);
      assert Consolidate(s, u, a + [t]) != Consolidate(s, u, b + [v]);
    }
  }

  /** Running again in any other row order. */
  ghost predicate StableInAnyOrder(s: State, u: int) {
    forall a, b | RowsOf(s, u, a) && RowsOf(s, u, b) ::
      RowsOf(Consolidate(s, u, a), u, b) && Consolidate(Consolidate(s, u, a), u, b) == Consolidate(s, u, a)
  }

  lemma {:induction false} RowsAfterwards(s: State, u: int, a: seq<int>, b: seq<int>)
    requires RowsOf(s, u, a) && RowsOf(s, u, b)
    ensures SameInputs(s, Consolidate(s, u, a)) && RowsOf(Consolidate(s, u, a), u, b)
  {
    UpsertAllFrame(s, u, a);
    InputsDecide(s, Consolidate(s, u, a), u);
  }

  /** A second run in a different row order changes nothing exactly when no two matched
      templates share a name. */
  lemma {:induction false} StableInAnyOrderIff(s: State, u: int)
    ensures StableInAnyOrder(s, u) <==> DistinctNames(s, u)
  {
    if DistinctNames(s, u) {
      forall a, b | RowsOf(s, u, a) && RowsOf(s, u, b)
        ensures RowsOf(Consolidate(s, u, a), u, b)
        ensures Consolidate(Consolidate(s, u, a), u, b) == Consolidate(s, u, a)
      {
        var once := Consolidate(s, u, a);
        RowsAfterwards(s, u, a, b);
        RowsAfterwards(s, u, a, a);
        InputsDecide(s, once, u);
        ConsolidateIsTarget(once, u, b);
        ConsolidateIsTarget(once, u, a);
        ConsolidationIsIdempotent(s, u, a);
      }
    } else {
      var t, v, a, b := TwoWinners(s, u);
      var once := Consolidate(s, u, a + [t]);
      RowsAfterwards(s, u, a + [t], b + [v]);
      LastRowWins(s, u, a, t);
      LastRowWins(once, u, b, v);
      assert Consolidate(once, u, b + [v]) != once;
    }
  }

  // ----- The older pass is absorbed -----

  /** `a` is `s` with some managed rows added that the templates of `rows` will overwrite. */
  ghost predicate Near(s: State, a: State, u: int, rows: seq<int>)
    requires forall t | t in rows :: t in s.templates
  {
    SameInputs(s, a) && s.recorded == a.recorded &&
    forall k :: Lookup(s.profiles, k) == Lookup(a.profiles, k) || Added(s, a, u, rows, k)
  }

  ghost predicate Added(s: State, a: State, u: int, rows: seq<int>, k: ProfileKey)
    requires forall t | t in rows :: t in s.templates
  {
    k !in s.profiles && k in a.profiles && a.profiles[k].kind == "managed" &&
    exists t | t in rows :: Key(s, u, t) == k
  }

  lemma {:induction false} NearMeets(s: State, a: State, u: int, rows: seq<int>)
    requires (forall t | t in rows :: t in s.templates) && Near(s, a, u, rows)
    ensures UpsertAll(s, u, rows) == UpsertAll(a, u, rows)
    decreases |rows|
  {
    if rows == [] {
      MapsEqual(s.profiles, a.profiles);
    } else {
      var t, rest := rows[0], rows[1..];
      NearStep(s, a, u, rows);
      NearMeets(Upsert(s, u, t), Upsert(a, u, t), u, rest);
    }
  }

  lemma {:induction false} NearStep(s: State, a: State, u: int, rows: seq<int>)
    requires (forall t | t in rows :: t in s.templates) && rows != [] && Near(s, a, u, rows)
    ensures Near(Upsert(s, u, rows[0]), Upsert(a, u, rows[0]), u, rows[1..])
  {
    var t := rows[0];
    InputsDecide(s, a, u);
    assert Recorded(s, Key(s, u, t), t, Sources(s, u, t)) == Recorded(a, Key(s, u, t), t, Sources(a, u, t));
    forall k
      ensures Lookup(Upsert(s, u, t).profiles, k) == Lookup(Upsert(a, u, t).profiles, k)
              || Added(Upsert(s, u, t), Upsert(a, u, t), u, rows[1..], k)
    {
      NearStepAt(s, a, u, rows, k);
    }
  }

  lemma {:induction false} NearStepAt(s: State, a: State, u: int, rows: seq<int>, k: ProfileKey)
    requires (forall t | t in rows :: t in s.templates) && rows != [] && SameInputs(s, a)
    requires Lookup(s.profiles, k) == Lookup(a.profiles, k) || Added(s, a, u, rows, k)
    ensures var s1, a1 := Upsert(s, u, rows[0]), Upsert(a, u, rows[0]);
            Lookup(s1.profiles, k) == Lookup(a1.profiles, k) || Added(s1, a1, u, rows[1..], k)
  {
    InputsDecide(s, a, u);
    if k == Key(s, u, rows[0]) {
      assert KindAt(s, k) == KindAt(a, k);
    } else if Added(s, a, u, rows, k) {
      var v :| v in rows && Key(s, u, v) == k;
      assert v in rows[1..];
    }
  }

  lemma {:induction false} AssignStaysNear(s: State, a: State, u: int, assign: seq<int>, rows: seq<int>)
    requires forall t | t in rows :: t in s.templates
    requires forall t | t in assign :: t in rows
    requires Near(s, a, u, rows)
    ensures Near(s, Assign(a, u, assign), u, rows)
    decreases |assign|
  {
    if assign != [] {
      var b := AssignOne(a, u, assign[0]);
      forall k ensures Lookup(s.profiles, k) == Lookup(b.profiles, k) || Added(s, b, u, rows, k) {
        assert Lookup(s.profiles, k) == Lookup(a.profiles, k) || Added(s, a, u, rows, k);
        assert assign[0] in rows;
      }
      AssignStaysNear(s, b, u, assign[1..], rows);
    }
  }

  /** Assigning first and then consolidating gives the same tables as consolidating alone:
      every template the older pass matches is matched by consolidation, which overwrites
      whatever the older pass inserted. */
  lemma {:induction false} AssignIsAbsorbed(s: State, u: int, assign: seq<int>, rows: seq<int>)
    requires forall t | t in assign :: t in s.templates && IsMatchedByAssign(s, u, t)
    requires RowsOf(s, u, rows)
    ensures SameInputs(s, Assign(s, u, assign))
    ensures Consolidate(Assign(s, u, assign), u, rows) == Consolidate(s, u, rows)
  {
    forall t | t in assign ensures t in rows {
      AssignMatchesLess(s, u, t);
      assert t in Matched(s, u);
    }
    AssignStaysNear(s, s, u, assign, rows);
    NearMeets(s, Assign(s, u, assign), u, rows);
  }
}

/** Consolidation column by column, in terms of the tables alone: which templates reach a user,
    what each of them writes, and what happens to every other profile. */
module AgentRows {
  import opened Common
  import opened AgentModel
  import opened AgentTheorems

  // ----- Which templates reach a user -----

  /** A binding for the user's organization, department, one of the user's roles, or the user. */
  predicate BoundTo(s: State, u: int, b: Binding) {
    u in s.users &&
    ((b.scope == "organization" && b.org == Some(s.users[u].org)) ||
     (b.scope == "department" && b.dept.Some? && s.users[u].dept == b.dept) ||
     (b.scope == "role" && b.role.Some? && (u, b.role.value) in s.roleBindings) ||
     (b.scope == "user" && b.user == Some(u)))
  }

  predicate Bound(s: State, u: int, t: int) {
    t in s.templates && s.templates[t].active && exists b | b in s.bindings :: b.template == t && BoundTo(s, u, b)
  }

  lemma {:induction false} BoundToReaches(s: State, u: int, b: Binding)
    ensures BoundTo(s, u, b) <==> Reaches(s, u, b)
  {
  }

  /** The query returns each active template with a binding that reaches the user, once. */
  lemma {:induction false} RowsAre(s: State, u: int, rows: seq<int>)
    ensures RowsOf(s, u, rows) <==>
              (forall t :: t in rows <==> Bound(s, u, t)) && forall i, j | 0 <= i < j < |rows| :: rows[i] != rows[j]
  {
    forall t ensures t in Matched(s, u) <==> Bound(s, u, t) {
      forall b ensures BoundTo(s, u, b) <==> Reaches(s, u, b) {
        BoundToReaches(s, u, b);
      }
    }
  }

  /** The older query asks for the organization of the binding as well, and knows organization
      and department bindings only. */
  lemma {:induction false} AssignRowsAre(s: State, u: int, t: int)
    ensures IsMatchedByAssign(s, u, t) <==>
              t in s.templates && s.templates[t].active && u in s.users &&
              exists b | b in s.bindings ::
                b.template == t && b.org == Some(s.users[u].org) && BoundTo(s, u, b) &&
                (b.scope == "organization" || b.scope == "department")
  {
  }

  // ----- Sources -----

  /** The organization, department, role or user a binding stands for; 0 when it names none. */
  function BindingSource(b: Binding): int {
    var id := if b.scope == "role" then b.role else if b.scope == "user" then b.user
              else if b.scope == "department" then b.dept else b.org;
    match id
    case Some(x) => x
    case None => 0
  }

  /** The name of that source, or the scope when it has no name. */
  function BindingLabel(s: State, b: Binding): string {
    var named := (b.scope, BindingSource(b));
    if named !in s.names || s.names[named] == "" then b.scope else s.names[named]
  }

  /** The distinct bindings of the template that reach the user, and a text for each. */
  ghost predicate SourcesListed(s: State, u: int, t: int, bs: seq<Binding>, texts: seq<string>) {
    (forall b :: b in bs <==> b in s.bindings && b.template == t && BoundTo(s, u, b)) &&
    NoRepeats(bs) && |texts| == |bs| &&
    forall i | 0 <= i < |bs| :: texts[i] == bs[i].scope + ": " + BindingLabel(s, bs[i])
  }

  predicate NoRepeats(bs: seq<Binding>) {
    forall i, j | 0 <= i < j < |bs| :: bs[i] != bs[j]
  }

  lemma {:induction false} NoRepeatsAppend(bs: seq<Binding>, b: Binding)
    requires NoRepeats(bs) && b !in bs
    ensures NoRepeats(bs + [b])
  {
    forall i, j | 0 <= i < j < |bs + [b]| ensures (bs + [b])[i] != (bs + [b])[j] {
      assert bs[i] in bs;
    }
  }

  lemma {:induction false} SourceRowsAre(s: State, u: int, t: int, n: nat)
    requires n <= |s.bindings|
    ensures forall b :: b in SourceRows(s, u, t, n) <==> b in s.bindings[..n] && b.template == t && BoundTo(s, u, b)
    ensures NoRepeats(SourceRows(s, u, t, n))
  {
    if n > 0 {
      SourceRowsAre(s, u, t, n - 1);
      var rest, b := SourceRows(s, u, t, n - 1), s.bindings[n - 1];
      BoundToReaches(s, u, b);
      assert s.bindings[..n] == s.bindings[..n - 1] + [b];
      if b !in rest {
        NoRepeatsAppend(rest, b);
      }
    }
  }

  lemma {:induction false} LabelIs(s: State, b: Binding)
    ensures BindingSource(b) == SourceId(b) && BindingLabel(s, b) == Label(s, b.scope, SourceId(b))
  {
  }

  lemma {:induction false} SourcesAreListed(s: State, u: int, t: int)
    ensures SourcesListed(s, u, t, Sources(s, u, t), SourceTexts(s, Sources(s, u, t)))
  {
    SourceRowsAre(s, u, t, |s.bindings|);
    assert s.bindings[..|s.bindings|] == s.bindings;
    var bs := Sources(s, u, t);
    forall i | 0 <= i < |bs| ensures SourceTexts(s, bs)[i] == bs[i].scope + ": " + BindingLabel(s, bs[i]) {
      LabelIs(s, bs[i]);
    }
  }

  // ----- What a matched template writes -----

  /** The i-th template is the last of its name. */
  predicate LastOfItsName(s: State, rows: seq<int>, i: nat) {
    i < |rows| && rows[i] in s.templates &&
    forall j | i < j < |rows| && rows[j] in s.templates ::
      s.templates[rows[j]].name != s.templates[rows[i]].name
  }

  lemma {:induction false} LastNamedAt(ts: map<int, Template>, rows: seq<int>, i: nat)
    requires i < |rows| && (forall v | v in rows :: v in ts) && forall j | 0 <= j < |rows| :: rows[j] in ts
    requires forall j | i < j < |rows| :: ts[rows[j]].name != ts[rows[i]].name
    ensures LastNamed(ts, rows, ts[rows[i]].name) == Some(rows[i])
  {
    var front := rows[..|rows| - 1];
    if i < |rows| - 1 {
      assert front[i] == rows[i] && rows[|rows| - 1] in rows;
      assert forall v | v in front :: v in rows;
      LastNamedAt(ts, front, i);
    }
  }

  /** The profile of every matched template that is the last of its name: each column comes from
      the template's own column, a model id of 0 is no model, the kind is the one the profile
      had, or managed if it is new, and the sources are those of the template. */
  lemma {:induction false} TemplateColumns(s: State, u: int, rows: seq<int>, i: nat) returns (bs: seq<Binding>)
    requires RowsOf(s, u, rows) && LastOfItsName(s, rows, i)
    ensures var t, k, done := s.templates[rows[i]], (u, s.templates[rows[i]].name), Consolidate(s, u, rows).profiles;
            k in done && done[k].display == t.display && done[k].description == t.description &&
            done[k].class_ == t.class_ && done[k].model == (if t.model == 0 then None else Some(t.model)) &&
            done[k].status == "active" && done[k].managed &&
            done[k].template == Some(rows[i]) && done[k].version == Some(t.version) &&
            done[k].kind == (if k in s.profiles then s.profiles[k].kind else "managed") &&
            SourcesListed(s, u, rows[i], bs, done[k].sources)
  {
    var t := rows[i];
    var k := (u, s.templates[t].name);
    assert forall v | v in rows :: v in s.templates;
    ConsolidatedAt(s, u, rows, k);
    assert forall j | 0 <= j < |rows| :: rows[j] in rows && rows[j] in s.templates;
    LastNamedAt(s.templates, rows, i);
    bs := Sources(s, u, t);
    SourcesAreListed(s, u, t);
  }

  /** Every other profile: one of another user is untouched, and so is one of the user unless it
      is managed and its source is not a template that reaches the user; that one is disabled
      and keeps its other columns. No profile disappears or appears elsewhere. */
  lemma {:induction false} OtherProfiles(s: State, u: int, rows: seq<int>, k: ProfileKey)
    requires RowsOf(s, u, rows)
    requires k.0 != u || forall t | Bound(s, u, t) :: s.templates[t].name != k.1
    ensures var done := Consolidate(s, u, rows).profiles;
            (k in done <==> k in s.profiles) &&
            (k in done ==>
               var p := s.profiles[k];
               done[k] == if k.0 == u && p.managed && (p.template.None? || !Bound(s, u, p.template.value))
                          then p.(status := "disabled") else p)
  {
    RowsAre(s, u, rows);
    ConsolidatedAt(s, u, rows, k);
    var last := LastNamed(s.templates, rows, k.1);
    if k.0 == u {
      assert forall t | t in rows :: s.templates[t].name != k.1;
    }
    assert forall t :: t in Matched(s, u) <==> t in rows;
  }

  /** The recorded sources: one row for each matched template and binding that reaches the user,
      with its label, under the profile the template is named after; all others stay. */
  lemma {:induction false} RecordedRows(s: State, u: int, rows: seq<int>, key: SourceKey)
    requires RowsOf(s, u, rows)
    ensures var done := Consolidate(s, u, rows).recorded;
            if Bound(s, u, key.template) && key.profile == (u, s.templates[key.template].name) &&
               exists b | b in s.bindings ::
                 b.template == key.template && BoundTo(s, u, b) && b.scope == key.scope && BindingSource(b) == key.id
            then
              key in done && forall b | b in s.bindings &&
                b.template == key.template && BoundTo(s, u, b) && b.scope == key.scope && BindingSource(b) == key.id ::
                done[key] == BindingLabel(s, b)
            else
              (key in done <==> key in s.recorded) && (key in done ==> done[key] == s.recorded[key])
  {
    RowsAre(s, u, rows);
    assert forall t | t in rows :: t in s.templates;
    UpsertedSources(s, u, rows, key);
    SourceRowsAre(s, u, key.template, |s.bindings|);
    assert s.bindings[..|s.bindings|] == s.bindings;
    forall b ensures BindingSource(b) == SourceId(b) && BindingLabel(s, b) == Label(s, b.scope, SourceId(b)) {
      LabelIs(s, b);
    }
  }

  // ----- The older pass -----

  /** The row the older pass inserts for a template whose name is free: its columns, without a
      version and without sources. */
  lemma {:induction false} AssignedRow(s: State, u: int, t: int)
    requires t in s.templates
    ensures var p, k, done := s.templates[t], (u, s.templates[t].name), AssignOne(s, u, t);
            if k in s.profiles then done == s
            else done == s.(profiles := s.profiles[k := Profile(
                              if p.model == 0 then None else Some(p.model), p.display, p.description, "active",
                              p.class_, "managed", true, Some(t), None, [])])
  {
  }
}

/** What every run of the chat operations keeps. */
module ChatTheorems {
  import opened Common
  import opened ChatModel

  // ----- The invariant -----

  predicate RootOk(ms: seq<Message>, i: nat)
    requires i < |ms|
  {
    ms[i].root.Some? ==>
      var r := ms[i].root.value;
      r < i && ms[i].role == Assistant && ms[r].role == Assistant && ms[r].conv == ms[i].conv && ms[r].root == None
  }

  predicate IsRoot(ms: seq<Message>, r: nat) {
    r < |ms| && ms[r].role == Assistant && ms[r].root == None
  }

  /** p is the one selected message of the group of r. */
  predicate OnlySelected(ms: seq<Message>, r: nat, p: nat) {
    p < |ms| && InGroup(ms, r, p) && ms[p].selected &&
    forall i | 0 <= i < |ms| && InGroup(ms, r, i) && ms[i].selected :: i == p
  }

  /** Candidates form groups of depth one within a conversation, and each group has exactly
      one selected message. */
  ghost predicate Inv(s: State) {
    && (forall i | 0 <= i < |s.messages| :: RootOk(s.messages, i))
    && (forall r | IsRoot(s.messages, r) :: exists p :: OnlySelected(s.messages, r, p))
  }

  lemma {:induction false} RootIsRoot(ms: seq<Message>, id: nat)
    requires id < |ms| && ms[id].role == Assistant && RootOk(ms, id)
    ensures IsRoot(ms, RootOf(ms, id)) && InGroup(ms, RootOf(ms, id), id)
    ensures ms[RootOf(ms, id)].conv == ms[id].conv
  {
  }

  // ----- Group updates touch one or two rows -----

  /** With one selected message in the group, deselecting the group is deselecting it. */
  lemma {:induction false} DeselectOne(ms: seq<Message>, r: nat, p: nat)
    requires OnlySelected(ms, r, p)
    ensures Deselected(ms, r) == ms[p := ms[p].(selected := false)]
  {
  }

  lemma {:induction false} ChooseOne(ms: seq<Message>, r: nat, p: nat, id: nat)
    requires OnlySelected(ms, r, p) && id < |ms| && InGroup(ms, r, id)
    ensures var t := ms[p := ms[p].(selected := false)];
            Chosen(ms, r, id) == t[id := t[id].(selected := true)]
  {
  }

  /** Moving the selection within one group leaves every other group as it was. */
  lemma {:induction false} MoveSelection(s: State, r: nat, p: nat, id: nat)
    requires Inv(s) && IsRoot(s.messages, r) && OnlySelected(s.messages, r, p)
    requires id < |s.messages| && InGroup(s.messages, r, id)
    ensures Inv(s.(messages := Chosen(s.messages, r, id)))
    ensures OnlySelected(Chosen(s.messages, r, id), r, id)
  {
    var ms, t := s.messages, Chosen(s.messages, r, id);
    ChooseOne(ms, r, p, id);
    forall i | 0 <= i < |t| ensures RootOk(t, i) {
      assert RootOk(ms, i);
    }
    forall q | IsRoot(t, q) ensures exists x :: OnlySelected(t, q, x) {
      if q == r {
        assert OnlySelected(t, q, id);
      } else {
        assert IsRoot(ms, q);
        var x :| OnlySelected(ms, q, x);
        GroupsAreDisjoint(ms, r, q);
        assert OnlySelected(t, q, x);
      }
    }
  }

  lemma {:induction false} GroupsAreDisjoint(ms: seq<Message>, r: nat, q: nat)
    requires IsRoot(ms, r) && IsRoot(ms, q) && r != q
    ensures forall i | 0 <= i < |ms| :: !(InGroup(ms, r, i) && InGroup(ms, q, i))
  {
  }

  // ----- One step at a time -----

  lemma {:induction false} SendKeepsInv(s: State, user: int, conv: int, text: string, model: Option<int>)
    requires Inv(s)
    ensures Inv(Send(s, user, conv, text, model))
  {
    var t := Send(s, user, conv, text, model);
    if t != s {
      var ms, ns, n := s.messages, t.messages, |s.messages|;
      forall i | 0 <= i < |ns| ensures RootOk(ns, i) {
        if i < n {
          assert RootOk(ms, i);
        }
      }
      forall r | IsRoot(ns, r) ensures exists p :: OnlySelected(ns, r, p) {
        if r == n + 1 {
          forall i | 0 <= i < n ensures !InGroup(ns, r, i) {
            assert RootOk(ms, i);
          }
          assert OnlySelected(ns, r, r);
        } else {
          assert IsRoot(ms, r);
          var p :| OnlySelected(ms, r, p);
          assert OnlySelected(ns, r, p);
        }
      }
    }
  }

  lemma {:induction false} RegenerateKeepsInv(s: State, user: int, id: nat, model: Option<int>)
    requires Inv(s)
    ensures Inv(Regenerate(s, user, id, model))
  {
    if CanRegenerate(s, user, id, model) {
      var ms, ns, n := s.messages, Regenerate(s, user, id, model).messages, |s.messages|;
      var root := RootOf(ms, id);
      assert RootOk(ms, id);
      RootIsRoot(ms, id);
      var p :| OnlySelected(ms, root, p);
      DeselectOne(ms, root, p);
      forall i | 0 <= i < |ns| ensures RootOk(ns, i) {
        if i < n {
          assert RootOk(ms, i);
        }
      }
      forall r | IsRoot(ns, r) ensures exists q :: OnlySelected(ns, r, q) {
        assert IsRoot(ms, r);
        if r == root {
          assert OnlySelected(ns, r, n);
        } else {
          var q :| OnlySelected(ms, r, q);
          GroupsAreDisjoint(ms, root, r);
          assert OnlySelected(ns, r, q);
        }
      }
    }
  }

  lemma {:induction false} SelectKeepsInv(s: State, user: int, id: nat)
    requires Inv(s)
    ensures Inv(Select(s, user, id))
  {
    if Visible(s, user, id) && s.messages[id].role == Assistant {
      assert RootOk(s.messages, id);
      RootIsRoot(s.messages, id);
      var root := RootOf(s.messages, id);
      var p :| OnlySelected(s.messages, root, p);
      MoveSelection(s, root, p, id);
    }
  }

  lemma {:induction false} RunKeepsInv(s: State, es: seq<Event>)
    requires Inv(s)
    ensures Inv(Run(s, es))
  {
    if es != [] {
      RunKeepsInv(s, es[..|es| - 1]);
      var t := Run(s, es[..|es| - 1]);
      match es[|es| - 1]
      case DoSend(user, conv, text, model) => SendKeepsInv(t, user, conv, text, model);
      case DoRegenerate(user, id, model) => RegenerateKeepsInv(t, user, id, model);
      case DoSelect(user, id) => SelectKeepsInv(t, user, id);
      case NewConversation(_, _) =>
    }
  }

  // ----- Counting -----

  lemma {:induction false} UpdateCounts(ms: seq<Message>, p: nat, m: Message, conv: int)
    requires p < |ms| && m.conv == ms[p].conv && m.role == ms[p].role
    ensures SelectedReplies(ms[p := m], conv) + Tally(SelectedReply(ms[p], conv))
         == SelectedReplies(ms, conv) + Tally(SelectedReply(m, conv))
    ensures Questions(ms[p := m], conv) == Questions(ms, conv)
    decreases |ms|
  {
    var n := |ms| - 1;
    if p < n {
      assert ms[p := m][..n] == ms[..n][p := m];
      UpdateCounts(ms[..n], p, m, conv);
    } else {
      assert ms[p := m][..n] == ms[..n];
    }
  }

  lemma {:induction false} AppendCounts(ms: seq<Message>, m: Message, conv: int)
    ensures SelectedReplies(ms + [m], conv) == SelectedReplies(ms, conv) + Tally(SelectedReply(m, conv))
    ensures Questions(ms + [m], conv) == Questions(ms, conv) + Tally(m.conv == conv && m.role == Person)
  {
    assert (ms + [m])[..|ms|] == ms;
  }

  function Surplus(s: State, conv: int): int {
    SelectedReplies(s.messages, conv) - Questions(s.messages, conv)
  }

  lemma {:induction false} SelectionMoveCounts(ms: seq<Message>, r: nat, p: nat, id: nat, conv: int)
    requires IsRoot(ms, r) && OnlySelected(ms, r, p) && id < |ms| && InGroup(ms, r, id)
    requires RootOk(ms, p) && RootOk(ms, id)
    ensures SelectedReplies(Chosen(ms, r, id), conv) == SelectedReplies(ms, conv)
    ensures Questions(Chosen(ms, r, id), conv) == Questions(ms, conv)
  {
    var t := ms[p := ms[p].(selected := false)];
    ChooseOne(ms, r, p, id);
    UpdateCounts(ms, p, ms[p].(selected := false), conv);
    UpdateCounts(t, id, t[id].(selected := true), conv);
    assert !t[id].selected;
  }

  lemma {:induction false} SendKeepsSurplus(s: State, user: int, c: int, text: string, model: Option<int>, conv: int)
    ensures Surplus(Send(s, user, c, text, model), conv) == Surplus(s, conv)
  {
    var ms, ns := s.messages, Send(s, user, c, text, model).messages;
    if ns != ms {
      AppendCounts(ms, ns[|ms|], conv);
      AppendCounts(ms + [ns[|ms|]], ns[|ms| + 1], conv);
      assert ns == ms + [ns[|ms|]] + [ns[|ms| + 1]];
    }
  }

  /** The group an assistant message belongs to and its selected member. */
  lemma {:induction false} SelectedInGroup(s: State, id: nat) returns (p: nat)
    requires Inv(s) && id < |s.messages| && s.messages[id].role == Assistant
    ensures IsRoot(s.messages, RootOf(s.messages, id)) && InGroup(s.messages, RootOf(s.messages, id), id)
    ensures OnlySelected(s.messages, RootOf(s.messages, id), p)
    ensures RootOk(s.messages, p) && RootOk(s.messages, id)
    ensures s.messages[p].role == Assistant && s.messages[p].conv == s.messages[id].conv
  {
    assert RootOk(s.messages, id);
    RootIsRoot(s.messages, id);
    p :| OnlySelected(s.messages, RootOf(s.messages, id), p);
    assert RootOk(s.messages, p);
  }

  lemma {:induction false} RegenerateKeepsSurplus(s: State, user: int, id: nat, model: Option<int>, conv: int)
    requires Inv(s)
    ensures Surplus(Regenerate(s, user, id, model), conv) == Surplus(s, conv)
  {
    if CanRegenerate(s, user, id, model) {
      var ms, ns, root := s.messages, Regenerate(s, user, id, model).messages, RootOf(s.messages, id);
      var p := SelectedInGroup(s, id);
      DeselectOne(ms, root, p);
      UpdateCounts(ms, p, ms[p].(selected := false), conv);
      AppendCounts(Deselected(ms, root), ns[|ms|], conv);
    }
  }

  lemma {:induction false} NextKeepsSurplus(s: State, e: Event, conv: int)
    requires Inv(s)
    ensures Surplus(Next(s, e), conv) == Surplus(s, conv)
  {
    match e
    case DoSend(user, c, text, model) => SendKeepsSurplus(s, user, c, text, model, conv);
    case DoRegenerate(user, id, model) => RegenerateKeepsSurplus(s, user, id, model, conv);
    case DoSelect(user, id) =>
      if Visible(s, user, id) && s.messages[id].role == Assistant {
        var p := SelectedInGroup(s, id);
        SelectionMoveCounts(s.messages, RootOf(s.messages, id), p, id, conv);
      }
    case NewConversation(_, _) =>
  }

  /** Over every run: candidates lead to a root assistant message of the same conversation,
      each group has exactly one selected message, and the selected answers of a conversation
      outnumber its questions by as much as they did at the start. */
  lemma {:induction false} ChatRun(s: State, es: seq<Event>, conv: int)
    requires Inv(s)
    ensures Inv(Run(s, es)) && Surplus(Run(s, es), conv) == Surplus(s, conv)
  {
    RunKeepsInv(s, es);
    if es != [] {
      ChatRun(s, es[..|es| - 1], conv);
      NextKeepsSurplus(Run(s, es[..|es| - 1]), es[|es| - 1], conv);
    }
  }

  /** Starting from no messages, every conversation always has as many selected answers as
      questions. */
  lemma {:induction false} OneSelectedAnswerPerQuestion(s: State, es: seq<Event>, conv: int)
    requires s.messages == []
    ensures Inv(Run(s, es))
    ensures SelectedReplies(Run(s, es).messages, conv) == Questions(Run(s, es).messages, conv)
  {
    ChatRun(s, es, conv);
  }

  // ----- Undoing a regeneration -----

  /** Regenerating an answer and then choosing the formerly selected candidate leaves the old
      rows exactly as they were and shows the old transcript in every conversation. */
  lemma {:induction false} ReselectingUndoesRegeneration(s: State, user: int, id: nat, model: Option<int>, p: nat)
    requires Inv(s) && CanRegenerate(s, user, id, model)
    requires OnlySelected(s.messages, RootOf(s.messages, id), p)
    ensures var back := Select(Regenerate(s, user, id, model), user, p);
            |back.messages| == |s.messages| + 1 && back.messages[..|s.messages|] == s.messages &&
            !back.messages[|s.messages|].selected &&
            forall conv :: Transcript(back.messages, conv) == Transcript(s.messages, conv)
  {
    var ms, n, root := s.messages, |s.messages|, RootOf(s.messages, id);
    var mid := Regenerate(s, user, id, model);
    assert RootOk(ms, id) && RootOk(ms, p);
    RootIsRoot(ms, id);
    DeselectOne(ms, root, p);
    var back := Select(mid, user, p).messages;
    assert RootOf(mid.messages, p) == root;
    forall i | 0 <= i < n ensures back[i] == ms[i] {
      assert RootOk(ms, i);
    }
    assert back[..n] == ms && !back[n].selected;
  }

  /** Whatever happens, the text, author and place of a message never change. */
  lemma {:induction false} MessagesAreImmutable(s: State, es: seq<Event>, i: nat)
    requires i < |s.messages|
    ensures i < |Run(s, es).messages|
    ensures var m, m' := s.messages[i], Run(s, es).messages[i];
            m' == m.(selected := m'.selected)
  {
    if es != [] {
      MessagesAreImmutable(s, es[..|es| - 1], i);
    }
  }
}

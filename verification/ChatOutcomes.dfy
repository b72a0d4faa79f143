/** What each chat request does to the messages, row by row: exactly when it is accepted, which
    question a regenerated answer replies to, and which flags move. */
module ChatOutcomes {
  import opened Common
  import opened Text
  import opened ChatModel

  // ----- Sending -----

  /** The owner of a conversation with an effective model appends a trimmed question and its
      answer, both selected, by sending a text that is not blank; any other request does
      nothing. */
  lemma {:induction false} MessageSent(s: State, user: int, conv: int, text: string, model: Option<int>)
    ensures var t := Send(s, user, conv, text, model);
            if conv in s.owner && s.owner[conv] == user && model.Some? && Trim(text) != "" then
              t.owner == s.owner && |t.messages| == |s.messages| + 2 && s.messages <= t.messages &&
              t.messages[|s.messages|] == Message(conv, Person, Typed(Trim(text)), None, true) &&
              t.messages[|s.messages| + 1]
              == Message(conv, Assistant, Reply(model.value, Typed(Trim(text))), None, true)
            else t == s
  {
  }

  // ----- Regenerating -----

  predicate IsQuestion(ms: seq<Message>, conv: int, q: nat) {
    q < |ms| && ms[q].conv == conv && ms[q].role == Person
  }

  /** The question an answer of the conversation at this position replies to: the last one
      before it. */
  predicate Answers(ms: seq<Message>, id: nat, q: nat) {
    id < |ms| && q < id && IsQuestion(ms, ms[id].conv, q) &&
    forall i: nat | q < i < id :: !IsQuestion(ms, ms[id].conv, i)
  }

  /** A message of a conversation of the user, by the assistant, behind some question. */
  predicate MayBeRegenerated(s: State, user: int, id: nat) {
    id < |s.messages| && s.messages[id].conv in s.owner && s.owner[s.messages[id].conv] == user &&
    s.messages[id].role == Assistant && exists q | 0 <= q < id :: IsQuestion(s.messages, s.messages[id].conv, q)
  }

  /** The first message of the group that id belongs to. */
  function GroupOf(ms: seq<Message>, id: nat): nat
    requires id < |ms|
  {
    match ms[id].root
    case Some(first) => first
    case None => id
  }

  /** With an effective model a message that may be regenerated gets one more candidate: in the
      same conversation, naming the first message of the group, selected, and answering the
      question right before the regenerated message, whatever was asked later. The rest of the
      group is deselected and nothing else changes. Any other request does nothing. */
  lemma {:induction false} AnswerRegenerated(s: State, user: int, id: nat, model: Option<int>)
    ensures var ms, t := s.messages, Regenerate(s, user, id, model);
            if MayBeRegenerated(s, user, id) && model.Some? then
              var first := GroupOf(ms, id);
              t.owner == s.owner && |t.messages| == |ms| + 1 &&
              (forall i | 0 <= i < |ms| ::
                 t.messages[i] == ms[i].(selected := ms[i].selected && i != first && ms[i].root != Some(first))) &&
              exists q: nat :: Answers(ms, id, q) &&
                t.messages[|ms|]
                == Message(ms[id].conv, Assistant, Regenerated(model.value, ms[q].content), Some(first), true)
            else t == s
  {
    var ms := s.messages;
    if id < |ms| {
      var found := LastPerson(ms, ms[id].conv, id);
      if found.Some? {
        assert IsQuestion(ms, ms[id].conv, found.value);
        assert Answers(ms, id, found.value);
      }
      assert MayBeRegenerated(s, user, id) && model.Some? <==> CanRegenerate(s, user, id, model) by {
        if q :| 0 <= q < id && IsQuestion(ms, ms[id].conv, q) {
          assert found.Some?;
        }
      }
    }
  }

  lemma {:induction false} AnswersOneQuestion(ms: seq<Message>, id: nat, p: nat, q: nat)
    requires Answers(ms, id, p) && Answers(ms, id, q)
    ensures p == q
  {
  }

  /** Messages that come later make no difference to what a regenerated answer replies to. */
  lemma {:induction false} LaterMessagesDoNotMatter(
      s: State, more: seq<Message>, user: int, id: nat, model: Option<int>)
    requires id < |s.messages|
    ensures var t := s.(messages := s.messages + more);
            MayBeRegenerated(t, user, id) <==> MayBeRegenerated(s, user, id)
    ensures var t := s.(messages := s.messages + more);
            MayBeRegenerated(s, user, id) && model.Some? ==>
              var a, b := Regenerate(s, user, id, model).messages, Regenerate(t, user, id, model).messages;
              a != [] && b != [] && a[|a| - 1].content == b[|b| - 1].content
  {
    var ms, all := s.messages, s.messages + more;
    var t := s.(messages := all);
    assert forall i: nat | i < |ms| :: IsQuestion(all, all[id].conv, i) <==> IsQuestion(ms, ms[id].conv, i);
    if MayBeRegenerated(s, user, id) && model.Some? {
      AnswerRegenerated(s, user, id, model);
      AnswerRegenerated(t, user, id, model);
      var p: nat :| Answers(ms, id, p);
      assert Answers(all, id, p);
      forall q: nat | Answers(all, id, q) ensures q == p {
        AnswersOneQuestion(all, id, p, q);
      }
      forall q: nat | Answers(ms, id, q) ensures q == p {
        AnswersOneQuestion(ms, id, p, q);
      }
    }
  }

  // ----- Selecting -----

  /** The owner of an assistant message selects it and deselects the rest of its group; nothing
      else changes, and any other request does nothing. */
  lemma {:induction false} CandidateSelected(s: State, user: int, id: nat)
    ensures var ms, t := s.messages, Select(s, user, id);
            if id < |ms| && ms[id].conv in s.owner && s.owner[ms[id].conv] == user && ms[id].role == Assistant then
              var first := GroupOf(ms, id);
              t.owner == s.owner && |t.messages| == |ms| &&
              forall i | 0 <= i < |ms| ::
                t.messages[i]
                == if i == first || ms[i].root == Some(first) then ms[i].(selected := i == id) else ms[i]
            else t == s
  {
  }
}

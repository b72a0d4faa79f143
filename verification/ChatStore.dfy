/** The chat handlers as they run on the message table. */
module ChatStore {
  import opened Common
  import opened Text
  import opened ChatModel

  class Server {
    var messages: seq<Message>
    var owner: map<int, int>

    function View(): State
      reads this
    {
      State(messages, owner)
    }

    method Send(user: int, conv: int, text: string, model: Option<int>)
      modifies `messages
      ensures View() == old(ChatModel.Send(View(), user, conv, text, model))
    {
      if conv !in owner || owner[conv] != user || Trim(text) == "" || model.None? {
        return;
      }
      var asked := Typed(Trim(text));
      messages := messages + [Message(conv, Person, asked, None, true)];
      messages := messages + [Message(conv, Assistant, Reply(model.value, asked), None, true)];
    }

    /** `SET selected_for_context=0 WHERE id=? OR regenerated_from_message_id=?` */
    method DeselectGroup(root: nat)
      modifies `messages
      ensures messages == Deselected(old(messages), root)
    {
      ghost var ms := messages;
      for i := 0 to |messages|
        invariant |messages| == |ms|
        invariant forall j | 0 <= j < i :: messages[j] == Deselected(ms, root)[j]
        invariant forall j | i <= j < |ms| :: messages[j] == ms[j]
      {
        if i == root || messages[i].root == Some(root) {
          messages := messages[i := messages[i].(selected := false)];
        }
      }
    }

    /** `SET selected_for_context=CASE WHEN id=? THEN 1 ELSE 0 END WHERE ..` on the group */
    method ChooseInGroup(root: nat, id: nat)
      modifies `messages
      ensures messages == Chosen(old(messages), root, id)
    {
      ghost var ms := messages;
      for i := 0 to |messages|
        invariant |messages| == |ms|
        invariant forall j | 0 <= j < i :: messages[j] == Chosen(ms, root, id)[j]
        invariant forall j | i <= j < |ms| :: messages[j] == ms[j]
      {
        if i == root || messages[i].root == Some(root) {
          messages := messages[i := messages[i].(selected := i == id)];
        }
      }
    }

    method Regenerate(user: int, id: nat, model: Option<int>)
      modifies `messages
      ensures View() == old(ChatModel.Regenerate(View(), user, id, model))
    {
      if id >= |messages| || messages[id].conv !in owner || owner[messages[id].conv] != user {
        return;
      }
      if messages[id].role != Assistant || model.None? {
        return;
      }
      var conv := messages[id].conv;
      var found := LastPerson(messages, conv, id);
      if found.None? {
        return;
      }
      var source := messages[found.value].content;
      var root := if messages[id].root.Some? then messages[id].root.value else id;
      DeselectGroup(root);
      messages := messages + [Message(conv, Assistant, Regenerated(model.value, source), Some(root), true)];
    }

    method Select(user: int, id: nat)
      modifies `messages
      ensures View() == old(ChatModel.Select(View(), user, id))
    {
      if id >= |messages| || messages[id].conv !in owner || owner[messages[id].conv] != user {
        return;
      }
      if messages[id].role != Assistant {
        return;
      }
      ChooseInGroup(if messages[id].root.Some? then messages[id].root.value else id, id);
    }
  }
}

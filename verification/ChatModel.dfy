/** Workspace chat: sending, regenerating and choosing between candidate answers. */
module ChatModel {
  import opened Common
  import opened Text

  datatype Role = Person | Assistant

  /** The mock provider formats its replies from the model and the text it answers. */
  datatype Content =
    | Typed(text: string)
    | Reply(model: int, source: Content)
    | Regenerated(model: int, source: Content)

  /** `root` is regenerated_from_message_id, `selected` is selected_for_context. */
  datatype Message = Message(conv: int, role: Role, content: Content, root: Option<nat>, selected: bool)

  /** The id of a message is its position: rows are only ever appended. */
  datatype State = State(messages: seq<Message>, owner: map<int, int>)

  // ----- Queries -----

  predicate Visible(s: State, user: int, id: nat) {
    id < |s.messages| && s.messages[id].conv in s.owner && s.owner[s.messages[id].conv] == user
  }

  /** COALESCE(regenerated_from_message_id, id) */
  function RootOf(ms: seq<Message>, id: nat): nat
    requires id < |ms|
  {
    if ms[id].root.Some? then ms[id].root.value else id
  }

  /** The group update's WHERE clause. */
  predicate InGroup(ms: seq<Message>, root: nat, i: nat)
    requires i < |ms|
  {
    i == root || ms[i].root == Some(root)
  }

  /** The latest user message of the conversation among the first n. */
  function LastPerson(ms: seq<Message>, conv: int, n: nat): (found: Option<nat>)
    requires n <= |ms|
    ensures found.Some? ==> found.value < n && ms[found.value].conv == conv && ms[found.value].role == Person
    ensures forall i | (if found.Some? then found.value else -1) < i < n ::
              !(ms[i].conv == conv && ms[i].role == Person)
  {
    if n == 0 then None
    else if ms[n - 1].conv == conv && ms[n - 1].role == Person then Some(n - 1)
    else LastPerson(ms, conv, n - 1)
  }

  // ----- Operations -----

  function Deselected(ms: seq<Message>, root: nat): (t: seq<Message>)
    ensures |t| == |ms|
  {
    seq(|ms|, i requires 0 <= i < |ms| =>
      if InGroup(ms, root, i) then ms[i].(selected := false) else ms[i])
  }

  function Chosen(ms: seq<Message>, root: nat, id: nat): (t: seq<Message>)
    ensures |t| == |ms|
  {
    seq(|ms|, i requires 0 <= i < |ms| =>
      if InGroup(ms, root, i) then ms[i].(selected := i == id) else ms[i])
  }

  /** `model` is the effective model of the conversation, when there is one. */
  function Send(s: State, user: int, conv: int, text: string, model: Option<int>): State {
    if conv in s.owner && s.owner[conv] == user && Trim(text) != "" && model.Some? then
      var asked := Typed(Trim(text));
      s.(messages := s.messages + [Message(conv, Person, asked, None, true),
                                   Message(conv, Assistant, Reply(model.value, asked), None, true)])
    else s
  }

  predicate CanRegenerate(s: State, user: int, id: nat, model: Option<int>) {
    Visible(s, user, id) && s.messages[id].role == Assistant && model.Some? &&
    LastPerson(s.messages, s.messages[id].conv, id).Some?
  }

  function Regenerate(s: State, user: int, id: nat, model: Option<int>): State {
    if !CanRegenerate(s, user, id, model) then s
    else
      var conv, root := s.messages[id].conv, RootOf(s.messages, id);
      var source := s.messages[LastPerson(s.messages, conv, id).value].content;
      s.(messages := Deselected(s.messages, root)
                     + [Message(conv, Assistant, Regenerated(model.value, source), Some(root), true)])
  }

  function Select(s: State, user: int, id: nat): State {
    if Visible(s, user, id) && s.messages[id].role == Assistant
    then s.(messages := Chosen(s.messages, RootOf(s.messages, id), id)) else s
  }

  // ----- Runs -----

  datatype Event =
    | DoSend(user: int, conv: int, text: string, model: Option<int>)
    | DoRegenerate(user: int, id: nat, model: Option<int>)
    | DoSelect(user: int, id: nat)
    | NewConversation(user: int, conv: int)

  function Next(s: State, e: Event): State {
    match e
    case DoSend(user, conv, text, model) => Send(s, user, conv, text, model)
    case DoRegenerate(user, id, model) => Regenerate(s, user, id, model)
    case DoSelect(user, id) => Select(s, user, id)
    case NewConversation(user, conv) => if conv in s.owner then s else s.(owner := s.owner[conv := user])
  }

  function Run(s: State, es: seq<Event>): State {
    if es == [] then s else Next(Run(s, es[..|es| - 1]), es[|es| - 1])
  }

  // ----- What a conversation shows -----

  /** The selected messages of a conversation with their ids, in order. */
  function Transcript(ms: seq<Message>, conv: int): seq<(nat, Message)> {
    if ms == [] then []
    else
      var n := |ms| - 1;
      Transcript(ms[..n], conv) + if ms[n].conv == conv && ms[n].selected then [(n, ms[n])] else []
  }

  function Tally(b: bool): nat {
    if b then 1 else 0
  }

  predicate SelectedReply(m: Message, conv: int) {
    m.conv == conv && m.role == Assistant && m.selected
  }

  function SelectedReplies(ms: seq<Message>, conv: int): nat {
    if ms == [] then 0
    else SelectedReplies(ms[..|ms| - 1], conv) + Tally(SelectedReply(ms[|ms| - 1], conv))
  }

  function Questions(ms: seq<Message>, conv: int): nat {
    if ms == [] then 0
    else Questions(ms[..|ms| - 1], conv) + Tally(ms[|ms| - 1].conv == conv && ms[|ms| - 1].role == Person)
  }
}

/** The internal-documents chat page: the message list, the input box and
    its loading flag, the history kept in browser storage, and the height
    rule of the input area.  Sending is split in two at its `await`: `Send`
    is what happens on the click, `Complete` what happens when the answer
    (or the failure) arrives.  Message ids come from the clock reading
    `now`, rendered in decimal as `Date.now().toString()` does. */
module ChatPage {
  import opened Wrappers
  import opened Text

  /** A chat message; the timestamp is kept as the text of the date. */
  datatype Message = Message(id: string, text: string, isUser: bool, timestamp: string)

  /** How the `fetch` to the chat endpoint ends: an ok response whose JSON
      has the given `response` field, a non-ok status, or a throw (network
      failure or a body that is not JSON). */
  datatype Reply = Answered(response: Option<string>) | NotOk | Thrown

  const StorageKey: string := "vnd-chat-history"
  const WelcomeId: string := "1"
  const WelcomeText: string :=
    "Добро пожаловать в чат-бот по внутренним нормативным документам! Я помогу вам найти информацию по регламентам, процедурам и политикам компании. Задайте ваш вопрос."
  const EmptyAnswer: string := "Получен пустой ответ"
  const Apology: string := "Извините, произошла ошибка. Попробуйте еще раз."
  const LineHeight: nat := 24
  const MaxHeight: nat := LineHeight * 7

  function WelcomeMessage(timestamp: string): Message {
    Message(WelcomeId, WelcomeText, false, timestamp)
  }

  /** The bot message's final text: the answer, the empty-answer notice
      when the answer is missing or empty, the apology on any failure. */
  function ReplyText(reply: Reply): (r: string)
    ensures reply.Answered? && reply.response.Some? && reply.response.value != "" ==> r == reply.response.value
    ensures reply.Answered? && (reply.response.None? || reply.response.value == "") ==> r == EmptyAnswer
    ensures !reply.Answered? ==> r == Apology
  {
    match reply
    case Answered(response) =>
      if response.Some? && response.value != "" then response.value else EmptyAnswer
    case NotOk => Apology
    case Thrown => Apology
  }

  /** `prev.map(msg => msg.id === id ? { ...msg, text } : msg)` */
  function UpdateById(messages: seq<Message>, id: string, text: string): (r: seq<Message>)
    ensures |r| == |messages|
    ensures forall i :: 0 <= i < |r| && messages[i].id == id ==> r[i] == messages[i].(text := text)
    ensures forall i :: 0 <= i < |r| && messages[i].id != id ==> r[i] == messages[i]
  {
    if messages == [] then []
    else
      [if messages[0].id == id then messages[0].(text := text) else messages[0]]
      + UpdateById(messages[1..], id, text)
  }

  /** When exactly one message carries the id, the update rewrites that one
      message's text and leaves the list otherwise as it was. */
  lemma {:induction false} UpdateUniqueId(messages: seq<Message>, j: nat, text: string)
    requires j < |messages|
    requires forall i :: 0 <= i < |messages| && i != j ==> messages[i].id != messages[j].id
    ensures UpdateById(messages, messages[j].id, text) == messages[j := messages[j].(text := text)]
  {
    var r := UpdateById(messages, messages[j].id, text);
    forall i | 0 <= i < |messages|
      ensures r[i] == messages[j := messages[j].(text := text)][i]
    {
      if i == j {
        assert messages[i].id == messages[j].id;
      } else {
        assert messages[i].id != messages[j].id;
      }
    }
  }

  /** Two different clock readings give two different ids. */
  lemma IdsDiffer(m: nat, n: nat)
    requires m != n
    ensures NatToString(m) != NatToString(n)
  {
    assert DigitsValue(NatToString(m)) == m;
    assert DigitsValue(NatToString(n)) == n;
  }

  /** The height given to the input area: its content height, up to seven
      lines of 24 pixels. */
  function TextareaHeight(scrollHeight: nat): (h: nat)
    ensures h <= MaxHeight && h <= scrollHeight
    ensures h == scrollHeight || h == MaxHeight
  {
    if scrollHeight <= MaxHeight then scrollHeight else MaxHeight
  }

  /** Enter sends; Shift+Enter is an ordinary line break. */
  predicate SendsOnKey(key: string, shift: bool) {
    key == "Enter" && !shift
  }

  class Chat {
    var messages: seq<Message>
    var input: string
    var loading: bool
    var storage: map<string, string>   // the browser's `localStorage`

    /** The first render: the welcome message alone. */
    constructor(timestamp: string, storage: map<string, string>)
      ensures messages == [WelcomeMessage(timestamp)] && input == "" && !loading
      ensures this.storage == storage
    {
      messages := [WelcomeMessage(timestamp)];
      input := "";
      loading := false;
      this.storage := storage;
    }

    /** The mount effect: a non-empty stored history that parses replaces
        the list; `decode` is `JSON.parse` with the dates revived. */
    method LoadEffect(decode: string -> Option<seq<Message>>)
      modifies this
      ensures var stored := StorageKey in storage && storage[StorageKey] != "";
        if stored && decode(storage[StorageKey]).Some? then messages == decode(storage[StorageKey]).value
        else messages == old(messages)
      ensures input == old(input) && loading == old(loading) && storage == old(storage)
    {
      if StorageKey in storage && storage[StorageKey] != "" {
        var parsed := decode(storage[StorageKey]);
        if parsed.Some? {
          messages := parsed.value;
        }
      }
    }

    /** The persistence effect: the history is written only when it holds
        more than the welcome message; `encode` is `JSON.stringify`. */
    method PersistEffect(encode: seq<Message> -> string)
      modifies this
      ensures |messages| > 1 ==> storage == old(storage)[StorageKey := encode(messages)]
      ensures |messages| <= 1 ==> storage == old(storage)
      ensures messages == old(messages) && input == old(input) && loading == old(loading)
    {
      if |messages| > 1 {
        storage := storage[StorageKey := encode(messages)];
      }
    }

    /** Typing: the text and the height the input area takes. */
    method EditInput(text: string, scrollHeight: nat) returns (height: nat)
      modifies this
      ensures input == text && height == TextareaHeight(scrollHeight)
      ensures messages == old(messages) && loading == old(loading) && storage == old(storage)
    {
      input := text;
      height := TextareaHeight(scrollHeight);
    }

    /** The synchronous part of `handleSendMessage`.  Nothing happens for a
        blank input or while an answer is awaited; otherwise the input is
        cleared, loading starts, and the user message (trimmed text) and an
        empty bot message are appended.  `botId` is the id the answer will
        be written to. */
    method Send(now: nat, timestamp: string) returns (botId: Option<string>)
      modifies this
      ensures Blank(ECMAScript, old(input)) || old(loading) ==>
        botId == None && messages == old(messages) && input == old(input) && loading == old(loading)
      ensures !Blank(ECMAScript, old(input)) && !old(loading) ==>
        && botId == Some(NatToString(now + 1))
        && input == "" && loading
        && messages == old(messages) + [Message(NatToString(now), Trim(ECMAScript, old(input)), true, timestamp),
                                        Message(NatToString(now + 1), "", false, timestamp)]
      ensures botId.Some? ==> NatToString(now) != botId.value
      ensures storage == old(storage)
    {
      botId := None;
      if Trim(ECMAScript, input) == "" || loading {
        return;
      }
      var inputText := Trim(ECMAScript, input);
      input := "";
      loading := true;
      var userMessage := Message(NatToString(now), inputText, true, timestamp);
      messages := messages + [userMessage];
      var id := NatToString(now + 1);
      var botMessage := Message(id, "", false, timestamp);
      messages := messages + [botMessage];
      IdsDiffer(now, now + 1);
      botId := Some(id);
    }

    /** The rest of `handleSendMessage`, once the request has ended: only
        messages with the bot id get the reply's text, and loading stops. */
    method Complete(botId: string, reply: Reply)
      modifies this
      ensures messages == UpdateById(old(messages), botId, ReplyText(reply))
      ensures !loading
      ensures input == old(input) && storage == old(storage)
    {
      messages := UpdateById(messages, botId, ReplyText(reply));
      loading := false;
    }

    /** `handleKeyPress`. */
    method KeyPress(key: string, shift: bool, now: nat, timestamp: string) returns (botId: Option<string>)
      modifies this
      ensures !SendsOnKey(key, shift) ==>
        botId == None && messages == old(messages) && input == old(input) && loading == old(loading)
      // Enter without Shift does what the send button does: nothing for a
      // blank input or while an answer is awaited, otherwise the two messages.
      ensures SendsOnKey(key, shift) && (Blank(ECMAScript, old(input)) || old(loading)) ==>
        botId == None && messages == old(messages) && input == old(input) && loading == old(loading)
      ensures SendsOnKey(key, shift) && !Blank(ECMAScript, old(input)) && !old(loading) ==>
        && botId == Some(NatToString(now + 1))
        && input == "" && loading
        && messages == old(messages) + [Message(NatToString(now), Trim(ECMAScript, old(input)), true, timestamp),
                                        Message(NatToString(now + 1), "", false, timestamp)]
      ensures storage == old(storage)
    {
      botId := None;
      if SendsOnKey(key, shift) {
        botId := Send(now, timestamp);
      }
    }

    /** `clearChatHistory`: the welcome message alone, and no stored history. */
    method Clear(timestamp: string)
      modifies this
      ensures messages == [WelcomeMessage(timestamp)]
      ensures storage == old(storage) - {StorageKey}
      ensures input == old(input) && loading == old(loading)
    {
      messages := [WelcomeMessage(timestamp)];
      storage := storage - {StorageKey};
    }
  }

  /** After a send, the answer changes the bot message and nothing else,
      provided no earlier message already used the two fresh ids. */
  lemma AnswerTouchesOnlyBotMessage(before: seq<Message>, now: nat, userText: string, timestamp: string, text: string)
    requires forall i :: 0 <= i < |before| ==> before[i].id != NatToString(now + 1)
    ensures var sent := before + [Message(NatToString(now), userText, true, timestamp),
                                  Message(NatToString(now + 1), "", false, timestamp)];
      UpdateById(sent, NatToString(now + 1), text)
        == before + [Message(NatToString(now), userText, true, timestamp),
                     Message(NatToString(now + 1), text, false, timestamp)]
  {
    var sent := before + [Message(NatToString(now), userText, true, timestamp),
                          Message(NatToString(now + 1), "", false, timestamp)];
    IdsDiffer(now, now + 1);
    var j := |before| + 1;
    assert sent[j].id == NatToString(now + 1);
    forall i | 0 <= i < |sent| && i != j
      ensures sent[i].id != sent[j].id
    {
      if i < |before| {
        assert sent[i] == before[i];
      }
    }
    UpdateUniqueId(sent, j, text);
    assert sent[j := sent[j].(text := text)]
        == before + [Message(NatToString(now), userText, true, timestamp),
                     Message(NatToString(now + 1), text, false, timestamp)];
  }
}

/** The Telegram bot: a character filter applied to every outgoing text,
    the send operation, and the webhook handler that subscribes and
    unsubscribes chats. */
module Telegram {
  import opened Wrappers
  import opened JsText
  import opened TelegramUserModel

  // ---------------------------------------------------------------------
  // Text cleaning
  // ---------------------------------------------------------------------

  /** The sixteen characters of the class `[\[\]\(\)~`>#+\-=|{}.!]`. */
  predicate IsReserved(c: char) {
    c == '[' || c == ']' || c == '(' || c == ')' || c == '~' || c == '`' || c == '>' || c == '#'
    || c == '+' || c == '-' || c == '=' || c == '|' || c == '{' || c == '}' || c == '.' || c == '!'
  }

  /** `text.replace(regex, '')` with the global flag: every reserved
      character removed. */
  function StripReserved(s: string): (r: string)
    ensures |r| <= |s|
    ensures forall i :: 0 <= i < |r| ==> !IsReserved(r[i])
  {
    if s == [] then []
    else (if IsReserved(s[0]) then [] else [s[0]]) + StripReserved(s[1..])
  }

  /** Stripping works character by character: a concatenation is stripped
      part by part, so every kept character stays in its place relative to
      the others. */
  lemma {:induction false} StripConcat(a: string, b: string)
    ensures StripReserved(a + b) == StripReserved(a) + StripReserved(b)
  {
    if a == [] {
      assert a + b == b;
    } else {
      assert (a + b)[0] == a[0];
      assert (a + b)[1..] == a[1..] + b;
      StripConcat(a[1..], b);
      var head := if IsReserved(a[0]) then [] else [a[0]];
      assert head + (StripReserved(a[1..]) + StripReserved(b)) == (head + StripReserved(a[1..])) + StripReserved(b);
    }
  }

  /** One character is dropped exactly when it is reserved. */
  lemma StripSingleton(c: char)
    ensures StripReserved([c]) == if IsReserved(c) then [] else [c]
  {
    assert [c][1..] == [];
  }

  /** Every character that is not reserved is kept as often as it occurs;
      reserved ones are all gone. */
  lemma {:induction false} StripCounts(s: string, c: char)
    ensures multiset(StripReserved(s))[c] == if IsReserved(c) then 0 else multiset(s)[c]
  {
    if s != [] {
      StripCounts(s[1..], c);
      assert s == [s[0]] + s[1..];
      assert multiset(s) == multiset([s[0]]) + multiset(s[1..]);
    }
  }

  /** A text without reserved characters is left as it is. */
  lemma {:induction false} StripOfClean(s: string)
    requires forall i :: 0 <= i < |s| ==> !IsReserved(s[i])
    ensures StripReserved(s) == s
  {
    if s != [] {
      StripOfClean(s[1..]);
      assert s == [s[0]] + s[1..];
    }
  }

  /** Cleaning twice is cleaning once. */
  lemma StripIdempotent(s: string)
    ensures StripReserved(StripReserved(s)) == StripReserved(s)
  {
    StripOfClean(StripReserved(s));
  }

  /** The MarkdownV2 emphasis markers '_' and '*' are not in the class:
      cleaning keeps every one of them. */
  lemma StripKeepsEmphasis(s: string)
    ensures multiset(StripReserved(s))['_'] == multiset(s)['_']
    ensures multiset(StripReserved(s))['*'] == multiset(s)['*']
  {
    StripCounts(s, '_');
    StripCounts(s, '*');
  }

  /** `cleanTelegramText(text)`: '' for anything that is not a string
      (`None`), the stripped text otherwise. */
  function CleanTelegramText(text: Option<string>): (r: string)
    ensures text.None? ==> r == ""
    ensures forall i :: 0 <= i < |r| ==> !IsReserved(r[i])
  {
    match text
    case None => ""
    case Some(s) => StripReserved(s)
  }

  // ---------------------------------------------------------------------
  // Updates and replies
  // ---------------------------------------------------------------------

  /** One `sendMessage` request body. */
  datatype OutMessage = OutMessage(chat_id: string, text: string, parse_mode: string)

  /** `sendTelegramMessage(chatId, text)`: nothing without a bot token,
      otherwise one request with the cleaned text. A failed request is
      logged and swallowed, so it is recorded here as attempted. */
  function Sent(token: Field, chatId: string, text: string): seq<OutMessage> {
    if !Truthy(token) then [] else [OutMessage(chatId, CleanTelegramText(Some(text)), "MarkdownV2")]
  }

  /** With no bot token nothing is sent; with one, exactly one request
      carries the cleaned text, free of reserved characters. */
  lemma SentSpec(token: Field, chatId: string, text: string)
    ensures !Truthy(token) ==> Sent(token, chatId, text) == []
    ensures Truthy(token) ==>
      && |Sent(token, chatId, text)| == 1
      && Sent(token, chatId, text)[0].chat_id == chatId
      && Sent(token, chatId, text)[0].text == StripReserved(text)
      && forall i :: 0 <= i < |Sent(token, chatId, text)[0].text| ==> !IsReserved(Sent(token, chatId, text)[0].text[i])
  {
  }

  /** The sender of a message. */
  datatype From = From(username: Field, first_name: Field, last_name: Field, is_bot: Option<bool>)

  /** A received message: its chat's numeric id, its sender and its text
      (`None` for a message without text). */
  datatype Message = Message(chatId: int, from: From, text: Field)

  /** A webhook update, with or without a message. */
  datatype Update = Update(message: Option<Message>)

  /** The replies the handler can send. */
  datatype Reply = Welcome | Failure | Unsubscribed | NotSubscribed | Help

  function ReplyText(r: Reply): string {
    match r
    case Welcome =>
      "\U{1F389} Welcome to Pravaha AI! " +
      "You'll now receive real-time market " +
      "announcement analysis directly here. " +
      "To stop receiving updates, send /stop."
    case Failure =>
      "\U{274C} Sorry, there was an error " +
      "processing your request. " +
      "Please try again later."
    case Unsubscribed =>
      "\U{1F44B} You've been unsubscribed " +
      "from Pravaha AI updates. " +
      "You can resubscribe anytime " +
      "by sending /start."
    case NotSubscribed =>
      "You were not subscribed to updates. " +
      "Send /start to subscribe."
    case Help =>
      "I'm Pravaha AI's notification bot. " +
      "Send /start to subscribe to market " +
      "updates or /stop to unsubscribe."
  }

  function DigitChar(d: nat): char
    requires d < 10
  {
    ('0' as int + d) as char
  }

  /** The decimal digits of a natural number. */
  function NatToString(n: nat): (r: string)
    ensures |r| >= 1
    ensures n >= 10 ==> |r| >= 2
    ensures forall i :: 0 <= i < |r| ==> '0' <= r[i] <= '9'
  {
    if n < 10 then [DigitChar(n)] else NatToString(n / 10) + [DigitChar(n % 10)]
  }

  /** `chat.id.toString()`: decimal, with a leading '-' for the negative ids
      of group chats. */
  function IntToString(i: int): (r: string)
    ensures r != ""
  {
    if i < 0 then "-" + NatToString(-i) else NatToString(i)
  }

  /** Different numbers have different decimal texts. */
  lemma {:induction false} NatToStringInjective(a: nat, b: nat)
    requires NatToString(a) == NatToString(b)
    ensures a == b
  {
    if a >= 10 && b >= 10 {
      var sa := NatToString(a);
      assert sa[..|sa| - 1] == NatToString(a / 10);
      assert NatToString(b)[..|sa| - 1] == NatToString(b / 10);
      assert DigitChar(a % 10) == sa[|sa| - 1] == DigitChar(b % 10);
      NatToStringInjective(a / 10, b / 10);
    }
  }

  /** Different chats have different keys. */
  lemma IntToStringInjective(a: int, b: int)
    requires IntToString(a) == IntToString(b)
    ensures a == b
  {
    var sa := IntToString(a);
    var sb := IntToString(b);
    assert a < 0 ==> sa[0] == '-';
    assert b < 0 ==> sb[0] == '-';
    assert a >= 0 ==> '0' <= sa[0] <= '9';
    assert b >= 0 ==> '0' <= sb[0] <= '9';
    if a < 0 && b < 0 {
      assert NatToString(-a) == sa[1..] == NatToString(-b);
      NatToStringInjective(-a, -b);
    } else if a >= 0 && b >= 0 {
      NatToStringInjective(a, b);
    } else {
      assert false;
    }
  }

  /** `x || ''`. */
  function OrEmpty(f: Field): string {
    if Truthy(f) then f.value else ""
  }

  /** A reply addressed to a chat. */
  datatype Addressed = Addressed(chatId: string, reply: Reply)

  /** What `handleTelegramUpdate` does to the subscriber collection, and the
      reply it sends, given whether the collection call throws. */
  datatype Effect = Effect(users: map<string, TelegramUser>, reply: Option<Addressed>)

  function Handle(users: map<string, TelegramUser>, update: Update, storeFails: bool): Effect {
    match update.message
    case None => Effect(users, None)
    case Some(m) =>
      var chatId := IntToString(m.chatId);
      if m.text == Some("/start") then
        if storeFails then Effect(users, Some(Addressed(chatId, Failure)))
        else
          var isBot := m.from.is_bot == Some(true);
          Effect(Upsert(users, chatId, OrEmpty(m.from.username), OrEmpty(m.from.first_name),
                        OrEmpty(m.from.last_name), isBot),
                 Some(Addressed(chatId, Welcome)))
      else if m.text == Some("/stop") then
        if storeFails then Effect(users, Some(Addressed(chatId, Failure)))
        else
          var (rest, deleted) := DeleteOne(users, chatId);
          if deleted > 0 then Effect(rest, Some(Addressed(chatId, Unsubscribed)))
          else Effect(users, Some(Addressed(chatId, NotSubscribed)))
      else Effect(users, Some(Addressed(chatId, Help)))
  }

  /** The requests a handler reply sends. */
  function Replies(token: Field, reply: Option<Addressed>): seq<OutMessage> {
    match reply
    case None => []
    case Some(a) => Sent(token, a.chatId, ReplyText(a.reply))
  }

  /** The update of a `/start` or `/stop` message from a chat. */
  function CommandFrom(chatId: int, from: From, command: string): Update {
    Update(Some(Message(chatId, from, Some(command))))
  }

  // ---------------------------------------------------------------------
  // Properties of the handler
  // ---------------------------------------------------------------------

  /** `/start` upserts the chat's row with the profile, each part `''` when
      missing and `is_bot` false unless the sender says true, keeps every
      other row, and welcomes the chat. */
  lemma StartSubscribes(users: map<string, TelegramUser>, chatId: int, from: From)
    requires ChatKeyed(users)
    ensures var e := Handle(users, CommandFrom(chatId, from, "/start"), false);
      var k := IntToString(chatId);
      && ChatKeyed(e.users)
      && e.users.Keys == users.Keys + {k}
      && e.users[k] == TelegramUser(k, Some(OrEmpty(from.username)), Some(OrEmpty(from.first_name)),
                                    Some(OrEmpty(from.last_name)), from.is_bot == Some(true))
      && (forall j :: j in users && j != k ==> e.users[j] == users[j])
      && e.reply == Some(Addressed(k, Welcome))
  {
    UpsertSpec(users, IntToString(chatId), OrEmpty(from.username), OrEmpty(from.first_name),
               OrEmpty(from.last_name), from.is_bot == Some(true));
  }

  /** Repeating `/start` from a chat leaves exactly one row for it, with the
      profile of the last message. */
  lemma StartTwiceOneRow(users: map<string, TelegramUser>, chatId: int, from1: From, from2: From)
    requires ChatKeyed(users)
    ensures var once := Handle(users, CommandFrom(chatId, from1, "/start"), false).users;
      var twice := Handle(once, CommandFrom(chatId, from2, "/start"), false).users;
      twice == Handle(users, CommandFrom(chatId, from2, "/start"), false).users
  {
  }

  /** `/stop` from a subscribed chat deletes its row and says so; from any
      other chat it changes nothing and says it was not subscribed. */
  lemma StopUnsubscribes(users: map<string, TelegramUser>, chatId: int, from: From)
    requires ChatKeyed(users)
    ensures var e := Handle(users, CommandFrom(chatId, from, "/stop"), false);
      var k := IntToString(chatId);
      && ChatKeyed(e.users)
      && (k in users ==>
            e.users == users - {k} && e.reply == Some(Addressed(k, Unsubscribed)))
      && (k !in users ==>
            e.users == users && e.reply == Some(Addressed(k, NotSubscribed)))
  {
    DeleteOneSpec(users, IntToString(chatId));
  }

  /** Any other text, or none, changes nothing and sends the help reply. */
  lemma OtherTextHelps(users: map<string, TelegramUser>, m: Message, storeFails: bool)
    requires m.text != Some("/start") && m.text != Some("/stop")
    ensures Handle(users, Update(Some(m)), storeFails) == Effect(users, Some(Addressed(IntToString(m.chatId), Help)))
  {
  }

  /** An update without a message changes nothing and sends nothing. */
  lemma NoMessageNoEffect(users: map<string, TelegramUser>, token: Field, storeFails: bool)
    ensures Handle(users, Update(None), storeFails) == Effect(users, None)
    ensures Replies(token, Handle(users, Update(None), storeFails).reply) == []
  {
  }

  /** When the collection call throws during `/start` or `/stop`, nothing
      changes and the generic error reply is sent. */
  lemma StoreErrorReplies(users: map<string, TelegramUser>, chatId: int, from: From, command: string)
    requires command == "/start" || command == "/stop"
    ensures Handle(users, CommandFrom(chatId, from, command), true)
      == Effect(users, Some(Addressed(IntToString(chatId), Failure)))
  {
  }

  /** Every handled update keeps one row per chat, keyed by its id. */
  lemma HandleKeepsChatKeyed(users: map<string, TelegramUser>, update: Update, storeFails: bool)
    requires ChatKeyed(users)
    ensures ChatKeyed(Handle(users, update, storeFails).users)
    ensures Handle(users, update, storeFails).users.Keys <= users.Keys + (
      if update.message.Some? then {IntToString(update.message.value.chatId)} else {})
  {
    if update.message.Some? {
      var m := update.message.value;
      var k := IntToString(m.chatId);
      UpsertSpec(users, k, OrEmpty(m.from.username), OrEmpty(m.from.first_name), OrEmpty(m.from.last_name),
                 m.from.is_bot == Some(true));
      DeleteOneSpec(users, k);
    }
  }

  // ---------------------------------------------------------------------
  // The bot
  // ---------------------------------------------------------------------

  /** The bot's state: the configured token, the subscriber collection and
      every request sent so far. */
  class TelegramBot {
    const botToken: Field
    const store: TelegramUserStore
    var outbox: seq<OutMessage>

    ghost predicate Valid()
      reads this, store
    {
      store.Valid()
    }

    constructor (token: Field)
      ensures Valid() && botToken == token && fresh(store) && store.users == map[] && outbox == []
    {
      botToken := token;
      store := new TelegramUserStore();
      outbox := [];
    }

    /** `sendTelegramMessage(chatId, messageText)`. */
    method SendTelegramMessage(chatId: string, messageText: string)
      modifies this
      ensures outbox == old(outbox) + Sent(botToken, chatId, messageText)
    {
      if !Truthy(botToken) {
        return;
      }
      var cleanedMessage := CleanTelegramText(Some(messageText));
      outbox := outbox + [OutMessage(chatId, cleanedMessage, "MarkdownV2")];
    }

    /** A handler reply, sent through `sendTelegramMessage`. */
    method SendReply(chatId: string, reply: Reply)
      modifies this
      ensures outbox == old(outbox) + Sent(botToken, chatId, ReplyText(reply))
    {
      SendTelegramMessage(chatId, ReplyText(reply));
    }

    /** `handleTelegramUpdate(update)`; `storeFails` says whether the
        collection call throws. */
    method HandleTelegramUpdate(update: Update, storeFails: bool)
      requires Valid()
      modifies this, store
      ensures Valid()
      ensures store.users == Handle(old(store.users), update, storeFails).users
      ensures outbox == old(outbox) + Replies(botToken, Handle(old(store.users), update, storeFails).reply)
    {
      if update.message.None? {
        return;
      }
      var message := update.message.value;
      if message.text == Some("/start") {
        HandleStart(message, storeFails);
      } else if message.text == Some("/stop") {
        HandleStop(message, storeFails);
      } else {
        SendReply(IntToString(message.chatId), Help);
      }
    }

    /** The `/start` branch: the upsert, then the welcome, or the error
        reply when the upsert throws. */
    method HandleStart(message: Message, storeFails: bool)
      requires Valid() && message.text == Some("/start")
      modifies this, store
      ensures Valid()
      ensures store.users == Handle(old(store.users), Update(Some(message)), storeFails).users
      ensures outbox == old(outbox) + Replies(botToken, Handle(old(store.users), Update(Some(message)), storeFails).reply)
    {
      var chatId := IntToString(message.chatId);
      if storeFails {
        SendReply(chatId, Failure);
        return;
      }
      var from := message.from;
      var userName := OrEmpty(from.username);
      var firstName := OrEmpty(from.first_name);
      var lastName := OrEmpty(from.last_name);
      var _ := store.FindOneAndUpdate(chatId, userName, firstName, lastName, from.is_bot == Some(true));
      SendReply(chatId, Welcome);
    }

    /** The `/stop` branch: the delete, then the reply its `deletedCount`
        calls for, or the error reply when the delete throws. */
    method HandleStop(message: Message, storeFails: bool)
      requires Valid() && message.text == Some("/stop")
      modifies this, store
      ensures Valid()
      ensures store.users == Handle(old(store.users), Update(Some(message)), storeFails).users
      ensures outbox == old(outbox) + Replies(botToken, Handle(old(store.users), Update(Some(message)), storeFails).reply)
    {
      var chatId := IntToString(message.chatId);
      if storeFails {
        SendReply(chatId, Failure);
        return;
      }
      var deletedCount := store.Delete(chatId);
      if deletedCount > 0 {
        SendReply(chatId, Unsubscribed);
      } else {
        SendReply(chatId, NotSubscribed);
      }
    }
  }
}

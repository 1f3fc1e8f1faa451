/** The TelegramUser collection: one subscriber per chat, keyed by the
    unique `chat_id`. */
module TelegramUserModel {
  import opened Wrappers

  /** A subscriber. The three profile strings are optional and `is_bot`
      defaults to false. */
  datatype TelegramUser = TelegramUser(
    chat_id: string,
    username: Option<string>,
    first_name: Option<string>,
    last_name: Option<string>,
    is_bot: bool)

  /** A subscriber built from the fields given, with the schema's default
      for a missing `is_bot`. */
  function WithDefaults(chatId: string, username: Option<string>, firstName: Option<string>,
                        lastName: Option<string>, isBot: Option<bool>): (u: TelegramUser)
    ensures u.chat_id == chatId
    ensures u.username == username && u.first_name == firstName && u.last_name == lastName
    ensures isBot.Some? ==> u.is_bot == isBot.value
    ensures isBot.None? ==> !u.is_bot
  {
    TelegramUser(chatId, username, firstName, lastName, isBot.GetOr(false))
  }

  /** The collection is a map keyed by `chat_id` (unique index); the key is
      required, so never empty. */
  predicate ChatKeyed(users: map<string, TelegramUser>) {
    forall k :: k in users ==> users[k].chat_id == k && k != ""
  }

  /** `findOneAndUpdate({ chat_id }, profile, { upsert: true })`: the row for
      the chat gets the given profile, created if missing. */
  function Upsert(users: map<string, TelegramUser>, chatId: string, username: string, firstName: string,
                  lastName: string, isBot: bool): map<string, TelegramUser>
  {
    users[chatId := WithDefaults(chatId, Some(username), Some(firstName), Some(lastName), Some(isBot))]
  }

  /** An upsert keeps one row per chat: the chat's row holds the new
      profile, every other row is kept, and the keys grow by at most the
      chat's own. */
  lemma UpsertSpec(users: map<string, TelegramUser>, chatId: string, username: string, firstName: string,
                   lastName: string, isBot: bool)
    requires ChatKeyed(users) && chatId != ""
    ensures var r := Upsert(users, chatId, username, firstName, lastName, isBot);
      && ChatKeyed(r)
      && r.Keys == users.Keys + {chatId}
      && r[chatId] == TelegramUser(chatId, Some(username), Some(firstName), Some(lastName), isBot)
      && forall k :: k in users && k != chatId ==> r[k] == users[k]
  {
  }

  /** `deleteOne({ chat_id })`: the collection without the chat's row, and
      the `deletedCount`. */
  function DeleteOne(users: map<string, TelegramUser>, chatId: string): (r: (map<string, TelegramUser>, nat))
    ensures r.1 <= 1
  {
    if chatId in users then (users - {chatId}, 1) else (users, 0)
  }

  /** A delete removes exactly the chat's row, reporting one deletion when
      there was a row, and keeps the invariant. */
  lemma DeleteOneSpec(users: map<string, TelegramUser>, chatId: string)
    requires ChatKeyed(users)
    ensures var (r, n) := DeleteOne(users, chatId);
      && ChatKeyed(r)
      && r.Keys == users.Keys - {chatId}
      && (n == 1 <==> chatId in users)
      && forall k :: k in r ==> r[k] == users[k]
  {
  }

  /** The TelegramUser collection as the bot uses it. */
  class TelegramUserStore {
    var users: map<string, TelegramUser>

    ghost predicate Valid()
      reads this
    {
      ChatKeyed(users)
    }

    constructor ()
      ensures Valid() && users == map[]
    {
      users := map[];
    }

    /** `findOneAndUpdate({ chat_id }, profile, { upsert: true, new: true })`. */
    method FindOneAndUpdate(chatId: string, username: string, firstName: string, lastName: string, isBot: bool)
      returns (user: TelegramUser)
      requires Valid() && chatId != ""
      modifies this
      ensures Valid()
      ensures users == Upsert(old(users), chatId, username, firstName, lastName, isBot)
      ensures user == users[chatId]
    {
      UpsertSpec(users, chatId, username, firstName, lastName, isBot);
      user := WithDefaults(chatId, Some(username), Some(firstName), Some(lastName), Some(isBot));
      users := users[chatId := user];
    }

    /** `deleteOne({ chat_id })`, returning the `deletedCount`. */
    method Delete(chatId: string) returns (deletedCount: nat)
      requires Valid()
      modifies this
      ensures Valid()
      ensures (users, deletedCount) == DeleteOne(old(users), chatId)
    {
      DeleteOneSpec(users, chatId);
      if chatId in users {
        users := users - {chatId};
        deletedCount := 1;
      } else {
        deletedCount := 0;
      }
    }
  }
}

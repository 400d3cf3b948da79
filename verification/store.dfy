/** The per-chat key/value store of index.ts (`Store(chatId)`).

    Local storage maps a chat id to one JSON object, the chat's record.  The
    model keeps the records as maps from field name to value; reading back a
    field after its JSON round trip is assumed to give the value written. */
module Store {

  import opened Wrappers

  /** Telegram chat ids are numbers. */
  type ChatId = int

  /** One chat's record: field name to value. */
  type Record<V> = map<string, V>

  /** Every chat's record, keyed by chat id; a chat that never wrote has none. */
  type Storage<V> = map<ChatId, Record<V>>

  /** The storage after `set`, and the value `set` hands back. */
  datatype Written<V> = Written(storage: Storage<V>, returned: V)

  /** The chat's record, the empty object when the chat has none (spreading
      `null` adds no field). */
  function RecordOf<V>(storage: Storage<V>, chat: ChatId): Record<V>
  {
    if chat in storage then storage[chat] else map[]
  }

  /** `Store(chat).get(key)`: absent (`null`) when the chat has no record,
      absent (`undefined`) when the record has no such field. */
  function Get<V>(storage: Storage<V>, chat: ChatId, key: string): (r: Option<V>)
    ensures r.Some? <==> chat in storage && key in storage[chat]
    ensures r.Some? ==> r.value == storage[chat][key]
  {
    if chat in storage && key in storage[chat] then Some(storage[chat][key]) else None
  }

  /** `Store(chat).set(key, value)`: the chat's record becomes the old one
      with `key` overwritten, and `value` is returned. */
  function Set<V>(storage: Storage<V>, chat: ChatId, key: string, value: V): (w: Written<V>)
    ensures w.returned == value
    ensures Get(w.storage, chat, key) == Some(value)
    ensures forall k :: k != key ==> Get(w.storage, chat, k) == Get(storage, chat, k)
    ensures w.storage.Keys == storage.Keys + {chat}
    ensures forall c :: c in storage && c != chat ==> w.storage[c] == storage[c]
  {
    Written(storage[chat := RecordOf(storage, chat)[key := value]], value)
  }

  /** Reading back a field just written yields the written value. */
  lemma GetAfterSet<V>(storage: Storage<V>, chat: ChatId, key: string, value: V)
    ensures Get(Set(storage, chat, key, value).storage, chat, key) == Some(value)
  {
  }

  /** Writing one field keeps every other field of the record, and every
      other chat's fields. */
  lemma SetKeepsOthers<V>(storage: Storage<V>, chat: ChatId, key: string, value: V, c: ChatId, k: string)
    requires c != chat || k != key
    ensures Get(Set(storage, chat, key, value).storage, c, k) == Get(storage, c, k)
  {
  }

  /** A chat that never wrote reads nothing back, whatever the field. */
  lemma GetWithoutRecord<V>(storage: Storage<V>, chat: ChatId, key: string)
    requires chat !in storage
    ensures Get(storage, chat, key).None?
  {
  }

  /** The first write of a chat creates a record holding only that field. */
  lemma FirstSetCreatesRecord<V>(storage: Storage<V>, chat: ChatId, key: string, value: V)
    requires chat !in storage
    ensures Set(storage, chat, key, value).storage[chat] == map[key := value]
  {
  }

  /** The last write wins: writing the same field twice is writing it once
      with the second value. */
  lemma SetSetSameKey<V>(storage: Storage<V>, chat: ChatId, key: string, v1: V, v2: V)
    ensures Set(Set(storage, chat, key, v1).storage, chat, key, v2).storage
            == Set(storage, chat, key, v2).storage
  {
    var r := RecordOf(storage, chat);
    assert RecordOf(Set(storage, chat, key, v1).storage, chat) == r[key := v1];
    assert r[key := v1][key := v2] == r[key := v2];
  }

  /** Writes of different fields, or of different chats, do not interfere:
      their order does not matter. */
  lemma SetCommutes<V>(storage: Storage<V>, c1: ChatId, k1: string, v1: V, c2: ChatId, k2: string, v2: V)
    requires c1 != c2 || k1 != k2
    ensures Set(Set(storage, c1, k1, v1).storage, c2, k2, v2).storage
            == Set(Set(storage, c2, k2, v2).storage, c1, k1, v1).storage
  {
    if c1 == c2 {
      var r := RecordOf(storage, c1);
      assert r[k1 := v1][k2 := v2] == r[k2 := v2][k1 := v1];
    }
  }
}

/** ChatService's duplicate-message cache and its guest-to-user message
    migration. The cache is the in-memory `messageCache` map: saveMessage
    answers from it when the same key was stored less than 3000 ms ago, and
    the sweep the constructor schedules every 5000 ms drops entries older than
    3000 ms. The clock, the timer and the two stores (database for a signed-in
    user, Redis for a guest) are outside the model: times are parameters and
    the stored message is passed in. */
module Chat {
  import opened Wrappers
  import opened Text

  // ---------------------------------------------------------------- cache key

  const KeyPrefixLength := 100

  /** `userId || sessionId || 'anonymous'`: the first truthy value. */
  function UserPart(userId: Option<int>, sessionId: Option<string>): (r: string)
    ensures userId.Some? && userId.value != 0 ==> r == IntToString(userId.value)
    ensures !(userId.Some? && userId.value != 0) && sessionId.Some? && sessionId.value != [] ==> r == sessionId.value
    ensures !(userId.Some? && userId.value != 0) && !(sessionId.Some? && sessionId.value != []) ==> r == "anonymous"
  {
    if userId.Some? && userId.value != 0 then IntToString(userId.value)
    else if sessionId.Some? && sessionId.value != [] then sessionId.value
    else "anonymous"
  }

  /** `message.substring(0, 100)`. */
  function MessagePart(message: string): (r: string)
    ensures |r| <= KeyPrefixLength && StartsWith(message, r)
    ensures |message| <= KeyPrefixLength ==> r == message
  {
    if |message| <= KeyPrefixLength then message else message[..KeyPrefixLength]
  }

  /** createMessageCacheKey: `${userPart}-${senderType}-${messagePart}`. */
  function CacheKey(userId: Option<int>, sessionId: Option<string>, message: string, senderType: string): (k: string)
    ensures |k| == |UserPart(userId, sessionId)| + |senderType| + 2 + |MessagePart(message)|
  {
    UserPart(userId, sessionId) + "-" + senderType + "-" + MessagePart(message)
  }

  /** Two messages that agree on their first 100 characters share a key. */
  lemma LongMessagesCollide(userId: Option<int>, sessionId: Option<string>, senderType: string, m1: string, m2: string)
    requires |m1| >= KeyPrefixLength && |m2| >= KeyPrefixLength
    requires m1[..KeyPrefixLength] == m2[..KeyPrefixLength]
    ensures CacheKey(userId, sessionId, m1, senderType) == CacheKey(userId, sessionId, m2, senderType)
  {
  }

  /** For one sender, different message prefixes give different keys. */
  lemma KeySeparatesMessages(userId: Option<int>, sessionId: Option<string>, senderType: string, m1: string, m2: string)
    requires MessagePart(m1) != MessagePart(m2)
    ensures CacheKey(userId, sessionId, m1, senderType) != CacheKey(userId, sessionId, m2, senderType)
  {
    var head := UserPart(userId, sessionId) + "-" + senderType + "-";
    assert CacheKey(userId, sessionId, m1, senderType) == head + MessagePart(m1);
    assert CacheKey(userId, sessionId, m2, senderType) == head + MessagePart(m2);
    assert (head + MessagePart(m1))[|head|..] == MessagePart(m1);
    assert (head + MessagePart(m2))[|head|..] == MessagePart(m2);
  }

  // ---------------------------------------------------------------- cache

  /** What saveMessage stores and returns: the database row or the Redis
      record; the model only needs to tell them apart. */
  type MessageRef = int

  datatype CacheEntry = CacheEntry(timestamp: int, messageId: MessageRef)

  const CacheWindowMs := 3000

  /** A lookup that saveMessage answers from the cache. */
  predicate Hit(entries: map<string, CacheEntry>, key: string, now: int) {
    key in entries && now - entries[key].timestamp < CacheWindowMs
  }

  /** The cache after a sweep at `now`. */
  function Swept(entries: map<string, CacheEntry>, now: int): (r: map<string, CacheEntry>)
    ensures r.Keys <= entries.Keys
    ensures forall k :: k in r ==> r[k] == entries[k]
    ensures forall k :: k in entries ==> (k in r <==> now - entries[k].timestamp <= CacheWindowMs)
  {
    map k | k in entries && now - entries[k].timestamp <= CacheWindowMs :: entries[k]
  }

  /** A sweep at any time up to the lookup never changes what the lookup
      answers: it only drops entries that are already misses. */
  lemma SweepInvisible(entries: map<string, CacheEntry>, sweptAt: int, now: int, key: string)
    requires sweptAt <= now
    ensures Hit(Swept(entries, sweptAt), key, now) <==> Hit(entries, key, now)
    ensures Hit(entries, key, now) ==> Swept(entries, sweptAt)[key] == entries[key]
  {
  }

  /** An entry exactly 3000 ms old survives the sweep yet is a miss. */
  lemma BoundaryEntrySurvivesAsMiss(entries: map<string, CacheEntry>, key: string, now: int)
    requires key in entries && now - entries[key].timestamp == CacheWindowMs
    ensures key in Swept(entries, now) && !Hit(Swept(entries, now), key, now)
  {
  }

  /** Where a missed message goes. */
  datatype Store = Database | Redis

  /** The message saveMessage hands to the store. */
  datatype StoredMessage = StoredMessage(
    userId: Option<int>, sessionId: string, message: string, senderType: string,
    conversationId: Option<int>, metadata: map<string, string>)

  datatype SaveResult =
    | Cached(messageId: MessageRef)
    | Saved(store: Store, request: StoredMessage, messageId: MessageRef)

  /** `{ ...metadata }` without `tempId` (absent metadata spreads to `{}`). */
  function CleanMetadata(metadata: Option<map<string, string>>): (r: map<string, string>)
    ensures "tempId" !in r
    ensures forall k :: k != "tempId" ==> (k in r <==> metadata.Some? && k in metadata.value)
    ensures forall k :: k in r ==> r[k] == metadata.value[k]
  {
    if metadata.Some? then metadata.value - {"tempId"} else map[]
  }

  /** The store a missed message goes to: the database iff userId is truthy. */
  function StoreFor(userId: Option<int>): Store {
    if userId.Some? && userId.value != 0 then Database else Redis
  }

  class MessageCache {
    var entries: map<string, CacheEntry>

    constructor ()
      ensures entries == map[]
    {
      entries := map[];
    }

    /** saveMessage. `now` is the clock at the lookup, `savedAt` at the
        cache write after the store answered, `stored` what the store
        returned. */
    method SaveMessage(userId: Option<int>, sessionId: string, message: string, senderType: string,
                       conversationId: Option<int>, metadata: Option<map<string, string>>,
                       now: int, stored: MessageRef, savedAt: int)
      returns (r: SaveResult)
      modifies this
      ensures var key := CacheKey(userId, Some(sessionId), message, senderType);
              if Hit(old(entries), key, now) then
                r == Cached(old(entries)[key].messageId) && entries == old(entries)
              else
                && r.Saved? && r.messageId == stored
                && r.store == StoreFor(userId)
                && r.request == StoredMessage(userId, sessionId, message, senderType, conversationId, CleanMetadata(metadata))
                && entries == old(entries)[key := CacheEntry(savedAt, stored)]
    {
      var key := CacheKey(userId, Some(sessionId), message, senderType);
      if key in entries && now - entries[key].timestamp < CacheWindowMs {
        return Cached(entries[key].messageId);
      }
      var clean := CleanMetadata(metadata);
      var store := if userId.Some? && userId.value != 0 then Database else Redis;
      r := Saved(store, StoredMessage(userId, sessionId, message, senderType, conversationId, clean), stored);
      entries := entries[key := CacheEntry(savedAt, stored)];
    }

    /** The body of the constructor's interval: visit every entry and delete
        those more than 3000 ms old. */
    method Sweep(now: int)
      modifies this
      ensures entries == Swept(old(entries), now)
    {
      var todo := entries.Keys;
      ghost var original := entries;
      while todo != {}
        invariant todo <= original.Keys && entries.Keys <= original.Keys
        invariant forall k :: k in todo ==> k in entries
        invariant forall k :: k in entries ==> entries[k] == original[k]
        invariant forall k :: k in original && k !in todo ==>
                    (k in entries <==> now - original[k].timestamp <= CacheWindowMs)
        decreases todo
      {
        var key :| key in todo;
        if now - entries[key].timestamp > CacheWindowMs {
          entries := entries - {key};
        }
        todo := todo - {key};
      }
      assert entries == Swept(original, now);
    }
  }

  /** A repeat of the same message within the window returns the first
      result and stores nothing. */
  lemma RepeatWithinWindowIsCached(entries: map<string, CacheEntry>, key: string, stored: MessageRef, savedAt: int, now: int)
    requires savedAt <= now < savedAt + CacheWindowMs
    ensures Hit(entries[key := CacheEntry(savedAt, stored)], key, now)
    ensures entries[key := CacheEntry(savedAt, stored)][key].messageId == stored
  {
  }

  // ---------------------------------------------------------------- migration

  /** A guest message read from Redis. */
  datatype GuestMessage = GuestMessage(
    senderId: Option<int>, senderType: string, message: string,
    metadata: Option<map<string, string>>, createdAt: int)

  /** A row handed to createMany. */
  datatype MigratedRow = MigratedRow(
    conversationId: int, senderId: Option<int>, senderType: string, sessionId: string,
    message: string, metadata: Option<map<string, string>>, createdAt: int)

  /** The `.map` step: `senderId || null`, `metadata || null`. */
  function ToRow(m: GuestMessage, conversationId: int, sessionId: string): (r: MigratedRow)
    ensures r.message == m.message && r.senderType == m.senderType && r.createdAt == m.createdAt
    ensures r.conversationId == conversationId && r.sessionId == sessionId
    ensures r.senderId == (if m.senderId.Some? && m.senderId.value != 0 then m.senderId else None)
    ensures r.metadata == m.metadata
  {
    MigratedRow(conversationId, if m.senderId.Some? && m.senderId.value != 0 then m.senderId else None,
                m.senderType, sessionId, m.message, m.metadata, m.createdAt)
  }

  /** migrateMessagesToDb's rows: filter out texts the conversation already
      holds, then map. */
  function MigrationRows(messages: seq<GuestMessage>, existing: set<string>, conversationId: int, sessionId: string): (rows: seq<MigratedRow>)
    ensures |rows| <= |messages|
    ensures forall r | r in rows :: r.message !in existing && r.conversationId == conversationId
  {
    if messages == [] then []
    else
      var rest := MigrationRows(messages[1..], existing, conversationId, sessionId);
      if messages[0].message in existing then rest
      else [ToRow(messages[0], conversationId, sessionId)] + rest
  }

  /** The batch splits: rows for a prefix and a suffix, in order. */
  lemma {:induction false} MigrationRowsAppend(a: seq<GuestMessage>, b: seq<GuestMessage>, existing: set<string>, conversationId: int, sessionId: string)
    ensures MigrationRows(a + b, existing, conversationId, sessionId)
            == MigrationRows(a, existing, conversationId, sessionId) + MigrationRows(b, existing, conversationId, sessionId)
  {
    if a == [] {
      assert a + b == b;
    } else {
      assert (a + b)[0] == a[0] && (a + b)[1..] == a[1..] + b;
      MigrationRowsAppend(a[1..], b, existing, conversationId, sessionId);
    }
  }

  /** The texts of some rows, in order. */
  function MessageTexts(rows: seq<MigratedRow>): (texts: seq<string>)
    ensures |texts| == |rows|
    ensures forall i :: 0 <= i < |rows| ==> texts[i] == rows[i].message
  {
    if rows == [] then [] else [rows[0].message] + MessageTexts(rows[1..])
  }

  /** The texts of the batch the conversation does not hold yet, in batch
      order, duplicates kept. */
  function NewTexts(messages: seq<GuestMessage>, existing: set<string>): (texts: seq<string>)
    ensures forall t | t in texts :: t !in existing
  {
    if messages == [] then []
    else if messages[0].message in existing then NewTexts(messages[1..], existing)
    else [messages[0].message] + NewTexts(messages[1..], existing)
  }

  /** The migrated rows carry exactly the new texts, in batch order and as
      many times as each occurs in the batch. */
  lemma {:induction false} MigrationKeepsNewTexts(messages: seq<GuestMessage>, existing: set<string>, conversationId: int, sessionId: string)
    ensures MessageTexts(MigrationRows(messages, existing, conversationId, sessionId)) == NewTexts(messages, existing)
  {
    if messages != [] {
      MigrationKeepsNewTexts(messages[1..], existing, conversationId, sessionId);
      var rest := MigrationRows(messages[1..], existing, conversationId, sessionId);
      if messages[0].message !in existing {
        var rows := [ToRow(messages[0], conversationId, sessionId)] + rest;
        assert rows[1..] == rest;
      }
    }
  }

  /** A message with a new text is migrated; one with a known text is not. */
  lemma {:induction false} MigratedIff(messages: seq<GuestMessage>, existing: set<string>, conversationId: int, sessionId: string, m: GuestMessage)
    requires m in messages
    ensures (ToRow(m, conversationId, sessionId) in MigrationRows(messages, existing, conversationId, sessionId)) <==> m.message !in existing
  {
    var row := ToRow(m, conversationId, sessionId);
    var rows := MigrationRows(messages, existing, conversationId, sessionId);
    var rest := MigrationRows(messages[1..], existing, conversationId, sessionId);
    if m.message in existing {
      assert row.message in existing;
      assert row !in rows;
    } else if m == messages[0] {
      assert rows[0] == row;
    } else {
      assert m in messages[1..];
      MigratedIff(messages[1..], existing, conversationId, sessionId, m);
      assert row in rest;
      assert rest <= rows || rows == [ToRow(messages[0], conversationId, sessionId)] + rest;
      assert row in rows;
    }
  }
}

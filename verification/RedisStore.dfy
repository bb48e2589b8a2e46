/**
 The Redis-backed store of mcp_relay/redis_store.py, calls made one at a time. Its state
 is the Redis keyspace; read through `Shown`, it behaves as the in-memory store does.
 */
module RedisRelay {
  import opened Basics
  import opened PyList
  import opened RelayTypes
  import opened RelayBoard
  import opened MemoryRelay
  import opened History

  // ---- the wire form ----------------------------------------------------

  datatype Field = Text(text: string) | Stamp(at: Instant)

  /** A JSON object, as `json.dumps` writes it and `json.loads` reads it back. */
  type Json = map<string, Field>

  function Encode(m: Message): Json {
    map["id" := Text(m.id), "channel" := Text(m.channel), "sender" := Text(m.sender),
        "content" := Text(m.content), "timestamp" := Stamp(m.timestamp)]
  }

  ghost predicate IsMessage(raw: Json) {
    && (forall k :: k in {"id", "channel", "sender", "content"} ==> k in raw && raw[k].Text?)
    && "timestamp" in raw && raw["timestamp"].Stamp?
  }

  function Decode(raw: Json): Message
    requires IsMessage(raw)
  {
    Message(raw["id"].text, raw["channel"].text, raw["sender"].text, raw["content"].text, raw["timestamp"].at)
  }

  lemma DecodeEncode(m: Message)
    ensures IsMessage(Encode(m)) && Decode(Encode(m)) == m
  {}

  ghost predicate AllMessages(raws: seq<Json>) {
    forall i :: 0 <= i < |raws| ==> IsMessage(raws[i])
  }

  function DecodeAll(raws: seq<Json>): seq<Message>
    requires AllMessages(raws)
  {
    seq(|raws|, i requires 0 <= i < |raws| => Decode(raws[i]))
  }

  function EncodeAll(ms: seq<Message>): seq<Json> {
    seq(|ms|, i requires 0 <= i < |ms| => Encode(ms[i]))
  }

  lemma DecodeEncodeAll(ms: seq<Message>)
    ensures AllMessages(EncodeAll(ms))
    ensures DecodeAll(EncodeAll(ms)) == ms
  {}

  // ---- the Redis server -------------------------------------------------

  datatype Value = SetOf(members: set<string>) | ListOf(items: seq<Json>)

  type Keyspace = map<string, Value>

  function MembersAt(db: Keyspace, key: string): set<string> {
    if key in db && db[key].SetOf? then db[key].members else {}
  }

  function ItemsAt(db: Keyspace, key: string): seq<Json> {
    if key in db && db[key].ListOf? then db[key].items else []
  }

  /** Redis drops a key whose list or set becomes empty. */
  function StoreList(db: Keyspace, key: string, items: seq<Json>): Keyspace {
    if items == [] then db - {key} else db[key := ListOf(items)]
  }

  function StoreSet(db: Keyspace, key: string, members: set<string>): Keyspace {
    if members == {} then db - {key} else db[key := SetOf(members)]
  }

  /** The elements from start to stop inclusive, negative positions counting from the end. */
  function Span(items: seq<Json>, start: int, stop: int): seq<Json> {
    var from := if start < 0 then Max(0, |items| + start) else start;
    var to := if stop < 0 then |items| + stop else Min(stop, |items| - 1);
    if from > to then [] else items[from..to + 1]
  }

  /** The commands the store issues; each is atomic. */
  class Redis {
    var db: Keyspace

    constructor ()
      ensures db == map[]
    {
      db := map[];
    }

    method SIsMember(key: string, member: string) returns (r: bool)
      ensures r <==> member in MembersAt(db, key)
    {
      r := member in MembersAt(db, key);
    }

    method SCard(key: string) returns (n: nat)
      ensures n == |MembersAt(db, key)|
    {
      n := |MembersAt(db, key)|;
    }

    method SAdd(key: string, member: string)
      modifies this
      ensures db == StoreSet(old(db), key, MembersAt(old(db), key) + {member})
    {
      db := StoreSet(db, key, MembersAt(db, key) + {member});
    }

    method SRem(key: string, member: string)
      modifies this
      ensures db == StoreSet(old(db), key, MembersAt(old(db), key) - {member})
    {
      db := StoreSet(db, key, MembersAt(db, key) - {member});
    }

    method RPush(key: string, item: Json)
      modifies this
      ensures db == StoreList(old(db), key, ItemsAt(old(db), key) + [item])
    {
      db := StoreList(db, key, ItemsAt(db, key) + [item]);
    }

    method LTrim(key: string, start: int, stop: int)
      modifies this
      ensures db == StoreList(old(db), key, Span(ItemsAt(old(db), key), start, stop))
    {
      db := StoreList(db, key, Span(ItemsAt(db, key), start, stop));
    }

    method LRange(key: string, start: int, stop: int) returns (items: seq<Json>)
      ensures items == Span(ItemsAt(db, key), start, stop)
    {
      items := Span(ItemsAt(db, key), start, stop);
    }

    method SMembers(key: string) returns (members: set<string>)
      ensures members == MembersAt(db, key)
    {
      members := MembersAt(db, key);
    }

    method LLen(key: string) returns (n: nat)
      ensures n == |ItemsAt(db, key)|
    {
      n := |ItemsAt(db, key)|;
    }

    method LIndex(key: string, index: int) returns (item: Option<Json>)
      ensures var items := ItemsAt(db, key);
              var i := if index < 0 then |items| + index else index;
              item == if 0 <= i < |items| then Some(items[i]) else None
    {
      var items := ItemsAt(db, key);
      var i := if index < 0 then |items| + index else index;
      item := if 0 <= i < |items| then Some(items[i]) else None;
    }

    method Delete(key: string)
      modifies this
      ensures db == old(db) - {key}
    {
      db := db - {key};
    }

    /** The pipeline of `delete_message`: the key is dropped and refilled in one step. */
    method Rewrite(key: string, items: seq<Json>)
      modifies this
      ensures db == StoreList(old(db) - {key}, key, items)
    {
      db := db - {key};
      ghost var dropped := db;
      for i := 0 to |items|
        invariant db == StoreList(dropped, key, items[..i])
      {
        assert items[..i + 1] == items[..i] + [items[i]];
        db := StoreList(db, key, ItemsAt(db, key) + [items[i]]);
      }
      assert items[..|items|] == items;
    }
  }

  // ---- reading the keyspace as a board ----------------------------------

  const CHANNELS := "relay:channels"
  const PREFIX := "relay:channel:"

  function ChannelKey(channel: string): string { PREFIX + channel }

  /** The channel set and the channel lists live under different keys, one list per channel. */
  lemma KeysApart(a: string, b: string)
    ensures ChannelKey(a) != CHANNELS
    ensures a != b ==> ChannelKey(a) != ChannelKey(b)
  {
    assert |PREFIX| == 14 && |CHANNELS| == 14;
    assert ChannelKey(a)[13] == ':' && CHANNELS[13] == 's';
    assert ChannelKey(a)[14..] == a && ChannelKey(b)[14..] == b;
  }

  function Names(db: Keyspace): set<string> { MembersAt(db, CHANNELS) }

  function Items(db: Keyspace, channel: string): seq<Json> { ItemsAt(db, ChannelKey(channel)) }

  /** Only known channels have a list, and the lists hold encoded messages. */
  ghost predicate WellFormed(db: Keyspace) {
    && (CHANNELS in db ==> db[CHANNELS].SetOf?)
    && forall c: string :: WellFormedAt(db, c)
  }

  ghost predicate WellFormedAt(db: Keyspace, c: string) {
    ChannelKey(c) in db ==>
      && db[ChannelKey(c)].ListOf? && c in Names(db)
      && AllMessages(Items(db, c))
  }

  ghost function Shown(db: Keyspace): Board
    requires WellFormed(db)
  {
    map c | c in Names(db) :: ShownAt(db, c)
  }

  ghost function ShownAt(db: Keyspace, c: string): seq<Message>
    requires WellFormed(db)
  {
    assert WellFormedAt(db, c);
    DecodeAll(Items(db, c))
  }

  /** Replacing one channel's list changes that channel and nothing else. */
  lemma StoredList(db: Keyspace, channel: string, items: seq<Json>)
    requires WellFormed(db) && channel in Names(db)
    requires AllMessages(items)
    ensures var db' := StoreList(db, ChannelKey(channel), items);
            && WellFormed(db') && Names(db') == Names(db) && Items(db', channel) == items
            && Shown(db') == Shown(db)[channel := DecodeAll(items)]
  {
    var db' := StoreList(db, ChannelKey(channel), items);
    KeysApart(channel, channel);
    assert Names(db') == Names(db);
    forall c ensures WellFormedAt(db', c) && (c != channel ==> Items(db', c) == Items(db, c)) {
      assert WellFormedAt(db, c);
      KeysApart(c, channel);
    }
    assert Shown(db').Keys == Shown(db)[channel := DecodeAll(items)].Keys;
    forall c | c in Names(db) && c != channel ensures ShownAt(db', c) == ShownAt(db, c) {}
    assert ShownAt(db', channel) == DecodeAll(items);
  }

  /** Adding a name to the channel set shows an empty channel. */
  lemma AddedName(db: Keyspace, channel: string)
    requires WellFormed(db) && channel !in Names(db)
    ensures var db' := StoreSet(db, CHANNELS, Names(db) + {channel});
            && WellFormed(db') && Names(db') == Names(db) + {channel} && Items(db', channel) == []
            && Shown(db') == Shown(db)[channel := []]
  {
    var db' := StoreSet(db, CHANNELS, Names(db) + {channel});
    forall c ensures WellFormedAt(db', c) && Items(db', c) == Items(db, c) {
      assert WellFormedAt(db, c);
      KeysApart(c, channel);
    }
    assert WellFormedAt(db, channel);
    forall c | c in Names(db) ensures ShownAt(db', c) == ShownAt(db, c) {}
    assert ShownAt(db', channel) == [];
  }

  /** Dropping a channel's list and then its name removes the channel. */
  lemma RemovedName(db: Keyspace, channel: string)
    requires WellFormed(db) && channel in Names(db)
    ensures var dropped := db - {ChannelKey(channel)};
            var db' := StoreSet(dropped, CHANNELS, MembersAt(dropped, CHANNELS) - {channel});
            WellFormed(db') && Shown(db') == Shown(db) - {channel}
  {
    var dropped := db - {ChannelKey(channel)};
    var db' := StoreSet(dropped, CHANNELS, MembersAt(dropped, CHANNELS) - {channel});
    KeysApart(channel, channel);
    assert Names(db') == Names(db) - {channel};
    forall c ensures WellFormedAt(db', c) && (c != channel ==> Items(db', c) == Items(db, c)) {
      assert WellFormedAt(db, c);
      KeysApart(c, channel);
    }
    forall c | c in Names(db') ensures ShownAt(db', c) == ShownAt(db, c) {}
  }

  /** Trimming to the last n after a push is the bounded deque. */
  lemma TrimIsPush(raws: seq<Json>, m: Message, n: int)
    requires n >= 1 && AllMessages(raws)
    ensures var kept := Span(raws + [Encode(m)], -n, -1);
            && AllMessages(kept)
            && DecodeAll(kept) == Push(n, DecodeAll(raws), m)
  {
    DecodeEncode(m);
    var pushed := raws + [Encode(m)];
    assert DecodeAll(pushed) == DecodeAll(raws) + [m];
    var kept := Span(pushed, -n, -1);
    assert kept == pushed[Max(0, |pushed| - n)..];
  }

  // ---- the store --------------------------------------------------------

  /** `get` as this store answers it: the sort order is checked before the channel. */
  function RedisRead(b: Board, channel: string, q: Query): Result<Page, Error> {
    if q.sortOrder.Unknown? then Err(BadSortOrder) else Read(b, channel, q)
  }

  /** The two stores read alike unless an unknown sort order meets an unknown channel. */
  lemma ReadsAgree(b: Board, channel: string, q: Query)
    ensures RedisRead(b, channel, q) == Read(b, channel, q) <==> !q.sortOrder.Unknown? || channel in b
  {}

  /** The deletion of one message as this store performs it: by the first match, then by id. */
  function RedisDeleteMessage(b: Board, channel: string, id: string, sender: Option<string>): (Board, bool) {
    if channel !in b then (b, false)
    else match IndexOf(b[channel], id)
      case None => (b, false)
      case Some(i) =>
        if sender.Some? && b[channel][i].sender != sender.value then (b, false)
        else (b[channel := Live(b[channel], {id})], true)
  }

  /** With unique ids, looking up the target first deletes what the rebuilt deque deletes. */
  lemma DeletesAgree(b: Board, channel: string, id: string, sender: Option<string>)
    requires channel in b ==> UniqueIds(b[channel])
    ensures RedisDeleteMessage(b, channel, id, sender) == DeleteMessageFrom(b, channel, id, sender)
  {
    if channel in b {
      var ms := b[channel];
      match IndexOf(ms, id)
      case None => KeptAll(ms, id, sender);
      case Some(i) =>
        if sender.Some? && ms[i].sender != sender.value {
          KeptAll(ms, id, sender);
        } else {
          KeptDrops(ms, id, sender, i);
          KeptIsLive(ms, id, sender);
        }
    }
  }

  lemma {:induction false} KeptDrops(ms: seq<Message>, id: string, sender: Option<string>, i: nat)
    requires i < |ms| && ms[i].id == id && !(sender.Some? && ms[i].sender != sender.value)
    ensures |Kept(ms, id, sender)| < |ms|
  {
    if i > 0 {
      KeptDrops(ms[1..], id, sender, i - 1);
    } else {
      KeptShorter(ms[1..], id, sender);
    }
  }

  /** Unlike the in-memory store, an `add` here creates no event. */
  function RedisAdding(cfg: Config, r: Relay, channel: string, content: string, sender: string,
                       id: string, at: Instant): (Relay, Result<Message, Error>)
  {
    var (b, result) := AddTo(cfg, r.board, channel, content, sender, id, at);
    if result.Err? then (r, result)
    else
      var r' := r.(board := b);
      (if channel in r'.events then Signal(r', channel) else r', result)
  }

  /**
   Otherwise the two agree: same reply and channels, and where the channel has an event, the
   same events too. Where it has none, none is made and none is set.
   */
  lemma AddsAlike(cfg: Config, r: Relay, channel: string, content: string, sender: string, id: string, at: Instant)
    ensures var (s, reply) := RedisAdding(cfg, r, channel, content, sender, id, at);
            var (s', reply') := Adding(cfg, r, channel, content, sender, id, at);
            && reply == reply' && s.board == s'.board
            && (channel in r.events || reply.Err? ==> s == s')
            && (channel !in r.events ==> s.(board := r.board) == r)
  {}

  /** The events are local to the process, as in the in-memory store. */
  class RedisMessageStore {
    const redis: Redis
    const config: Config
    var events: map<string, nat>
    var fired: set<nat>
    var nextEvent: nat

    ghost predicate Valid()
      reads this, redis
    {
      WellFormed(redis.db) && config.Valid()
    }

    ghost function View(): Board
      requires Valid()
      reads this, redis
    {
      Shown(redis.db)
    }

    ghost function Whole(): Relay
      requires Valid()
      reads this, redis
    {
      Relay(View(), events, fired, nextEvent)
    }

    constructor (redis: Redis, config: Config)
      requires redis.db == map[] && config.Valid()
      ensures this.redis == redis && this.config == config
      ensures Valid() && Whole() == Relay(map[], map[], {}, 0)
    {
      this.redis, this.config := redis, config;
      events, fired, nextEvent := map[], {}, 0;
    }

    method GetAllMessages(channel: string) returns (messages: seq<Message>)
      requires Valid()
      ensures messages == ShownAt(redis.db, channel)
    {
      var raws := redis.LRange(ChannelKey(channel), 0, -1);
      assert raws == Items(redis.db, channel);
      assert WellFormedAt(redis.db, channel);
      messages := DecodeAll(raws);
    }

    method Add(channel: string, content: string, sender: string, id: string, at: Instant)
      returns (r: Result<Message, Error>)
      requires Valid()
      modifies redis, this
      ensures Valid()
      ensures (View(), r) == AddTo(config, old(View()), channel, content, sender, id, at)
      ensures (Whole(), r) == RedisAdding(config, old(Whole()), channel, content, sender, id, at)
    {
      if |content| > config.maxMessageSize {
        return Err(TooLarge);
      }
      var known := redis.SIsMember(CHANNELS, channel);
      assert |old(View())| == |Names(redis.db)| by {
        assert old(View()).Keys == Names(redis.db);
      }
      if !known {
        var count := redis.SCard(CHANNELS);
        if count >= config.maxChannels {
          return Err(ChannelLimit);
        }
        AddedName(redis.db, channel);
        redis.SAdd(CHANNELS, channel);
      }
      var msg := Message(id, channel, sender, content, at);
      AppendTrimmed(channel, msg);
      Overwrite(old(View()), channel, [], View()[channel]);
      if channel in events {
        fired := fired + {events[channel]};
        events, nextEvent := events[channel := nextEvent], nextEvent + 1;
      }
      return Ok(msg);
    }

    /** The push and the trim that end `add`. */
    method AppendTrimmed(channel: string, msg: Message)
      requires Valid() && channel in Names(redis.db)
      modifies redis
      ensures Valid()
      ensures View() == old(View())[channel := Push(config.maxPerChannel, old(View())[channel], msg)]
    {
      ghost var raws := Items(redis.db, channel);
      assert WellFormedAt(redis.db, channel);
      DecodeEncode(msg);
      StoredList(redis.db, channel, raws + [Encode(msg)]);
      redis.RPush(ChannelKey(channel), Encode(msg));
      TrimIsPush(raws, msg, config.maxPerChannel);
      StoredList(redis.db, channel, Span(raws + [Encode(msg)], -config.maxPerChannel, -1));
      redis.LTrim(ChannelKey(channel), -config.maxPerChannel, -1);
    }

    method Get(channel: string, q: Query) returns (r: Result<Page, Error>)
      requires Valid()
      ensures r == RedisRead(View(), channel, q)
    {
      if q.sortOrder.Unknown? {
        return Err(BadSortOrder);
      }
      var known := redis.SIsMember(CHANNELS, channel);
      if !known {
        return Ok(Page([], false));
      }
      var messages := GetAllMessages(channel);
      r := PageOf(messages, q);
    }

    method ListChannels() returns (result: seq<ChannelInfo>)
      requires Valid()
      ensures IsListing(result, View())
    {
      result := [];
      var todo := redis.SMembers(CHANNELS);
      ghost var board := View();
      while todo != {}
        invariant todo <= board.Keys && Lists(result, board, board.Keys - todo)
        decreases |todo|
      {
        var name :| name in todo;
        ListsOneMore(result, board, board.Keys - todo, name);
        assert board.Keys - todo + {name} == board.Keys - (todo - {name});
        var info := Describe(name);
        result := result + [info];
        todo := todo - {name};
      }
    }

    method Describe(name: string) returns (info: ChannelInfo)
      requires Valid() && name in View()
      ensures info == Info(View(), name)
    {
      assert WellFormedAt(redis.db, name);
      assert View()[name] == DecodeAll(Items(redis.db, name));
      var count := redis.LLen(ChannelKey(name));
      var last: Option<Instant> := None;
      if count > 0 {
        var raw := redis.LIndex(ChannelKey(name), -1);
        if raw.Some? {
          last := Some(Decode(raw.value).timestamp);
        }
      }
      info := ChannelInfo(name, count, last);
    }

    method Clear(channel: string) returns (found: bool)
      requires Valid()
      modifies redis
      ensures Valid()
      ensures (View(), found) == ClearIn(old(View()), channel)
    {
      found := redis.SIsMember(CHANNELS, channel);
      if found {
        StoredList(redis.db, channel, []);
        redis.Delete(ChannelKey(channel));
      }
    }

    method Delete(channel: string) returns (found: bool)
      requires Valid()
      modifies redis, this`events
      ensures Valid()
      ensures (Whole(), found) == Deleting(old(Whole()), channel)
    {
      found := redis.SIsMember(CHANNELS, channel);
      if found {
        RemovedName(redis.db, channel);
        redis.Delete(ChannelKey(channel));
        redis.SRem(CHANNELS, channel);
        events := events - {channel};
      }
    }

    /** `wait_for_new` up to where it suspends on the event, with nothing in between. */
    method BeginWait(channel: string, since: Since) returns (w: Waiting)
      requires Valid()
      modifies this`events, this`nextEvent
      ensures Valid()
      ensures (Whole(), w) == Beginning(old(Whole()), channel, since)
    {
      var existing := Get(channel, Latest(since));
      if existing.Err? {
        return Raised(existing.error);
      }
      if existing.value.messages != [] {
        return Ready(existing.value.messages);
      }
      if channel !in events {
        events, nextEvent := events[channel := nextEvent], nextEvent + 1;
      }
      return Suspended(events[channel]);
    }

    method DeleteMessage(channel: string, id: string, sender: Option<string>) returns (deleted: bool)
      requires Valid()
      modifies redis
      ensures Valid()
      ensures (View(), deleted) == RedisDeleteMessage(old(View()), channel, id, sender)
    {
      var known := redis.SIsMember(CHANNELS, channel);
      if !known {
        return false;
      }
      var messages := GetAllMessages(channel);
      var target := IndexOf(messages, id);
      if target.None? {
        return false;
      }
      if sender.Some? && messages[target.value].sender != sender.value {
        return false;
      }
      var kept := Live(messages, {id});
      DecodeEncodeAll(kept);
      StoredList(redis.db, channel, EncodeAll(kept));
      StoreAfterDrop(redis.db, ChannelKey(channel), EncodeAll(kept));
      redis.Rewrite(ChannelKey(channel), EncodeAll(kept));
      return true;
    }
  }

  lemma StoreAfterDrop(db: Keyspace, key: string, items: seq<Json>)
    ensures StoreList(db - {key}, key, items) == StoreList(db, key, items)
  {}

  // ---- refinement over whole runs ---------------------------------------

  method MemoryStep(store: MessageStore, op: Op) returns (reply: Reply)
    modifies store
    ensures (store.channels, reply) == Apply(store.config, old(store.channels), op)
  {
    match op
    case Add(c, content, sender, id, at) => var r := store.Add(c, content, sender, id, at); reply := Sent(r);
    case Get(c, q) => var r := store.Get(c, q); reply := Got(r);
    case Clear(c) => var f := store.Clear(c); reply := Flag(f);
    case Delete(c) => var f := store.Delete(c); reply := Flag(f);
    case DeleteMessage(c, id, s) => var f := store.DeleteMessage(c, id, s); reply := Flag(f);
  }

  /** Outside the one disagreement of `get`, a step of this store is a step of the other. */
  method RedisStep(store: RedisMessageStore, op: Op) returns (reply: Reply)
    requires store.Valid()
    requires op.Get? ==> !op.query.sortOrder.Unknown? || op.channel in store.View()
    requires op.channel in store.View() ==> UniqueIds(store.View()[op.channel])
    modifies store.redis, store
    ensures store.Valid()
    ensures (store.View(), reply) == Apply(store.config, old(store.View()), op)
  {
    match op
    case Add(c, content, sender, id, at) => var r := store.Add(c, content, sender, id, at); reply := Sent(r);
    case Get(c, q) => ReadsAgree(store.View(), c, q); var r := store.Get(c, q); reply := Got(r);
    case Clear(c) => var f := store.Clear(c); reply := Flag(f);
    case Delete(c) => var f := store.Delete(c); reply := Flag(f);
    case DeleteMessage(c, id, s) =>
      DeletesAgree(store.View(), c, id, s);
      var f := store.DeleteMessage(c, id, s);
      reply := Flag(f);
  }

  lemma RunOneMore(cfg: Config, ops: seq<Op>, i: nat)
    requires i < |ops|
    ensures Run(cfg, ops[..i + 1]) == Apply(cfg, Run(cfg, ops[..i]), ops[i]).0
    ensures FreshIds(ops) ==> FreshIds(ops[..i])
  {
    assert ops[..i + 1][..i] == ops[..i];
  }

  /** One operation on both stores, after the same run. */
  method BothStep(memory: MessageStore, stored: RedisMessageStore, earlier: seq<Op>, op: Op)
    returns (left: Reply, right: Reply)
    requires memory.config == stored.config && stored.Valid() && FreshIds(earlier)
    requires memory.channels == stored.View() == Run(memory.config, earlier)
    requires op.Get? ==> !op.query.sortOrder.Unknown?
    modifies memory, stored.redis, stored
    ensures left == right && stored.Valid()
    ensures memory.channels == stored.View() == Apply(memory.config, Run(memory.config, earlier), op).0
  {
    if op.channel in stored.View() {
      UniqueAfter(memory.config, earlier, op.channel);
    }
    left := MemoryStep(memory, op);
    right := RedisStep(stored, op);
  }

  /**
   Refinement: fed the same operations, ids and timestamps one at a time, the two stores
   give the same replies and hold the same channels, for every run with fresh ids and
   known sort orders.
   */
  method RunBoth(memory: MessageStore, stored: RedisMessageStore, ops: seq<Op>)
    returns (left: seq<Reply>, right: seq<Reply>)
    requires memory.config == stored.config && stored.Valid()
    requires memory.channels == map[] && stored.View() == map[]
    requires FreshIds(ops)
    requires forall i :: 0 <= i < |ops| && ops[i].Get? ==> !ops[i].query.sortOrder.Unknown?
    modifies memory, stored.redis, stored
    ensures left == right && |left| == |ops|
    ensures stored.Valid() && memory.channels == stored.View() == Run(memory.config, ops)
  {
    left, right := [], [];
    for i := 0 to |ops|
      invariant left == right && |left| == i
      invariant stored.Valid() && memory.channels == stored.View() == Run(memory.config, ops[..i])
    {
      RunOneMore(memory.config, ops, i);
      var a, b := BothStep(memory, stored, ops[..i], ops[i]);
      left, right := left + [a], right + [b];
    }
    assert ops[..|ops|] == ops;
  }

  lemma UniqueAfter(cfg: Config, ops: seq<Op>, channel: string)
    requires cfg.Valid() && FreshIds(ops) && channel in Run(cfg, ops)
    ensures UniqueIds(Run(cfg, ops)[channel])
  {
    Retained(cfg, ops, channel);
    var t := TraceOf(cfg, ops, channel);
    LiveUnique(t.log[t.cut..], t.gone);
  }
}

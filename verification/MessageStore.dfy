/** The in-memory store of mcp_relay/server.py. */
module MemoryRelay {
  import opened Basics
  import opened PyList
  import opened RelayTypes
  import opened RelayBoard

  /**
   The store's state as a value. An asyncio event is the number it was created
   under; `fired` holds the events that have been set.
   */
  datatype Relay = Relay(board: Board, events: map<string, nat>, fired: set<nat>, next: nat)

  /** What the first half of `wait_for_new` ends in. */
  datatype Waiting =
    | Ready(messages: seq<Message>)
    | Raised(error: Error)
    | Suspended(event: nat)

  /** Creates the channel's event unless it has one. */
  function WithEvent(r: Relay, channel: string): Relay {
    if channel in r.events then r
    else r.(events := r.events[channel := r.next], next := r.next + 1)
  }

  /** Sets the channel's event and puts a new, unset one in its place. */
  function Signal(r: Relay, channel: string): Relay
    requires channel in r.events
  {
    r.(fired := r.fired + {r.events[channel]}, events := r.events[channel := r.next], next := r.next + 1)
  }

  function Adding(cfg: Config, r: Relay, channel: string, content: string, sender: string,
                  id: string, at: Instant): (Relay, Result<Message, Error>)
  {
    var (b, result) := AddTo(cfg, r.board, channel, content, sender, id, at);
    if result.Err? then (r, result)
    else (Signal(WithEvent(r.(board := b), channel), channel), result)
  }

  function Deleting(r: Relay, channel: string): (Relay, bool) {
    var (b, found) := DeleteFrom(r.board, channel);
    if found then (r.(board := b, events := r.events - {channel}), true) else (r, false)
  }

  function Beginning(r: Relay, channel: string, since: Since): (Relay, Waiting) {
    match Read(r.board, channel, Latest(since))
    case Err(e) => (r, Raised(e))
    case Ok(page) =>
      if page.messages != [] then (r, Ready(page.messages))
      else var r' := WithEvent(r, channel); (r', Suspended(r'.events[channel]))
  }

  /** The narrowing of a channel's messages to one page, which both stores perform step by step. */
  method PageOf(all: seq<Message>, q: Query) returns (r: Result<Page, Error>)
    requires !q.sortOrder.Unknown?
    ensures r == Select(all, q)
  {
    var limit := Min(q.limit, MAX_READ_LIMIT);
    var messages := all;
    var narrowed := Narrow(messages, q.since);
    if narrowed.Err? {
      return Err(narrowed.error);
    }
    messages := narrowed.value;
    if q.after != "" {
      var i := IndexOf(messages, q.after);
      if i.None? {
        return Err(CursorNotFound);
      }
      messages := messages[i.value + 1..];
      return Ok(Page(Upto(messages, limit), |messages| > limit));
    }
    if q.before != "" {
      var i := IndexOf(messages, q.before);
      if i.None? {
        return Err(CursorNotFound);
      }
      messages := messages[..i.value];
      return Ok(Page(LastN(messages, limit), |messages| > limit));
    }
    var hasMore := |messages| > limit;
    if q.sortOrder.Asc? {
      return Ok(Page(Upto(messages, limit), hasMore));
    }
    return Ok(Page(LastN(messages, limit), hasMore));
  }

  class MessageStore {
    const config: Config
    var channels: map<string, seq<Message>>
    var events: map<string, nat>
    var fired: set<nat>
    var nextEvent: nat

    ghost function View(): Relay
      reads this
    {
      Relay(channels, events, fired, nextEvent)
    }

    constructor (config: Config)
      ensures this.config == config
      ensures View() == Relay(map[], map[], {}, 0)
    {
      this.config := config;
      channels, events, fired, nextEvent := map[], map[], {}, 0;
    }

    method Add(channel: string, content: string, sender: string, id: string, at: Instant)
      returns (r: Result<Message, Error>)
      modifies this
      ensures (View(), r) == Adding(config, old(View()), channel, content, sender, id, at)
    {
      if |content| > config.maxMessageSize {
        return Err(TooLarge);
      }
      if channel !in channels {
        if |channels| >= config.maxChannels {
          return Err(ChannelLimit);
        }
        channels := channels[channel := []];
      }
      EnsureEvent(channel);
      var msg := Message(id, channel, sender, content, at);
      channels := channels[channel := Push(config.maxPerChannel, channels[channel], msg)];
      assert channels == AddTo(config, old(channels), channel, content, sender, id, at).0 by {
        Overwrite(old(channels), channel, [], channels[channel]);
      }
      fired := fired + {events[channel]};
      events, nextEvent := events[channel := nextEvent], nextEvent + 1;
      return Ok(msg);
    }

    /** An event for the channel, unless it has one. */
    method EnsureEvent(channel: string)
      modifies this`events, this`nextEvent
      ensures View() == WithEvent(old(View()), channel)
    {
      if channel !in events {
        events, nextEvent := events[channel := nextEvent], nextEvent + 1;
      }
    }

    method Get(channel: string, q: Query) returns (r: Result<Page, Error>)
      ensures r == Read(channels, channel, q)
    {
      if channel !in channels {
        return Ok(Page([], false));
      }
      if q.sortOrder.Unknown? {
        return Err(BadSortOrder);
      }
      r := PageOf(channels[channel], q);
    }

    method Describe(name: string, messages: seq<Message>) returns (info: ChannelInfo)
      requires name in channels && channels[name] == messages
      ensures info == Info(channels, name)
    {
      var last := if messages != [] then Some(messages[|messages| - 1].timestamp) else None;
      info := ChannelInfo(name, |messages|, last);
    }

    method ListChannels() returns (result: seq<ChannelInfo>)
      ensures IsListing(result, channels)
    {
      result := [];
      var todo := channels.Keys;
      while todo != {}
        invariant todo <= channels.Keys && Lists(result, channels, channels.Keys - todo)
        decreases |todo|
      {
        var name :| name in todo;
        ListsOneMore(result, channels, channels.Keys - todo, name);
        assert channels.Keys - todo + {name} == channels.Keys - (todo - {name});
        var info := Describe(name, channels[name]);
        result := result + [info];
        todo := todo - {name};
      }
    }

    method Clear(channel: string) returns (found: bool)
      modifies this`channels
      ensures (channels, found) == ClearIn(old(channels), channel)
    {
      if channel in channels {
        channels := channels[channel := []];
        return true;
      }
      return false;
    }

    method Delete(channel: string) returns (found: bool)
      modifies this
      ensures (View(), found) == Deleting(old(View()), channel)
    {
      if channel !in channels {
        return false;
      }
      channels := channels - {channel};
      events := events - {channel};
      return true;
    }

    method DeleteMessage(channel: string, id: string, sender: Option<string>) returns (deleted: bool)
      modifies this`channels
      ensures (channels, deleted) == DeleteMessageFrom(old(channels), channel, id, sender)
    {
      if channel !in channels {
        return false;
      }
      var original := channels[channel];
      var rebuilt := Kept(original, id, sender);
      if |rebuilt| == |original| {
        return false;
      }
      channels := channels[channel := rebuilt];
      return true;
    }

    /** `wait_for_new` up to the point where it suspends on the event. */
    method BeginWait(channel: string, since: Since) returns (w: Waiting)
      modifies this
      ensures (View(), w) == Beginning(old(View()), channel, since)
    {
      var existing := Get(channel, Latest(since));
      if existing.Err? {
        return Raised(existing.error);
      }
      if existing.value.messages != [] {
        return Ready(existing.value.messages);
      }
      EnsureEvent(channel);
      return Suspended(events[channel]);
    }
  }
}

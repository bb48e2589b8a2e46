/**
 Every operation of the Redis store as a task that suspends at each command, with the long
 poll's local events. A step is one command taking effect at the server, or one stretch of
 local work on the events. The server is shared, the events are not: to this process an add
 of another one is a task that leaves before it signals, and a channel deletion of another
 one a task that leaves before it forgets the event.
 */
module RedisTasks {
  import opened Basics
  import opened PyList
  import opened RelayTypes
  import opened RelayBoard
  import opened History

  /** The channel set and the lists; a missing list is an empty one. */
  datatype Server = Server(names: set<string>, lists: map<string, seq<Message>>)

  function ListAt(s: Server, channel: string): seq<Message> { if channel in s.lists then s.lists[channel] else [] }

  function Written(s: Server, channel: string, ms: seq<Message>): Server { s.(lists := s.lists[channel := ms]) }

  /** Why a poll may sleep on although there is something to read. */
  datatype Cause =
    | SignalledInGap    // a signal was sent between its read and its registration
    | PutBack           // a deletion rewrote the list with a message the channel had lost since it was read
    | AddRaised         // an add raised, or left, between showing a message and signalling it
    | ChannelDeleted    // the event it sleeps on was dropped

  /** A suspended task, named by what it does next: a command, or work on the local events. */
  datatype Task =
    | Counting(channel: string, message: Message)
    | Claiming(channel: string, message: Message)
    | Pushing(channel: string, message: Message, claimed: bool)
    | Trimming(channel: string)
    | Signalling(channel: string)
    | Clearing(channel: string)
    | DroppingList(channel: string)
    | DroppingName(channel: string)
    | Forgetting(channel: string)
    | Listing(channel: string, id: string, bySender: Option<string>)
    | Rewriting(channel: string, id: string, read: seq<Message>, arrived: set<Message>)
    | Reading(channel: string, since: Since)
    | Registering(channel: string, since: Since, causes: set<Cause>)
    | Sleeping(channel: string, since: Since, causes: set<Cause>, event: nat)

  datatype Request =
    | Post(message: Message)
    | Empty(channel: string)
    | Remove(channel: string)
    | RemoveMessage(channel: string, id: string, bySender: Option<string>)
    | WaitForNew(channel: string, since: Since)

  datatype Hub = Hub(server: Server, events: map<string, nat>, fired: set<nat>, next: nat, tasks: map<nat, Task>)

  /** `Leave` is a command that raises, a poll that times out, or one that wakes. */
  datatype Step = Begin(task: nat, request: Request) | Go(task: nat) | Leave(task: nat)

  const START := Hub(Server({}, map[]), map[], {}, 0, map[])

  // ---- the steps --------------------------------------------------------

  predicate Watches(w: Task, channel: string) { (w.Registering? || w.Sleeping?) && w.channel == channel }

  /** The polls a cause is about: in the gap, asleep, or either. */
  predicate Concerns(w: Task, channel: string, cause: Cause) {
    && Watches(w, channel)
    && (cause.SignalledInGap? ==> w.Registering?) && (cause.ChannelDeleted? ==> w.Sleeping?)
  }

  function Mark(w: Task, channel: string, cause: Cause): Task {
    if Concerns(w, channel, cause) then w.(causes := w.causes + {cause}) else w
  }

  function Marked(tasks: map<nat, Task>, channel: string, cause: Cause): map<nat, Task> {
    map t | t in tasks :: Mark(tasks[t], channel, cause)
  }

  /** A deletion under way notes what enters its list after it has read it. */
  function Arrive(w: Task, channel: string, ms: set<Message>): Task {
    if w.Rewriting? && w.channel == channel then w.(arrived := w.arrived + ms) else w
  }

  function WithArrivals(tasks: map<nat, Task>, channel: string, ms: set<Message>): map<nat, Task> {
    map t | t in tasks :: Arrive(tasks[t], channel, ms)
  }

  function At(h: Hub, t: nat, w: Task): Hub { h.(tasks := h.tasks[t := w]) }

  function Done(h: Hub, t: nat): Hub { h.(tasks := h.tasks - {t}) }

  /** Every operation first asks whether it knows the channel. */
  function Beginning(h: Hub, t: nat, r: Request): Hub {
    match r
    case Post(m) =>
      At(h, t, if m.channel in h.server.names then Pushing(m.channel, m, false) else Counting(m.channel, m))
    case Empty(c) => if c in h.server.names then At(h, t, Clearing(c)) else h
    case Remove(c) => if c in h.server.names then At(h, t, DroppingList(c)) else h
    case RemoveMessage(c, id, sender) => if c in h.server.names then At(h, t, Listing(c, id, sender)) else h
    case WaitForNew(c, since) =>
      At(h, t, if c in h.server.names then Reading(c, since) else Registering(c, since, {}))
  }

  function PushGoes(h: Hub, t: nat, c: string, m: Message): Hub {
    var h' := h.(server := Written(h.server, c, ListAt(h.server, c) + [m]), tasks := WithArrivals(h.tasks, c, {m}));
    At(h', t, Trimming(c))
  }

  function SignalGoes(h: Hub, t: nat, c: string): Hub {
    var h' := h.(tasks := Marked(h.tasks - {t}, c, SignalledInGap));
    if c !in h.events then h'
    else h'.(fired := h.fired + {h.events[c]}, events := h.events[c := h.next], next := h.next + 1)
  }

  function ForgetGoes(h: Hub, t: nat, c: string): Hub {
    h.(events := h.events - {c}, tasks := Marked(h.tasks - {t}, c, ChannelDeleted))
  }

  function ListGoes(h: Hub, t: nat, c: string, id: string, sender: Option<string>): Hub {
    var read := ListAt(h.server, c);
    match IndexOf(read, id)
    case None => Done(h, t)
    case Some(i) =>
      if sender.Some? && read[i].sender != sender.value then Done(h, t) else At(h, t, Rewriting(c, id, read, {}))
  }

  /** What a rewrite puts back: messages that have left the list since it was read. */
  function Restored(h: Hub, w: Task): set<Message>
    requires w.Rewriting?
  {
    set m | m in Live(w.read, {w.id}) && m !in ListAt(h.server, w.channel)
  }

  function RewriteGoes(h: Hub, t: nat, w: Task): Hub
    requires w.Rewriting?
  {
    var back := Restored(h, w);
    var others := h.tasks - {t};
    h.(server := Written(h.server, w.channel, Live(w.read, {w.id})),
       tasks := if back == {} then others else WithArrivals(Marked(others, w.channel, PutBack), w.channel, back))
  }

  /** What is read is returned at once; with nothing to return the poll goes on to register. */
  function ReadGoes(h: Hub, t: nat, c: string, since: Since): Hub {
    var r := Select(ListAt(h.server, c), Latest(since));
    if r.Ok? && r.value.messages == [] then At(h, t, Registering(c, since, {})) else Done(h, t)
  }

  function RegisterGoes(h: Hub, t: nat, w: Task): Hub
    requires w.Registering?
  {
    if w.channel in h.events then At(h, t, Sleeping(w.channel, w.since, w.causes, h.events[w.channel]))
    else
      At(h, t, Sleeping(w.channel, w.since, w.causes, h.next))
        .(events := h.events[w.channel := h.next], next := h.next + 1)
  }

  function Going(cfg: Config, h: Hub, t: nat, w: Task): Hub {
    match w
    case Counting(c, m) => if |h.server.names| >= cfg.maxChannels then Done(h, t) else At(h, t, Claiming(c, m))
    case Claiming(c, m) => At(h.(server := h.server.(names := h.server.names + {c})), t, Pushing(c, m, true))
    case Pushing(c, m, _) => PushGoes(h, t, c, m)
    case Trimming(c) =>
      At(h.(server := Written(h.server, c, LastN(ListAt(h.server, c), cfg.maxPerChannel))), t, Signalling(c))
    case Signalling(c) => SignalGoes(h, t, c)
    case Clearing(c) => Done(h.(server := Written(h.server, c, [])), t)
    case DroppingList(c) => At(h.(server := Written(h.server, c, [])), t, DroppingName(c))
    case DroppingName(c) => At(h.(server := h.server.(names := h.server.names - {c})), t, Forgetting(c))
    case Forgetting(c) => ForgetGoes(h, t, c)
    case Listing(c, id, sender) => ListGoes(h, t, c, id, sender)
    case Rewriting(_, _, _, _) => RewriteGoes(h, t, w)
    case Reading(c, since) => ReadGoes(h, t, c, since)
    case Registering(_, _, _) => RegisterGoes(h, t, w)
    case Sleeping(_, _, _, _) => h
  }

  /** An add that has shown something on the channel and has yet to signal it. */
  predicate Owes(w: Task, channel: string) {
    ((w.Pushing? && w.claimed) || w.Trimming? || w.Signalling?) && w.channel == channel
  }

  function Leaving(h: Hub, t: nat, w: Task): Hub {
    h.(tasks := if Owes(w, w.channel) then Marked(h.tasks - {t}, w.channel, AddRaised) else h.tasks - {t})
  }

  function Next(cfg: Config, h: Hub, s: Step): Hub {
    match s
    case Begin(t, r) => if t in h.tasks then h else Beginning(h, t, r)
    case Go(t) => if t in h.tasks then Going(cfg, h, t, h.tasks[t]) else h
    case Leave(t) => if t in h.tasks then Leaving(h, t, h.tasks[t]) else h
  }

  function Played(cfg: Config, steps: seq<Step>): Hub {
    if steps == [] then START else Next(cfg, Played(cfg, steps[..|steps| - 1]), steps[|steps| - 1])
  }

  /** What a step of w does to another task. */
  function Changed(h: Hub, w: Task, v: Task): Task {
    match w
    case Pushing(c, m, _) => Arrive(v, c, {m})
    case Signalling(c) => Mark(v, c, SignalledInGap)
    case Forgetting(c) => Mark(v, c, ChannelDeleted)
    case Rewriting(c, _, _, _) =>
      if Restored(h, w) == {} then v else Arrive(Mark(v, c, PutBack), c, Restored(h, w))
    case _ => v
  }

  lemma GoChanges(cfg: Config, h: Hub, t: nat, w: Task, u: nat)
    requires t in h.tasks && h.tasks[t] == w && u != t && u in Going(cfg, h, t, w).tasks
    ensures u in h.tasks && Going(cfg, h, t, w).tasks[u] == Changed(h, w, h.tasks[u])
  {}
}

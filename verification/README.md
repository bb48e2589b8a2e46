# Verified models of the relay, token and rate-limiting protocols

This project models the stateful protocols of the repository in Dafny and proves what each of
them keeps over whole runs:

- **MCP Relay** (`services/mcp-relay`): the in-memory and the Redis message store as classes
  over one value-level specification (`RelayBoard.dfy`), whose answers are stated once more
  without its steps (`RelayAnswers.dfy`), a lockstep refinement between the two stores,
  bounded retention, cursor paging while others write, the `watch` loop, and the long poll
  with its swapped events, over every interleaving of tasks. Every operation of the Redis
  store is also a task that suspends at each of its commands (`RedisTasks.dfy`); run alone, it
  does what the store's method does (`RedisSerial.dfy`).
- **MCP OAuth tokens** (`services/mcp-auth`): the authorization-code, device and refresh
  flows. `OAuthAnswers.dfy` says what each call answers and what the tokens of its answer are
  good for. Every token carries a ghost birth record naming the grant it descends from; grant
  attenuation and refresh rotation are proved over all runs of the in-memory branch, and the
  flows with other requests served at each `await` are proved separately, for both branches.
- **Token stores** (`packages/mcp-auth-framework`): the memory and PostgreSQL stores against
  an ideal map in which nothing is ever removed but by deletion.
- **Rate limiters**: the pruned-list sliding window and the PostgreSQL limiter, each against
  the same reference (`WindowLog.dfy`), counting the full log in a window.
- **Smaller protocols**: LIKE escaping against the semantics of LIKE, the jti replay cache with
  several threads, and registration-code use under row locks.

Each mutable object of the source is a class whose methods are proved against a function of
its old state; the run-level theorems are lemmas about those functions. Protocols in which
tasks, threads, workers or transactions interleave are state machines whose steps are the
stretches between two suspension points.

Run `dafny verify dfyconfig.toml` to check everything.

## Assumptions

- Generated ids, codes and tokens never repeat, and ids are not empty. They and the clock
  readings are parameters.
- Clock readings do not go back, except where a lemma allows for it: the statements of
  several workers of the PostgreSQL limiter may take effect in any order. Times are reals
  where the source uses fractions of a second (rounding of floats is not modelled), integers
  for relay timestamps. The database's clock is that of its callers.
- `max_per_channel >= 1`; page limits are arbitrary integers, and `limit >= 1` is required only
  where a client follows pages to the end.
- Redis commands, Redis transactions and SQL statements are atomic, and one that raises has
  had no effect. `FOR UPDATE` holds its row until the transaction ends, and writers of that
  row wait for it.
- The client that exchanges a code is the one it was issued to; the SDK checks that before.

## Where the code is not what its documentation or its twin suggests

The model follows the code; each item names the lemma that pins it down.

- The two relay stores answer `get` differently for an unknown `sort_order` on an unknown
  channel, and nowhere else: one returns an empty page, the other an error
  (`RedisRelay.ReadsAgree`).
- `limit` is documented as a maximum. It is one exactly when it is positive, or zero and
  counted from the front (`Paging.LimitIsMaximum`). A cursor into a channel that does not
  exist is not an error either: the page is empty.
- `delete` drops a channel's event without setting it. A waiter suspended on it sleeps through
  every later message, and these are the only waiters that do (`Wakeup.OrphanedExactly`,
  `Wakeup.OrphansStay`, `Wakeup.DeleteLosesWaiter`).
- The Redis `wait_for_new` can sleep on although there is a message for it. That needs one of
  four things to have happened to the poll (`RedisLongPoll.MissedOnlyForCause`): a signal was
  sent between its read and its registration, `delete_message` put back a message that had
  left the channel since it read the list, an `add` showed a message and did not signal it,
  because it raised or belongs to another process, or its channel was deleted. Each of the
  four has a run in which nothing else is to blame (`RedisMisses.GapLosesWakeup`,
  `RedisMisses.PutBackLosesWakeup`, `RedisMisses.RaiseLosesWakeup`,
  `RedisMisses.DeletionLosesWakeup`). But for the last cause, the next signal on the channel
  wakes it (`RedisLongPoll.NextSignalWakes`).
- The Redis `delete_message` reads the list and rewrites it in two commands. It removes
  exactly the target if and only if everything that reached the list since was in the list
  it had read; what was pushed in between is acknowledged and lost, so bounded retention
  holds of serial runs only (`RedisDeletion.RewriteLosesArrivals`, `RedisDeletion.PushIsLost`).
- Concurrent Redis `add` calls overrun the channel cap, by at most k - 1 for k calls in flight,
  and that many is reached (`RedisChannelCap.CapOverrun`, `RedisChannelCap.CapOverrunReached`).
- `watch`, on a channel from which nothing is deleted and under a clock that does not go back,
  prints every message exactly once if and only if each poll finds at most a hundred unprinted
  messages, none of them evicted yet and none with the timestamp of the last one before it
  (`Watch.WatchExactlyOnce`, `Watch.WatchedRun`).
- With a token database an exchange can leave tokens behind that no caller ever gets: exactly
  if something it awaits raises after the first store, or another exchange has used the code
  up meanwhile (`OAuthExchanges.UnsentExactly`). Both happen from any state with a live code
  (`OAuthExchanges.OverlapLoses`, `OAuthExchanges.RaisedCountStrandsPair`); in the second
  case the code stays good, so that a retry stores another pair.
- A callback reads its `state_mapping` entry before it awaits and deletes it afterwards. The
  two are the same entry if and only if the last `authorize` for that state in between, if
  there was one, brought the same parameters (`OAuthRaces.UsesItsOwnEntry`); otherwise it
  redirects with the first request's parameters and uses up the second
  (`OAuthRaces.StaleCallbackTakesNewerState`).
- With a token database, refreshes of one token that overlap leave two live refresh tokens,
  and so does a single refresh whose deletion of the old token raises
  (`RefreshRaces.OverlapForks`, `RefreshRaces.BreakOffForks`). Without either, a grant has one
  (`RefreshRaces.RotationInTurn`).
- A refresh whose token disappears between its two loads, by an overlapping refresh or by
  expiry, stores a pair that is bound to no resource (`RefreshRaces.OverlapForks`,
  `RefreshRaces.ExpiryUnbinds`). Without either, all tokens keep their grant's resource,
  whatever raises (`RefreshRaces.ResourcesInTurn`).
- `revoke_token` removes access tokens only; a refresh token answers and refreshes as if
  nothing had happened (`OAuthLineage.RevokeSparesRefresh`).
- The two token stores disagree in the fraction of a second after a token's expiry time,
  because the memory store truncates the clock. Until then they disagree about a token one of
  whose scopes is empty or has whitespace in it, because the PostgreSQL store joins and splits
  the list, and about the `created_at` of a token stored again in another second, because its
  upsert does not touch that column. They agree everywhere else (`TokenStore.StoresAgree`).
- So lazy deletion and cleanups never change what a later load answers, except for that column:
  it shows whether an expired row was removed before the token was stored again
  (`TokenStore.Transparent`, `TokenStore.CreatedByFirstStanding`, `TokenStore.SweepShows`).
- The PostgreSQL load deletes an expired row in a second statement. A token stored again in
  between is lost, and nothing else changes (`TokenStore.LateDeletion`).
- The PostgreSQL limiter never counts too much, whatever order the workers' statements take
  effect in (`DbRateLimit.NeverTooStrict`). It counts too little only if a worker that read
  its clock earlier but writes later pulls the row's expiry back (`DbRateLimit.CheckIsExact`,
  `DbRateLimit.RowIsExact`, `DbRateLimit.LateWriterHides`).
- A client assertion decodes for 60 seconds after its expiry, but its jti is forgotten by the
  first cleanup past the expiry. It is accepted again exactly if such a cleanup came first
  (`ReplayCache.AcceptedAgainExactly`, `ReplayCache.LeewayReplays`).
- A cleanup's LIKE pattern reaches other limiters whose names differ where this one has an
  underscore; it removes only expired rows, so `check` is not affected
  (`DbRateLimit.PatternReaches`, `DbRateLimit.CheckIsExact`).
- A comment in `services/backend/app/api/auth.py` (lines 103-104) says that a code use stays
  counted when the registration fails afterwards. `get_db` rolls the transaction back, so it
  does not: the count is that of committed registrations (`RegistrationCodes.UsesConserved`).

## Model

| member | source | states |
|---|---|---|
| `MemoryRelay.MessageStore.Add` | services/mcp-relay/mcp_relay/server.py:125-152 | refuses oversized messages and channels beyond the cap without any change; otherwise appends to the bounded deque, sets the channel's event and puts a new one in its place |
| `MemoryRelay.MessageStore.Get` | services/mcp-relay/mcp_relay/server.py:186-224 | the page, flag or error that the specification selects, for every combination of filter, cursor, order and limit |
| `MemoryRelay.PageOf` | services/mcp-relay/mcp_relay/server.py:192-224 | narrowing step by step selects what the closed form selects |
| `RelayBoard.IndexOf` | services/mcp-relay/mcp_relay/server.py:203-205 | a cursor resolves to the first message with its id, and to nothing exactly if there is none |
| `MemoryRelay.MessageStore.ListChannels` | services/mcp-relay/mcp_relay/server.py:226-237 | every channel once, with its count and the timestamp of its newest message |
| `MemoryRelay.MessageStore.Clear` | services/mcp-relay/mcp_relay/server.py:239-243 | empties an existing channel, keeps it and its event, and says whether it existed |
| `MemoryRelay.MessageStore.Delete` | services/mcp-relay/mcp_relay/server.py:245-262 | removes the channel and its event, leaving the event unset |
| `MemoryRelay.MessageStore.DeleteMessage` | services/mcp-relay/mcp_relay/server.py:264-307 | keeps the order and everything but the id, unless the sender does not match |
| `MemoryRelay.MessageStore.BeginWait` | services/mcp-relay/mcp_relay/server.py:309-325 | returns what is there, or registers on the channel's current event |
| `RelayAnswers.AddAnswers` | services/mcp-relay/mcp_relay/server.py:125-152 | an add succeeds if and only if the message fits and the channel exists or there is room for one more; it is too large exactly if it does not fit; on success it carries the five fields given and ends its channel behind the newest messages that the bound leaves room for; on failure nothing changes |
| `RelayAnswers.ReadAnswers` | services/mcp-relay/mcp_relay/server.py:186-224 | for every combination of filter, cursor, order and limit: a read is refused for exactly one reason, or shows in their order the first, or the last, of the messages that pass the filter on the right side of the cursor, as many as the limit and 200 allow, also where the limit is not positive |
| `RelayAnswers.PositiveLimit` | services/mcp-relay/mcp_relay/server.py:206-224 | with a positive limit `has_more` holds if and only if one of those is left out |
| `RelayAnswers.AbsentReads` | services/mcp-relay/mcp_relay/server.py:186-190 | a channel that does not exist reads as an empty page, whatever is asked |
| `RelayAnswers.DeleteMessageAnswers` | services/mcp-relay/mcp_relay/server.py:264-307 | the deletion of a message succeeds if and only if the channel holds one of that id and, if given, that sender; all others stay, in their order |
| `RelayAnswers.ClearAnswers` | services/mcp-relay/mcp_relay/server.py:239-243 | a clear finds the channel exactly if it exists; the channel then exists without messages, and no other changes |
| `RelayAnswers.DeleteAnswers` | services/mcp-relay/mcp_relay/server.py:245-262 | a deletion finds the channel exactly if it exists; there is no such channel then, and no other changes |
| `RelayAnswers.ListingTells` | services/mcp-relay/mcp_relay/server.py:226-237 | a listing names every channel once, with the number of its messages and the time of the last, if any |
| `RelayAnswers.AddIsListed` | services/mcp-relay/mcp_relay/server.py:226-237 | after a successful add the channel is listed as last active then, with one message more up to the bound |
| `RelayAnswers.WaitAnswers` | services/mcp-relay/mcp_relay/server.py:309-325 | a poll raises on a time it cannot compare with, returns at once if and only if something is newer, and then the newest fifty of that, and otherwise suspends on its channel's event |
| `History.Retained` | services/mcp-relay/mcp_relay/server.py:125-152 | after every run a channel holds exactly what its past prescribes: the undeleted part of its log past a cut that eviction, clear and delete advance |
| `History.BoundedRetention` | services/mcp-relay/mcp_relay/server.py:125-307 | in every reachable state a channel holds at most the cap, in append order, nothing from before the last clear or delete, nothing deleted, and every undeleted message among the last cap appends |
| `History.ChannelCap` | services/mcp-relay/mcp_relay/server.py:131-134 | no run ever has more channels than the cap |
| `History.PushLive` | services/mcp-relay/mcp_relay/server.py:145 | a full deque drops exactly its oldest undeleted message, one that is not full drops none |
| `History.PastGrows` | services/mcp-relay/mcp_relay/server.py:125-307 | a channel's log, deletions and cut only ever grow along a run |
| `Paging.AfterCursor` | services/mcp-relay/mcp_relay/server.py:202-209 | reading after a message yields the oldest undeleted ones past it, and the cursor error exactly if it was evicted, cleared or deleted |
| `Paging.OnePage` | services/mcp-relay/mcp_relay/server.py:206-209 | a page is the next stretch of the log without what was deleted, and `has_more` holds exactly if something undeleted follows it |
| `Paging.PagesTile` | services/mcp-relay/mcp_relay/server.py:202-209 | the pages of a session tile the log from where it began, with no gap and no overlap, under any interleaved writes |
| `Paging.GapFreePaging` | services/mcp-relay/mcp_relay/server.py:192-224 | reads that find nothing leave a client where it began, and from the first that finds something on it receives, following `after`, in order and once each every message not deleted before its page; every page takes what its limit allows of what is left, `has_more` of the last is false exactly if nothing is left, and it stops early only with the cursor error and only if the message under the cursor has left |
| `Paging.RunIsSession` | services/mcp-relay/mcp_relay/server.py:125-307 | the boards of any run, looked at whenever, are a session that the paging theorem covers |
| `Paging.ReadForward` | services/mcp-relay/mcp_relay/server.py:202-209 | on an unchanged channel, following `after` while `has_more` terminates with the whole list |
| `Paging.ReadBackward` | services/mcp-relay/mcp_relay/server.py:211-218 | the same backwards with `before`, reassembled in order |
| `Paging.LimitIsMaximum` | services/mcp-relay/mcp_relay/server.py:168-224 | a page keeps to its limit, whatever the channel holds, if and only if the limit is positive, or zero and counted from the front |
| `Watch.Echo` | services/mcp-relay/mcp_relay/cli.py:260-268 | prints the page and leaves `since` at its last message |
| `Watch.WatchChannel` | services/mcp-relay/mcp_relay/cli.py:241-268 | the loop prints what the recursive account of the polls says |
| `Watch.StartStands` | services/mcp-relay/mcp_relay/cli.py:244-248 | the first read puts the watcher at the end of the log |
| `Watch.PollPrints` | services/mcp-relay/mcp_relay/cli.py:255-260 | a poll prints the newest hundred of what is retained and unprinted |
| `Watch.WatchExactlyOnce` | services/mcp-relay/mcp_relay/cli.py:241-268 | with timestamps that never decrease and nothing deleted, every message past the start is printed once and in order if and only if every poll keeps up: before an eviction, before a hundred pile up, and before a tie with the last message read |
| `Watch.WatchedRun` | services/mcp-relay/mcp_relay/cli.py:241-268 | over any run under a clock that does not go back, with nothing deleted, a watcher prints exactly what is appended between its start and its last poll, if and only if every poll keeps up |
| `Watch.NeverTwice` | services/mcp-relay/mcp_relay/cli.py:241-268 | with timestamps that never decrease nothing is printed twice, whatever is deleted, evicted or missed |
| `Watch.RunIsOrdered` | services/mcp-relay/mcp_relay/server.py:138-145 | a run under a clock that never goes back gives such timestamps |
| `Wakeup.NewsIsRead` | services/mcp-relay/mcp_relay/server.py:315-318 | a channel has something newer than a time exactly if the waiter's read returns a message |
| `Wakeup.BoardIsRun` | services/mcp-relay/mcp_relay/server.py:125-334 | waiting does not disturb the store: its channels are those of the operations alone, as a run |
| `Wakeup.LeavesExactly` | services/mcp-relay/mcp_relay/server.py:326-334 | a waiter leaves by timing out, or by resuming once its event is set, and by nothing else |
| `Wakeup.AlwaysSound` | services/mcp-relay/mcp_relay/server.py:125-334 | in every interleaving each suspended waiter is woken, or holds its channel's current unset event with nothing to read, or is marked as orphaned |
| `Wakeup.NoLostWakeup` | services/mcp-relay/mcp_relay/server.py:309-334 | a waiter whose channel was not deleted under it is woken as soon as there is something to read, and by the next successful `add` in any case |
| `Wakeup.SendIsDelivered` | services/mcp-relay/mcp_relay/server.py:147-150 | after a successful `add` the waiter is woken, and if it goes on at once its second read ends in that message, provided it is newer than its `since` |
| `Wakeup.StaysWoken` | services/mcp-relay/mcp_relay/server.py:320-334 | a woken waiter stays woken, with the same `since`, until it resumes or gives up, whatever other tasks do |
| `Wakeup.DeliveredLater` | services/mcp-relay/mcp_relay/server.py:320-334 | after any steps of other tasks its second read still returns that message, as long as it is among the channel's last fifty |
| `Wakeup.OrphanedExactly` | services/mcp-relay/mcp_relay/server.py:260-262 | a waiter is out of reach of later sends if and only if its channel was deleted while its event was unset |
| `Wakeup.OrphansStay` | services/mcp-relay/mcp_relay/server.py:260-262 | such a waiter stays asleep until it times out, whatever happens |
| `Wakeup.DeleteLosesWaiter` | services/mcp-relay/mcp_relay/server.py:260-262 | a run that reaches this, with news waiting for the sleeper |
| `RedisRelay.KeysApart` | services/mcp-relay/mcp_relay/redis_store.py:20-46 | the channel set and the channels' lists never share a key |
| `RedisRelay.DecodeEncodeAll` | services/mcp-relay/mcp_relay/redis_store.py:48-62 | parsing the stored fields gives the messages back |
| `RedisRelay.TrimIsPush` | services/mcp-relay/mcp_relay/redis_store.py:87-88 | a push followed by the trim is an append to a bounded deque |
| `RedisRelay.RedisMessageStore.Add` | services/mcp-relay/mcp_relay/redis_store.py:64-95 | serially, the same board and result as the specification of `add`, the keyspace stays well formed, and the local event is set and replaced exactly on success |
| `RedisRelay.RedisMessageStore.Get` | services/mcp-relay/mcp_relay/redis_store.py:97-142 | the specification's page, with the sort order refused before the channel is looked up |
| `RedisRelay.RedisMessageStore.ListChannels` | services/mcp-relay/mcp_relay/redis_store.py:144-160 | every channel once, with its count and last activity |
| `RedisRelay.RedisMessageStore.Clear` | services/mcp-relay/mcp_relay/redis_store.py:162-167 | dropping the list leaves the channel, empty |
| `RedisRelay.RedisMessageStore.Delete` | services/mcp-relay/mcp_relay/redis_store.py:169-176 | removes the list, the name and the local event, which stays unset, and disturbs no other channel |
| `RedisRelay.RedisMessageStore.BeginWait` | services/mcp-relay/mcp_relay/redis_store.py:208-222 | serially, returns what is there, or registers on the channel's event, making one if there is none |
| `RedisRelay.RedisMessageStore.DeleteMessage` | services/mcp-relay/mcp_relay/redis_store.py:178-206 | looks the target up first, then rewrites the list without the id |
| `RedisRelay.AddsAlike` | services/mcp-relay/mcp_relay/redis_store.py:90-93 | this `add` answers and stores what the other does and, where the channel has an event, signals alike; it creates no event |
| `RedisRelay.ReadsAgree` | services/mcp-relay/mcp_relay/redis_store.py:107-111 | the two stores read alike if and only if the sort order is known or the channel is |
| `RedisRelay.DeletesAgree` | services/mcp-relay/mcp_relay/redis_store.py:185-206 | with unique ids the look-up and the rebuild delete the same |
| `RedisRelay.RunBoth` | services/mcp-relay/mcp_relay/redis_store.py:60-206 | over every run with fresh ids and known sort orders both stores give the same replies and end with the same channels |
| `RelayBoard.ListingsAgree` | services/mcp-relay/mcp_relay/redis_store.py:144-160 | listings of equal channels by the two stores differ in order only |
| `RedisChannelCap.CapOverrun` | services/mcp-relay/mcp_relay/redis_store.py:71-95 | with at most k adds in flight the channel set never exceeds the cap plus k - 1, whatever else is suspended and whatever raises |
| `RedisChannelCap.CapOverrunReached` | services/mcp-relay/mcp_relay/redis_store.py:71-77 | for every cap and k, a run that reaches the bound |
| `RedisSerial.AddAlone` | services/mcp-relay/mcp_relay/redis_store.py:64-95 | the commands of an add, with no other task in between, do what the store's `add` is proved to do, events included |
| `RedisSerial.ClearAlone` | services/mcp-relay/mcp_relay/redis_store.py:162-167 | so do those of a clear |
| `RedisSerial.DeleteAlone` | services/mcp-relay/mcp_relay/redis_store.py:169-176 | so do those of a channel deletion |
| `RedisSerial.DeleteMessageAlone` | services/mcp-relay/mcp_relay/redis_store.py:178-206 | so do those of the deletion of a message |
| `RedisSerial.WaitAlone` | services/mcp-relay/mcp_relay/redis_store.py:208-222 | and those of a poll up to its sleep |
| `RedisLongPoll.AlwaysAccounted` | services/mcp-relay/mcp_relay/redis_store.py:208-226 | with every operation suspended at every command, whatever is new to a poll has its signal still to come, or the poll has one of four recorded causes for missing it |
| `RedisLongPoll.CauseHappened` | services/mcp-relay/mcp_relay/redis_store.py:64-226 | a recorded cause is a step of the run that happened to this very poll, which has watched the channel ever since: a signal in its gap, a rewrite that put something back, an add that left before its signal, a deletion of the channel |
| `RedisLongPoll.MissedOnlyForCause` | services/mcp-relay/mcp_relay/redis_store.py:64-226 | a sleeper with something to read and no signal on its way has had such a step happen to it |
| `RedisLongPoll.NextSignalWakes` | services/mcp-relay/mcp_relay/redis_store.py:90-93 | a sleeper whose channel was not deleted under it is woken by the next signal on the channel, whatever it has missed |
| `RedisMisses.GapLosesWakeup` | services/mcp-relay/mcp_relay/redis_store.py:215-226 | a run in which a whole `add` in the gap is the only cause |
| `RedisMisses.PutBackLosesWakeup` | services/mcp-relay/mcp_relay/redis_store.py:185-204 | a run in which an overlapping deletion of another message is the only cause |
| `RedisMisses.RaiseLosesWakeup` | services/mcp-relay/mcp_relay/redis_store.py:87-93 | a run in which an add that leaves before its signal, by raising or because it belongs to another process, is the only cause |
| `RedisMisses.DeletionLosesWakeup` | services/mcp-relay/mcp_relay/redis_store.py:169-176 | a run in which the channel is deleted under the sleeper and made again |
| `RedisDeletion.RewriteLosesArrivals` | services/mcp-relay/mcp_relay/redis_store.py:185-204 | in every interleaving a rewrite removes nothing but the target if and only if every message that arrived since it read the list, and is in the list, was in what it read |
| `RedisDeletion.PushIsLost` | services/mcp-relay/mcp_relay/redis_store.py:87-204 | from any state a push between the read and the rewrite is lost while its `add` goes on to succeed |
| `OAuthProvider.TaskManagerOAuthProvider.ExchangeAuthorizationCode` | services/mcp-auth/mcp_auth/taskmanager_oauth_provider.py:731-802 | in memory: refuses unknown codes and nameless clients without any change, otherwise consumes the code and stores the pair |
| `OAuthProvider.TaskManagerOAuthProvider.LoadAccessToken` | services/mcp-auth/mcp_auth/taskmanager_oauth_provider.py:849-866 | answers and lazily deletes as specified |
| `OAuthProvider.TaskManagerOAuthProvider.LoadRefreshToken` | services/mcp-auth/mcp_auth/taskmanager_oauth_provider.py:932-954 | the same for refresh tokens, whose owner is checked before their expiry |
| `OAuthProvider.TaskManagerOAuthProvider.ExchangeRefreshToken` | services/mcp-auth/mcp_auth/taskmanager_oauth_provider.py:982-1062 | narrows the scopes or refuses, stores the new pair with the old resource, and removes the old token from both dictionaries |
| `OAuthProvider.TaskManagerOAuthProvider.HandleRefreshTokenExchange` | services/mcp-auth/mcp_auth/auth_server.py:409-436 | load then exchange, each by its own clock reading, with nothing in between |
| `OAuthProvider.TaskManagerOAuthProvider.StoreMcpTokens` | services/mcp-auth/mcp_auth/auth_server.py:482-500 | a device grant stores a pair without a resource |
| `OAuthProvider.TaskManagerOAuthProvider.RevokeToken` | services/mcp-auth/mcp_auth/taskmanager_oauth_provider.py:1071-1078 | removes the access token of that name and nothing else |
| `OAuthProvider.TaskManagerOAuthProvider.IntrospectToken` | services/mcp-auth/mcp_auth/taskmanager_oauth_provider.py:1101-1114 | reports what a load answers, or inactive |
| `OAuthAnswers.LoadAccessAnswers` | services/mcp-auth/mcp_auth/taskmanager_oauth_provider.py:849-866 | an access token loads exactly while it is stored and, unless its expiry is zero, not past it; one that does not load is stored no longer |
| `OAuthAnswers.LoadRefreshAnswers` | services/mcp-auth/mcp_auth/taskmanager_oauth_provider.py:932-954 | so does a refresh token for its owner; anybody else's load changes nothing |
| `OAuthAnswers.LoadsChangeNoAnswer` | services/mcp-auth/mcp_auth/taskmanager_oauth_provider.py:849-954 | no load changes what any later load of any token answers |
| `OAuthAnswers.CodeExchangeAnswers` | services/mcp-auth/mcp_auth/taskmanager_oauth_provider.py:731-802 | an exchange succeeds if and only if the code is stored and the client has an id; the two tokens it sends then load as what they are named, with the code's scopes and resource, for that client, up to their expiry and not after it, and the code is gone |
| `OAuthAnswers.DeviceGrantAnswers` | services/mcp-auth/mcp_auth/auth_server.py:482-500 | a device grant's pair loads likewise, bound to no resource |
| `OAuthAnswers.ExchangeVerdict` | services/mcp-auth/mcp_auth/taskmanager_oauth_provider.py:982-993 | the exchange itself needs a client with an id and then scopes that the token covers; if either is missing it says which and changes nothing |
| `OAuthAnswers.RefreshAnswers` | services/mcp-auth/mcp_auth/auth_server.py:409-436 | a refresh succeeds if and only if the token loads for the client and covers what is asked for; the tokens sent load with exactly those scopes, or all, and the old resource; the old token never loads again |
| `OAuthAnswers.RevokeAnswers` | services/mcp-auth/mcp_auth/taskmanager_oauth_provider.py:1071-1078 | revoking stops that access token and changes no other load |
| `OAuthAnswers.IntrospectAnswers` | services/mcp-auth/mcp_auth/taskmanager_oauth_provider.py:1101-1114 | a token is active exactly while it is stored as an access token and not past its expiry, and is reported as stored |
| `OAuthAnswers.NeverActive` | services/mcp-auth/mcp_auth/taskmanager_oauth_provider.py:1101-1104 | in every reachable state introspection calls unknown, revoked, expired and refresh tokens, rotated ones too, inactive |
| `OAuthLineage.AlwaysSound` | services/mcp-auth/mcp_auth/taskmanager_oauth_provider.py:714-1078 | after every run each stored token is what its birth record says, and each birth stays within its grant |
| `OAuthLineage.Attenuation` | services/mcp-auth/mcp_auth/taskmanager_oauth_provider.py:985-1045 | any access token that loads has its grant's client and resource and no scope outside the grant, however many refreshes lie between, and introspection says the same |
| `OAuthLineage.ScopesOnlyShrink` | services/mcp-auth/mcp_auth/taskmanager_oauth_provider.py:988-996 | from a token to the ones refreshed from it, scopes only shrink and client, resource and grant stay |
| `OAuthLineage.Rotation` | services/mcp-auth/mcp_auth/taskmanager_oauth_provider.py:1030-1051 | in every reachable state a grant has at most one live refresh token, a rotated one never loads, and the two refresh dictionaries have the same keys |
| `OAuthLineage.RotatedStays` | services/mcp-auth/mcp_auth/taskmanager_oauth_provider.py:1046-1050 | rotated once, rotated for the rest of the run |
| `OAuthLineage.RefreshRotates` | services/mcp-auth/mcp_auth/taskmanager_oauth_provider.py:1039-1050 | a successful refresh rotates the token it used and makes the new one live |
| `OAuthLineage.RefreshedPairLoads` | services/mcp-auth/mcp_auth/taskmanager_oauth_provider.py:999-1045 | the new pair loads up to its expiry and not after it, the refresh token for its own client only |
| `OAuthLineage.RejectedScopesChangeNothing` | services/mcp-auth/mcp_auth/taskmanager_oauth_provider.py:988-993 | a refresh with a live token fails if and only if it asks for more, and then changes nothing |
| `OAuthLineage.RevokedNeverLoads` | services/mcp-auth/mcp_auth/taskmanager_oauth_provider.py:1064-1078 | a revoked access token never loads again, whatever happens later in the run |
| `OAuthLineage.RevokeSparesRefresh` | services/mcp-auth/mcp_auth/taskmanager_oauth_provider.py:1064-1078 | revoking a refresh token changes neither its loads nor what a refresh with it does |
| `OAuthRaces.AlwaysSound` | services/mcp-auth/mcp_auth/taskmanager_oauth_provider.py:461-802 | in every interleaving states and codes balance: each stored one is waiting, was overwritten, or was used once |
| `OAuthRaces.RedirectsWithinAuthorizes` | services/mcp-auth/mcp_auth/taskmanager_oauth_provider.py:474-588 | the redirects for a state are its authorize calls less the overwritten and the waiting one |
| `OAuthRaces.OneGrantPerCode` | services/mcp-auth/mcp_auth/taskmanager_oauth_provider.py:731-802 | at most one exchange of a code returns tokens, and it has exactly if the code was made and is gone |
| `OAuthRaces.AnswersMatchRequests` | services/mcp-auth/mcp_auth/taskmanager_oauth_provider.py:527-588 | a redirect and its code carry the parameters of one authorize call for its state |
| `OAuthRaces.UsesItsOwnEntry` | services/mcp-auth/mcp_auth/taskmanager_oauth_provider.py:527-582 | in every interleaving the entry a callback deletes is the one it answers with, if and only if the last authorize call for its state between its read and its deletion, if any, brought the same parameters |
| `OAuthRaces.UndisturbedUsesItsOwn` | services/mcp-auth/mcp_auth/taskmanager_oauth_provider.py:527-582 | so it is whenever no authorize call for the state brought other parameters meanwhile |
| `OAuthExchanges.PairsBalance` | services/mcp-auth/mcp_auth/taskmanager_oauth_provider.py:755-802 | in every interleaving each stored pair was sent, lost its code, broke off or is still counting, and each lone access token broke off or awaits its refresh token |
| `OAuthExchanges.UnsentExactly` | services/mcp-auth/mcp_auth/taskmanager_oauth_provider.py:755-802 | what an ended exchange stored is unsent if and only if something it awaited raised after its first store or another exchange had used the code up |
| `OAuthExchanges.BrokenExactly` | services/mcp-auth/mcp_auth/taskmanager_oauth_provider.py:755-775 | breaking off is a step of the run: the exchange was suspended past its first store, and what it awaited raised |
| `OAuthExchanges.InMemorySendsEveryPair` | services/mcp-auth/mcp_auth/taskmanager_oauth_provider.py:776-802 | without a database every token stored is sent to its caller |
| `OAuthExchanges.OneAtATimeLosesNothing` | services/mcp-auth/mcp_auth/taskmanager_oauth_provider.py:755-802 | with a database and no overlapping exchanges of one code, what an ended exchange stored is sent if and only if it never broke off |
| `OAuthExchanges.StrandedPairs` | services/mcp-auth/mcp_auth/taskmanager_oauth_provider.py:755-791 | a whole pair is left behind only with a database, and only by an overlap or a break-off |
| `OAuthExchanges.OverlapLoses` | services/mcp-auth/mcp_auth/taskmanager_oauth_provider.py:755-791 | from any state, of two overlapping exchanges of a live code both store a pair and the later one fails |
| `OAuthExchanges.RaisedCountStrandsPair` | services/mcp-auth/mcp_auth/taskmanager_oauth_provider.py:771-791 | from any state, an exchange whose token count raises leaves its pair behind and the code live |
| `OAuthRaces.StaleCallbackTakesNewerState` | services/mcp-auth/mcp_auth/taskmanager_oauth_provider.py:527-588 | a callback overlapping a second authorize answers with the first one's parameters and uses up the second |
| `RefreshRaces.ScopesHoldResourcesMayNot` | services/mcp-auth/mcp_auth/taskmanager_oauth_provider.py:985-1028 | with a database and any interleaving the scopes of both kinds of token stay within the grant, and the resource is the grant's exactly if it was never looked up for a token already gone, or the grant has none |
| `RefreshRaces.LoneRefresh` | services/mcp-auth/mcp_auth/taskmanager_oauth_provider.py:985-1028 | a whole refresh on its own, from any state: it fails if and only if it asks for too much, and otherwise replaces the token by one with exactly the scopes asked for, its grant and its resource |
| `RefreshRaces.GrantThenRefresh` | services/mcp-auth/mcp_auth/taskmanager_oauth_provider.py:755-1028 | a new grant's refresh token gives way to one with all of the grant, or with what is asked for of it |
| `RefreshRaces.ResourcesInTurn` | services/mcp-auth/mcp_auth/taskmanager_oauth_provider.py:985-1028 | if refreshes of each token take turns and no token disappears between the two loads of a refresh, every token of either kind has its grant's resource, whatever breaks off |
| `RefreshRaces.RotationInTurn` | services/mcp-auth/mcp_auth/taskmanager_oauth_provider.py:1010-1029 | if refreshes of each token take turns and none breaks off between storing the new token and deleting the old, two live refresh tokens of a grant include one about to be deleted |
| `RefreshRaces.BreakOffForks` | services/mcp-auth/mcp_auth/taskmanager_oauth_provider.py:1015-1029 | from any state a refresh whose deletion of the old token raises leaves both tokens live |
| `RefreshRaces.OverlapForks` | services/mcp-auth/mcp_auth/auth_server.py:409-420 | from any state overlapping refreshes leave two live tokens, the later one, and its access token, without a resource |
| `RefreshRaces.ExpiryUnbinds` | services/mcp-auth/mcp_auth/taskmanager_oauth_provider.py:868-881 | so does an expiry between the two loads of a single refresh |
| `SlidingWindow.SlidingWindowRateLimiter.IsAllowed` | packages/mcp-auth-framework/mcp_auth_framework/rate_limiting.py:25-44 | the pruned list decides exactly as counting every admission in the window would, for every client |
| `SlidingWindow.SlidingWindowRateLimiter.GetRetryAfter` | packages/mcp-auth-framework/mcp_auth_framework/rate_limiting.py:46-59 | waiting that long is enough if nothing else is admitted, and while refused it is at most a second too long |
| `SlidingWindow.SameWindow` | packages/mcp-auth-framework/mcp_auth_framework/rate_limiting.py:36-38 | pruning never removes what a later window would count |
| `SlidingWindow.NoBurst` | packages/mcp-auth-framework/mcp_auth_framework/rate_limiting.py:40-44 | no interval of a window's length holds more admissions than the limit |
| `SlidingWindow.RetryIsRight` | packages/mcp-auth-framework/mcp_auth_framework/rate_limiting.py:55-59 | the wait computed from the oldest entry is sound and tight |
| `DbRateLimit.RateLimiter.FilterAttempts` | services/backend/app/core/rate_limit.py:46-49 | the loop keeps exactly the attempts inside the window, in order |
| `DbRateLimit.RateLimiter.Check` | services/backend/app/core/rate_limit.py:68-86 | raises exactly if the unexpired row has enough attempts in the window, and with the window in whole seconds |
| `DbRateLimit.LimitedExactly` | services/backend/app/core/rate_limit.py:68-86 | it raises if and only if the row is there, its expiry is still to come, and at least so many of its attempts are less than a window old |
| `DbRateLimit.RateLimiter.Record` | services/backend/app/core/rate_limit.py:104-146 | appends to the row, even an expired one, and moves its expiry past the attempt's window |
| `DbRateLimit.RateLimiter.Reset` | services/backend/app/core/rate_limit.py:164-172 | removes this key's row only |
| `DbRateLimit.RateLimiter.Cleanup` | services/backend/app/core/rate_limit.py:189-198 | removes the expired rows that match the limiter's pattern |
| `DbRateLimit.CheckIsExact` | services/backend/app/core/rate_limit.py:38-198 | as long as no upsert pulls the row's expiry back before an earlier attempt has left the window, `check` raises if and only if enough records since the last reset are in the window, whatever was upserted, expired or cleaned up by any limiter |
| `DbRateLimit.NeverTooStrict` | services/backend/app/core/rate_limit.py:38-198 | with statements in any order `check` raises only if enough records since the last reset are in the window |
| `DbRateLimit.ClockOrderIsOrderly` | services/backend/app/core/rate_limit.py:104-146 | statements that take effect in clock order pull no expiry back |
| `DbRateLimit.DbKeyInjective` | services/backend/app/core/rate_limit.py:33-35 | names without a colon keep limiters' rows apart |
| `DbRateLimit.ColonCollides` | services/backend/app/core/rate_limit.py:33-35 | names with one do not |
| `DbRateLimit.RowIsExact` | services/backend/app/core/rate_limit.py:73-84 | a row answers for its attempts at all times if and only if it outlives each attempt's window |
| `DbRateLimit.LateWriterHides` | services/backend/app/core/rate_limit.py:117-144 | writers out of clock order break that |
| `DbRateLimit.PatternReaches` | services/backend/app/core/rate_limit.py:195 | the pattern matches every key of the limiter, and those of names that differ at its underscores |
| `DbRateLimit.CleanupExactly` | services/backend/app/core/rate_limit.py:189-198 | in every run a cleanup removes exactly the expired rows whose key is the limiter's, up to what an underscore in its name stands for |
| `DbRateLimit.CleanupComplete` | services/backend/app/core/rate_limit.py:189-198 | a cleanup leaves no expired row of its limiter and touches no unexpired one |
| `TokenStore.MemoryTokenStorage.StoreToken` | packages/mcp-auth-framework/mcp_auth_framework/storage/memory.py:37-65 | stores, or refuses when not initialized |
| `TokenStore.MemoryTokenStorage.LoadToken` | packages/mcp-auth-framework/mcp_auth_framework/storage/memory.py:67-91 | answers what is visible and deletes what it finds expired |
| `TokenStore.MemoryTokenStorage.DeleteToken` | packages/mcp-auth-framework/mcp_auth_framework/storage/memory.py:93-104 | removes that token only |
| `TokenStore.MemoryTokenStorage.CleanupExpiredTokens` | packages/mcp-auth-framework/mcp_auth_framework/storage/memory.py:106-126 | the deletion loop removes exactly what is expired, and counts it |
| `TokenStore.PostgresTokenStorage.StoreToken` | packages/mcp-auth-framework/mcp_auth_framework/storage/postgres.py:66-88 | the upsert, with the scopes as they will be read back, or a refusal without a pool |
| `TokenStore.PostgresTokenStorage.LoadToken` | packages/mcp-auth-framework/mcp_auth_framework/storage/postgres.py:90-132 | answers what is visible and deletes what it finds expired, or refuses without a pool |
| `TokenStore.PostgresTokenStorage.CleanupExpiredTokens` | packages/mcp-auth-framework/mcp_auth_framework/storage/postgres.py:150-169 | removes exactly what is expired, and counts it, or refuses without a pool |
| `TokenStore.Transparent` | packages/mcp-auth-framework/mcp_auth_framework/storage/memory.py:67-126 | lazy deletion and cleanups at any moments never change what a later load answers but for `created_at` |
| `TokenStore.SweepExactly` | packages/mcp-auth-framework/mcp_auth_framework/storage/memory.py:106-126 | after any calls a cleanup leaves exactly the tokens stored, not deleted and not past by then, in either store |
| `TokenStore.FetchExactly` | packages/mcp-auth-framework/mcp_auth_framework/storage/memory.py:67-91 | a load answers exactly for those, keeps what it answers with, drops what it finds expired and touches no other token |
| `TokenStore.CreatedByFirstStanding` | packages/mcp-auth-framework/mcp_auth_framework/storage/postgres.py:72-88 | the PostgreSQL store has a row exactly if some call stored it and none has taken it away since, and its `created_at` is that of the first such call |
| `TokenStore.CreatedAlike` | packages/mcp-auth-framework/mcp_auth_framework/storage/memory.py:58-65 | both stores report the same second of creation if and only if all calls that stored the token while its row was there fell into one second |
| `TokenStore.SweepShows` | packages/mcp-auth-framework/mcp_auth_framework/storage/postgres.py:72-88 | for a token stored twice, `created_at` is the second moment if the expired row was swept in between and the first one if not |
| `TokenStore.LateDeletion` | packages/mcp-auth-framework/mcp_auth_framework/storage/postgres.py:103-123 | deleting an expired row after other calls have taken effect ends as deleting it at once would, if and only if the token was not stored again meanwhile and is still there |
| `TokenStore.StoresAgree` | packages/mcp-auth-framework/mcp_auth_framework/storage/postgres.py:117-123 | after the same calls the two stores answer alike if and only if the clock is not strictly inside the second that starts at the token's expiry and, up to then, each of its scopes is non-empty and free of whitespace and it was not stored again in another second while its row was there |
| `TokenStore.ScopesRoundTrip` | packages/mcp-auth-framework/mcp_auth_framework/storage/postgres.py:70-128 | splitting the joined column gives the scopes back if and only if each is non-empty and free of whitespace |
| `TokenStore.SplitLosesOnlySpaces` | packages/mcp-auth-framework/mcp_auth_framework/storage/postgres.py:128 | for any column text, splitting loses white space and nothing else |
| `Like.EscapesEachOnce` | services/backend/app/api/news.py:30-32 | the three replaces escape each special character exactly once |
| `Like.OrderMatters` | services/backend/app/api/unified_search.py:38-40 | replacing the backslash last would not |
| `Like.PatternFindsSubstring` | services/backend/app/api/news.py:543-548 | the pattern accepts a text if and only if it contains the query |
| `Like.SearchFindsSubstring` | services/backend/app/api/unified_search.py:89-99 | the same up to any case folding that leaves the special characters alone |
| `ReplayCache.JWTClientAuthenticator.CheckAndRecordJti` | services/mcp-auth/mcp_auth/jwt_auth.py:122-140 | accepts exactly the jtis that the cleaned cache does not hold, and records them |
| `ReplayCache.JWTClientAuthenticator.CleanupExpiredJtis` | services/mcp-auth/mcp_auth/jwt_auth.py:100-120 | a due cleanup drops the expired entries and no other; one too early does nothing |
| `ReplayCache.CheckAnswers` | services/mcp-auth/mcp_auth/jwt_auth.py:136-140 | a check gives one answer: accepted if the cache does not hold the jti, refused if it does |
| `ReplayCache.NoReplay` | services/mcp-auth/mcp_auth/jwt_auth.py:100-140 | with any threads and any cleanup schedule a jti accepted again was accepted after its first expiry |
| `ReplayCache.RefusedOnlyIfSeen` | services/mcp-auth/mcp_auth/jwt_auth.py:136-140 | and only jtis accepted before are refused |
| `ReplayCache.CleanupsApart` | services/mcp-auth/mcp_auth/jwt_auth.py:102-120 | cleanups that run are at least a minute apart by the times they go by |
| `ReplayCache.DueIsCleaned` | services/mcp-auth/mcp_auth/jwt_auth.py:102-106 | a call cleans up first if and only if the last cleanup is a minute or more ago |
| `ReplayCache.LastIsLastSweep` | services/mcp-auth/mcp_auth/jwt_auth.py:120 | the time the cache goes by is that of the latest cleanup of the run |
| `ReplayCache.CleanupLeavesNoExpired` | services/mcp-auth/mcp_auth/jwt_auth.py:113-120 | in every run a due cleanup leaves nothing that had expired at the time it goes by, and every acceptance that has not expired |
| `ReplayCache.AcceptedAgainExactly` | services/mcp-auth/mcp_auth/jwt_auth.py:100-140 | with any threads, a jti accepted once is accepted at its next check if and only if a cleanup in between went by a time past its expiry |
| `ReplayCache.LeewayReplays` | services/mcp-auth/mcp_auth/jwt_auth.py:246-262 | whenever an assertion is used again after its expiry but within the leeway, with a cleanup due, a run accepts it twice although it decodes both times |
| `RegistrationCodes.ValidateAndUse` | services/backend/app/api/registration_codes.py:178-200 | the verdict of the checks in their order, and one use more exactly if accepted |
| `RegistrationCodes.VerdictExactly` | services/backend/app/api/registration_codes.py:185-197 | a code is accepted if and only if it is there, active, not used up and not past its expiry; used up is said of active codes only, expired ones too, and every other refusal says invalid |
| `RegistrationCodes.LetInExactly` | services/backend/app/api/registration_codes.py:178-200 | a transaction is let in by its own select of an unlocked row that meets all four, and by nothing else, and means to write one use more |
| `RegistrationCodes.RefusedChangesNothing` | services/backend/app/api/registration_codes.py:185-197 | a refused one is over and has changed nothing |
| `RegistrationCodes.RowsStem` | services/backend/app/api/registration_codes.py:83-157 | after every run a code is there exactly if it was created and not deleted since; its maximum and expiry are those given then, and it is active unless deactivated since |
| `RegistrationCodes.DeactivatedIsRetired` | services/backend/app/api/registration_codes.py:141-157 | after every run a code once deactivated has not been used since, unless one of its name was created anew |
| `RegistrationCodes.UsesConserved` | services/backend/app/api/registration_codes.py:172-200 | over all interleavings with commits and rollbacks a code's uses equal the registrations committed through it and never exceed its maximum |
| `RegistrationCodes.UnlockedLosesUse` | services/backend/app/api/registration_codes.py:179-181 | without the row lock a run exceeds the maximum while the count does not show it |

## Left out

- Routing, middleware, HTTP handlers, templates, logging, the debug pages and the frontend.
- Authentication of clients: signatures, CIMD documents, password hashing, and the SDK's checks of PKCE, client and code expiry.
- `validate_channel_name` and `validate_message_id`: checks of the input's shape in front of the stores.
- The text forms of messages, timestamps and JSON rows: encoding and decoding are an inverse pair, and a timestamp is a point in time.
- The order in which `list_channels` lists, and in which `list(set(...))` puts requested scopes: any order is allowed for.
- The inside of `asyncio.wait_for`: a waiter may give up at any step.
- RedisRelay.RedisMessageStore.Add: the class is proved for calls that run one after the other; what its awaits allow is in `RedisTasks`, `RedisLongPoll`, `RedisDeletion` and `RedisChannelCap`.
- RedisRelay.RedisMessageStore.DeleteMessage: likewise; the await between its read and its rewrite is in `RedisDeletion`.
- OAuthLineage.Attenuation: the in-memory branch; what holds of it with a database is `RefreshRaces.ScopesHoldResourcesMayNot`.
- TokenStore.MemoryTokenStorage.LoadToken: access and refresh tokens are kept by the same code in two tables, and one is modelled.
- TokenStore.PostgresTokenStorage.LoadToken: the class is proved for calls that run one after the other; what its await allows is in `TokenStore.LateDeletion`. One of the two tables is modelled.
- Alembic migrations, CRUD routes, statistics and seed scripts.

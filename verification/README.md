# A verified model of trojan-go's stateful core

trojan-go is a proxy written in Go. This project models the parts of it that hold state,
interleave goroutines or put bytes on a wire, and proves what those parts are for. Each
concurrent component is a state machine whose steps are the atomic operations of the source
(an atomic add, one critical section, one channel operation); a run is any sequence of steps,
and an action that is not possible in a state leaves it as it is. Main results hold for every
run, every input or every reachable state. Where the source works in place there is a class or
a method with loops, whose contract ties it to the machine or to a function on values.

| file | component |
|---|---|
| `Numbers.dfy`, `Seqs.dfy`, `Traffic.dfy`, `Deadlines.dfy` | integer limits, concatenation, the two traffic directions, deadline arguments |
| `Cutoff.dfy` | quota cutoff of a user under concurrent traffic |
| `Accounting.dfy` | IP and connection limits from handshake to close |
| `TrafficUpdate.dfy` | the generated batch UPDATE and its meaning |
| `UserCache.dfy` | the user table mirrored in memory |
| `Ledger.dfy` | where every counted byte is: collector, additions, removals, batches as interleaved steps |
| `LedgerInvariant.dfy` | what every step of the ledger keeps |
| `Conservation.dfy` | what the ledger promises over every run |
| `MysqlAuthenticator.dfy` | the updater object: collect, flush, refresh, and the quota from end to end |
| `Geodata.dfy` | the streaming scanner over geoip and geosite files, and the full decode it stands for |
| `SocksDeadline.dfy` | deadline channel of a virtual socks packet connection |
| `SocksConn.dfy` | reads and writes of that connection, its queues and its two deadlines |
| `RouterDeadline.dfy` | deadline, packet channel and read loop of the router's packet connection |
| `StickyConn.dfy` | the write-coalescing connection under a mux session |
| `MuxPool.dfy` | the pool of mux sessions |
| `Bytes.dfy`, `Address.dfy` | bytes, 16-bit numbers, addresses and metadata on the wire |
| `RewindReader.dfy` | the rewinding reader |
| `TrojanHeader.dfy` | the request header, its parsing, and the race between flush and first write |
| `TrojanServer.dfy` | authentication through the rewinding reader and the fallback |
| `PacketFraming.dfy` | UDP packets on a stream |
| `Router.dfy` | masked network membership and the policy order |

`dafny verify dfyconfig.toml` checks all of it.

## Where the code does less than one would expect

Each of these is stated exactly: the condition on the input, the state or the schedule under which
it happens is proved in both directions.

- An IP limit that changes sign while connections are open, and no other change of it, lets the
  accounts go wrong later: `Accounting.LimitChangeExactly`. A limit raised from none leaves the
  connection count too high for as long as a limit is set (`Accounting.RaisedLimitLeaks`); one lifted
  and set again leaves an address counted that no connection uses (`Accounting.LoweredLimitLeaks`).
- Removing a user loses bytes: those counted since the last collect are emptied, and those that
  its open connections still count afterwards stay on an object that is never collected again
  (`Conservation.LateTraffic`). `Conservation.CollectableExactly` says exactly which bytes can
  still reach a row.
- Two overlapping calls that add the same user may both store an object. The second replaces the
  first and loses the bytes counted on it (`Conservation.ReplacementLoses`, with a run in
  `Conservation.OverlapLoses`).
- A batch that takes effect and still reports failure is counted twice. The documentation says
  so (docs/content/en/basic/full-config.md:393); `Conservation.AtLeastOnce` gives the
  exact surplus and `Conservation.SurplusExactly` says which batches cause it.
- A geodata record with two code fields, or an empty one, misleads the scanner:
  `Geodata.EmittedExactly`, with a file in `Geodata.TwoCodesMissed`. One that starts with another
  field makes it give up, and the caches fall back to the full decode (`Geodata.LookupAgrees`).
- A record length of 2^63 or more can take the geodata scanner back to where it was, and one
  whose end lies beyond 2^63 - 1 leaves it inside the record: `Geodata.CursorAdvances`, with a
  file on which it never stops in `Geodata.ScanLoops`.
- A domain name of 254 bytes or more does not survive the wire, a port outside 16 bits does
  not, an address without an IP of its type does not, and a name that is an IP literal arrives as
  an address: `Address.RoundTripExactly`. On a received length byte of 254 or 255 the reader
  panics: `Address.PanicsExactly`.
- An address without bytes matches every network whose address or prefix makes no sense:
  `Router.HitsNothing`.
- A UDP payload of more than 65535 bytes puts the stream out of step: `PacketFraming.AlignedExactly`.
- When the delayed header flush fails, a later write succeeds without a header
  (`TrojanHeader.HeaderLost`); `TrojanHeader.HeaderFirstExactly` says when the header is there.
- Rewinding after bytes were read with buffering stopped loses them, and so does starting to
  buffer over bytes that were rewound and not read again: `RewindReader.RewindExactly`,
  `RewindReader.SetBufferSizeExactly`.
- Within a mux stream a frame can overtake a held FIN: `StickyConn.OrderExactly` says exactly
  when, and streams that end with their FIN never do (`StickyConn.PrefixOnWire`). After 128 SYN or
  FIN headers without a payload the next one blocks, and only a payload lets it go on
  (`StickyConn.BlocksExactly`, `StickyConn.StaysBlocked`).

## Model

| member | source | states |
|---|---|---|
| `Cutoff.NoMissedCutoff` | statistic/memory/memory.go:223-264 | for every schedule of traffic calls, resets and removals that counts fewer than 2^64 bytes: when no call is in flight and the counters have reached a positive quota, the cutoff has fired; it fires at most once, always for a removed user, and never early unless the user was removed |
| `Cutoff.CutoffExact` | statistic/memory/memory.go:223-264 | with traffic alone, at rest the user is cut off if and only if the bytes counted have reached the quota |
| `Cutoff.NothingForgotten` | statistic/memory/memory.go:223-253 | without resets the two counters hold exactly the bytes handed to the calls, whatever the interleaving |
| `Cutoff.InvOverRuns` | statistic/memory/memory.go:62-71 | the invariant behind the above over every run: a counter at the quota means the cutoff fired or some call in flight is bound to fire it |
| `Cutoff.ThreeSteps` | statistic/memory/memory.go:223-264 | one uninterrupted call adds its bytes modulo 2^64, fires exactly if the sum of both counters reaches the quota, and leaves nothing in flight |
| `Cutoff.User.AddSentTraffic` | statistic/memory/memory.go:223-230 | the schedule add, load, check of the sent direction; uninterrupted, the counter grows modulo 2^64 and the cutoff is closed exactly if it was or the sum reaches a positive quota |
| `Cutoff.User.AddRecvTraffic` | statistic/memory/memory.go:232-239 | the same for the received direction |
| `Cutoff.User.CheckQuota` | statistic/memory/memory.go:255-264 | fires if and only if the quota is positive and reached |
| `Cutoff.User.FireCutoffOnce` | statistic/memory/memory.go:62-71 | the channel closes and the event is counted for the first caller only |
| `Cutoff.User.ResetTraffic` | statistic/memory/memory.go:308-314 | returns what the counters held, leaves them at zero and changes nothing else |
| `Cutoff.User.Shut` | statistic/memory/memory.go:73-78 | closing a user discards its counters and fires its cutoff |
| `Accounting.UserLimits.AddIP` | statistic/memory/memory.go:80-105 | admits exactly if fewer connections than a positive cap are counted and, under a positive IP limit, the address is known or fewer addresses than the limit are; the new counts field by field, and no change otherwise |
| `Accounting.UserLimits.DelIP` | statistic/memory/memory.go:107-130 | gives one connection back, forgetting the address with its last connection; refused, without any change, exactly for an unknown address under a limit |
| `Accounting.AccountsExact` | tunnel/trojan/server.go:72-89 | over every interleaving of handshakes, failures, queue-full drops, watcher closes, repeated closes and limit changes that do not change sign under open connections: connNum is the number of authenticated open connections and respects a positive cap; under a positive IP limit the table counts them per address and ipNum is its size; the gauge counts all of them |
| `Accounting.TableSums` | statistic/memory/memory.go:94-104 | the counts of a table that is exact for the held connections add up to their number |
| `Accounting.AdmissionRespectsLimit` | statistic/memory/memory.go:99-104 | no admission takes the number of addresses above a positive limit or the connections above a positive cap |
| `Accounting.AdmitsExactly` | statistic/memory/memory.go:80-105 | on an exact account a handshake is admitted if and only if the connections held leave a place under a positive cap and, under a positive IP limit, the address is among those held or they are fewer than the limit |
| `Accounting.AdmissionExactly` | tunnel/trojan/server.go:168-186 | over every calm run exactly such a connection is admitted and held from then on; a refused one changes nothing, and other users keep what they hold |
| `Accounting.LimitChangeExactly` | statistic/memory/memory.go:138-142 | from exact accounts, the sign of the limit stays or the user holds no connection if and only if no continuation without such a change ever ends with a wrong connNum, or with a wrong table under a positive limit |
| `Accounting.RaisedLimitLeaks` | statistic/memory/memory.go:107-120 | from any exact accounts, a limit raised from none while a connection is held: once it closes, connNum exceeds the connections held over every further run under a limit |
| `Accounting.LoweredLimitLeaks` | statistic/memory/memory.go:110-129 | a limit lifted while a connection is held and set again after it closed: its address stays counted once too often |
| `Accounting.ExcessForEver` | statistic/memory/memory.go:107-130 | under a positive limit connections counted in excess are never worked off |
| `Accounting.InvOverRuns` | tunnel/trojan/server.go:168-186 | accounts and gauge stay exact over every run whose limit changes are calm |
| `TrafficUpdate.BuildTrafficUpdate` | statistic/mysql/mysql.go:86-114 | writes, with its loops, exactly the specified statement and argument list: one user by the short form, n users by two CASE expressions and an IN list with 5n arguments |
| `TrafficUpdate.WriteBranches` | statistic/mysql/mysql.go:95-103 | one CASE branch and two arguments per entry, in order |
| `TrafficUpdate.WriteHashes` | statistic/mysql/mysql.go:105-111 | one placeholder and one argument per entry |
| `TrafficUpdate.StatementBinds` | statistic/mysql/mysql.go:86-114 | reading the statement back with its arguments bound in order gives each placeholder the argument meant for it |
| `TrafficUpdate.BatchCredits` | statistic/mysql/mysql.go:86-114 | executing the batch on any table credits every row with what the batch owes to its user: upload with received, download with sent |
| `TrafficUpdate.SinglesCredit` | statistic/mysql/mysql.go:87-90 | so does a sequence of single-user statements |
| `TrafficUpdate.BatchEqualsSingles` | statistic/mysql/mysql.go:86-114 | for every batch of distinct users and every table the batch statement leaves the table that the single statements leave, in any order |
| `UserCache.RefreshAgrees` | statistic/mysql/mysql.go:199-252 | whatever was cached before: after a refresh that read every row and swept the rest, the cached users are exactly the hashes whose last row is entitled to service, with the quota, the IP limit and the positive speed limits of that row field by field, and survivors keep their counters and IP table |
| `UserCache.RowsEffect` | statistic/mysql/mysql.go:212-238 | for each hash, the effect of all rows is the effect of its last row |
| `UserCache.RowEffect` | statistic/mysql/mysql.go:222-237 | one row admits or removes the user it names and leaves everybody else alone |
| `LedgerInvariant.InvOverRuns` | statistic/mysql/mysql.go:55-162 | every step of collector, additions, removals, batches and traffic keeps the balance of stored, held, pending, flushed and dropped bytes, and the growth of the table |
| `Ledger.CollectOne` | statistic/mysql/mysql.go:59-70 | the collector's steps on one listed user, uninterrupted: counters emptied, their bytes added to the buffer if there are any |
| `Conservation.Conserved` | statistic/mysql/mysql.go:55-162 | over every run with any batch outcomes, per user and direction: reachable live + in hand + pending + flushed + lost (dropped or orphaned) = counted + surplus, the surplus is not negative, and every row has grown by exactly what was flushed for its user |
| `Conservation.AtLeastOnce` | statistic/mysql/mysql.go:136-157 | whatever the failures, live + in hand + pending + growth + lost is at least what was counted, and the first four alone are if and only if the loss does not exceed the surplus of ambiguous failures |
| `Conservation.ExactlyOnce` | statistic/mysql/mysql.go:124-162 | without removals, ambiguous failures and additions that replace a registered object, live + in hand + pending + growth of the row = all bytes counted |
| `Conservation.NothingLost` | statistic/memory/memory.go:378-415 | without a removal, and if no addition replaces a registered object, nothing is lost |
| `Conservation.ReplacementLoses` | statistic/memory/memory.go:378-400 | an addition that replaces a registered object loses exactly the bytes on that object, unless the collector has it on its list or between its swaps |
| `Conservation.OverlapLoses` | statistic/memory/memory.go:378-400 | two overlapping additions of one user with n bytes counted in between lose those n bytes |
| `Conservation.NoSurplus` | statistic/mysql/mysql.go:144-153 | runs without ambiguous failures build up no surplus |
| `Conservation.SurplusExactly` | statistic/mysql/mysql.go:144-153 | over every run the surplus of a user grows if and only if some batch that took effect and reported failure named the user with bytes pending for it, and is unchanged otherwise |
| `Conservation.PositiveOverRuns` | statistic/mysql/mysql.go:55-162 | no counter, hand, buffer entry or surplus is ever negative |
| `Conservation.CollectableExactly` | statistic/memory/memory.go:409-429 | some continuation collects a counter if and only if its user is registered, on the collector's list, or between the collector's two swaps |
| `Conservation.ReachesTable` | statistic/mysql/mysql.go:55-162 | from every such counter there is a continuation that writes its bytes to the rows of its user |
| `Conservation.UnreachableForEver` | statistic/memory/memory.go:409-415 | a counter out of the collector's reach stays so over every run |
| `Conservation.LateTraffic` | statistic/memory/memory.go:223-239 | counting n bytes on a user out of the collector's reach raises what is lost by exactly n, and what can still reach the table by nothing |
| `Conservation.DropsSinceCollect` | statistic/memory/memory.go:73-78 | a removal drops exactly the bytes counted since the counter was last emptied |
| `Conservation.CounterSince` | statistic/memory/memory.go:223-239 | a counter that nobody empties holds what it held plus what is counted on it |
| `Conservation.LostForEver` | statistic/memory/memory.go:409-415 | the bytes lost for a user never become fewer over a run |
| `Conservation.SuccessNotResent` | statistic/mysql/mysql.go:154-156 | after a batch that reported success, over every later run no batch names any of its users until the collector merges new traffic of one |
| `MysqlAuthenticator.Authenticator.CollectPendingTraffic` | statistic/mysql/mysql.go:55-71 | a run of collector steps that empties every registered counter into the pending buffer |
| `MysqlAuthenticator.Authenticator.ListUsers` | statistic/memory/memory.go:422-429 | lists every registered user once |
| `MysqlAuthenticator.Authenticator.CollectUser` | statistic/mysql/mysql.go:59-70 | the three collector steps of one user |
| `MysqlAuthenticator.Authenticator.SortedPendingTraffic` | statistic/mysql/mysql.go:73-84 | lists the pending entries, each once, sorted by hash |
| `MysqlAuthenticator.Insert` | statistic/mysql/mysql.go:80-82 | keeps a list sorted and its entries |
| `MysqlAuthenticator.Authenticator.FlushPendingTraffic` | statistic/mysql/mysql.go:124-162 | a run of flush steps whose batches are the sorted buffer cut into pieces of the batch size (500 if it is not positive), up to the first failure; the buffer is empty if and only if all succeeded, what stays was there before, and every row has got exactly what its user's entry lost, unless the failure was ambiguous |
| `MysqlAuthenticator.SendBatches` | statistic/mysql/mysql.go:136-157 | the loop over the sorted buffer, whatever the batch size, with the same account of batches, buffer and rows |
| `MysqlAuthenticator.SendBatch` | statistic/mysql/mysql.go:141-156 | one statement, and its entries forgotten on success only; each row gets what is pending for its user if the statement took effect, upload the received bytes |
| `MysqlAuthenticator.DeleteAll` | statistic/mysql/mysql.go:154-156 | removes exactly the users of the batch |
| `MysqlAuthenticator.Authenticator.RefreshUsers` | statistic/mysql/mysql.go:199-252 | on success exactly the users whose last row leaves them quota are cached, with quota, IP limit and speed limits of that row, and survivors keep counters and IP table; a failed query changes nothing, a failing row stops before any sweep |
| `MysqlAuthenticator.MirrorRow` | statistic/mysql/mysql.go:223-237 | one row through AddUser and the setters, or DelUser, as steps of the ledger: the user it names is registered exactly if the row leaves it quota, with the limits of the row, and everybody else is as before |
| `MysqlAuthenticator.SweepUsers` | statistic/mysql/mysql.go:246-250 | removes exactly the registered users without a row |
| `MysqlAuthenticator.Authenticator.SyncTrafficAndUsers` | statistic/mysql/mysql.go:254-260 | one cycle is one run of the ledger, successful exactly if the flush emptied the buffer and the rows could be read; the rows have got what was pending and what the registered counters held; if the flush fails the set of users and their limits are unchanged; on success the users are those the table entitles, with its limits field by field, survivors keep their object and IP table, and the users are exactly those whose first row, plus every byte counted for them and not lost, is within the quota |
| `MysqlAuthenticator.Authenticator.AddTraffic` | statistic/memory/memory.go:223-239 | traffic between cycles is a step of the ledger and keeps the books balanced |
| `MysqlAuthenticator.AllFlushed` | statistic/mysql/mysql.go:254-260 | after a cycle all bytes counted for a user, with the surplus and without the lost ones, have been flushed to its rows |
| `MysqlAuthenticator.QuotaOf` | statistic/mysql/mysql.go:222-223 | so the entitlement by the rows as they are is the entitlement by the rows at first and the bytes used since |
| `MysqlAuthenticator.NoOverrun` | statistic/mysql/mysql.go:222-223 | if the sum fits into an int64 the test means that original download + upload + bytes used is below the quota, and with nothing lost that holds for all bytes counted |
| `Geodata.EmitBytes` | common/geodata/decode.go:29-100 | the six-state loop with its seeks returns, on every file on which the scan ends, what the record-by-record scan returns |
| `Geodata.TagRound` | common/geodata/decode.go:53-58 | a tag byte moves on to the length, any other byte is an invalid file |
| `Geodata.LengthRound` | common/geodata/decode.go:59-80 | a length is read byte by byte and complete at its first small byte |
| `Geodata.CodeRound` | common/geodata/decode.go:81-92 | a match seeks back to the body, a mismatch seeks over it |
| `Geodata.ScannerAgrees` | common/geodata/decode.go:29-100 | on every file that decodes field by field into records that are not empty and do not start with somebody else's code, and for every symmetric match, the scan returns exactly the body of the first record whose code matches, or not-found, as decoding everything and searching would; or it gives up, which it never does if every record starts with a code |
| `Geodata.LookupAgrees` | common/geodata/cache.go:42-78 | with the fallback of the caches to the full decode, the lookup on such files is always that search |
| `Geodata.EmittedExactly` | common/geodata/decode.go:81-98 | searched for by its own code, a record is emitted if and only if that code stands at the start of its body; an empty record borrows the bytes of the next one |
| `Geodata.FirstAndOnce` | common/geodata/decode.go:1-9 | a record whose code field comes first and occurs once meets the condition |
| `Geodata.TwoCodesMissed` | common/geodata/decode.go:81-92 | a file with one record of two code fields, on which the decoder finds the record by its last code and neither the scanner nor the lookup does |
| `Geodata.CursorAdvances` | common/geodata/decode.go:38-97 | a record that does not match leaves the cursor behind the record's start, even when its code claims more bytes than the record, if and only if the stated length is not one of those that wrap around to a step back; exactly at the stated end if that is below 2^63, inside the body if the seek there overflows |
| `Geodata.ScanStops` | common/geodata/decode.go:38-97 | if the lengths passed over are below 2^63 the scan ends, after at most one record per byte |
| `Geodata.ScanLoops` | common/geodata/decode.go:87-92 | on a 13-byte file with a length of 2^64 - 11 the scan never ends |
| `Geodata.ListDecodes` | common/geodata/decode.go:29-100 | every list of records, with further length-delimited and number fields behind the code, has a file that decodes to exactly it, so the agreement is not vacuous |
| `Geodata.ReadsComplete` | common/geodata/decode.go:59-69 | where a complete varint stands, reading a length consumes exactly it and gives its value, or rejects one over 64 bits |
| `Geodata.FitsExactly` | common/geodata/decode.go:65-69 | a length is rejected exactly if it has more than ten bytes or its value needs more than 64 bits |
| `Geodata.StopsFor` | common/geodata/decode.go:38-97 | for a record whose two lengths can be read: the bytes at which the scan stops with a result, a short read, not-found or a panic, each if and only if |
| `Geodata.StopsBefore` | common/geodata/decode.go:52-69 | for any other record: an invalid file exactly at a wrong tag, an invalid length exactly at one that does not fit, else not-found |
| `SocksDeadline.NoDoubleClose` | tunnel/socks/deadline.go:22-52 | no interleaving of set calls, timers and callbacks closes a channel twice |
| `SocksDeadline.ClosesOwnChannel` | tunnel/socks/deadline.go:43-45 | a callback about to close a channel holds the one its timer was armed for, which is current and open |
| `SocksDeadline.SupersededInert` | tunnel/socks/deadline.go:26-29 | a timer that is no longer current has finished or was stopped, and no step of it has any effect |
| `SocksDeadline.SetReturns` | tunnel/socks/deadline.go:31-51 | when set returns, the channel is closed if and only if the deadline has passed, and a future deadline has its own armed timer |
| `SocksDeadline.ClosedExactly` | tunnel/socks/deadline.go:22-52 | between set calls the channel is closed if and only if the deadline was past when set or its callback is done, never before the deadline |
| `SocksDeadline.PassedGetsThrough` | tunnel/socks/deadline.go:42-44 | once the deadline in force has passed, the current channel is closed or the callback of its timer can close it, and everybody who waits goes on |
| `SocksDeadline.QuietRun` | tunnel/socks/deadline.go:22-52 | until the next set call channel, timer and deadline stay, so the channel is open until that timer fires |
| `SocksDeadline.NoLostWakeup` | tunnel/socks/deadline.go:54-58 | every channel wait ever returned is current or closed |
| `SocksDeadline.ClosedForReason` | tunnel/socks/deadline.go:22-52 | every closed channel was closed for a deadline that has passed |
| `SocksDeadline.ReasonInForce` | tunnel/socks/deadline.go:39-51 | that deadline was in force when it was closed |
| `SocksDeadline.SetCompletes` | tunnel/socks/deadline.go:26-28 | the wait inside set never deadlocks: from every reachable state the pending callback and the call can finish |
| `SocksDeadline.InvOverRuns` | tunnel/socks/deadline.go:22-58 | the invariant of timer, channel and set call over every run |
| `SocksDeadline.PacketDeadline.Set` | tunnel/socks/deadline.go:22-52 | the method is a run of the machine, with the resulting channel and timer stated outright |
| `SocksDeadline.PacketDeadline.ClearTimer` | tunnel/socks/deadline.go:26-29 | stops the timer or waits for its callback |
| `SocksDeadline.PacketDeadline.Install` | tunnel/socks/deadline.go:31-51 | renews, arms or closes |
| `SocksDeadline.PacketDeadline.CallbackStep` | tunnel/socks/deadline.go:43-45 | one step of a timer callback |
| `SocksDeadline.PacketDeadline.WaitChannel` | tunnel/socks/deadline.go:54-58 | hands out the current channel |
| `SocksDeadline.AllWaitersWake` | tunnel/socks/conn.go:119-136 | once the current channel is closed, every channel ever handed out is, so every blocked read or write can go on |
| `SocksConn.PacketConn.SetDeadline` | tunnel/socks/conn.go:71-78 | refused after Close; otherwise both deadlines are in force and time out exactly if the time has passed |
| `SocksConn.PacketConn.Close` | tunnel/socks/conn.go:60-65 | afterwards neither deadline has a timer and both channels are open |
| `SocksConn.PerformCall` | tunnel/socks/conn.go:96-136 | a read or write, with any steps of other goroutines between its own, is a run of the machine and replies what that run records, cut to the buffer; it stays blocked only on the deadline's mutex or when none of its cases is ready; after Close it fails at once, and undisturbed it gives the end of the connection, then the deadline, then the oldest packet or a free place |
| `SocksConn.Select` | tunnel/socks/conn.go:127-135 | any ready case may be taken, and none only if none is ready |
| `SocksConn.TimeoutJustified` | tunnel/socks/conn.go:123-135 | a call times out only on a channel closed for a deadline that has passed |
| `SocksConn.WaitingWakes` | tunnel/socks/conn.go:127-135 | a waiting call has a ready case once the current channel is closed, whichever channel it holds |
| `SocksConn.NoPacketLost` | tunnel/socks/conn.go:96-136 | packets leave the queue as a prefix of those that came, each to the server or to exactly one read that returned it, and each came from the server or from exactly one write that succeeded with it |
| `SocksConn.ReadOnce` | tunnel/socks/conn.go:119-136 | where only reads take packets, of every packet that left the queue there is exactly one read that returned it |
| `SocksConn.WrittenOnce` | tunnel/socks/conn.go:96-117 | where only writes put packets, of every packet that came there is exactly one write that put it |
| `SocksConn.InvOverRuns` | tunnel/socks/conn.go:96-136 | the invariant of queue, deadline and calls over every run |
| `RouterDeadline.PairCurrentOrClosed` | tunnel/router/deadline.go:22-34 | the pair of deadline and channel that a read works with is the current one, or its channel is closed |
| `RouterDeadline.BlockedWakes` | tunnel/router/conn.go:153-190 | a blocked read has a ready case as soon as the deadline in force has passed, whatever deadline it saw |
| `RouterDeadline.TimeoutJustified` | tunnel/router/conn.go:161-164 | a read times out only for a deadline that was stored since the channel current at its start, and not before that deadline |
| `RouterDeadline.ConsumedIsPrefix` | tunnel/router/conn.go:173-190 | across all reads, timeouts and deadline changes the packets taken are a prefix of those put on the channel, the rest is still there, and the k-th is the result of exactly one read |
| `RouterDeadline.NothingLostBefore` | tunnel/router/conn.go:31-91 | each producer's packets reach the channel in order and completely, except one in flight or, after cancellation, the last |
| `RouterDeadline.InvOverRuns` | tunnel/router/conn.go:31-91 | the invariant of channel, producers and readers over every run |
| `RouterDeadline.ReadWithMetadata` | tunnel/router/conn.go:153-190 | the read loop, with steps of other goroutines between any two of its own, is a run of the machine and returns what that run records, cut to the caller's buffer; after Close it ends at once, and undisturbed it gives the end of the connection, then the deadline, then the oldest packet |
| `RouterDeadline.ProducerMoves` | tunnel/router/conn.go:30-91 | a producer gets its packet onto the channel while fewer than 16 are there, and ends after an error or after Close |
| `RouterDeadline.EnterSelect` | tunnel/router/conn.go:155-171 | one round up to its select, interleaved: end of file, a passed deadline, or blocked on the pair it took |
| `RouterDeadline.Select` | tunnel/router/conn.go:173-188 | any ready case may be taken, and none only if none is ready |
| `RouterDeadline.PacketDeadline.Set` | tunnel/router/deadline.go:22-28 | stores the deadline, closes the old channel and makes an open one |
| `StickyConn.NothingLost` | tunnel/mux/conn.go:44-69 | every frame written is emitted or queued, exactly as often as it was written |
| `StickyConn.EmittedGrows` | tunnel/mux/conn.go:16-38 | the wire only grows at its end |
| `StickyConn.OrderExactly` | tunnel/mux/conn.go:16-69 | the frames of a stream keep their order at every point if and only if no frame of it other than a FIN follows a FIN of it without a payload of any stream between |
| `StickyConn.PrefixOnWire` | tunnel/mux/conn.go:16-69 | for a stream that writes nothing behind its FIN, what is on the wire is at every point a prefix of what it wrote |
| `StickyConn.WrongOrderShows` | tunnel/mux/conn.go:16-38 | where the order is not kept, the next payload makes it visible on the wire |
| `StickyConn.HeldExactly` | tunnel/mux/conn.go:56-61 | the FIN queue holds a FIN of a stream exactly while no payload has followed one |
| `StickyConn.BlocksExactly` | tunnel/mux/conn.go:50-61 | a write blocks if and only if it is a SYN or FIN and 128 of its kind were written since the last payload |
| `StickyConn.StaysBlocked` | tunnel/mux/conn.go:50-61 | without a payload it stays blocked |
| `StickyConn.PayloadUnblocks` | tunnel/mux/conn.go:16-38 | after any payload every write is accepted |
| `StickyConn.Conn.Write` | tunnel/mux/conn.go:44-69 | a SYN or FIN header, told by its bytes, is queued and blocks exactly at 128; anything else puts all held SYN headers, itself and all held FIN headers on the wire and empties both queues; the wire is the frames emitted, in order |
| `StickyConn.Conn.StickToPayload` | tunnel/mux/conn.go:16-38 | all held SYN headers, the payload, all held FIN headers, and both queues empty |
| `StickyConn.Drain` | tunnel/mux/conn.go:18-25 | appends the whole queue in order |
| `MuxPool.PooledOrHandedOnce` | tunnel/mux/client.go:46-70 | in every reachable state each session ever added is in the pool under its own id, or has been taken out exactly once and is handed to closeMuxClients once |
| `MuxPool.CapHolds` | tunnel/mux/client.go:184-197 | with a positive concurrency no session ever carries more streams |
| `MuxPool.ClosedForEver` | tunnel/mux/client.go:179-183 | once closed and drained the pool stays empty and no session is created, over every further run |
| `MuxPool.CloseTakesAll` | tunnel/mux/client.go:46-70 | Close and the end of the cleaner take every session out of the pool |
| `MuxPool.CleanExactly` | tunnel/mux/client.go:94-107 | a cleaning round takes out exactly the sessions that are dead or idle for longer than the timeout |
| `MuxPool.DialOpensOne` | tunnel/mux/client.go:162-209 | a successful dial opens one stream on one live pooled session and touches no other |
| `MuxPool.DialReuses` | tunnel/mux/client.go:184-199 | a session is created only if no live pooled session has room, in whatever order the pool is visited |
| `MuxPool.DialAnswers` | tunnel/mux/client.go:162-209 | the same for every order in which the pool may be visited |
| `MuxPool.InvOverRuns` | tunnel/mux/client.go:83-124 | the pool invariant over every run, also when the context ends while the pool is full |
| `MuxPool.SweepLeaves` | tunnel/mux/client.go:97-107 | which keys a range with deletions leaves in the map |
| `MuxPool.Client.DialConn` | tunnel/mux/client.go:162-209 | a dial gets a stream if and only if the client is not closed, Open works, and a live pooled session has room or else a new one can be dialled under an id that no live session has; the stream is on a session that had room, or on a new one if there was none, with its time of use; only dead sessions, and one on which Open failed, leave the pool and are handed over |
| `MuxPool.Client.CleanTick` | tunnel/mux/client.go:94-113 | exactly the dead sessions and those without streams for longer than the timeout leave the pool, and they are handed over |
| `MuxPool.Client.Close` | tunnel/mux/client.go:46-60 | closed, cancelled and empty, with every pooled session handed over; a second call only cancels |
| `MuxPool.Client.CleanExit` | tunnel/mux/client.go:114-121 | when the context ends: closed and empty, with every pooled session handed over |
| `MuxPool.DrainPool` | tunnel/mux/client.go:62-81 | takes every session out and hands each over once |
| `MuxPool.FindSession` | tunnel/mux/client.go:184-197 | the loop of DialConn: dead sessions taken out, the first live one with room chosen |
| `MuxPool.SweepPool` | tunnel/mux/client.go:62-70 | the loops that delete while ranging |
| `MuxPool.CreateNewConn` | tunnel/mux/client.go:165-177 | a stream opened, or the session taken out when Open fails |
| `Address.RoundTripExactly` | tunnel/metadata.go:139-216 | every address, in every form, written anywhere in a stream is read back as the same address, stopping right behind it, if and only if its IP has a form of its type, its port fits 16 bits, and its name has at most 253 bytes and is not an IP literal |
| `Address.WireBytes` | tunnel/metadata.go:193-216 | the bytes of an address of each type: 1, 3 or 4, then four, sixteen or counted bytes, then the port, high byte first |
| `Address.ReadsExactly` | tunnel/metadata.go:139-191 | the reader accepts exactly complete addresses of type 1, 3 or 4 with names of at most 253 bytes, reads what stands there and stops behind it |
| `Address.Arrives` | tunnel/metadata.go:139-216 | every writable address with a short enough name arrives in its received form, whatever precedes and follows it |
| `Address.Rewritten` | tunnel/metadata.go:193-216 | what was read is written back byte for byte, unless a name was an IP literal |
| `Address.LongNameLost` | tunnel/metadata.go:163-186 | a name of 254 bytes or more never arrives as sent |
| `Address.UnsoundLost` | tunnel/metadata.go:193-208 | an address without an IP of its type, or of no type, never comes back |
| `Address.LiteralForwarded` | tunnel/metadata.go:174-183 | a name that is an IP literal is passed on as that address in binary, in four bytes if it is a mapped one |
| `Address.PanicsExactly` | tunnel/metadata.go:163-186 | the inputs on which reading panics |
| `Address.Local` | tunnel/metadata.go:139-191 | reading an address looks at nothing behind it |
| `Address.MetadataArrives` | tunnel/metadata.go:21-46 | command and address arrive together |
| `Address.MetadataExactly` | tunnel/metadata.go:21-46 | command and address are read back, for every metadata, if and only if the address is representable |
| `RewindReader.ReadTakesFront` | common/io.go:21-41 | each read returns the front of what the reader has still to give, and nothing else |
| `RewindReader.RewindExactly` | common/io.go:66-74 | rewinding goes back to where buffering began if and only if nothing was read past the buffer since |
| `RewindReader.SetBufferSizeExactly` | common/io.go:82-102 | changing the buffer keeps what is to be read if and only if no rewound bytes are unread |
| `RewindReader.ReadsLikeCursor` | common/io.go:21-80 | over every schedule of reads, rewinds and stops without a raw read between stop and rewind, the reader returns what a cursor on the stream would |
| `RewindReader.ScheduleHasNoGap` | common/io.go:76-80 | every schedule without a read between a stop and a later rewind, started while buffering, is such a schedule |
| `RewindReader.Conn.ReadSome` | common/io.go:21-41 | the read of the model, with as many bytes as the buffer holds or are ready |
| `RewindReader.Conn.RewindIt` | common/io.go:66-74 | rewinds, or panics exactly without a buffer |
| `RewindReader.Conn.SetBuffer` | common/io.go:82-102 | sets the buffer, or panics exactly when already in the state asked for |
| `RewindReader.Conn.ReadFull` | tunnel/trojan/server.go:130-133 | reads exactly the next n bytes however they arrive, and fails on a patient connection only when fewer are left |
| `TrojanHeader.RequestArrives` | tunnel/trojan/server.go:130-166 | the server recovers hash, command and received address and stops where the payload begins |
| `TrojanHeader.RequestExactly` | tunnel/trojan/server.go:130-166 | for every metadata, the server recovers hash, command and address and stops at the payload if and only if the address is representable |
| `TrojanHeader.ParsesExactly` | tunnel/trojan/server.go:130-166 | a request is parsed exactly if the first 56 bytes are a known hash and command, complete address and two line ends stand behind it, byte by byte; panics exactly on an overlong name of a known user |
| `TrojanHeader.HeaderBytes` | tunnel/trojan/client.go:54-64 | the header is the hash, CR LF, the command, the address, CR LF, at these places |
| `TrojanHeader.OneHeaderFirst` | tunnel/trojan/client.go:50-84 | whichever call wins the once and whatever writes fail, the wire is what got through of one write of header and first payload, then of the other payloads in the order their calls reached the connection; all of it where the call succeeded |
| `TrojanHeader.WrittenOnce` | tunnel/trojan/client.go:72-84 | a Write that returned has written at exactly one place of the order |
| `TrojanHeader.HeaderFirstExactly` | tunnel/trojan/client.go:53-69 | the wire starts with the header if and only if the winner's write got it through, or later payloads happen to complete a torn one; always if the winner's call succeeded |
| `TrojanHeader.HeaderLost` | tunnel/trojan/client.go:53-83 | a flush that fails before any byte spends the once, and the next Write puts its payload on the wire alone |
| `TrojanHeader.AllThrough` | tunnel/trojan/client.go:50-84 | if no write failed the wire is one header followed by all payloads in order |
| `TrojanHeader.OrderGrows` | tunnel/trojan/client.go:72-84 | calls made one after the other land one after the other |
| `TrojanHeader.FlushRaceHarmless` | tunnel/trojan/client.go:127-132 | for every writable address and every interleaving in which the header got through, parsing the wire gives the request with the received address, and what is left is what got through behind it; all payloads in order if no write failed |
| `TrojanHeader.InvOverRuns` | tunnel/trojan/client.go:50-84 | the invariant of once, calls and wire over every run |
| `TrojanHeader.OutboundConn.WriteHeaderOnce` | tunnel/trojan/client.go:50-70 | writes header and payload in one write, once, and reports its failure to that caller only |
| `TrojanHeader.OutboundConn.Write` | tunnel/trojan/client.go:72-84 | the steps of one call of the machine, failing or not: the wire gets header and payload, or the payload alone once the header was written, or the first bytes of it; bytes sent with the header are not counted as sent |
| `TrojanHeader.OutboundConn.Flush` | tunnel/trojan/client.go:127-132 | the delayed flush puts the header on the wire, once |
| `TrojanServer.Accept` | tunnel/trojan/server.go:241-276 | accepted only if the first 56 bytes are a known hash and a whole request stands there that is admitted, and then with that request and the stream right behind it; rejected whenever the hash is unknown or missing; on a patient connection, a header that a client sent for a sound address is accepted if and only if the request it makes is admitted; a rejected connection is handed on with the whole stream from byte 0, however it arrived |
| `TrojanServer.ReadRequest` | tunnel/trojan/server.go:130-166 | Auth's reads through the rewinding reader give the request that stands in the bytes, and fail for an unknown hash |
| `TrojanServer.ReadAddress` | tunnel/metadata.go:139-191 | so do the reads of Address.Unmarshal |
| `TrojanServer.ReadDomain` | tunnel/metadata.go:163-186 | with the byte arithmetic on the length |
| `TrojanServer.Fallback` | tunnel/trojan/server.go:253-255 | rewind and stop buffering give the whole stream back |
| `PacketFraming.AlignedExactly` | tunnel/trojan/packet.go:35-88 | reading a frame stops exactly at its end if and only if the payload has at most 65535 bytes, and then returns the packet, or the too-large error exactly when it exceeds the buffer or 8192 bytes |
| `PacketFraming.FrameBytes` | tunnel/trojan/packet.go:35-48 | a frame is the address, the length modulo 2^16, CR LF and the payload |
| `PacketFraming.ReadsPacketExactly` | tunnel/trojan/packet.go:56-88 | for arbitrary bytes: a packet, too large, a panic or a broken stream, each exactly for what stands there, and where the reader stops |
| `PacketFraming.StaysAligned` | tunnel/trojan/packet.go:56-88 | for every sequence of packets on a stream and every sequence of buffer sizes the results are those of the packets, one by one |
| `PacketFraming.KthRead` | tunnel/trojan/packet.go:56-88 | the k-th read returns the k-th packet or the error for it |
| `PacketFraming.PacketConn.WriteWithMetadata` | tunnel/trojan/packet.go:35-54 | appends one frame, byte by byte, to the stream |
| `PacketFraming.PacketConn.ReadWithMetadata` | tunnel/trojan/packet.go:56-88 | reads one packet into the caller's array, touching nothing behind the payload, with the result and the stop that the bytes call for |
| `Router.HitsExactly` | tunnel/router/client.go:77-103 | for every IPv4 or IPv6 target, every network and every prefix, in range or not, the byte-mask test holds if and only if the families agree, the prefix is in range and the top bits are equal as numbers |
| `Router.HitsNothing` | tunnel/router/client.go:77-103 | a target of any other length hits exactly if it has no bytes and the network makes no sense |
| `Router.MaskedIsTop` | tunnel/router/client.go:84-100 | equal masked bytes are equal leading bits of the two numbers |
| `Router.StaysIPv6` | tunnel/router/client.go:88-97 | masking never turns an IPv6 network into a mapped IPv4 one |
| `Router.AndMask` | tunnel/router/client.go:86 | the bitwise and with a prefix mask clears exactly the low bits |
| `Router.MatchIP` | tunnel/router/client.go:77-103 | the loop finds a hit if and only if the address belongs to some network of the list |
| `Router.LeastPolicy` | tunnel/router/client.go:133-168 | by address the policy is the least in the order Block, Bypass, Proxy whose networks contain it as a number, and none exactly if none does |
| `Router.LeastUnique` | tunnel/router/client.go:161-166 | no other outcome satisfies that description |
| `Router.Route` | tunnel/router/client.go:133-168 | an address gets the first of Block, Bypass, Proxy with a network that contains it as a number, else the default; a name gets the first with a domain rule for it, with the resolved address before the rules under IPOnDemand and behind them under IPIfNonMatch, else the default |

## Left out

- TLS, uTLS, websocket, shadowsocks, gRPC, smux and database internals: only what the modelled code needs of them appears, as parameters or nondeterministic outcomes.
- Socket plumbing (tproxy, transport, freedom, adapter, http, dokodemo, redirector), configuration, logging and URL parsing: they would add easy members only.
- Rate limiting, speed sampling and metrics other than the active-connection gauge and the cutoff count.
- The sqlite persistence of traffic and the control API, except that additions and removals may run at any time.
- Quota changes while traffic flows: the quota of a user is fixed in `Cutoff.dfy`.
- Wrap-around of the pending sums at 2^64: `Ledger.dfy` and `MysqlAuthenticator.dfy` use unbounded integers for counters and buffer, `Cutoff.dfy` and the entitlement test of `UserCache.dfy` model it.
- Collation of hashes in MySQL: rows match a hash by equality.
- `database/sql` beyond three outcomes of a statement: applied, failed without effect, applied but reported as failed.
- Geodata records are decoded down to their fields: that a code is valid UTF-8, what the other fields contain and how deep groups nest is not checked, so more files decode here than in the protobuf library; records of the file itself have the one-byte tag 0A; case folding is any symmetric relation on codes; memory limits on huge lengths are a single panic outcome, and seeks fail only beyond 2^63 - 1, not at a file system's own limit.
- Geodata.EmitBytes: asks for a file on which the scan ends, because on the others the source never returns; `Geodata.ScanStops` and `Geodata.ScanLoops` say which these are.
- Traffic during an updater cycle: the ledger has it at every point, the object of `MysqlAuthenticator.dfy` between its cycles.
- Errors of the connection under the sticky writer, and concurrent writers to it.
- smux stream discipline: `StickyConn.PrefixOnWire` asks that a stream writes nothing behind its FIN, as smux does.
- Address.Unmarshal and Marshal set fields of a receiver in the source; here they are functions on values, and the reads through a connection are methods in `TrojanServer.dfy`.
- `net.ParseIP`, name resolution and the outcome of matchDomain are parameters; regular expressions and root-domain matching are not modelled.
- PacketFraming.PacketConn.ReadWithMetadata: reads from a byte sequence; that ReadFull does not depend on how bytes arrive is shown in `RewindReader.dfy`.
- RewindReader.Discard, StickyWriter, fallback rule matching, proxy stack building and the queue and timeout resolvers.

# Verification of the subnetwork proxy

A Dafny model of the two programs of this repository: the **worker**, a SOCKS5
and HTTP proxy that forwards traffic through upstream providers, and the
**captain**, which issues proxy credentials, groups pools and stores analytics.
The model covers the parts whose correctness spans several functions or several
goroutines, and proves what they are for.

Run `dafny verify dfyconfig.toml` to check everything.

| file | models |
|---|---|
| `Strings.dfy`, `HostPort.dfy`, `Wire.dfy`, `Wrappers.dfy` | the library string operations, the host:port text, bytes, IP addresses, and a connection whose stream arrives cut in any way |
| `Tags.dfy`, `ProxyString.dfy`, `HttpAuth.dfy`, `ProviderTag.dfy`, `PrintAlike.dfy` | the routing tag in a proxy password: printed by the captain, scanned by the worker's two listeners, reprinted per provider |
| `Socks.dfy`, `SocksClient.dfy`, `SocksBytes.dfy`, `UdpRelay.dfy` | the SOCKS5 listener, the SOCKS5 client, which bytes decide what both do, the UDP relay header |
| `ShardedMap.dfy`, `FanIn.dfy`, `FanInRank.dfy`, `FanInDelivery.dfy`, `KeyList.dfy` | the sharded map as one plain map, its iterator as a protocol of 32 producers, 32 forwarders, writers and a reader, and its key list as one of 32 producers on a single channel |
| `ConnPool.dfy` | the bounded pool of upstream connections |
| `Worker.dfy`, `Sessions.dfy`, `StickyCalls.dfy`, `SessionTickets.dfy`, `UserCache.dfy`, `Slots.dfy` | round robin, sticky sessions, the user cache and per-user connection slots: one call at a time in `Worker.dfy`, concurrent calls in the others |
| `IoCopy.dfy`, `Health.dfy`, `Batcher.dfy` | the two-direction copy and its byte accounting, health counters, the captain's analytics queues |
| `Checker.dfy` | which hosts go through an upstream: the suffix walk and the probe counters |
| `PoolGrouping.dfy` | the regrouping of joined rows into pools |

Where the source updates objects or runs loops, the model is a class or a method
with loops, proved equal to a function on values. The theorems are then about
that function, about whole runs of it, or about it and its inverse, and say what
comes out in plain bytes, texts and numbers as well. Where the source runs
goroutines, the model is a state machine whose steps are single lock sections,
channel operations, map accesses or atomic instructions; a theorem about a run
of it holds for every interleaving. The methods and runs of `Worker.dfy` are the
exception: there a call is one step, which no lock of the source makes it, and
the loop that resets connection counts is left out. The other files of that row
cut the calls into their steps and add the loop, which copies the cache and
writes each entry back later; they say under which exact conditions what is left
of the results holds. The network, clocks, randomness, DNS, the user database
and parsing done by libraries are parameters.

## What the proofs found

Properties one would expect that the code does not have are stated as an
equivalence, so that the condition under which it does is exact.

- A positive session duration never reaches the worker: the printed lifetime is
  60 unless the requested one is zero or negative, and a negative one is torn
  apart at its own sign. Durations other than 0 and 60 are lost
  (`DurationHonoured`).
- City, state and country are printed unchecked. A dash in one of them tears the
  tag: a request for the city "new-york" reaches the worker as "new"
  (`DashedCityCut`, `NewYorkIsCut`). The SOCKS scan gives back what was sent
  exactly when no value holds a dash and none is a keyword that is taken for a key
  (`PrintedPasswordScans`).
- The HTTP listener cuts the credentials at their colons first, so there a colon
  in a value loses the rest of the tag, lifetime included, as well. Its scan reads
  past the end exactly when what stands in front of that colon ends in a keyword:
  a request for the city "state:x" makes it panic (`HttpScans`, `HttpDuration`,
  `ColonCityCut`, `StateColonPanics`). The SOCKS scan cannot (`ScanHttp`).
- A colon is as bad on the way to geonode. A tag that is sent there and scanned
  again survives exactly if no value holds a dash or a colon and both scans read
  the keywords among them right; but for one choice of country, state and city,
  which is misread twice and comes right again (`CaptainToGeonode`, `CancelsOut`).
- The netnut text joins country, state and city by underscores, so that it does not
  say which is which: the city "new_york" prints like the state "new" with the city
  "york". It drops places without a country and never shows the lifetime. The
  iproyal text drops the state and the minutes beyond full hours
  (`NetnutPrintsAlike`, `NewYorkPrintsAlike`, `IproyalPrintsAlike`).
- An IPv6 target is printed without brackets, so the text does not split into
  host and port again: a SOCKS client asking for one is never connected through
  an upstream, and no datagram to one is relayed (`AddressReadsBack`,
  `Ipv6NeverConnects`, `Ipv6NeverRelayed`).
- An upstream of unknown provider makes the client index past the split
  credentials (`UnknownProviderHasNoPassword`); the connection's slot is then
  never given back (`GivenBackOnce`, the panic case).
- A UDP datagram whose header is longer than the datagram makes the handler
  panic (`ParsePacket`), answers shorter than ten bytes in all are not parsable,
  and an IPv4-mapped IPv6 target is answered as the IPv4 address inside it
  (`AnswerNamesTarget`).
- The slot counter is tested and changed without a lock held across both, so m
  overlapping admissions raise it to 49 + m, and r overlapping releases behind a
  reset lower it to -r, not just -1; for every m and r some run does
  (`CounterBounds`, `UpperBoundReached`, `LowerBoundReached`). It keeps to -1..50
  exactly when neither overlap (`LimitsKept`). Resetting or replacing a user while
  slots are held breaks the balance (`ResetKeepsBalance`, `WriteBackKeepsBalance`,
  `ReplaceKeepsBalance`).
- `Get` hands out, and `Put` stores, a connection it has just released if the
  connection is inactive (`GetConserves`, `PutConserves`). The only user of the
  pool never reports one as inactive.
- When probe rounds overlap, a slow probe writes an old copy of the counters
  back and can turn a settled verdict around (`SettledForGood`,
  `StaleCopyUnsettles`).
- Round robin is fair across the wrap of its counter at 2^64 exactly for lists
  whose length divides 2^64 (`FairAcrossWrap`); for any other length a window as
  long as the list skips one upstream.
- A session does not always keep its first upstream. No lock is held from the
  lookup of a session to the store of its upstream, so that two first calls at
  once are given different upstreams, of which the first is lost, and draw two
  tickets (`FirstUpstreamLost`). What is stored stays exactly when no call of the
  session is between its missed lookup and the store of another upstream
  (`StoredForGood`), and unless a call meets an empty list, sessions cost one
  ticket each exactly when no two such calls overlap (`TicketsArePairs`).
- The loop that resets connection counts writes back whatever it has copied. A user
  who was removed meanwhile is cached again, and stays removed exactly when the loop
  holds no entry of that user (`RemovedExactly`). A user verified again meanwhile
  gets the old entry back, with the old expiry and the old sessions
  (`OldEntryReturns`): a session whose upstream was stored for good is then given
  another one (`OldObjectReturns`). A call is given the stored upstream exactly when
  that upstream is stored for good in the cached object and in the one the loop
  holds, and nobody is about to remove the user (`SessionSticks`).
- A lookup or a cleanup that holds an expired entry removes its user by name even
  if the user has been verified again meanwhile (`FreshUserDropped`). A cached entry
  stays until its expiry exactly when nobody holds such an older entry and the
  resetting loop holds no other entry of that user (`KeptExactly`).
- `Keys` sizes its channel by an earlier `Count`. A key written in between can
  make a producer wait while it holds its shard's read lock
  (`WriterMakesProducerWait`): exactly when more keys are left, once all locks
  are taken, than the channel has room for (`NeverBlocksExactly`). The draining
  caller still ends every run.
- The usage record written when one direction of a connection ends misses
  exactly the bytes the other direction still counts. Once written it stays
  complete exactly when it is and both directions have stopped
  (`RecordCompleteForGood`, `ReportedTooEarly`).
- A TCP connection counts the bytes that reach the client as sent and those that
  reach the target as received; the UDP relay records them the other way round
  (`CountersAreDeliveries`, `TcpMirrorsUdp`).

## Model

| member | source | states |
|---|---|---|
| Strings.SplitConcat | worker/services/socks.go:382 | splitting at a separator is independent on its two sides, which all tag round trips rest on |
| Strings.AtoiItoa | worker/services/socks.go:398 | reading a printed number gives it back over the whole 64-bit range |
| Strings.AtoiReads | worker/services/socks.go:398 | any text with or without a sign is read as its number, cut off at the ends of the 64-bit range, and what is no number as 0 |
| HostPort.JoinSplits | worker/services/service.go:122 | net.SplitHostPort undoes joining with a colon if and only if the host holds no colon and no bracket |
| HostPort.TargetOfJoined | worker/services/service.go:122-123 | the same for the host and port the client goes on with when parse errors are not looked at |
| Tags.ScanSocks | worker/services/socks.go:381-400 | each field is the token after the last occurrence of its keyword that has a successor, read from the token list itself |
| Tags.ScanHttp | worker/utils/structs.go:368-386 | agrees with the SOCKS scan if and only if the last token is not a keyword, and otherwise panics |
| Tags.AfterAll | worker/services/socks.go:384-400 | scanning printed fields without keywords behind any tokens finds the printed value, with the exact exceptional case |
| Tags.LookAllFinds | worker/services/socks.go:384-400 | what each key finds when place values may themselves be keywords that are taken for keys |
| Tags.ScannedIsTag | worker/services/socks.go:384-400 | what is found for all keys is the tag itself if and only if no value is a keyword that is taken for a key, but where what follows it happens to be the value |
| Tags.TwiceScanned | worker/services/service.go:198-214 | what is found in a second printing of what a first scan found, a lifetime printed the second time only if positive, is the tag itself if and only if both scans are harmless or the tag is of the one kind whose two misreadings cancel out |
| Tags.ScanAll | worker/services/socks.go:384-400 | printed fields behind keyword-free tokens scan back to the whole tag |
| ProxyString.GenerateProxyString | captain/internal/server/functions/userFunctions.go:10-45 | the branches print the fields in the order country, state, city, session, lifetime, omitting empty ones |
| ProxyString.PlaceSuffix | captain/internal/server/functions/userFunctions.go:11-20 | the place fields of that text |
| ProxyString.AppendSession | captain/internal/server/functions/userFunctions.go:21-38 | a session field for a sticky request of one of the three pool groups and nothing otherwise |
| ProxyString.PrintedPasswordScans | captain/internal/server/service/user_service.go:403-413 | for whatever country, city and state are requested, what the SOCKS listener scans from password plus config is the tag as sent if and only if no value holds a dash and no keyword among them is taken for a key; the password comes back |
| ProxyString.IssuedPasswordScans | captain/internal/server/service/user_service.go:54-57 | for issued passwords and values that are no keywords, what the SOCKS listener scans is the tag as sent if and only if no value holds a dash |
| ProxyString.ListenerSees | captain/internal/server/functions/userFunctions.go:10-45 | of an ordinary request the SOCKS listener scans the place as requested, the random text as the session exactly if the request is sticky and the group is netnut, geonode or iproyal, and a lifetime of 60 unless zero or less was asked for, then 0 |
| ProxyString.ConfigText | captain/internal/server/functions/userFunctions.go:10-45 | the text of the config, field by field |
| ProxyString.DashedCityCut | captain/internal/server/functions/userFunctions.go:18-20 | the SOCKS listener scans a dashed city as the part before its dash, whatever else is requested |
| ProxyString.NewYorkIsCut | captain/internal/server/functions/userFunctions.go:18-20 | one such request |
| ProxyString.DurationHonoured | captain/internal/server/functions/userFunctions.go:39-43 | the requested duration is the one the SOCKS listener scans if and only if it is 0 or 60, whatever the password and the other values |
| HttpAuth.BasicAuthTag | worker/utils/structs.go:366-389 | user, password and tag are read from what stands between the first two colons of the credentials; a missing colon or a trailing keyword panics |
| HttpAuth.TrimIs | worker/utils/structs.go:366 | the spaces at both ends of the credentials are taken away and nothing else |
| HttpAuth.HttpSees | worker/utils/structs.go:366-386 | of an ordinary request without colons the HTTP listener scans the same: the place as requested, the random text exactly for sticky requests of the three groups, and 60 or 0 |
| HttpAuth.HttpScans | worker/utils/structs.go:366-386 | for whatever country, city and state are requested, the HTTP listener panics if and only if some value holds a colon and the first such value, as printed, ends in a keyword in front of its colon; and it scans the tag as sent if and only if no value holds a dash or a colon and no keyword among them is taken for a key |
| HttpAuth.HttpDuration | worker/utils/structs.go:366-385 | without a colon the requested duration is scanned if and only if it is 0 or 60; with one the tokens do not depend on it |
| HttpAuth.ColonCityCut | worker/utils/structs.go:366-367 | a city with a colon is scanned as the part before it, whatever else is requested |
| HttpAuth.KeywordColonPanics | worker/utils/structs.go:366-386 | a city that starts with a keyword and a colon makes the listener panic, whatever else is requested |
| HttpAuth.StateColonPanics | worker/utils/structs.go:366-386 | one such request |
| ProviderTag.ConvertTag | worker/services/service.go:178-236 | the credentials text of each provider, empty for an unknown one |
| ProviderTag.NetnutBranch | worker/services/service.go:181-197 | the netnut syntax |
| ProviderTag.GeonodeBranch | worker/services/service.go:198-215 | the geonode syntax, which is the captain's own field syntax |
| ProviderTag.IproyalBranch | worker/services/service.go:216-233 | the iproyal syntax, carried by the password half |
| ProviderTag.ConvertedSplits | worker/services/service.go:101-103 | splitting at the colon gives exactly the username half and the password half if and only if no printed field holds a colon |
| ProviderTag.UnknownProviderHasNoPassword | worker/services/service.go:101-103 | the second half exists if and only if the provider is known |
| ProviderTag.GeonodeRescans | worker/services/service.go:198-214 | rescanning the geonode username gives back the tag if and only if no value holds a dash, the lifetime is not negative and no keyword among the values is taken for a key |
| ProviderTag.CaptainToGeonode | worker/services/service.go:101-103 | captain print, SOCKS scan, geonode print, split and rescan compose to the identity on the tag if and only if no requested value holds a dash or a colon and the keywords among them survive both scans |
| PrintAlike.NetnutPrintsAlike | worker/services/service.go:181-197 | two tags without dashes print the same username if and only if they agree in the session, in having a place besides the country, and in the joined text of country, state and city, or in the country alone |
| PrintAlike.WholePlacesAlike | worker/services/service.go:183-193 | if no place holds an underscore, that is agreement in country and session and, unless there is no country, in the nonempty places in their order |
| PrintAlike.NewYorkPrintsAlike | worker/services/service.go:183-190 | a city with an underscore prints like a state and a city |
| PrintAlike.IproyalPrintsAlike | worker/services/service.go:216-233 | two tags without dashes print the same password if and only if country, city and session agree and so do the lifetimes, in minutes below an hour and in full hours from there on |
| PrintAlike.ScannedPrintAlike | worker/services/service.go:178-236 | both hold of all tags that a listener can scan, without a condition on their values |
| PrintAlike.NetnutIsSent | worker/services/service.go:101-103 | without colons and dashes in the values netnut is sent the password as it is, and a username that splits into the name, the kind, the joined place, and the session behind its key |
| PrintAlike.IproyalIsSent | worker/services/service.go:101-103 | without colons and underscores in the values iproyal is sent the username as it is, and a password that splits into itself and the nonempty fields, the lifetime in minutes below an hour and in hours from there on |
| Wire.Conn.ReadFull | worker/services/socks.go:317-320 | succeeds exactly when the stream holds n bytes and takes exactly those, however the stream is cut into reads |
| Socks.HandleHandshake | worker/services/socks.go:316-352 | result, bytes left unread and bytes sent are functions of the stream alone, on all error paths |
| Socks.ReadMethods | worker/services/socks.go:317-330 | version check and method list of the greeting |
| Socks.OffersPassword | worker/services/socks.go:332-338 | the loop finds the password method exactly if it is offered |
| Socks.HandlePasswordAuth | worker/services/socks.go:354-411 | user, tag and reply of the username/password message, on all error paths; SocksBytes.LoginStatus says what the reply is |
| Socks.ReadCredentials | worker/services/socks.go:355-379 | the two length-prefixed fields, consumed exactly |
| Socks.HandleRequest | worker/services/socks.go:413-474 | the host:port text and command of the request, with the replies of the error paths |
| Socks.ReadHost | worker/services/socks.go:431-462 | the three address types, and the reply to any other |
| Socks.AuthRoundTrip | worker/services/service.go:105-108 | what the client encodes the listener decodes to the same username and raw password, consuming exactly the message, if and only if both fit 255 bytes |
| Socks.AuthSound | worker/services/socks.go:354-379 | whatever the decoder accepts is the encoding of what it returns |
| Socks.HandshakeAccepts | worker/services/socks.go:316-411 | the handshake succeeds on exactly the streams of RFC 1928 section 3 and RFC 1929 section 2 that offer the password method and satisfy the verifier |
| Socks.RequestAccepts | worker/services/socks.go:413-474 | the request decoder succeeds on exactly the encodings of RFC 1928 section 4 with a supported command, whatever the reserved byte |
| Socks.AddressReadsBack | worker/services/socks.go:470 | the address text splits back to the requested host and port exactly for IPv4 and mapped addresses and domains without colon and bracket, and never for other IPv6 addresses |
| SocksBytes.GreetingDecides | worker/services/socks.go:317-343 | a greeting that is cut short is answered with nothing, one of another version as well, and one without the password method with the bytes 5 and 255 |
| SocksBytes.LoginCut | worker/services/socks.go:354-379 | behind a greeting with the method, answered 5 and 2, a login that is cut short or of another version is answered with nothing more |
| SocksBytes.LoginStatus | worker/services/socks.go:381-411 | a whole login is answered with status 0 if and only if the verifier accepts the username and the password in front of the first dash, and with 1 and a rejection otherwise |
| SocksBytes.RequestRefused | worker/services/socks.go:413-464 | requests that are cut short or of another version get no reply, an unsupported command reply code 7 and an unknown address type 8 |
| SocksBytes.RequestRead | worker/services/socks.go:431-468 | all other requests are cut short or give exactly the address bytes of their type and the port, high byte first, with the rest unread |
| SocksBytes.AddressSpelled | worker/services/socks.go:470 | the address text is the text of the address or the name, a colon and the port in decimal |
| SocksBytes.MappedBytes | worker/services/service.go:139 | an IPv6 address has an IPv4 form if and only if it is ten bytes 0 and two bytes 255 in front of it |
| SocksClient.ConnectUpstreamSocks | worker/services/service.go:85-176 | outcome, bytes sent and bytes left unread for every stream an upstream may send, every address text and every failing write; the rows of SocksBytes below say which in bytes |
| SocksClient.Authenticate | worker/services/service.go:105-120 | the username/password half of that conversation, a write that fails midway included |
| SocksClient.RequestConnect | worker/services/service.go:122-175 | the CONNECT half of that conversation, from the address text on |
| SocksClient.DiscardBound | worker/services/service.go:163-172 | how many bytes of the bound address are thrown away for each address type |
| SocksClient.PickV4 | worker/services/service.go:135-144 | the first IPv4 answer, and none only if there is none |
| SocksClient.ListenerReadsClient | worker/services/service.go:85-153 | the listener reads the client's three messages back to the same username, raw password, address and port and leaves all later bytes unread |
| SocksClient.ClientReadsListener | worker/services/service.go:92-175 | the client, given a host and port joined to a text and fed the listener's replies, connects, has sent exactly its three messages, and leaves all later bytes unread |
| SocksClient.Ipv6NeverConnects | worker/services/service.go:122-134 | a request for an unmapped IPv6 target is never connected, whatever the upstream answers |
| SocksBytes.StreamDecides | worker/services/service.go:85-161 | for every stream, in order, which failure the client ends with, read off the second, fourth and sixth byte, the writes, the provider and the lookup |
| SocksBytes.ConnectsExactly | worker/services/service.go:85-161 | the client is connected if and only if all writes succeed, the provider is known, the host has an IPv4 address and the stream is two bytes ending in 2, two ending in 0 and four whose second is 0 |
| SocksBytes.ConnectedRest | worker/services/service.go:163-172 | what a connected client leaves unread starts 6, 18 or 1 + n + 2 bytes behind the reply for an IPv4, IPv6 or named bound address |
| SocksBytes.ConnectedSent | worker/services/service.go:86-153 | what it has sent: the greeting, both halves of the credentials behind their lengths, the request for the first IPv4 address, in bytes |
| SocksBytes.GreetingCut | worker/services/service.go:86-90 | a client whose first write fails after k bytes has sent just these and read nothing |
| SocksBytes.GaveUpAtOnce | worker/services/service.go:97-103 | a client that gives up on the first answer has sent the greeting and leaves what follows the two bytes |
| SocksBytes.GaveUpLater | worker/services/service.go:114-161 | a client that gives up later leaves what follows the answers it has read, and nothing if one was cut short |
| SocksBytes.RejectedClientFails | worker/services/service.go:114-120 | fed the listener's answer to a login, the client ends with a failed authentication if and only if the verifier rejects it |
| SocksBytes.UnofferedClientFails | worker/services/service.go:97-99 | fed the listener's answer to a greeting without the method, it ends with the method not accepted |
| UdpRelay.ParsePacket | worker/services/socks.go:201-240 | the result depends on the received bytes alone although the buffer is reused; header and payload lengths add up to the datagram; exactly which datagrams panic |
| UdpRelay.DatagramSays | worker/services/socks.go:201-240 | what a datagram with a whole header says, byte by byte, for the three address types |
| UdpRelay.DatagramRefused | worker/services/socks.go:201-240 | exactly which datagrams are ignored and which make the handler panic |
| UdpRelay.BuildHeader | worker/services/socks.go:274-293 | the header in front of the answer: an IPv4 or IPv6 address if the host spells one, the name behind its length byte otherwise |
| UdpRelay.BuildPacket | worker/services/socks.go:274-295 | the header is followed by the whole answer, and lengths add up |
| UdpRelay.BuiltPacketParses | worker/services/socks.go:201-295 | a built packet parses back to host, port and payload, with the exact condition, and a mapped address parses back as IPv4 |
| UdpRelay.ParsedPacketRebuilds | worker/services/socks.go:201-240 | every parsed datagram is the built packet of what it parses to, unless its host is a mapped address |
| UdpRelay.Ipv6NeverRelayed | worker/services/socks.go:238-250 | the dialled text of an IPv6 target splits if and only if the address is a mapped one |
| UdpRelay.AnswerNamesTarget | worker/services/socks.go:274-302 | the answer built for a parsed datagram names the target asked for, with the exact condition |
| ShardedMap.Fnv32 | worker/utils/map.go:285-293 | the 32-bit loop computes the hash by which keys are placed |
| ShardedMap.KnownHashes | worker/utils/map.go:285-293 | the values of the 32-bit FNV-1 hash for some keys |
| ShardedMap.ConcurrentMap.GetShard | worker/utils/map.go:30-32 | the shard that holds a key and no other |
| ShardedMap.ConcurrentMap.Set | worker/utils/map.go:44-50 | the union of the shards changes at that key alone |
| ShardedMap.ConcurrentMap.MSet | worker/utils/map.go:34-41 | the union is overridden by the data, in any order of its keys |
| ShardedMap.ConcurrentMap.Upsert | worker/utils/map.go:59-67 | the callback sees the stored value, its result is stored and returned |
| ShardedMap.ConcurrentMap.SetIfAbsent | worker/utils/map.go:70-80 | stores and reports true exactly if the key was absent from the union |
| ShardedMap.ConcurrentMap.Get | worker/utils/map.go:83-91 | looking in one shard is looking in the union |
| ShardedMap.ConcurrentMap.Has | worker/utils/map.go:106-114 | membership in the union |
| ShardedMap.ConcurrentMap.Remove | worker/utils/map.go:117-123 | the union loses that key alone |
| ShardedMap.ConcurrentMap.Pop | worker/utils/map.go:126-134 | returns what the union held and removes it |
| ShardedMap.ConcurrentMap.Count | worker/utils/map.go:94-103 | the sum over the shards is the cardinality of the union |
| ShardedMap.ConcurrentMap.IsEmpty | worker/utils/map.go:137-139 | true exactly for the empty union |
| ShardedMap.ConcurrentMap.IterCb | worker/utils/map.go:231-240 | the callback is called exactly once for each entry of the union |
| ShardedMap.MergedLookup | worker/utils/map.go:30-32 | shards are disjoint: a key is in the union exactly if it is in the shard of its hash, with the same value |
| ShardedMap.MergedCount | worker/utils/map.go:94-103 | the sizes of the shards add up to the size of the union |
| ShardedMap.MergedChange | worker/utils/map.go:44-50 | changing one key in its shard changes the union at that key alone |
| ShardedMap.ListsExactly | worker/utils/map.go:231-240 | a listing names no key twice and exactly the entries of the map |
| FanIn.StepInv | worker/utils/map.go:173-209 | every step of producers, forwarders, writers and reader keeps every held entry in exactly one place, in order |
| FanIn.RunInv | worker/utils/map.go:173-209 | so does every run |
| FanIn.ProducerNeverBlocks | worker/utils/map.go:179-188 | a producer with entries left has room in its channel |
| FanIn.LockReleased | worker/utils/map.go:181-187 | from every reachable state a locked shard is unlocked by its own producer alone, nobody reading |
| FanIn.WriterGetsIn | worker/manager/user_manager.go:75-79 | a writer of a locked shard, as when the cleanup loop removes what it iterates over, waits for that producer only: no deadlock |
| FanIn.ForwarderNeverBlocks | worker/utils/map.go:158-165 | the output of IterBuffered has room for every entry a forwarder holds |
| FanInRank.Progress | worker/utils/map.go:173-209 | until the output is closed the iterator itself can always take a step |
| FanInRank.StepRank | worker/utils/map.go:173-209 | every own step uses up a finite rank and a read leaves it alone |
| FanInRank.StartedRank | worker/utils/map.go:173-209 | once every lock has been taken a write changes no rank either |
| FanInRank.RunRank | worker/utils/map.go:196-209 | from any state in which fanIn runs, no run has more than that many own steps, whatever writers and reader do |
| FanInRank.EveryRunIsShort | worker/utils/map.go:173-209 | every run from the start, writers included, has at most three own steps an entry held at its lock, four a shard and two more |
| FanInRank.CompletesUnread | worker/utils/map.go:158-167 | from every reachable state the iterator closes its output within that rank, unread |
| FanInDelivery.EveryRunDelivers | worker/utils/map.go:196-209 | in every run that closes and drains the output the reader has received exactly what each shard held when its lock was taken, each entry once, each shard in order |
| FanInDelivery.QuietRunDeliversContents | worker/utils/map.go:158-167 | without writers that is the contents of the map |
| FanInDelivery.Items | worker/utils/map.go:212-221 | the map built from a listing is the map that was listed |
| KeyList.StepInv | worker/utils/map.go:243-271 | every step of Count, producers, reader and writers keeps each held key in exactly one place, in order |
| KeyList.Progress | worker/utils/map.go:243-271 | until the keys are returned the call itself can always take a step: a full channel is one the caller can take from |
| KeyList.EveryRunIsShort | worker/utils/map.go:243-271 | every run, writers included, has at most two own steps a held key, three a shard and two more |
| KeyList.EveryRunDelivers | worker/utils/map.go:250-269 | every run that returns has received exactly the keys each shard held when its lock was taken, each once |
| KeyList.QuietRunListsContents | worker/utils/map.go:243-271 | without writers those are the keys of the map |
| KeyList.Keys | worker/utils/map.go:266-270 | the list returned holds every key of the listed map once and no other |
| KeyList.CountedNeverBlocks | worker/utils/map.go:244-257 | no producer waits while the locked shards hold no more keys than Count found, whatever has been locked |
| KeyList.QuietNeverBlocks | worker/utils/map.go:244-257 | so without writers none ever does |
| KeyList.NeverBlocksExactly | worker/utils/map.go:244-257 | once every lock is taken, no producer waits in any continuation if and only if the channel has room for all keys still to be sent |
| KeyList.WriterMakesProducerWait | worker/utils/map.go:244-257 | for any two keys a run in which a producer waits while it holds its read lock |
| ConnPool.NetPool.Fill | worker/utils/pool.go:52-78 | the locked loop in both modes, with the early returns and the select |
| ConnPool.NetPool.Refill | worker/utils/pool.go:49-82 | one round of the worker: the loop runs only at or below half of InitialCap |
| ConnPool.NetPool.Get | worker/utils/pool.go:95-117 | the first pooled connection, else a new one, else nothing |
| ConnPool.NetPool.Put | worker/utils/pool.go:119-133 | pooled if there is room, else released |
| ConnPool.NetPool.ReleaseAll | worker/utils/pool.go:135-143 | releases every pooled connection once and shrinks the capacity |
| ConnPool.TakenOut | worker/utils/pool.go:95-117 | which connection the caller gets: the first pooled one, released on the way if inactive; a new one if none is pooled; nothing if that cannot be made |
| ConnPool.TakenInOrder | worker/utils/pool.go:95-105 | the k-th active connection taken is the k-th pooled one, and no other moves; from the empty pool without a factory nothing comes |
| ConnPool.PutBack | worker/utils/pool.go:119-133 | a connection put back takes the last place if there is room; at a full pool it alone is released and the pooled ones stay |
| ConnPool.PutComesOutLast | worker/utils/pool.go:95-133 | so it comes out behind all that was pooled before |
| ConnPool.GetConserves | worker/utils/pool.go:95-117 | every connection ever made stays in exactly one place, exactly once, if and only if the pooled one taken is active or there is none |
| ConnPool.PutConserves | worker/utils/pool.go:119-133 | the same for putting back a lent one, if and only if it is active |
| ConnPool.FillConserves | worker/utils/pool.go:51-78 | a refill conserves connections and respects the capacity, for every pattern of factory failures |
| ConnPool.RunConserves | worker/utils/pool.go:47-143 | every run keeps every connection in exactly one place and the pool within its capacity, and never takes a release back |
| ConnPool.EveryRunConserves | worker/utils/pool.go:25-143 | in every run from the new pool on, no connection is lost, shared or released twice, and the pool stays within MaxCap, then InitialCap |
| ConnPool.ReleasedOnce | worker/utils/pool.go:135-143 | each connection is released at most once and then is neither pooled nor lent |
| ConnPool.FillAdds | worker/utils/pool.go:51-78 | with failures and in both modes a refill from below InitialCap, with room for it, adds exactly one connection a counting success up to InitialCap, releases none, and fails exactly when a synchronous one stops short |
| ConnPool.FillReaches | worker/utils/pool.go:51-78 | with a factory that never fails exactly which refills end at InitialCap |
| ConnPool.FillAtThreshold | worker/utils/pool.go:51-78 | a refill at its own threshold ends at InitialCap having made exactly the difference |
| Slots.GivenBackOnce | worker/services/socks.go:90-137 | in every run a slot is given back at most once, and exactly once by a connection that is over on any exit path, racing directions included, unless it was lost to a panic |
| Slots.CounterIsLive | worker/manager/user_manager.go:163-183 | while the cached user is neither replaced, dropped nor reset, its counter is the number of connections holding a slot, in every interleaving |
| Slots.FreshUserBalanced | worker/manager/user_manager.go:48-54 | caching a user establishes that balance |
| Slots.UndisturbedAdmission | worker/manager/user_manager.go:163-173 | a test and its update with nothing in between admit exactly below fifty |
| Slots.UndisturbedRelease | worker/manager/user_manager.go:175-183 | and a release lowers a counter that is not negative |
| Slots.ResetKeepsBalance | worker/manager/user_manager.go:185-196 | clearing the counter of the cached object keeps it if and only if no slot is held, and writing that object back changes nothing |
| Slots.WriteBackKeepsBalance | worker/manager/user_manager.go:185-196 | writing back the copied entry of any object keeps it if and only if it is the cached object, or its counter is the number of slots held and no connection is between its test and its update |
| Slots.ResetOfOtherKeepsBalance | worker/manager/user_manager.go:185-196 | clearing and writing back another object keeps it if and only if no slot is held or being taken |
| Slots.ReplaceKeepsBalance | worker/manager/user_manager.go:48-54 | replacing the user keeps it if and only if no slot is held or being taken |
| Slots.CounterBounds | worker/manager/user_manager.go:163-183 | in all runs the counter lies between minus the overlapping releases and 49 plus the overlapping admissions |
| Slots.UpperBoundReached | worker/manager/user_manager.go:164-168 | for every m a run reaches 49 + m |
| Slots.LowerBoundReached | worker/manager/user_manager.go:175-196 | for every r a run reaches -r |
| Slots.LimitsKept | worker/manager/user_manager.go:163-183 | the counter keeps to -1..50 in all runs if and only if neither admissions nor releases overlap among themselves |
| Worker.WorkerManager.SetUpstreams | worker/manager/pool_upstream_manager.go:55-63 | replaces the list and keeps the ticket counter and all sessions |
| Worker.WorkerManager.Next | worker/manager/pool_upstream_manager.go:65-76 | the upstream at the ticket modulo the list length; an empty list draws no ticket |
| Worker.WorkerManager.NextUpstream | worker/manager/worker.go:135-150 | one call at a time: which calls are sticky, including expiry on lookup and the nil dereference on an empty list |
| Worker.WorkerManager.SetUser | worker/manager/user_manager.go:48-54 | a new user remembers no session and counts from zero |
| Worker.WorkerManager.GetUser | worker/manager/user_manager.go:56-65 | one call at a time: found exactly if cached and not expired; an expired entry is dropped |
| Worker.WorkerManager.RemoveUser | worker/manager/user_manager.go:67-69 | forgets that user and its sessions alone |
| Worker.WorkerManager.CleanUp | worker/manager/user_manager.go:71-82 | one round with nothing in between drops exactly the expired users and leaves the others unchanged |
| Worker.WorkerManager.AddConnection | worker/manager/user_manager.go:163-173 | admits exactly below fifty and keeps every counter in -1..50 when calls do not overlap |
| Worker.WorkerManager.RemoveConnection | worker/manager/user_manager.go:175-183 | lowers a counter that is not negative, keeping -1..50 |
| Worker.SessionsStick | worker/manager/worker.go:139-148 | for calls one at a time: while a user stays cached a session keeps its first upstream, whatever else is called and however the list is replaced |
| Worker.TicketsDrawn | worker/manager/worker.go:135-150 | in every run of calls one at a time, tickets drawn are the calls that are not sticky plus the (user, session) pairs as they are first remembered |
| Worker.NewPairsDistinct | worker/manager/worker.go:139-148 | for calls one at a time those pairs are distinct while no user is dropped or cached anew |
| Sessions.StoredForGood | worker/manager/worker.go:139-148 | for concurrent calls: the upstream stored for a session stays in every continuation if and only if no call of that session is between its missed lookup and the store of another upstream |
| StickyCalls.ObjectStays | worker/manager/user_manager.go:56-69 | for concurrent calls and the resetting loop: a user who is not dropped, verified again or found expired stays cached as the same object, in every continuation, if and only if no call is about to remove the user and the loop holds no other object of that user |
| StickyCalls.SessionSticks | worker/manager/worker.go:139-148 | a call of a session that has just arrived is given the upstream u in every continuation in which the user is not dropped, verified again or found expired, if and only if u is stored for good in the cached object and in the one the resetting loop holds, and no call is about to remove the user |
| StickyCalls.OldObjectReturns | worker/manager/user_manager.go:185-196 | for every user and session a run from the start in which a session, its upstream stored for good, is given another one because the resetting loop has put the old object back |
| SessionTickets.TicketsAreDraws | worker/manager/worker.go:135-150 | in every interleaving the tickets drawn are the draws of calls that are not sticky plus those of missed lookups, and the counter is their number modulo 2^64 |
| SessionTickets.TicketsArePairs | worker/manager/worker.go:139-148 | in every run with no call left in flight, missed lookups, which are the tickets drawn for them and the calls that met an empty list, are the stored pairs plus the lookups that overlapped with a call of their pair plus the pairs given up on an empty list; if no call met one, tickets equal pairs if and only if none overlapped |
| SessionTickets.FirstUpstreamLost | worker/manager/worker.go:139-148 | for every user and session a run of two first calls at once in which the first upstream does not stick and two tickets go for one pair |
| Sessions.UndisturbedIsRoute | worker/manager/worker.go:135-150 | a call whose steps nobody interrupts is the call of one step, given that no two users share an object |
| UserCache.KeptExactly | worker/manager/user_manager.go:56-82 | for concurrent lookups, cleanups and resets: a cached entry stays until it expires, in every continuation without a new verification or removal on purpose, if and only if nobody holds an entry of that user that expires earlier and the resetting loop holds no other entry of that user |
| UserCache.RemovedExactly | worker/manager/user_manager.go:185-196 | a removed user stays removed, in every continuation without a new verification, if and only if the resetting loop holds no entry of that user |
| UserCache.Undisturbed | worker/manager/user_manager.go:56-82 | a lookup and a cleanup that nobody interrupts remove the user exactly if the entry has expired, for a lookup at its time and for the cleanup after it |
| UserCache.FreshUserDropped | worker/manager/user_manager.go:75-79 | for every user a run in which one verified again while a cleanup holds the old entry is dropped |
| UserCache.OldEntryReturns | worker/manager/user_manager.go:185-196 | for any two entries, runs in which a removed user, and a user removed and verified again, is cached with the old entry after the write-back |
| Worker.RoundRobinIsFair | worker/manager/pool_upstream_manager.go:71-73 | any k consecutive tickets select every position floor(k/n) or ceil(k/n) times |
| Worker.DrawsAreFair | worker/manager/pool_upstream_manager.go:65-76 | so do any k draws, if they do not wrap the 64-bit counter or the length of the list divides 2^64 |
| Worker.KthDraw | worker/manager/pool_upstream_manager.go:65-76 | the k-th draw from here returns the upstream at the counter plus k, modulo 2^64 and the length |
| Worker.NewManagerDraws | worker/manager/pool_upstream_manager.go:65-76 | a new manager goes through its list from the front, over and over |
| Worker.RunsDraw | worker/manager/worker.go:135-150 | in every run of calls on one list, those that draw, sticky or not, are given the upstreams of consecutive draws |
| Worker.CallsAreFair | worker/manager/worker.go:135-150 | so each of n distinct upstreams is given to floor(k/n) or ceil(k/n) of the k calls that draw, if they do not wrap the counter or n divides 2^64 |
| Worker.PlainCallDraws | worker/manager/worker.go:136-149 | a call that is not sticky draws whenever there is an upstream |
| Worker.FairAcrossWrap | worker/manager/pool_upstream_manager.go:71-73 | every window of draws from every counter value is fair if and only if the length of the list divides 2^64 |
| Worker.WrapSkipsLast | worker/manager/pool_upstream_manager.go:71-73 | otherwise a window from the last ticket on never chooses the last upstream |
| Worker.NeighbouringDraws | worker/manager/pool_upstream_manager.go:71-72 | exactly when consecutive draws stay neighbours across the wrap |
| IoCopy.IoCopy | worker/utils/functions.go:79-107 | what is written is, in order, a prefix of what was read; the callback counts sum to it; the loop ends on the source, with the first read error or the end of the file, if and only if every write took all it was offered without an error, having moved the data of all reads up to there; otherwise it ends at the first write that did not, with its error or that of a short write |
| IoCopy.CopyOnce | worker/utils/functions.go:82-84 | one round moves a prefix of one read, and writes nothing when nothing was read |
| IoCopy.ThroughputIsBytes | worker/services/socks.go:562-569 | in every interleaving of the two directions the throughput added is the sum of the two byte counters once both have stopped |
| IoCopy.UsageMissesLateBytes | worker/services/socks.go:555-562 | the usage record misses exactly the bytes counted after it |
| IoCopy.RecordCompleteForGood | worker/services/socks.go:555-562 | once written, the record stays complete in every continuation if and only if it is complete and both directions have stopped |
| IoCopy.ReportedTooEarly | worker/services/socks.go:555-562 | a run whose record misses a byte |
| IoCopy.CountersAreDeliveries | worker/services/socks.go:562-568 | in every interleaving each counter is the sum of one direction's callback counts, sent that of the copy to the client |
| IoCopy.TcpMirrorsUdp | worker/services/socks.go:299-309 | in every interleaving, a connection that carried the same bytes in each direction as some datagrams shows what the UDP relay records for these if and only if both directions carried the same number |
| Health.HealthCollector.IncrementConnection | worker/manager/health_collector.go:109-112 | two atomic additions with wrap-around at 32 and 64 bits |
| Health.HealthCollector.DecrementConnection | worker/manager/health_collector.go:114-116 | adding the complement of zero is subtracting one |
| Health.HealthCollector.RecordUpstreamLatency | worker/manager/health_collector.go:130-148 | the statistics of one upstream change and those of no other |
| Health.HealthCollector.BuildWorkerHealth | worker/manager/health_collector.go:157-238 | shows the values since the last report, leaves only the active connections, and rounds the rate down to the hour |
| Health.LatencyIsMean | worker/manager/health_collector.go:201-204 | the latency shown is the mean of the interval rounded down |
| Health.Truncates | worker/manager/health_collector.go:202 | the division rounds towards zero, whatever the signs |
| Health.StatsAreLatest | worker/manager/health_collector.go:130-148 | in every run the statistics of an upstream are those of its events since the last report: the tag of the first, the sum of the latencies, how many there were and how many failed, each modulo 2^64 |
| Health.SummaryIsOfLatest | worker/manager/health_collector.go:198-218 | a report shows just these, and the mean of the latencies rounded down |
| Health.ReportsConserve | worker/manager/health_collector.go:174-223 | for every interleaving of updates with the separate swaps of any number of reports, reported plus residual is all that was recorded if and only if no addition overflowed, and is off by a multiple of 2^64 otherwise |
| Health.OnesDoNotOverflow | worker/manager/health_collector.go:143-147 | counting by ones overflows nothing in fewer than 2^64 events |
| Health.ErrorsWithinRequests | worker/manager/health_collector.go:143-147 | errors never exceed requests for any upstream at any moment |
| Health.RatesAccountForTraffic | worker/manager/health_collector.go:176-186 | the rates of all reports account for the traffic up to less than 3600 bytes a report |
| Health.ActiveIsDifference | worker/manager/health_collector.go:109-116 | the unsigned counter is increments minus decrements if and only if that number fits it |
| Health.ActiveIsOpen | worker/manager/health_collector.go:109-116 | when each decrement follows its increment the counter is the number of open connections, up to 2^32 |
| Batcher.Service.Offer | captain/internal/server/service/analytics_service.go:28-38 | accepted exactly if the queue has room, with the missing source address filled in |
| Batcher.Service.Receive | captain/internal/server/service/analytics_service.go:162-167 | one record moves from queue to batch, and a full batch is flushed and its array reused |
| Batcher.Service.Tick | captain/internal/server/service/analytics_service.go:168-172 | a batch that is not empty is flushed |
| Batcher.RunConserves | captain/internal/server/service/analytics_service.go:154-175 | at every point of every run the accepted records are, in order, the flushed ones, the batch and the queue |
| Batcher.RecordsArriveAsOffered | captain/internal/server/service/analytics_service.go:28-38 | these are one for one, in order, what was offered while there was room: unchanged with a source address, and with 0.0.0.0 for a missing one |
| Batcher.RunBounds | captain/internal/server/service/analytics_service.go:154-175 | the batch stays below 1000 between steps, the queue within 10000, and no flush is empty or oversized |
| Batcher.FlushesAreFew | captain/internal/server/service/analytics_service.go:161-172 | at most one flush a tick and one a thousand records |
| Batcher.DrainFlushesAll | captain/internal/server/service/analytics_service.go:160-174 | receiving what is queued and one tick flush every accepted record exactly once, in order |
| Checker.DomainIsInMap | worker/utils/structs.go:139-161 | true for a parsable host exactly when a suffix of at least two labels is listed |
| Checker.WalkLabels | worker/utils/structs.go:145-160 | the loop over the labels finds a listed suffix exactly if there is one |
| Checker.LabelsAreSuffixes | worker/utils/structs.go:145-151 | the suffixes built label by label are exactly the dot-suffixes of the host |
| Checker.MatchingIsClosed | worker/utils/structs.go:139-161 | matching is closed under adding labels in front and monotone in the list |
| Checker.ListedNameMatches | worker/utils/structs.go:139-161 | a listed name matches itself and the names below it if it holds a dot, and nothing otherwise |
| Checker.ListMatches | worker/utils/structs.go:139-161 | a list matches what one of its names does |
| Checker.Checker.Add | worker/utils/structs.go:163-181 | known hosts keep their counters; listed ones and other methods are not added |
| Checker.Checker.IsNeedCheck | worker/utils/structs.go:108-117 | which items are probed |
| Checker.Checker.IsBlocked | worker/utils/structs.go:119-137 | blocked list before direct list, unknown hosts blocked, otherwise blocked unless successes outnumber failures |
| Checker.Checker.UseProxy | worker/services/socks.go:106-114 | the listener's decision: an unlisted host goes through an upstream the first time, and later unless its successes outnumber its failures |
| Checker.Checker.Probe | worker/utils/structs.go:80-101 | a probe writes back its own copy of the counters, however old |
| Checker.SuccessesBounded | worker/utils/structs.go:80-117 | in every run, overlapping rounds included, successes exceed neither five nor failures plus one, whichever is larger |
| Checker.ProbingStops | worker/utils/structs.go:108-137 | probing stops exactly at five successes that outnumber the failures; a host judged blocked is always still probed |
| Checker.ProbesCounted | worker/utils/structs.go:76-106 | when rounds do not overlap successes plus failures are the completed probes |
| Checker.VerdictIsMajority | worker/utils/structs.go:76-137 | when rounds do not overlap the counters are the succeeded and the failed probes, so that a host is judged not blocked if and only if more succeeded |
| Checker.SettledForGood | worker/utils/structs.go:76-117 | a settled verdict stays in every continuation if and only if no unfinished probe holds a copy it would write back, and without overlap none does |
| Checker.StaleCopyUnsettles | worker/utils/structs.go:76-106 | a run in which an overlapping round turns a settled verdict around |
| PoolGrouping.GetPools | captain/internal/server/service/pool_service.go:211-257 | the response is the group-by of the rows, with the two error cases |
| PoolGrouping.Group | captain/internal/server/service/pool_service.go:221-249 | the loop over map and ordered list of pointers builds that group-by |
| PoolGrouping.GetPoolByTag | captain/internal/server/service/pool_service.go:259-295 | the entry made of all the rows |
| PoolGrouping.IdsDistinct | captain/internal/server/service/pool_service.go:225-237 | one entry a distinct pool id, and every row's id has one |
| PoolGrouping.GroupingConservesUpstreams | captain/internal/server/service/pool_service.go:239-248 | no upstream is lost, invented or filed twice |
| PoolGrouping.EntryIsOfItsRows | captain/internal/server/service/pool_service.go:223-248 | an entry has the columns of the first row of its pool, and the upstreams of all rows of that pool that have one, each once and in row order |
| PoolGrouping.EntriesInOrder | captain/internal/server/service/pool_service.go:221-256 | entries stand in the order of the first rows of their pools |
| PoolGrouping.ByTagAgrees | captain/internal/server/service/pool_service.go:269-294 | grouping is local: the entry of each pool in the grouped response is the whole grouped response to its own rows, and the one of the single-pool query, however rows were interleaved |
| PoolGrouping.OnePoolGroups | captain/internal/server/service/pool_service.go:221-256 | rows of one pool group to that one entry |

## Left out

- FanInDelivery.EveryRunDelivers: `MarshalJSON` is `Items` followed by library code; `Iter` is the same protocol with an unbuffered output, for which delivery and the bound on its steps are proved but not completion without a reader.
- KeyList.StepInv: a producer unlocks and reports to the wait group in one step, and an entry carries its value along as history.
- FanIn.StepInv: a producer takes the read lock and makes its channel in one step.
- Slots.GivenBackOnce: a panic inside the release callback or inside `addConnection` and `removeConnection` is not modelled, and incrementing or decrementing the counter is one step, although Go leaves concurrent increments of a plain integer undefined.
- Slots.CounterBounds: the bounds are 49 + m for m overlapping admissions and -r for r overlapping releases, not 50 and -1; LimitsKept says when they agree.
- Worker.WorkerManager.NextUpstream: one call is one step; Sessions, StickyCalls and SessionTickets are about interleaved calls.
- Worker.SessionsStick: holds for calls one at a time and without the resetting loop; otherwise it fails (SessionTickets.FirstUpstreamLost, StickyCalls.OldObjectReturns), and Sessions.StoredForGood and StickyCalls.SessionSticks say exactly when not.
- Worker.TicketsDrawn: holds for calls one at a time; SessionTickets.TicketsAreDraws and SessionTickets.TicketsArePairs hold among concurrent calls.
- Worker.NewPairsDistinct: holds for calls one at a time; SessionTickets.TicketsArePairs counts what overlaps add.
- Worker.WorkerManager.GetUser: lookup, test and removal are one step; UserCache.KeptExactly takes them apart.
- Worker.WorkerManager.CleanUp: one round is one step; UserCache.KeptExactly takes it apart.
- StickyCalls.SessionSticks: a run may let the resetting loop copy fewer users than are cached.
- Sessions.StoredForGood: reading and writing the plain `Sessions` map of one user is one step each, although Go leaves concurrent writes to it undefined.
- Worker.DrawsAreFair: draws that cross 2^64 on a list of any other length are not fair, which FairAcrossWrap states.
- ConnPool.NetPool.Refill: negative capacities and the sleep between refills are not modelled, and the threshold test is one step with the loop; in the runs a refill may start at any time, which covers a test that is out of date. A put of nil does nothing and is left out.
- SocksClient.ConnectUpstreamSocks: looking a host up and where each write fails are parameters.
- Socks.HandleRequest: the text of an IP address is a parameter, of which only its colons and brackets are known; errors of writing replies are ignored as in the source.
- SocksClient.Ipv6NeverConnects: that an empty host name does not resolve is assumed of the resolver.
- UdpRelay.BuildPacket: which host names spell an IP address is a parameter; the text forms of addresses are taken to parse back to themselves.
- UdpRelay.ParsePacket: the map of sessions, its two-minute timeouts and the local reply with the bound port are not modelled.
- Checker.Checker.Probe: url.Parse is a parameter; a round takes its snapshot in one step, and the file loader is not modelled.
- Checker.Checker.Add: the fields of an item that play no part in a decision are left out, and whether the lower-cased method is "get" is a parameter.
- Health.HealthCollector.BuildWorkerHealth: CPU and memory samples, floating-point error rates and the status labels that depend on them are left out; the method alone is the undisturbed report, interleavings are covered by the run theorems.
- Health.LatencyIsMean: stated for latencies that are not negative and sums below 2^63 milliseconds.
- IoCopy.IoCopy: the rate limiter is not modelled; the Reader decides when the source ends.
- Batcher.Service.Offer: the database call of a flush is its list of batches; a failing insert drops the batch in the source and is not modelled. The website-access twin is the same generic service.
- PoolGrouping.GetPools: pool ids are integers, and the SQL join that produces the rows is not part of this model.
- ProxyString.PrintedPasswordScans: the text around the password in the three proxy formats is not modelled.
- The HTTP listener's slot accounting, which has no release on its connect-error path (worker/services/http.go:113-121), so that the balance law does not apply to it.
- The websocket protocol between captain and worker, user verification, the captain's handlers, middleware, one-time passwords, configuration and SQL.
- Disabled services, the rate limiter and upstream weights, which selection does not use.

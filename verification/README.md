# Frelay, modelled and verified

Frelay is a TCP relay. Peers log in to a server, announce files to each other and fetch them piece by piece
through the server. This project models the server, the client's protocol engine with its file transfers, the
wire format, the user database, the configuration file and the random number generator, and proves what the
parts promise, for all inputs and over whole runs.

## How the model is built

The program works by updating things in place, and so does the model: the message buffer (`Buffer.Mbuf`), the
database (`Database.Database`), the server's slots and descriptor sets (`Server.Relay`), the client
(`Client.Engine`), the configuration table with its line buffer (`Config.Config`) and the generator
(`Prng.Generator`) are classes with loops over their fields. Every method is proved to do what a function on
values says; the functions are in `Message`, `UserDb`, `ServerSpec`, `ServerIo`, `ClientSpec`, `ClientIo` and
`ConfigFile`. The theorems are about those functions and about transition systems whose steps they are.

| file | content |
|---|---|
| Bytes, Message, Mbuf | byte order, header, attributes, the buffer and its decoding cursor |
| Channel, ChannelRuns | send queue with partial writes, receive buffer with partial reads, every interleaving of both |
| UserFile, UserDb, UserDbMap, UserDbExact, Database | the file's text, the list, its refinement of a map, restart |
| UserDbRuns | sequences of operations, some of whose saves fail |
| UserNames, UserLines | names and lines of the account file, byte by byte |
| ServerSpec | one function per operation of the server, and the server as a transition system |
| ServerInv, ServerIds, ServerPeers, ServerQueues | descriptor sets, identities and the size of queued messages, kept by every step |
| ServerRuns, ServerAuth, ServerKeys, ServerDeath | theorems over runs, authentication, stored keys, the end of the process |
| ServerReload | what the account file brings back: the one save that identities depend on, and forged accounts |
| ServerAnswers, ServerAccounts, ServerUpkeep | what the server answers and keeps, in type numbers, codes, bytes and seconds |
| ServerIo, ServerPass, Server | one input/output pass, what it does to each slot, the class |
| ClientSpec, ClientIo, ClientLimits, Client | the client's operations, its connection, what one message can carry, the class |
| ClientAnswers, ClientLists | what the client answers and keeps, likewise |
| LoginAgreement, LoginRuns, LoginLives | one client, the whole server and the two streams between them |
| TransferFacts, Transfers | one exchange of a transfer; any number of clients and downloads as a transition system |
| TransferFrame, TransferServe, TransferTake, TransferSteps, TransferTurnover, TransferOther | every kind of step keeps the invariant |
| TransferRuns, TransferProgress, TransferOffers | exact copies, termination, how a download comes about |
| TransferRelay | offers and pieces through the server, one round at a time |
| TransferShared | two downloads of one client without file names of their own |
| Joint, JointServer, JointRuns | clients, server and whole messages between them as a run of the transfers |
| Streams, JointSlots, JointBytes, JointWire, JointStart | the same with the byte streams of all connections, and where such runs start |
| ConfigFile, ConfigLines, Config | configuration text, its lines byte by byte, the in-place parser |
| Prng | generator and range reduction |

## What is proved

* **Transfers** (`TransferRuns`, `TransferProgress`). For any number of simultaneous downloads between any
  clients, in every run: each running download has exactly one request or response outstanding, its part file is
  exactly the first `offset` bytes of the source, fresh or resumed; it ends only when it is complete, with the
  whole source under the final name; and no client ends its process. A download can never get stuck, and its
  messages make at most four moves per lacking byte and three more. All this rests on file names: a download is
  safe from every response to another one of the same client if its part file is neither the part file nor the
  final name of the other, and exactly when it is not is stated for each kind of response (`TransferShared`).
* **End to end** (`JointWire`). Clients, the server and the byte streams between them, with reads and writes of any
  size in any order, while clients log in and out, take over ids and come back: as long as those that take part in a
  download stay authenticated, every run is a run of the transfers, so part files are exact and finished downloads
  whole with the real server in the middle. Any save may fail; of ids it takes only that they do not run out.
* **Relaying** (`TransferRelay`, `ServerAnswers`). Whatever one client sends another reaches it through the server, and
  nobody else; nothing of any other type does. An offer and its answer make that trip, and every round of a download
  makes the part file longer by at least a byte of the source, until it is whole.
* **Answers** (`ServerAnswers`, `ServerAccounts`, `ClientAnswers`). To every message, by the numbers on the wire: what
  server and client answer, with which code and attributes, and what changes. LOGIN under an unregistered name is
  refused exactly when the name is taken in whatever case; who has registered can log in with the same key.
* **Time** (`ServerUpkeep`, `ClientLists`). Which connections, receive buffers, requests and transfers survive, and
  where, in seconds.
* **Identities** (`ServerRuns`, `ServerPeers`). No two authenticated slots ever share an id, whatever the account file
  holds and whichever saves fail, until ids run out, so a forwarded message carries its sender's true id and reaches
  the one possible recipient. And over a whole run no id ever stands for two names, if the file starts without
  duplicate ids and can be written whenever the only account is dropped; no other save matters, and that one does
  (`ServerReload.OneNameTwoIds`).
* **Authentication** (`ServerAuth`). In every run, from any account file and with any saves failing, a slot is
  authenticated only if its connection's last LOGIN named the slot's name and, where that name was registered at that
  LOGIN (an account that comes back from the file included), a digest followed that equals the key the slot held then.
  That is the key stored for the name if and only if the stored key has the prefix or the slot held the same key
  before; in any case it was stored for an account that the same connection had named.
* **Login agreement** (`LoginRuns`). However requests interleave, the state of the client after it has processed
  what is on its way is the server's, unless it has ended, and exactly one challenge or AUTH is in flight while the
  server waits for it; every response of the server finds its pending request. Of the server that takes only that the
  accounts' keys have the prefix and that ids do not run out. A client that has offered nothing never ends
  (`LoginLives`).
* **Channel** (`ChannelRuns`, `ServerQueues`, `ClientLimits`). Partial reads and writes deliver exactly the enqueued
  messages in order, provided that each fits; everything server and client ever queue does.
* **Database** (`UserDbMap`, `UserDbRuns`, `UserDbExact`). List and file together are a map, as long as the file can be
  written when the only account is dropped; an account whose drop could not be saved comes back exactly when memory
  becomes empty before the file is written; what the file can carry is characterised exactly.
* **Readiness and compaction** (`ServerInv`, `ServerIo`, `ServerPass`, `Server`). Descriptor sets agree with slots and
  queues after every step; no pass reaches into an empty queue, and none ends before the last ready descriptor;
  compaction keeps the surviving slots in order.
* **Wire format** (`Message`, `Buffer`). Marshalling and attributes are inverse to their decoding; on arbitrary
  bytes the cursor is a functional parser, ends, and stays inside the buffer.
* **Configuration and random numbers** (`ConfigFile`, `ConfigLines`, `Prng`). What is written is restored exactly under
  a condition that is also necessary; what any line means, numbers in three bases included, is stated byte by byte; the
  range reduction has no bias.

### Where the code does not do what one might expect

* Two offers of one file name are downloaded into one part file, and nothing prevents accepting both: the next piece
  of either breaks the other (`TransferShared.SharedPartFile`, `TransferShared.SameNameBreaks`). So does the end of a
  download of "x.part" to one of "x", whose part file it replaces (`TransferShared.FinalNameBreaks`).
* Accepting onto an existing part file asks for what comes behind it, whatever it holds. The peer answers with data
  exactly when the part file is shorter than the source; a complete one is refused, the client takes no notice of the
  refusal, and the file never gets its final name (`TransferFacts.ResumeAnswered`, `TransferFacts.RefusalIgnored`).
* When the save after dropping the last account fails, the next lookup brings the account back
  (`UserDbMap.Resurrection`), and with it every account that was dropped before without a save
  (`UserDbRuns.BackAfterTwoDrops`; exactly when: `UserDbRuns.DropComesBack`). Its former owner may have another id by
  then, so that one name has two (`ServerReload.OneNameTwoIds`).
* For the same reason REGISTER may be answered with an error although the account found afterwards is exactly the one
  that was asked for (`ServerAccounts.RefusedButStored`; exactly when: `ServerAccounts.RegisterAnswers`).
* REGISTER accepts a key with a line feed. After a restart the rest of it is another account, of any name, id and key:
  two accounts may share an id, and a key may lack the prefix (`ServerReload.RegisterMakesAccount`).
* A stored key without the "plain-text " prefix is compared with nothing. The server waits for authentication while
  the client is told of an error (`LoginRuns.PrefixDecides`); the slot keeps the key of the account it named before,
  which then authenticates it as the other one (`ServerKeys.StaleKeyLetsIn`); and without such a key any digest ends
  the server (`ServerDeath.NoKeyEndsServer`).
* `doc/protocol.txt` says that messages of the server have source 0. An error about a missing peer carries that
  peer's id as its source (`ServerRuns.Misdirected`).
* The name pattern is compiled with `REG_NEWLINE` and so accepts a name with one good line among several; the
  file then cannot carry it (`UserDbExact.RoundTripExactly`).
* The server ends its process exactly when a connection, logged in or not, completes a header whose length is beyond
  the limit, when the answer to PEERLIST exceeds one message, or on a digest for a slot without a key
  (`ServerDeath.StepDies`; `ServerDeath.HeaderEndsServer`).
* The client ends its process on such a header, too; when it is asked for more of an offered file than it can allocate,
  however small the file (`ClientLimits.SizeEndsClient`), or for more than one message can carry and it reads that
  much; or when its own password does not fit an AUTH request; and by no other message (`ClientLimits.ReadDies`).

## Model

| member | source | states |
|---|---|---|
| Bytes.SwapStores2 | lib/bendian.h:126-141 | storing HTON16 of a value on a little-endian host leaves its bytes in network order |
| Bytes.SwapStores4 | lib/bendian.h:126-141 | the same for 32 bits |
| Bytes.SwapStores8 | lib/bendian.h:126-141 | the same for 64 bits |
| Bytes.SwapLoads2 | lib/bendian.h:126-141 | NTOH16 of two bytes loaded by such a host is their big-endian value |
| Bytes.SwapLoads8 | lib/bendian.h:126-141 | the same for 64 bits |
| Bytes.OrSum | lib/bendian.h:126-141 | the bitwise or of terms that do not overlap, as the swaps form it, is their sum |
| Bytes.FromBeBe | message.h:68-83 | a header field that was set reads back as the same number |
| Bytes.BeFromBe | message.h:68-83 | setting a field to what it holds changes no byte |
| Message.ErrOfRes | message.h:98-119 | turning a response type into an error type gives the error of the same family |
| Message.UnmarshalMarshal | message.h:57-83 | reading the header fields and payload of a message on the wire gives the message back, and its length field counts the payload |
| Message.MarshalUnmarshal | message.h:57-83 | bytes with a right length field are the message read from them |
| Message.HeaderSlices | message.h:57-83 | where each header field lies on the wire: type at 0, length at 2, reserved at 4, time at 8, source at 16, destination at 24, transaction at 32, payload from 40 on |
| Message.TlvOfEncAttr | message.c:148-234 | decoding consumes exactly the octets of one encoded attribute, padding included, whatever follows |
| Message.EncAttrSlices | message.c:182-213 | where the type, the length and the value of an attribute lie |
| Message.EncodeDecode | message.c:148-234 | any list of attributes is decoded to the same types and values, then to the end; the payload stays a multiple of 8 |
| Message.NextAttrib | message.c:217-234 | a decoded value lies inside the buffer and the cursor never passes the end by more than 7 |
| Message.CursorIsTlv | message.c:217-240 | on arbitrary bytes, iterating the cursor sees exactly the attributes of the functional parser, at most one per 8 bytes of payload |
| Buffer.PutField | message.h:77-83 | a header write changes its own field only |
| Buffer.TypesCarry | message.c:148-178 | which attribute types there are, in numbers, and what each carries: text with NUL, octets, a number of eight octets, nothing |
| Buffer.WrittenAttr | message.c:182-213 | the stores over a zeroed tail form exactly one encoded attribute, and nothing before it changes |
| Buffer.AppendedAttr | message.c:148-215 | the stores into the grown area append the encoded attribute with zero padding and set the length field |
| Buffer.Mbuf.constructor | message.c:46-60 | a new buffer holds a header and its offset is 0 |
| Buffer.Mbuf.Resize | message.c:69-83 | dies exactly beyond the maximal payload; otherwise the size is right, the common prefix stays and the offset is clipped |
| Buffer.Mbuf.Grow | message.c:85-91 | appends zeroed octets or dies |
| Buffer.Mbuf.HdrSet | message.h:77-83 | writes one header field in network order |
| Buffer.Mbuf.Compose | message.c:93-110 | the buffer is a fresh message with these fields and no payload |
| Buffer.Mbuf.ToResponse | message.c:112-126 | same family and transaction, class response, source and destination exchanged, no payload |
| Buffer.Mbuf.AddAttrib | message.c:148-215 | appends one padded attribute and keeps the length field equal to the payload; dies exactly if the type is unknown or the message would be too large |
| Buffer.Mbuf.Append | message.c:179-214 | grows by the padded attribute and writes it, or dies when the message would be too large |
| Buffer.Mbuf.HdrClassToErr | message.h:116-119 | only the class changes, to error |
| Buffer.Mbuf.ToErrorResponse | message.c:128-138 | an error of the same family to the sender, with code and text as attributes |
| Buffer.Mbuf.ResetGetAttrib | message.c:236-240 | the cursor is at the first attribute |
| Buffer.Mbuf.GetNextAttrib | message.c:217-234 | finds exactly the next attribute with its bytes in the buffer, or fails and leaves the cursor |
| Channel.Written | srvmain.c:865-896 | a queue that was in order is in order after a partial or complete write of its head |
| Channel.Feed | srvmain.c:813-862 | a receive buffer in order is so after any read; a delivered message respects the size limit; the process ends exactly when the header is complete and announces more than the limit |
| Channel.UnsentGrows | srvmain.c:457-469 | enqueueing appends exactly the message's bytes to what is still to be sent |
| Channel.UnsentShrinks | srvmain.c:865-896 | a write of any size takes exactly its bytes from the front of what is still to be sent |
| Channel.FeedKnows | srvmain.c:813-862 | fed with the bytes of a message in any pieces, the receive loop delivers that message at its last byte and neither earlier nor another |
| ChannelRuns.StepKeeps | srvmain.c:796-901 | bytes written plus bytes queued are the messages enqueued, bytes read are the messages delivered plus the buffer: kept by every step |
| ChannelRuns.ReliableChannel | srvmain.c:457-486 | in every interleaving of enqueues, partial writes and partial reads: a prefix of the enqueued messages is delivered in order, nothing is missing once all is read, and the receiver never dies |
| UserFile.ReadHex | srvuserdb.c:124-159 | an id printed with 16 hexadecimal digits is read back and scanning stops behind it |
| UserFile.Fgets | srvuserdb.c:124-159 | a read is a nonempty prefix of the text and fits the buffer |
| UserFile.ParseRendered | srvuserdb.c:124-180 | a storable account is parsed back from its line, keys with bars included, with or without the newline |
| UserLines.HexReads | srvuserdb.c:145-145 | an id is read in hexadecimal, behind white space, a sign and 0x, in either case; what is too large becomes the largest number, a negative one wraps, and reading stops behind the digits |
| UserLines.LineReads | srvuserdb.c:136-159 | a line, whoever wrote it, is an account if it has an id other than zero and two bars: the name between them, the key behind them |
| UserLines.KeyEnds | srvuserdb.c:136-159 | the key ends before the first carriage return; without one, before the first line feed |
| UserLines.LineWritten | srvuserdb.c:161-180 | an account is written as 16 lower-case hexadecimal digits, a bar, the name, a bar, the key and a line feed |
| UserLines.FileReads | srvuserdb.c:124-159 | the file is read line by line, 15999 bytes at most at a time: an account is added unless its name is bad or known, and the counter stays above its id |
| UserLines.FileKeeps | srvuserdb.c:124-180 | the condition of RoundTripExactly in numbers: id not 0, no line feed and no bar in the name, no line feed and no carriage return in the key, 15981 bytes for both |
| UserDbMap.LookupRefines | srvuserdb.c:189-193 | lookup answers from the map and changes nothing observable |
| UserDbMap.AddRefines | srvuserdb.c:195-202 | adding is insertion of a new, validly named account, with the counter kept above its id, whether or not the file can be written |
| UserNames.NameHasStretch | srvuserdb.c:50-70 | a name is valid if and only if between line feeds or its ends it has 3 to 31 bytes of 0-9, A-Z, a-z and the underscore, and nothing else |
| UserNames.AddsNames | srvuserdb.c:80-98 | of a name that is not known, adding succeeds if and only if it has such a stretch; it is found then, with the key and the id given or the counter's, and not found otherwise |
| UserNames.AddsNothing | srvuserdb.c:80-98 | adding a known name fails and leaves the list alone |
| UserNames.DropsNames | srvuserdb.c:204-211 | dropping succeeds if and only if the name was found; it is found afterwards exactly if the drop cannot be saved, nothing is left in memory and the file still holds it |
| UserDbMap.DropRefines | srvuserdb.c:204-211 | dropping is removal from the map and no reload brings the account back, if the file can be written while one account is left; no other save matters |
| UserDbMap.TempIdRefines | srvuserdb.c:213-217 | a temporary id is the counter, which moves on; accounts are untouched |
| UserDbMap.LoadSettles | srvuserdb.c:124-159 | loading again changes nothing, although it is triggered whenever the list is empty |
| UserDbMap.RegisterIsUpdate | srvmain.c:529-538 | drop then add updates one account and leaves every other alone, whichever save fails but that of dropping the only account |
| UserDbMap.DropWithoutSave | srvuserdb.c:204-211 | with a failed save the very next lookup misses the account if and only if memory keeps another one or the file does not hold it |
| UserDbMap.Resurrection | srvuserdb.c:204-211 | a failed save after dropping the only account brings it back at the next lookup |
| UserDbMap.Reloaded | srvuserdb.c:124-159 | with nothing in memory a lookup finds exactly what was saved under the name |
| UserDbRuns.LinesFind | srvuserdb.c:124-159 | after loading a name is found if and only if memory or a line of the file held it |
| UserDbRuns.FoundAgain | srvuserdb.c:189-217 | after any operations on other names, with any saves failing, a name that memory did not hold is found if and only if memory was empty on the way while a line of the file held it |
| UserDbRuns.DropComesBack | srvuserdb.c:204-211 | an account whose drop could not be saved is found again if and only if the file held it and memory becomes empty before the file is written |
| UserDbRuns.BackAfterTwoDrops | srvuserdb.c:204-211 | of two accounts dropped without a save the first is gone after the first drop and back after the second |
| UserDbMap.Restart | srvuserdb.c:124-180 | a new server loads the same map, in reverse list order, with a counter one above the largest id |
| UserDbExact.RoundTripExactly | srvuserdb.c:124-180 | a validly named account comes back from its file if and only if it is storable: nonzero id, no newline or bar in the name, no CR or LF in the key, line within the buffer |
| UserDbExact.KeyMakesAccount | srvuserdb.c:161-180 | a key with a line feed followed by an account's line is loaded, after a restart, as two accounts |
| Database.Database.constructor | srvuserdb.c:53-55 | an empty list and counter 1 |
| Database.Database.Lookup_ | srvuserdb.c:72-78 | finds the first entry of the name |
| Database.Database.AddEntry_ | srvuserdb.c:80-98 | adds at the head unless the name is invalid or taken; the counter stays above every id (which names: `UserNames.AddsNames`) |
| Database.Database.DropEntry_ | srvuserdb.c:100-122 | unlinks the first entry of the name and no other |
| Database.Database.Load_ | srvuserdb.c:124-159 | reads the file line by line into an empty list |
| Database.Database.Save_ | srvuserdb.c:161-180 | the file becomes the rendering of the list, or stays if it cannot be opened |
| Database.Database.LookupName | srvuserdb.c:189-193 | load, then look up |
| Database.Database.AddEntry | srvuserdb.c:195-202 | load, add, save |
| Database.Database.DropEntry | srvuserdb.c:204-211 | load, drop, and save if something was dropped |
| Database.Database.GetTempId | srvuserdb.c:213-217 | load, then hand out the counter |
| ServerInv.DispatchKeepsFds | srvmain.c:488-788 | processing any message keeps read set, write set and maximum in agreement with slots and queues, also when AUTH closes other slots |
| ServerInv.UpkeepKeepsFds | srvmain.c:411-449 | so does closing timed out slots and moving the others |
| ServerInv.StepKeepsFds | srvmain.c:328-397 | so does every step of the server |
| ServerIds.LoginTemporary | srvmain.c:567-589 | an unregistered name gets an id that was never issued; the bijection of ids and names in use is kept |
| ServerIds.LoginRegistered | srvmain.c:591-602 | a registered name gets the id of its account, whatever key the slot is left with; the bijection is kept |
| ServerIds.AuthTakesOver | srvmain.c:622-625 | authentication closes every other slot with the id, so authenticated ids stay unique |
| ServerIds.RegisterKeepsIds | srvmain.c:515-541 | registration binds the slot's own id and name, whichever save fails but that of dropping the only account |
| ServerIds.StepKeepsIds | srvmain.c:488-788 | every step keeps ids and names one to one, issued ids below the counter, authenticated ids unique, and binds nothing but what was bound or a fresh id, if the file can be written when the only account is dropped |
| ServerPeers.LoadBelow | srvuserdb.c:124-159 | loading never lowers the counter and leaves it above every id in memory, if no account carries the last id |
| ServerPeers.StepKeepsPeers | srvmain.c:488-788 | whatever the account file holds and whichever saves fail, every step keeps ids of logged in slots and accounts nonzero and below the counter and authenticated ids unique, and never lowers the counter, as long as it does not wrap |
| ServerRuns.InitialInv | srvmain.c:236-303 | a fresh server satisfies all invariants if its account file uses no id twice and none at the end of the range |
| ServerRuns.ReadinessInRuns | srvmain.c:349-397 | in every reachable state, whatever the account file and whether or not it can be written: the descriptor sets are exactly those of the open slots and of the filled queues, and no descriptor is beyond what a set can hold |
| ServerRuns.IdentityBinding | srvmain.c:567-640 | over a whole run an id never stands for two names, at any time or at different times; ids and names correspond one to one; the counter exceeds every id in use; the file can be written when the only account is dropped |
| ServerRuns.ReachableStates | srvmain.c:796-901 | in every reachable state, whatever the account file and whichever saves fail, the descriptor sets are exactly those of the open slots and of the filled queues, the maximum bounds them, no two authenticated slots share an id, and no id of a logged in slot or an account will be issued again |
| ServerRuns.UniqueDelivery | srvmain.c:705-788 | a forwardable message reaches the only peer with the addressed id, unchanged but for the sender's true id, and nobody else |
| ServerRuns.UniqueDeliveryInRuns | srvmain.c:705-788 | that holds in every reachable state, whatever the account file and whichever saves fail |
| ServerRuns.Misdirected | srvmain.c:705-760 | without such a peer only the sender hears of it, by an error whose source is the absent peer's id |
| ServerRuns.ServerReplies | srvmain.c:488-670 | a reply of the server has the family and transaction of the request and goes back to its sender; every request gets one |
| ServerRuns.OneOutcome | srvmain.c:488-788 | a message ends in at most one queue; a request in exactly one, forwarded as it is or answered so that the pending entry matches |
| ServerAnswers.Delivers | srvmain.c:705-748 | a message of one of the types 0110, 0111, 0112, 011a, 0121, 0122, 012a, 0200, 0201, 0202 and 020a for a peer that is logged in is appended to that peer's queue, stamped with the sender's id, and nothing else changes |
| ServerAnswers.DeliversNothingElse | srvmain.c:749-756 | of any other type nothing is delivered: a request is refused with 400, the rest is dropped |
| ServerAnswers.DeliversNot | srvmain.c:676-728 | nor is anything for an id nobody is logged in with (421), for everybody (501 for a request), or of a sender that is not logged in (403) |
| ServerAnswers.OtherAnswers | srvmain.c:496-514 | to the server: 403 for whoever is not logged in, 0202 with OK for a PING, 418 for a request it does not know, nothing for the rest |
| ServerAnswers.GuestAnswers | srvmain.c:559-589 | LOGIN under a name that is not registered is refused with 409 and leaves the slot as it was if and only if an open slot has a name of equal length that differs at most by case of ASCII letters; otherwise the slot is logged in under that name with the id of the counter |
| ServerAnswers.AccountAnswers | srvmain.c:591-602 | LOGIN under a registered name: a challenge of exactly the prefix, and the slot holds the key, if the stored key has the prefix; 405 otherwise; the slot has the id and name of the account |
| ServerAnswers.BadLoginAnswers | srvmain.c:559-566 | LOGIN twice or without a name: 400, and nothing changes |
| ServerAnswers.RightDigestAnswers | srvmain.c:605-629 | AUTH with the digest that equals the key: OK, the slot is logged in, every other open slot with its id is closed and no other touched |
| ServerAnswers.BadAuthAnswers | srvmain.c:605-621 | any other AUTH: 401 for a wrong digest, 400 out of turn or without one, and back to the state before LOGIN |
| ServerAnswers.LogoutAnswers | srvmain.c:630-644 | LOGOUT: OK, and the slot has neither id nor name nor key |
| ServerAnswers.PeerAttrsAt | srvmain.c:645-657 | the list of peers is an attribute 0010 with the id and one 0011 with the name for each slot that is logged in, at its rank among those |
| ServerAnswers.PeerlistAnswers | srvmain.c:645-657 | PEERLIST is answered with exactly that list if it takes no more than 65400 octets, and ends the server otherwise |
| ServerAnswers.NoticesGo | srvmain.c:488-762 | every error, and every OK but that to a PING, carries as its second attribute the text meant for it |
| ServerAccounts.BadRegisterAnswers | srvmain.c:515-525 | REGISTER before login (401) or without a key (400) changes nothing |
| ServerAccounts.RegisterAnswers | srvmain.c:526-541 | REGISTER with key k is answered with OK if and only if the name has a good stretch and no account of it comes back from the file; the account found then has the slot's id and the key "plain-text " + k; otherwise with 423 |
| ServerAccounts.RefusedButStored | srvmain.c:526-541 | an account comes back: the answer is 423 although what is found is exactly what was asked for |
| ServerAccounts.DropAnswers | srvmain.c:542-558 | DROP is answered with OK if and only if the name was found, with 404 otherwise; it is found afterwards exactly if it comes back |
| ServerAccounts.RegisteredLogsIn | srvmain.c:515-629 | after an OK to REGISTER, LOGIN from another connection under the name and AUTH with the key, prefix included, end logged in under the same id, and the first connection is closed |
| ServerUpkeep.UpkeepKeeps | srvmain.c:411-449 | the k-th slot is found again, with id, name, key, state and queue, at its rank among the slots that were active within conn_timeout seconds; its receive buffer is gone exactly after more than msg_timeout seconds; behind those all slots are unused |
| ServerUpkeep.UpkeepCloses | srvmain.c:411-449 | a connection survives, and its descriptor stays in the sets, if and only if its last activity is no more than conn_timeout seconds ago |
| ServerUpkeep.UpkeepMax | srvmain.c:411-449 | the maximum is the largest descriptor in use |
| ServerUpkeep.ReadBegins | srvmain.c:399-409 | a read after more than msg_timeout seconds begins a new header, any other goes on; both count as activity |
| ServerUpkeep.AcceptTakes | srvmain.c:349-397 | a connection takes the first unused slot, in the state before LOGIN, or is dropped: descriptor 1024 or more, blocking, no slot |
| ServerUpkeep.WriteMoves | srvmain.c:865-896 | a write is activity and moves on in the head of the queue; with the last message done the descriptor leaves the write set |
| ServerUpkeep.CloseFrees | srvmain.c:328-347 | a closed slot is unused, without queue, name and key, and its descriptor in neither set |
| ServerRuns.PeerlistRoundTrip | cltmain.c:1183-1196 | the client decodes the answer to exactly the ids and names of the authenticated slots |
| ServerAuth.StepEffect | srvmain.c:559-644 | after any step an open slot is new, or keeps its login, or was changed by a message of its own connection in one of the permitted ways |
| ServerAuth.AuthenticationSafety | srvmain.c:559-629 | over whole runs, from any account file and with any saves failing, a slot is authenticated only after a LOGIN under its name and, if that was registered then, in memory or in the file to be loaded, a digest equal to the key the slot held after that LOGIN, on the same connection with no login between |
| ServerAuth.StoredKeyPresented | srvmain.c:591-621 | that digest is the key stored for the name if and only if the stored key has the prefix or the slot held the same key before |
| ServerAuth.KeyHistory | srvmain.c:591-600 | every key in a slot was stored, with the prefix, for an account that a LOGIN of the same connection named |
| ServerAuth.SomeKeyPresented | srvmain.c:591-621 | whatever the stored keys look like, an authenticated slot of a registered name has presented such a key since its last LOGIN |
| ServerKeys.StepKeepsKeys | srvmain.c:526-541 | if every stored key has the prefix it stays so, in memory and in the file to be loaded, and every slot that waits for authentication holds a key; the file can be written when the only account is dropped |
| ServerKeys.StepKeepsArmed | srvmain.c:591-600 | while the stored keys have the prefix every slot that waits for authentication holds a key, whichever saves fail |
| ServerKeys.StaleKeyLetsIn | srvmain.c:591-621 | LOGIN and a failed AUTH as one account, LOGIN as one whose key has no prefix, and the key of the first account authenticates as the second |
| ServerReload.OneNameTwoIds | srvmain.c:542-604 | two accounts dropped without a save, the owner of one logged in again in between: the next LOGIN under his name finds the account, and one name has two ids; every save but the last might fail |
| ServerReload.RegisterMakesAccount | srvmain.c:526-541 | a key with a line feed registers a second account for the time after a restart, so that ids may be shared and keys may lack the prefix |
| ServerDeath.DiesOf | srvmain.c:605-657 | processing a message ends the process if and only if it asks for a peer list beyond the limit, or presents a digest to a slot that waits for authentication without a key |
| ServerDeath.DiesOnlyOfPeers | srvmain.c:645-657 | if every stored key has the prefix, only the peer list is left |
| ServerDeath.StepDies | srvmain.c:838-862 | a step ends the process if and only if it completes a header with a length beyond the limit or such a message |
| ServerDeath.HeaderEndsServer | srvmain.c:846-852 | forty bytes with such a length end it, from any connection |
| ServerDeath.NoKeyEndsServer | srvmain.c:591-621 | LOGIN under a name whose key has no prefix, then any digest, ends it |
| ServerQueues.StepKeepsFits | srvmain.c:457-469 | every queued message is within the size limit: kept by every step |
| ServerQueues.AllQueuesFit | srvmain.c:457-469 | and so in every run |
| ServerIo.SelectSnapshot | srvmain.c:865-868 | what select reports writable has something to send |
| ServerIo.GainsKeepSnapshot | srvmain.c:796-901 | that stays true for slots not yet visited while slots close or gain messages |
| ServerIo.PassIsRun | srvmain.c:796-901 | a pass over the ready descriptors is a run of the transition system, so every theorem over runs holds after it |
| ServerPass.StopsInTime | srvmain.c:796-901 | counting the ready descriptors down and stopping at zero leaves no ready slot out: the pass is the one over all slots, whatever connections close on the way |
| ServerPass.QuietSlot | srvmain.c:802-868 | nothing happens to a slot that is not ready |
| ServerPass.ReadableSlot | srvmain.c:806-862 | a readable slot: nothing yet, the end or an error, which close it, or as many bytes as its receive buffer takes |
| ServerPass.WritableSlot | srvmain.c:865-896 | a writable slot: nothing yet, an error, which closes it, or as much as the head of its queue takes |
| Server.Relay.constructor | srvmain.c:236-303 | all slots unused, the listening socket alone in the read set, the database loaded |
| Server.Relay.CloseClient | srvmain.c:328-347 | the slot is unused and its descriptor in neither set |
| Server.Relay.AcceptClient | srvmain.c:349-397 | the first free slot takes the connection; it is dropped if no descriptor set can hold it, if it cannot be made nonblocking, or without a free slot |
| Server.Relay.ResyncClient | srvmain.c:399-409 | a receive buffer idle for too long is discarded, nothing else changes |
| Server.Relay.Upkeep | srvmain.c:411-449 | compaction: the slots that have not timed out form a prefix, in order, with queues and receive state; no live slot is overwritten; sets and maximum agree (who has timed out, in seconds: `ServerUpkeep.UpkeepKeeps`) |
| Server.Relay.DisposeOrResync | srvmain.c:417-433 | closes a timed out slot, resynchronises another (after how many seconds: `ServerUpkeep.UpkeepKeeps`) |
| Server.Relay.EnqueueMsg | srvmain.c:457-469 | appends to one queue and puts its descriptor into the write set |
| Server.Relay.Dequeue | srvmain.c:471-486 | removes the head; an emptied queue leaves the write set |
| Server.Relay.ProcessRegister | srvmain.c:515-541 | drops and adds the account of the slot, whether or not the file can be written each time, or answers with the right error (which answer when: `ServerAccounts.RegisterAnswers`) |
| Server.Relay.ProcessDrop | srvmain.c:542-558 | drops the account of the slot, whether or not the file can be written, or answers with the right error |
| Server.Relay.NameTaken | srvmain.c:569-573 | whether an open slot uses the name, case ignored (which letters are the same: `ServerAnswers.GuestAnswers`) |
| Server.Relay.ProcessLogin | srvmain.c:559-604 | a temporary login, a challenge, or an error, with the new state of the slot (which when: `ServerAnswers.GuestAnswers`, `ServerAnswers.AccountAnswers`) |
| Server.Relay.CloseOthers | srvmain.c:622-624 | exactly the other open slots with the id are closed |
| Server.Relay.ProcessAuth | srvmain.c:605-629 | authenticates on the right digest and takes over the id; otherwise back to the state before login |
| Server.Relay.ProcessLogout | srvmain.c:630-644 | forgets id, name and key |
| Server.Relay.ProcessPeerlist | srvmain.c:645-657 | the encoded list of peers, or the end of the process if it does not fit |
| Server.Relay.ProcessServerMsg | srvmain.c:488-674 | the guard for slots that are not authenticated and the choice by message type |
| Server.Relay.ProcessBroadcastMsg | srvmain.c:676-703 | requests are refused, nothing is delivered |
| Server.Relay.ProcessForwardMsg | srvmain.c:705-762 | forwards to the first slot that matches, or answers with the right error (which types: `ServerAnswers.Delivers`, `ServerAnswers.DeliversNothingElse`) |
| Server.Relay.ProcessMessage | srvmain.c:764-794 | stamps the sender's id, chooses by destination and sends the reply back |
| Server.Relay.TakeBytes | srvmain.c:838-862 | header, then payload, then processing; the end of the process on an excessive length |
| Server.Relay.ReadReady | srvmain.c:806-862 | one read: nothing yet, hangup, or bytes taken |
| Server.Relay.WriteReady | srvmain.c:865-896 | one write of any size |
| Server.Relay.HandleIo | srvmain.c:796-901 | the pass over all slots keeps the agreement of sets, slots and queues and never touches an empty queue |
| ClientSpec.FindTransfer | transfer.c:270-281 | the first live entry of the kind and ids |
| ClientSpec.OfferRead | transfer.c:408-452 | a read succeeds if and only if the offset lies within the file, and gives at least one byte and at most what was asked; the process ends if and only if the file opens, the offset is one a file can have, and the size asked for cannot be allocated |
| ClientSpec.FindPending | cltmain.c:502-523 | the first request that the response answers |
| ClientIo.KeptPending | cltmain.c:526-549 | exactly the requests within the response timeout stay |
| ClientIo.Kept | transfer.c:307-336 | exactly the entries with recent activity stay |
| ClientIo.QueueGrows | cltmain.c:993-1318 | handling a message only adds to the send queue |
| ClientIo.PeerResponsesMatch | cltmain.c:502-523 | whatever response a client gives to a request of another, the pending entry of that request matches it |
| ClientIo.ReadKeeps | cltmain.c:1325-1371 | reading keeps the connection in order and a queue that was filled |
| ClientIo.PassKeeps | cltmain.c:1320-1412 | every pass keeps the connection in order |
| ClientIo.WritesNextBytes | cltmain.c:1372-1403 | a write sends the channel's next bytes; a request becomes pending exactly when it has left the queue |
| ClientLimits.ClientDies | cltmain.c:1069-1108 | processing a message ends the process if and only if it asks for more of an offered file than can be allocated, or for more than one message can carry and that much is read, or challenges for a password that no AUTH request can carry |
| ClientLimits.ReadDies | cltmain.c:1325-1371 | a read ends the process if and only if it completes a header with a length beyond the limit, or such a message |
| ClientLimits.SizeEndsClient | transfer.c:427-427 | one byte offered and half of the address space asked for end the client |
| ClientLimits.ProcessFits | cltmain.c:993-1318 | whatever message arrives, everything queued is within the size limit |
| ClientLimits.CommandsFit | cltmain.c:718-797 | so are the requests of offer and accept; offer ends the process exactly for the name of a file that no message can carry |
| ClientLimits.PassFits | cltmain.c:1320-1412 | every pass over the connection keeps it so |
| ClientAnswers.PingAnswers | cltmain.c:1016-1033 | a PING is answered with 0202 and OK if and only if the client is logged in |
| ClientAnswers.OfferReads | cltmain.c:1034-1068 | whatever attributes an offer has: of ids, names and sizes the last one counts, and the part file is the name with .part behind it |
| ClientAnswers.OfferAnswers | cltmain.c:1034-1068 | an offer with id, name and size, in any order, becomes an entry in front and is answered with 0112, its id and OK |
| ClientAnswers.BadOfferAnswers | cltmain.c:1034-1068 | an offer whose name or size is missing, empty or 0 is refused with 400 and leaves an entry that matches nothing |
| ClientAnswers.OfferResRenews | cltmain.c:1122-1136 | the answer to an offer renews the first live offer to that peer with that id and does nothing else |
| ClientAnswers.NotOffered | cltmain.c:1069-1090 | a request for a file that is not offered to the sender is refused with 404 |
| ClientAnswers.BeyondTheEnd | cltmain.c:1091-1108 | a request at or beyond the end of the file, or for one that is gone, is refused with 416 |
| ClientAnswers.NoPiece | cltmain.c:1137-1147 | a message without a piece is a sign of life of the first live download that it names, and nothing else |
| ClientAnswers.AcceptAgain | cltmain.c:765-795 | a running download can be accepted again: it asks once more from its offset on, and its file stays as it is |
| ClientAnswers.NotLoggedIn | cltmain.c:1016-1182 | before login none of these has an effect |
| ClientAnswers.LoginMeans | cltmain.c:1219-1250 | the answer to LOGIN: OK logs in, a challenge with the prefix is answered with AUTH and the prefixed password, anything else is ignored |
| ClientAnswers.AuthMeans | cltmain.c:1251-1283 | the answers to AUTH and LOGOUT: in which state each moves the client, and that only the server is believed |
| ClientAnswers.Unheard | cltmain.c:1284-1300 | no other message has an effect |
| ClientAnswers.ResponseSettles | cltmain.c:502-523 | a response settles the latest pending request of its family, sender and transaction, and is dropped without one |
| ClientAnswers.CommandsRefused | cltmain.c:718-797 | what is not there is not offered, what has not been offered is not accepted |
| ClientLists.PendingKept | cltmain.c:526-549 | pending requests are forgotten one by one, each exactly when more than the timeout, in seconds, has passed since it was made; the rest stay in order |
| ClientLists.TransfersKept | transfer.c:307-336 | so are transfers, by their last activity |
| ClientLists.RemoveEnds | transfer.c:354-384 | `remove` ends exactly the transfers of the kind, client and offer it names, or of any where it names none |
| ClientLists.RemoveCounts | transfer.c:354-384 | and counts them |
| ClientLists.WriteLands | transfer.c:467-491 | a write at a file position puts its bytes there and changes no others; a gap reads as zeros |
| ClientLists.RenameMoves | cltmain.c:1148-1160 | renaming moves the content, ends the old name, and touches no other file |
| ClientLists.UpkeepPings | cltmain.c:1450-1458 | housekeeping sends an 0200 to the server while logged in, and nothing else |
| ClientLists.ConnectionLost | cltmain.c:1407-1412 | when the connection is lost the client is not logged in and has no file open; queue, pending requests and transfers stay |
| Client.Engine.TransferNew | transfer.c:253-268 | a blank entry at the head of the list |
| Client.Engine.TransferMatch | transfer.c:270-281 | finds the first live match and renews its time of activity, nothing else |
| Client.Engine.TransferInvalidate | transfer.c:297-304 | the entry matches nothing any more |
| Client.Engine.TransferCloseAll | transfer.c:284-295 | no entry has an open file |
| Client.Engine.TransferUpkeep | transfer.c:307-336 | the entries that are not old remain, in order |
| Client.Engine.TransferRemove | transfer.c:354-384 | exactly the covered entries are invalidated and counted |
| Client.Engine.OfferNew | transfer.c:392-406 | an offer entry with the file's size, if there is such a file |
| Client.Engine.OfferRead | transfer.c:408-452 | bytes from the offset, short reads included, or a failure, with the file left open or closed, or the end of the process for a size that cannot be allocated |
| Client.Engine.DownloadWrite | transfer.c:467-491 | creates the part file only if it is absent, writes at the file position what the disk takes, and fails and closes if that is not all |
| Client.Engine.DownloadResume | transfer.c:493-516 | opens an existing part file at its end |
| Client.Engine.EnqueueMsg | cltmain.c:467-478 | appends to the send queue |
| Client.Engine.DequeueMsg | cltmain.c:481-499 | a request that was sent becomes the first pending one, another message is gone |
| Client.Engine.MatchPendingReq | cltmain.c:502-523 | unlinks the first pending request that is answered, and no other |
| Client.Engine.UpkeepPending | cltmain.c:526-549 | the requests that have not timed out remain, in order |
| Client.Engine.Upkeep | cltmain.c:1450-1458 | a ping for the server while logged in, and what has timed out is gone |
| Client.Engine.ProcessOffer | cltmain.c:1034-1068 | a download entry and an answer, or an invalid entry and an error |
| Client.Engine.Finish | message.c:179-180 | a message whose last attribute makes it too large ends the process |
| Client.Engine.ProcessGetFile | cltmain.c:1069-1109 | a piece, the closing empty piece, an error, or the end of the process if the size cannot be allocated or the piece does not fit one message |
| Client.Engine.ProcessOfferRes | cltmain.c:1122-1136 | renews the offer's time of activity |
| Client.Engine.ProcessFileData | cltmain.c:1137-1182 | writes the piece and asks for the next, or renames, or gives up |
| Client.Engine.ProcessLoginRes | cltmain.c:1219-1250 | logged in, or the challenge answered, or ignored, or the end of the process if the password does not fit |
| Client.Engine.ProcessHandled | cltmain.c:1016-1300 | the choice by message type and the changes of the login state |
| Client.Engine.ProcessSrvMsg | cltmain.c:993-1318 | a response without a pending request is dropped; otherwise handled and its reply queued |
| Client.Engine.CmdAccept | cltmain.c:749-797 | the part file resumed or created and the first piece requested |
| Client.Engine.CmdOffer | cltmain.c:718-748 | the offer entry and its announcement |
| Client.Engine.Disconnect | cltmain.c:1407-1412 | files closed and the login forgotten; queue, pending requests and receive buffer stay |
| Client.Engine.ReadReady | cltmain.c:1325-1371 | one read: nothing yet, disconnect, or bytes taken |
| Client.Engine.WriteReady | cltmain.c:1372-1403 | one write of any size |
| Client.Engine.HandleIo | cltmain.c:1320-1412 | one pass of reading and writing |
| LoginAgreement.LoginReply | srvmain.c:559-604 | the answer to LOGIN moves the client as the server has moved, and is a challenge exactly when the server waits for AUTH |
| LoginAgreement.AuthReply | srvmain.c:605-629 | the answer to AUTH moves the client as the server has moved |
| LoginAgreement.ServerMsgReply | srvmain.c:488-674 | so does every reply of the server to the client |
| LoginRuns.ReceiveTimely | cltmain.c:1219-1280 | a message that arrives in the state it was sent for moves the client as the server intended, and is answered properly |
| LoginRuns.SysStepKeeps | cltmain.c:1219-1280 | every step of client, server, both streams and all other connections keeps the conversation's invariant; the user may do anything but send AUTH messages, and saves may fail |
| LoginRuns.LoginAgreementHolds | srvmain.c:496-644 | in every reachable interleaving, the client that processes everything in flight is then in the server's state unless it has ended; exactly one challenge or AUTH is in flight when the server waits, none otherwise; the stored keys have the prefix |
| LoginRuns.ServerResponsesMatch | cltmain.c:502-523 | in every such state each response of the server in flight has a pending request of its own, so the next one to arrive is not dropped |
| LoginRuns.CommandsAreActs | cltmain.c:718-797 | offer, accept, remove and housekeeping are among the acts that these runs allow the user |
| LoginRuns.AcceptedIsConnected | srvmain.c:349-397 | every connection that a server accepts, in any run of it, is the start of such runs |
| LoginRuns.PrefixDecides | srvmain.c:591-602 | the client that receives the answer to a registered LOGIN follows the server if and only if the stored key has the prefix |
| LoginLives.AgreementUnconditional | srvmain.c:496-644 | a client that offers nothing and whose password fits an AUTH request never ends, so that it agrees with the server without exception |
| TransferFacts.PieceFits | cltmain.c:77-77 | no piece makes a message too large; a full one makes a payload of exactly 65400 octets |
| TransferFacts.Serve | cltmain.c:1069-1108 | a request within the file, for a size that can be allocated, is answered with a piece from the offset asked for, unless the piece exceeds one message and ends the client |
| TransferFacts.ServeEnd | cltmain.c:1069-1108 | a request for nothing ends the offer and is answered with nothing |
| TransferFacts.ServeRange | transfer.c:425-445 | whatever a request asks for: at an offset that a file can have, a size that cannot be allocated ends the process; of all others it is refused if and only if its offset is at or beyond the end |
| TransferFacts.AcceptExisting | cltmain.c:765-795 | accepting takes an existing part file for the beginning of the file: it asks for what comes behind it and leaves every file alone |
| TransferFacts.ResumeAnswered | cltmain.c:1094-1100 | the offering peer answers that request with data if and only if the part file is shorter than the source, and refuses it otherwise |
| TransferFacts.RefusalIgnored | cltmain.c:1281-1298 | the client takes no notice of a refusal |
| TransferFacts.TakePiece | cltmain.c:1137-1182 | a piece extends the part file by itself and the next request asks for exactly the rest, capped; the subtraction never wraps |
| TransferFacts.TakeShort | transfer.c:479-490 | a disk that does not take a whole piece ends the download, and leaves a part file that can be resumed |
| TransferFacts.TakeEnd | cltmain.c:1137-1160 | an empty piece retires the entry and renames; complete data gives the final file |
| TransferFacts.Start | cltmain.c:749-797 | accepting a fresh or partial download sets it up at the part file's length and asks for its first piece |
| TransferServe.RequestInFlight | cltmain.c:1069-1108 | a request in flight belongs to a running download, is all that is outstanding of it, and finds its offer |
| TransferServe.Answer | cltmain.c:1069-1108 | an honest peer answers a good request with exactly what the download needs next, within the size limit |
| TransferServe.ServeKeeps | cltmain.c:1069-1108 | delivering a request keeps the invariant of all transfers |
| TransferTake.ResponsePending | cltmain.c:502-523 | a response in flight answers a pending GETFILE request of its transaction |
| TransferTake.Took | cltmain.c:1137-1182 | the downloading client writes the piece and asks on, or renames the complete file |
| TransferTake.TouchedOthers | cltmain.c:1137-1182 | other downloads and offers of the same client do not notice, given file names of their own |
| TransferTake.TakeKeeps | cltmain.c:1137-1182 | delivering a response keeps the invariant of all transfers |
| TransferSteps.AcceptKeeps | cltmain.c:749-797 | accepting keeps the invariant of all transfers |
| TransferFrame.TransmitKeeps | cltmain.c:481-499 | so does sending the head of any queue |
| TransferFrame.ChatKeeps | cltmain.c:993-1318 | so does anything else a client does that leaves running downloads alone, logging in and out included while it takes part in none |
| TransferTurnover.NoneBetween | cltmain.c:1069-1182 | between two clients without a running download nothing of one is queued or in flight |
| TransferTurnover.TurnoverKeeps | srvmain.c:559-644 | clients that come, go and come back keep the invariant of all transfers, if those that take part in one stay |
| TransferOther.OtherChats | cltmain.c:1016-1136 | pings, offers, their answers and errors are of that kind |
| TransferOther.StepKeeps | cltmain.c:749-1182 | every step of any client or of the relay, and clients coming and going, keep the invariant |
| TransferRuns.PartFilesExact | cltmain.c:1137-1182 | in every run, at every moment, a running download has exactly one message outstanding and its part file is the first `offset` bytes of the source |
| TransferRuns.EndsComplete | cltmain.c:1148-1160 | a download ends only by an empty piece at offset = size, never prematurely, and the final file is the whole source |
| TransferRuns.DownloadsComplete | cltmain.c:1148-1160 | that holds at every step of every run |
| TransferRuns.ContentFixed | cltmain.c:1137-1182 | what a download is to fetch is fixed while it runs |
| TransferRuns.NobodyEnds | cltmain.c:1069-1108 | in every run no client ends its process |
| TransferShared.SharedByPiece | cltmain.c:1161-1176 | a piece of one download leaves another of the same client intact if and only if their part files differ |
| TransferShared.SharedByEnd | cltmain.c:1148-1160 | a closing response leaves another download intact if and only if its part file is not the one renamed, and is not the final name either unless the very same bytes come to lie there |
| TransferShared.SharedByShort | transfer.c:479-490 | a piece that the disk does not take whole leaves another download intact if and only if their part files differ or nothing was written |
| TransferShared.OwnFileIsSafe | cltmain.c:1137-1182 | a download whose part file is neither file of the other is safe from every response to it |
| TransferShared.SharedPartFile | transfer.c:104-108 | a response breaks another download if and only if they share the part file, or the complete download's final name is the other's part file and its bytes are not there already |
| TransferShared.TwoAccepts | cltmain.c:749-797 | any two entries that can be accepted can both be accepted, also with one file name, and then both are running |
| TransferShared.AcceptSpares | cltmain.c:749-797 | accepting harms no download that is running |
| TransferShared.SameNameBreaks | transfer.c:104-108 | one file name from two peers: both accepted, and the first piece of one breaks the other |
| TransferShared.FinalNameBreaks | cltmain.c:1160-1160 | x.part and x: both accepted, a piece does no harm, the end of the first destroys the part file of the second |
| TransferProgress.StepRank | cltmain.c:1095-1176 | no step moves a running download away from its end, each that concerns it moves it nearer |
| TransferProgress.TransferTerminates | cltmain.c:1095-1176 | a download makes at most four moves for each byte it lacks and three for the closing round |
| TransferProgress.TransferNeverStuck | cltmain.c:1095-1176 | a running download always has a step that brings its message nearer |
| TransferOffers.OfferArrives | cltmain.c:718-748 | an offer sent and received makes the sender ready to serve and gives the receiver an entry with the same ids and size, acceptable if and only if no other file is in the way |
| TransferRelay.SentTravels | cltmain.c:706-1182 | whatever a client sends to others, be it an answer, an offer, a request for a piece or a ping, has one of eight types |
| TransferRelay.SentIsDelivered | srvmain.c:705-788 | and so reaches the queue of the one peer with that id through the server, stamped, and nobody else's |
| TransferRelay.OfferTravels | srvmain.c:705-788 | an offer goes through the server, makes an entry with both ids, the size and the part file's name, is answered, and the answer comes back through the server and renews it |
| TransferRelay.PieceTravels | srvmain.c:705-788 | one round of a download through the server: the request reaches the offering client, its piece comes back, the part file is the beginning of the source and longer by at least a byte, and the next request asks for what lacks then, up to 65376 bytes; when nothing lacks, the file is whole |
| TransferOffers.UpkeepIsChat | cltmain.c:1450-1464 | upkeep, with its ping to the server, disturbs no download whose entries and requests have not timed out |
| TransferOffers.OfferIsChat | cltmain.c:718-748 | the offer command disturbs no download, provided that none of its offer id from this client is running at the addressed one |
| TransferOffers.RemoveIsChat | transfer.c:354-384 | the remove command disturbs no download, provided that it covers no entry in use |
| Streams.StreamWrite | srvmain.c:865-896 | bytes in transit are the messages sent and the beginning of the next: kept by a write of any size |
| Streams.StreamRead | srvmain.c:813-862 | kept by a read of any size, which takes over the next message exactly with its last byte and never ends the receiver |
| JointServer.ServeBalanced | srvmain.c:764-901 | whatever event happens and whoever comes and goes: what the server holds for clients is what it took over and has not handed on, and its own replies are no part of a download |
| JointServer.Joins | srvmain.c:559-629 | a connection that becomes authenticated with nothing waiting for it has exactly the answer to its LOGIN or AUTH waiting then |
| JointSlots.ServeSlot | srvmain.c:796-901 | an event reads and writes the streams of the client it concerns, and only queues messages for others |
| JointSlots.ServeNew | srvmain.c:488-629 | only the connection that a message was read from can become authenticated |
| JointRuns.JStepSim | srvmain.c:705-788 | every step of clients and server with whole messages in between, logins and logouts included, is a step of the transfers, or changes nothing of them |
| JointRuns.RelayedExactly | cltmain.c:1137-1182 | so in every run part files are exact and no client ends |
| JointRuns.RelayedWhole | cltmain.c:1148-1160 | and a download that ends has been delivered whole |
| JointWire.BStepSim | srvmain.c:796-901 | every read and write of any size, by clients and server, is such a step or changes nothing |
| JointWire.WireExactly | cltmain.c:1320-1412 | in every run of clients, server and byte streams, while other clients come and go, the part file of a running download is the beginning of the source |
| JointWire.WireWhole | cltmain.c:1320-1412 | and a download that ends has been delivered whole |
| JointStart.Startable | srvmain.c:559-629 | every server state with nothing on its way to or from authenticated connections is the start of such runs, with a client for each of them |
| JointStart.AnybodyMayJoin | srvmain.c:488-644 | any event of other connections that leaves those of running downloads authenticated, and authenticates only whom nothing waits for, is a step of such runs, whoever the clients are |
| ConfigFile.ReadInt | cfgparse.c:95-98 | every 32-bit number printed in decimal is read back by strtol with base 0 |
| ConfigFile.ReadFields | cfgparse.c:116-135 | a written line is taken apart into its name and value |
| ConfigFile.Restores | cfgparse.c:137-182 | reading what was written restores every variable, whatever they held before |
| ConfigFile.ReadIsStorable | cfgparse.c:116-146 | whatever text is read, a string that ends up in a variable is one trimmed line that fits the buffer |
| ConfigFile.RestoresExactly | cfgparse.c:57-182 | what was written is restored from every starting point if and only if every string is one line without white space at its ends that fits the buffer with its name |
| ConfigLines.NumberReads | cfgparse.c:95-98 | a number is read in decimal, in octal behind 0, or in hexadecimal in either case behind 0x, behind white space and a sign, and saturates at 64 bits |
| ConfigLines.NoNumberReads | cfgparse.c:95-98 | text without digits is 0 |
| ConfigLines.IntIs | cfgparse.c:95-98 | the variable gets that number modulo two to the 32 |
| ConfigLines.NumberSets | cfgparse.c:89-135 | so a line with a number in any of these forms sets its variable to it, if it fits |
| ConfigLines.LineSets | cfgparse.c:89-135 | a line with white space anywhere around name and text sets the first variable of that name, and is refused without one |
| ConfigLines.NothingSet | cfgparse.c:116-123 | blank lines and comments do nothing |
| ConfigLines.LineRefused | cfgparse.c:124-130 | a line without a name, or whose name is not followed by an equals sign, is refused |
| ConfigLines.TextReads | cfgparse.c:137-146 | a text is read line by line, 3999 bytes at most at a time, each up to a NUL |
| ConfigLines.NumberWritten | cfgparse.c:162-174 | a number is written in decimal without leading zeros, behind a minus sign if negative |
| ConfigLines.TextWritten | cfgparse.c:162-182 | a string is written as it is, each variable on its own line, in the order of the table |
| Config.SkipWs | cfgparse.c:57-63 | stops behind the leading white space of the string |
| Config.SkipName | cfgparse.c:65-71 | stops behind the name |
| Config.RtrimInPlace | cfgparse.c:73-87 | the string loses its trailing white space and no other byte of the buffer changes |
| Config.Config.constructor | cfgparse.h:44-53 | the table as given |
| Config.Config.AssignVar | cfgparse.c:89-114 | the first entry of the name takes the converted value |
| Config.Config.ParseNamed | cfgparse.c:124-134 | from the name on, the line is assigned or refused |
| Config.Config.FindEquals | cfgparse.c:124-124 | stops behind the name and the white space after it |
| Config.Config.CutFields | cfgparse.c:124-131 | name and value are cut out of the buffer and trimmed |
| Config.Config.ParseLineInPlace | cfgparse.c:116-135 | the in-place parser assigns what the line says and returns the right result |
| Config.Config.FgetsInto | cfgparse.c:142-143 | the next line, or as much as fits, with a terminator |
| Config.Config.ParseNext | cfgparse.c:142-143 | one line read and parsed |
| Config.Config.ParseFp | cfgparse.c:137-146 | all lines are parsed; failures never cancel out |
| Config.Config.WriteFp | cfgparse.c:162-182 | writes the rendering of the table |
| Prng.Cancel | lib/prng.c:67-76 | addition and subtraction of words undo each other, exclusive or undoes itself |
| Prng.RotIsShifts | lib/prng.c:63-63 | LEFTROT's two shifts, put together, are the rotation of the word |
| Prng.RotBack | lib/prng.c:63-63 | rotating on by the rest of the word undoes a rotation |
| Prng.StepInShifts | lib/prng.c:63-76 | one step in shifts by 7, 13 and 37, with what is subtracted, mixed and added |
| Prng.StepBijective | lib/prng.c:67-76 | every state has exactly one predecessor |
| Prng.Generator.constructor | lib/prng.c:65-65 | the initial state |
| Prng.Generator.Random | lib/prng.c:67-76 | one step; the last word is returned |
| Prng.Generator.Srandom | lib/prng.c:83-89 | twenty steps from the seeded state |
| Prng.Generator.RandomUni | lib/prng.c:103-119 | the first accepted number, reduced below the bound |
| Prng.LimitIsMultiple | lib/prng.c:113-113 | the accepted range is a positive multiple of the bound |
| Prng.Unbiased | lib/prng.c:103-119 | each result below the bound comes from equally many accepted numbers, and from at least one |
| Prng.EveryNumberAlike | lib/prng.c:67-76 | the states that give one number correspond one to one to those that give another |

## Left out

Of the program:

* Sockets, select, address lookup and their errors: inputs say what is ready, how much is read or written and which
  descriptor an accepted connection gets; that it is unused is assumed.
* Clocks: times are inputs. The response timeout of the client and the gap resynchronisation of the server are
  modelled as operations, but runs of `LoginRuns`, `Transfers` and `JointWire` exclude that they strike a request to
  the server, a running download or a message in the middle, as they break framing and agreement by design.
* `prng_random` as the source of transaction and offer ids in the client: they are inputs, any values.
* Command line, tokenizer and command table, printed output, message of the day and notice texts, sub-shell,
  logging, time and size formatting, the GUI: `offer`, `accept` and `remove` start from their parsed arguments.
* `transfer_strtoi` and the `sscanf` patterns of `transfer_remove`; `make_filenames` with no-clobber; `basename`,
  whose result is an input.
* Delivery of broadcasts: the server does not implement it.
* Memory management and the links between list nodes: linked lists of the client and the queues are sequences,
  messages in queues are values, so aliasing and leaks are not captured.
* The bytes of uninitialised memory are zeros. Allocations of bounded size succeed; the one whose size a GETFILE request
  names may fail.
* Files have no identity besides their names: an open part file whose name is taken away or given to another file,
  which `TransferShared` shows to happen without file names of their own, is not followed any further.
* C strings without their terminator and attribute values shorter than their type demands.
* Wrap-around of the id counter: theorems over runs in which ids matter assume that it does not happen, in terms of the
  counter and of the ids of the accounts.
* Short writes of the database file: a save either writes all or cannot open the file. That it cannot is modelled for
  every save; only the identity of names and the prefix of keys over runs depend on one, that of dropping the only
  account.
* `strtol` knows decimal, octal and hexadecimal prefixes.
* Input and output errors while a configuration file is read or written, and null strings in its table.

Of the theorems:

* `JointWire` assumes that the connections of clients in a running download stay authenticated, that no gap inside a
  message of an authenticated connection lasts until it is discarded, and that nothing else is on its way on a
  connection at the moment it becomes authenticated; its bytes before that are not part of these runs. That a
  download terminates and that client and server agree about the login is proved for whole messages only.
* `Transfers` assumes unchanged source files, peers that stay logged in, writes and allocations of one piece that
  succeed, one `accept` for each entry, an offset below the size at that time, and an offer id that is not in use
  between the two clients.
- Client.Engine.ProcessOffer: names files as without no-clobber; with it the program looks for unused names first.
- Prng.Generator.RandomUni: takes the number of rounds of the rejection loop as a ghost argument, because nothing in
  the code bounds it; it ends exactly if some number is ever accepted.
- ServerAuth.AuthenticationSafety: speaks of digests as the keys they are in the present code, which compares them
  as text.
- UserDbMap.Restart: assumes storable accounts; for a single account `UserDbExact.RoundTripExactly` shows that this is
  necessary, for several it is not always, since the tail of one overlong line may happen to spell another account.
- TransferProgress.TransferTerminates: counts the moves of the download's own messages; that other messages in a
  queue are sent before them is up to the scheduler.

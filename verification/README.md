# Verified model of the exchange

A Dafny model of a low-latency stock exchange: the price-time-priority matching
book, the OUCH gateway and the three threads around it, the SoupBinTCP session
layer that carries and replays its output, the lock-free ring between threads,
and the wire codecs. Each part is proved against a much simpler description of
what it is for.

`dafny verify dfyconfig.toml` checks everything.

## What is proved

**Matching book.** `BookSpec` is the reference: two price-then-arrival ordered
lists and a greedy walk. `EngineBook.Orderbook` is the book as built: an arena
of slots with a free list, one doubly linked list per tick in a dense ladder,
cached best prices and level counts, and an id map. Every request does to the
structure, and emits, exactly what it does to the reference. About the reference:
a walk fills the smaller of the quantity and everything within reach, order by
order from the front, each at the resting price; orders enter at the back of their
price and partial cancels keep their place; the book is never crossed; open plus
executed shares always equal the chain's last effective liability; the ITCH
published reproduces the visible book.

**Gateway and pipeline.** Order ids are consecutive, a UserRefNum is used once,
requests are ones the book is built for. Over every interleaving of the inbound,
engine and outbound threads, no request or event is lost, doubled or reordered,
the book is what executing the requests in order makes it, each engine event finds
its order's record when it is answered, is answered to the order's owner, and the
responder's open counts are the book's. Across gateway and book, each Enter, Cancel and Replace Order has,
in the message's own fields, exactly the effect OUCH promises, and is answered in
them; both clients of a trade are told the same trade.

**Sessions.** The replay log's byte ring and index hold exactly the messages
that fit. Over every interleaving of the two session threads, whatever partial
amounts TCP takes: all a connection is ever handed is the start of Login
Accepted followed by its session's messages from its number on, with heartbeats
only between whole packets; nothing is sent on a connection once it is closed, it
is closed once, and no unsent byte is overwritten. Across any number of
disconnects and logins, what a client has handled is a gap-free, duplicate-free
prefix of its session's messages. Who is let in, with which number, and what anyone
else is told is settled both ways on the fields a client sends; a client whose next
message is still held is let in and served from it.

**The whole server.** `Exchange` joins pipeline and sessions over the one ring of
notes they share. Over every interleaving, whoever is owed an answer has a log by
the time it is made, every answer fits its packet, and each session's messages are
exactly the answers made for its client.

**Rings and codecs.** The single-producer single-consumer ring with stale cached
indices refines a bounded FIFO under every interleaving of loads, slot accesses
and publishes. OUCH messages, SoupBinTCP packets and numerics survive encoding
and decoding; stream reassembly does not depend on how TCP cuts the stream,
exactly as long as no packet handed on is longer than 512 bytes.

## How the program is modelled

- Arena pointers are slot numbers, null is `NIL`. A price level is a record in the
  ladder array. The bid and ask halves of `rest`, `unlink` and `update_best_*`, which
  the program writes twice, are one method with a `side` parameter.
- `& mask` and `& (capacity - 1)` are written `%`; the program asserts powers of two,
  where the two are equal.
- The events ring never drops (the program spins until there is room), so it is a
  sequence. Whether the market data ring has room depends on its reader, so each
  publish may or may not be dropped; drops are counted as the program counts them.
- In `Pipeline`, `Sessions` and `Exchange` the rings are sequences, and a push that
  finds its ring full is a step not taken yet. `SpscRing` shows that a pop takes the
  oldest item, but that it may find nothing though more has been pushed. So the engine
  may find no next request at any time, and the drain before an answer may end with
  notes still on the ring. What it may not do is end before the notes that were pushed
  ahead of the event's request: popping the event synchronises with its push, that with
  the pop of the request, that with the request's push, and that comes after its notes.
  Each request and event carries the number of notes pushed before it (`Marked`), and
  the drain may end at any point past that.
- TCP is an environment: `send` takes any prefix of what it is offered, a
  connection may die at any time, and a slot's next connection has a higher
  generation. The program only compares generations for equality; treating them as
  ordinals means a slot's generations never repeat.
- `Outbound` describes a session's log by the packets ever appended. `Sender.Server`
  holds a `SessionLog.Log` for each session, its byte ring and index included, in a
  `LogShelf.Shelf`, and every offset, run and overwrite test it uses comes from there.
- TCP keeps the offers made to it (`Outbound.Offer`: the bytes, and how many it took),
  so that what a flush offers can be stated; the record is specification only.
- What the outbound thread's methods ask of a note (`Outbound.Heedable`: its slot free,
  its session unused, its connection not out of date) is not assumed of the inbound
  thread but proved of it, by `Sessions.NotesHeedable`; what the book asks of a request
  (`EngineBook.Restable`) and the responder of an event (`Pipeline.Proper`) is proved of
  the gateway and the engine, by `Pipeline.NothingDropped`; that a message to a client
  has a log to go to and fits it, by `Exchange.EveryAnswerReaches` and
  `OuchFrames.PayloadFits`.
- A transcript (`Transcript.Transcript`) records how far a connection has been
  served: it is specification only, kept beside the connection table.
- Timestamps, latency samples and prefetching are not modelled. Idle and login
  timeouts are `Drop` steps; which connections are due a heartbeat is arbitrary.
- Every OUCH message is described by a schema (its core fields and its supported
  option tags), and one codec encodes and decodes them all, as the program's
  templates do.

## Where a property needs a condition

- Reassembly: a packet longer than 512 bytes is handled when it arrives whole in
  one segment and ends the connection when it does not. `Reassembly.CutIndependence`
  proves that the cut makes no difference if and only if no packet the uncut stream
  hands on is longer; `Reassembly.LongPacketSplit` shows a 513-byte packet where it
  does. `Reassembly.SafeToCut` puts the condition on the bytes alone.
- Numeric fields: a 20-character field can spell numbers up to 10^20 - 1, but is read
  in 64 bits with no check. `SoupBin.ReadsExactly` proves that a field reads as the
  decimal it spells if and only if that is below 2^64; `SoupBin.OverlongFields` shows
  2^64 reading as 0 and 2^64 + 1 as 1.

## Model

| member | source | states |
|---|---|---|
| BookLaws.WalkAllocates | src/exchange/engine/src/orderbook.cpp:220-259 | the walk fills exactly the smaller of the quantity and all shares within the limit, takes them off the front of the queue, and stops short only when nothing reachable is left |
| Fills.WalkFills | src/exchange/engine/src/orderbook.cpp:224-255 | fills go down the opposite queue from the front, each at the resting order's price and within the limit, both sides and ITCH reporting the same shares under consecutive match numbers; only the last can leave part of a resting order |
| Requests.NewEffect | src/exchange/engine/src/orderbook.cpp:86-114 | a NEW under an id that rests is ignored; a day limit order on a full book is rejected; any other is accepted for its quantity, takes from the front of the other side all its price allows, trade by trade at the resting prices, and what is left joins its own side at its own price behind all as good, if it is a day limit order, or is canceled with reason I |
| Requests.CancelEffect | src/exchange/engine/src/orderbook.cpp:116-147 | a CANCEL by the owner below open + executed takes off exactly the difference where the order stands, with one Canceled for it, or all of it; any other has no effect |
| Requests.ReplaceEffect | src/exchange/engine/src/orderbook.cpp:149-214 | a REPLACE by the owner takes the original off and brings the replacement in on the original's side at the request's price for what executions leave of its quantity; any other has no effect |
| Requests.RestsAsAsked | src/exchange/engine/src/orderbook.cpp:275-302 | an order that comes to rest has the request's id, client, price and quantity, and its side or the original's; only a day limit order does |
| Fills.EnterAccounts | src/exchange/engine/src/orderbook.cpp:86-114 | a NEW is accepted for its whole quantity and all of it is accounted for, or it leaves the book as it was |
| Fills.EntersAtBack | src/exchange/engine/src/orderbook.cpp:149-207 | an order entering the book, new or as a replacement, stands behind every order at its price |
| Fills.CancelKeepsPlace | src/exchange/engine/src/orderbook.cpp:116-141 | a partial cancel changes nothing on the book but that order's shares |
| BookLaws.DropSharesConserves | src/exchange/engine/src/orderbook.cpp:224-235 | taking shares off the front of a queue removes exactly that many from it |
| BookLaws.ReachableAtMostShares | src/exchange/engine/src/orderbook.cpp:261-269 | what a limit can reach is never more than the side holds |
| BookLaws.WalkKeeps | src/exchange/engine/src/orderbook.cpp:220-259 | a walk leaves ordered queues, live orders, unique ids and an uncrossed book, and brings no order in |
| BookLaws.ProcessKeeps | src/exchange/engine/src/orderbook.cpp:40-49 | every request keeps price-time order, live quantities, unique ids, an uncrossed book, and the arena's capacity |
| BookLaws.RunKeeps | src/exchange/engine/src/orderbook.cpp:86-259 | after any run of requests from an empty book, best bid is below best ask and the queues are well formed |
| BookLaws.OutOfReach | src/exchange/engine/src/orderbook.cpp:261-269 | when the best order is out of reach, so is every order behind it |
| Liability.WalkBalances | src/exchange/engine/src/orderbook.cpp:224-258 | shares reported filled to the aggressor, shares reported given by resting orders, and shares that left the book are equal |
| Liability.CancelTakesEffect | src/exchange/engine/src/orderbook.cpp:119-126 | a cancel takes effect if and only if its sender owns the order and asks for less than the chain's liability |
| Liability.ProcessBacked | src/exchange/engine/src/orderbook.cpp:20-22 | every request keeps open + executed of each resting order equal to a ledger kept from the requests and from which orders rest and whose they are, never from the book's share counts |
| Liability.RunBacked | src/exchange/engine/src/orderbook.cpp:101-258 | over any run, open + executed is the last effective liability and never exceeds the largest quantity entered, whatever cancels ask for |
| ItchFeed.ProcessFeeds | src/exchange/engine/src/orderbook.cpp:133-255 | a request's ITCH takes a feed from the visible book before it to the visible book after it |
| ItchFeed.RunFeeds | src/exchange/engine/src/orderbook.cpp:165-301 | over any run, folding the ITCH from an empty feed gives the engine's ids, sides, prices, open shares and queue order |
| PriceLevelQueue.Push | src/exchange/engine/include/price_level_queue.hpp:27-37 | the list gains the slot at its back, with consistent links both ways and nothing else touched |
| PriceLevelQueue.Pop | src/exchange/engine/include/price_level_queue.hpp:39-50 | the oldest slot comes off, NIL if there is none |
| PriceLevelQueue.Remove | src/exchange/engine/include/price_level_queue.hpp:54-64 | the slot at any place comes off; all others keep their order and links |
| OrderPool.Pool.Allocate | src/exchange/engine/include/order_pool.hpp:41-47 | hands out the slot freed last, holding the order unlinked, or NIL exactly when none is free |
| OrderPool.Pool.Deallocate | src/exchange/engine/include/order_pool.hpp:51-53 | the slot is free again, and no slot is free twice |
| BookRep.UpdateBest | src/exchange/engine/src/orderbook.cpp:329-339 | the scan stops at the best price any resting order has |
| BookRep.RestOn | src/exchange/engine/src/orderbook.cpp:280-288 | the side then represents the queue with the order at the back of its price, best price and level count included |
| BookRep.UnlinkFrom | src/exchange/engine/src/orderbook.cpp:304-322 | the side then represents the queue without the order, best price and level count included |
| EngineBook.Orderbook.Publish | src/exchange/engine/src/orderbook.cpp:356-358 | every message is either taken by the market data ring or counted as dropped |
| Fills.OneAnswer | src/exchange/engine/src/orderbook.cpp:345-354 | of all the events of a request, whatever it does, exactly the first is marked as its answer |
| EngineBook.Orderbook.Rest | src/exchange/engine/src/orderbook.cpp:275-302 | the order joins the book, the id map and its level, from a slot that is never null |
| EngineBook.Orderbook.Unlink | src/exchange/engine/src/orderbook.cpp:304-322 | the order leaves its side and nothing else changes |
| EngineBook.Orderbook.Release | src/exchange/engine/src/orderbook.cpp:324-327 | the id is forgotten and its slot is free |
| EngineBook.Orderbook.CrossesExactly | src/exchange/engine/src/orderbook.cpp:261-269 | the cached best price and level count decide crossing exactly as the whole queue would |
| EngineBook.Orderbook.Match | src/exchange/engine/src/orderbook.cpp:220-259 | the loop over the linked lists fills, emits and publishes exactly what the reference walk does |
| EngineBook.Orderbook.Enter | src/exchange/engine/src/orderbook.cpp:86-114 | NEW on the structure is NEW on the reference book, events and ITCH included (what that is, in the request's fields: `Requests.NewEffect`) |
| EngineBook.Orderbook.Cancel | src/exchange/engine/src/orderbook.cpp:119-147 | CANCEL on the structure is CANCEL on the reference book: reduced in place, removed at 0, ignored when it would reduce nothing |
| EngineBook.Orderbook.Replace | src/exchange/engine/src/orderbook.cpp:153-214 | REPLACE on the structure is REPLACE on the reference book: back of its level, executed shares carried, one Order Replace when it rests without trading |
| EngineBook.Orderbook.Process | src/exchange/engine/src/orderbook.cpp:40-49 | every request leaves the representation valid and equal to the reference book after it, with the same events and ITCH |
| EngineBook.Orderbook.ProcessRun | src/exchange/engine/src/orderbook.cpp:86-259 | a whole run of requests does the same |
| EngineBook.Orderbook.FeedReproduces | src/exchange/engine/src/orderbook.cpp:292-301 | as long as nothing was dropped, what the market data ring took reproduces the visible book |
| EngineBook.Orderbook.CachesExact | src/exchange/engine/src/orderbook.cpp:275-339 | best bid and ask are the extreme occupied ticks (band ends when empty) and the counters count the non-empty levels |
| EngineBook.Orderbook.SlotsPartition | src/exchange/engine/include/order_pool.hpp:41-53 | every slot is either free or mapped by exactly one id |
| EngineBook.Orderbook.OneLevel | src/exchange/engine/src/orderbook.cpp:275-327 | a mapped slot is linked once into the list of the level its own order's side and price name, and into no other level's list |
| Validation.PriceExact | src/infra/validation.hpp:39-48 | a price converts to a limit exactly when it is a whole number of cents in the band, and converts back to itself; only prices at or above the floor are market |
| Dispositions.EnterChecked | src/infra/validation.hpp:39-148 | an Enter Order passes if and only if every field is one the exchange takes, and then its side, type, price and time in force are the message's; else the reason code is that of its first fault |
| OrderEntry.TranslateKeeps | src/exchange/server/src/order_entry.cpp:28-188 | every message keeps stored UserRefNums at or below their client's last, keys fresh and sides convertible; each request is within the book's bounds and names an order the same client entered |
| OrderEntry.RefsUsedOnce | src/exchange/server/src/order_entry.cpp:28-82 | a message that is answered or entered uses a UserRefNum above all earlier ones and, repeated, does nothing; any other leaves the gateway as it was |
| Dispositions.EnterTranslates | src/exchange/server/src/order_entry.cpp:28-82 | a used UserRefNum does nothing; any other is used up, and an acceptable message becomes the next order, its note saying back every field and its request asking for the message's side, size, price and time in force |
| Dispositions.EnterDisposition | src/exchange/server/src/order_entry.cpp:28-82 | across gateway and book: an acceptable Enter Order is accepted for its whole size and comes in as a buy for B, a sell for S, at its price, or at any price from the market floor up; the rest leaves the book alone |
| Dispositions.CancelDisposition | src/exchange/server/src/order_entry.cpp:84-108 | across gateway and book: a Cancel Order leaves the gateway alone and cuts the client's own resting order in place to the size asked for less what is executed, or takes it off, exactly when that is less than its whole size |
| Dispositions.ReplaceTranslates | src/exchange/server/src/order_entry.cpp:111-188 | an unknown original or a used UserRefNum does nothing, invalid details ask for the original's cancel and use up nothing, valid ones become the next order with the message's fields over the original's |
| Dispositions.ReplaceDisposition | src/exchange/server/src/order_entry.cpp:111-188 | section 2.2 of Nasdaq OUCH 5.0, across gateway and book: invalid details take exactly the original off; valid ones put the replacement in its stead at the message's price, size and time in force; anything else leaves the book alone |
| OrderEntry.IdsConsecutive | src/exchange/server/src/order_entry.cpp:28-188 | over any run of messages order ids are consecutive, never reused |
| OrderEntry.Entry.EnterMessage | src/exchange/server/src/order_entry.cpp:28-82 | Enter changes the gateway's maps and answers as the translation that `Dispositions.EnterTranslates` spells out, keeping them consistent |
| OrderEntry.Entry.CancelMessage | src/exchange/server/src/order_entry.cpp:87-108 | Cancel only looks up, its stored side always converts, and what it asks for is what `Dispositions.CancelDisposition` carries through to the book |
| OrderEntry.Entry.ReplaceMessage | src/exchange/server/src/order_entry.cpp:123-188 | Replace changes the gateway's maps and answers as specified, keeping them consistent |
| OrderEntry.Entry.TranslateMessage | src/exchange/server/src/order_entry.cpp:11-19 | the entry point does what the specification of each message says |
| OuchResponder.Responder.OnNote | src/exchange/server/src/ouch_responder.cpp:13-33 | a note adds its record with no open shares, or answers a reject |
| OuchResponder.Responder.Reduce | src/exchange/server/src/ouch_responder.cpp:135-141 | open shares go down by what was taken, and a record with none is dropped |
| OuchResponder.Responder.OnEvent | src/exchange/server/src/ouch_responder.cpp:39-133 | an event whose records are there updates them and is answered, field by field, with the event's shares, reason, match number and 100 times its price and with what the client sent; any other changes nothing (that a replacement has its own id is proved of every event in `Pipeline.NothingDropped`) |
| Reconcile.ProcessAgrees | src/exchange/server/src/ouch_responder.cpp:48-141 | fed one request's events, a responder that agreed with the book finds every record, addresses every answer to its owner, and agrees with the book after |
| Reconcile.AgreesExactly | src/exchange/server/src/ouch_responder.cpp:135-141 | a record has open count q > 0 if and only if the order rests with q open |
| Pipeline.StepKeeps | src/exchange/server/src/server.cpp:420-442 | every step of the inbound, engine and outbound threads keeps the protocol invariant, pops that miss what was just pushed included |
| Pipeline.NothingDropped | src/exchange/server/src/server.cpp:489-510 | over every interleaving, however early a drain ends past the notes its event was pushed behind, no event lacks its records, goes to another client or replaces an order by itself; each request handed to the engine is one its book is built for; and whenever no event is on its way the open counts are the book's, notes waiting or not |
| Pipeline.WaitingSame | src/exchange/engine/src/engine.cpp:49-72 | popping one request ahead never changes which requests wait, or in what order |
| Conveyance.NothingLost | src/exchange/engine/src/engine.cpp:49-72 | over every interleaving, the requests order entry made are, in that order, each executed once or still waiting; the book is what executing them makes of an empty one; and their events are, in order, each answered once or still on their way |
| Answers.TradeTold | src/exchange/server/src/ouch_responder.cpp:108-119 | the two clients of a trade are told the same shares, match number and 100 times the resting price, one that it took and one that it gave, each under the number it gave its order |
| Answers.EnterAnswered | src/exchange/server/src/ouch_responder.cpp:47-67 | an acceptable Enter Order is answered to its client with Order Accepted in the client's own fields, or with Order Rejected if the book is full |
| Answers.ReplaceAnswered | src/exchange/server/src/ouch_responder.cpp:69-98 | a valid Replace Order is answered with Order Replaced: the original's number, then the replacement's, its own fields and the original's, for what is left |
| Answers.AnsweredAsEntered | src/exchange/server/src/ouch_responder.cpp:39-133 | over every interleaving, an answer is about an order the client it goes to entered, with the record the gateway made of it and the UserRefNum the client gave it |
| SpscRing.StepKeeps | src/infra/ring_buffer.hpp:59-103 | every load, slot access and publish of either side keeps the index and slot invariant, stale caches included |
| SpscRing.StepRefines | src/infra/ring_buffer.hpp:59-103 | publishing a push enqueues, releasing a pop dequeues the oldest, every other step changes nothing; push fails only when full and pop only when empty at the load |
| SpscRing.SlotsDisjoint | src/infra/ring_buffer.hpp:69-98 | the slot being written is never one still to be read, and the slot being read is published and holds the oldest item not taken |
| SpscRing.Fifo | src/infra/ring_buffer.hpp:59-103 | over every interleaving what was taken is a prefix of what was published and at most size - 1 items are outstanding |
| SpscRing.RingBuffer.Push | src/infra/ring_buffer.hpp:60-72 | succeeds exactly when there is room, appending the item |
| SpscRing.RingBuffer.Pop | src/infra/ring_buffer.hpp:90-103 | returns the oldest item, nothing exactly when empty |
| SpscRing.RingBuffer.Size | src/infra/ring_buffer.hpp:106-112 | counts the items outstanding, across the wrap |
| SessionLog.Log.constructor | src/exchange/server/include/session_log.hpp:43-53 | an empty log whose index has one entry per 32 bytes |
| SessionLog.Log.Append | src/exchange/server/include/session_log.hpp:86-102 | the packet joins the log, and the ring, the index and first_sequence still hold exactly what they should |
| SessionLog.Log.Evict | src/exchange/server/include/session_log.hpp:88-92 | drops exactly as many of the oldest messages as it takes for one more to fit bytes and index |
| SessionLog.Log.FirstIsLeast | src/exchange/server/include/session_log.hpp:64-65 | first_sequence is the least number whose suffix fits both the byte and the index capacity |
| SessionLog.Log.OffsetOf | src/exchange/server/include/session_log.hpp:72-76 | the true start of every held message and the end for the next one, nothing for any other |
| SessionLog.Log.WouldOverwrite | src/exchange/server/include/session_log.hpp:80-82 | true exactly when the unsent bytes and the packet together exceed the ring, which, for a client at most a ring behind, is exactly when some byte of the packet would land on the place of an unsent one |
| SessionLog.Log.ContiguousFrom | src/exchange/server/include/session_log.hpp:108-113 | the stream's own bytes from the offset, up to the end or the wrap, and at least one if any are left |
| SessionLog.Log.ReadAll | src/exchange/server/include/session_log.hpp:104-113 | repeated reads from any held offset give the rest of the stream, across the wrap |
| SessionLog.LeastFitIs | src/exchange/server/include/session_log.hpp:86-92 | fitting with its predecessor not fitting determines the first held number |
| Transcript.SendData | src/exchange/server/src/server.cpp:679-687 | n more bytes of the log extend what the connection has been sent by exactly those bytes |
| Transcript.SendControl | src/exchange/server/src/server.cpp:667-677 | n more bytes of the control packet extend it by exactly those; complete, it is Login Accepted or one heartbeat at a packet boundary |
| Transcript.RenderStable | src/exchange/server/src/server.cpp:613-638 | appending to the log changes nothing already sent |
| Transcript.RenderIsPrefix | src/exchange/server/src/server.cpp:606-747 | what has been sent is a prefix of Login Accepted(start), then whole packets start, start + 1, ... with heartbeats only between them |
| Transcript.PacketsOfPrefix | src/infra/soupbintcp_proto.hpp:216-228 | however much of a framed list of packets arrives, what parses is the start of that list |
| Outbound.CloseInv | src/exchange/server/src/server.cpp:712-730 | closing keeps session and connection pointing at each other, the dirty list exact, and closes each generation at most once |
| Outbound.AcceptInv | src/exchange/server/src/server.cpp:552-584 | a login keeps the invariant, its cursor at the start of a message still in the ring, or turns the client away |
| Outbound.RejectInv | src/exchange/server/src/server.cpp:537-543 | a refusal keeps the invariant |
| Outbound.SequenceInv | src/exchange/server/src/server.cpp:613-638 | a new message keeps every connected session's unsent bytes in the ring, dropping a consumer that fell a whole log behind |
| Outbound.BeatInv | src/exchange/server/src/server.cpp:735-747 | a heartbeat is queued only at a packet boundary and keeps the invariant |
| Outbound.ControlInv | src/exchange/server/src/server.cpp:667-677 | a partly or wholly taken control packet keeps the invariant |
| Outbound.DataInv | src/exchange/server/src/server.cpp:679-687 | log bytes taken in any amount keep the invariant |
| Outbound.UnmarkInv | src/exchange/server/src/server.cpp:646-657 | taking off the dirty list a connection with nothing to send keeps every sendable connection with unsent bytes on it |
| Outbound.StartHeld | src/exchange/server/src/server.cpp:562-579 | a start that is not older than the log's first message lies between 1 and the next number, and everything from it on is in the ring |
| Outbound.LoginServed | src/exchange/server/src/server.cpp:552-584 | a login is served from the number it asks for if that is still held, from the next new one with nothing replayed if it asks for 0 or past the end, and is told S otherwise |
| Outbound.HeldRises | src/exchange/server/include/session_log.hpp:86-92 | appending never lowers the oldest number held, so a stale published value is never too high |
| Outbound.SequenceEffect | src/exchange/server/src/server.cpp:613-638 | the packet is the next of that session only; its connection stays, with something to send, exactly if the unsent bytes and the packet fit the ring, and no other is touched |
| LogShelf.Shelf.Append | src/exchange/server/src/server.cpp:613-629 | one session's ring takes the packet and no other session's ring, index or first number changes |
| LogShelf.Shelf.OffsetOf | src/exchange/server/src/server.cpp:563-567 | the start of the asked-for message in its session's ring, nothing exactly when it is no longer held or not yet written |
| Sender.Server.CloseConnection | src/exchange/server/src/server.cpp:712-730 | TCP is closed exactly once per connection, and the tables change as specified |
| Sender.Server.AcceptLogin | src/exchange/server/src/server.cpp:552-584 | the tables, the control packet and the dirty list change as specified, the session's ring created on first login and its start looked up there |
| Sender.Server.RejectLogin | src/exchange/server/src/server.cpp:537-543 | the refusal is queued on a connection marked to close when it is flushed |
| Sender.Server.DropSlow | src/exchange/server/src/server.cpp:619-624 | a connected client is closed exactly when the packet would overwrite what it has yet to be sent |
| Sender.Server.SendSequenced | src/exchange/server/src/server.cpp:613-638 | the packet joins the session's ring and log; a consumer it would overwrite is closed first |
| Sender.Server.OnNote | src/exchange/server/src/server.cpp:526-550 | each note changes the tables as specified |
| Sender.Server.FlushLog | src/exchange/server/src/server.cpp:679-688 | this call offers TCP, on this connection only, the ring's run at the cursor first if anything is unsent, and goes on run by run until nothing is left or its last offer was not taken whole |
| Sender.Server.FlushConnection | src/exchange/server/src/server.cpp:662-707 | this call offers the rest of the control packet first, else the log at the cursor; true only if nothing more can be sent, false only if an offer of this call was not taken whole |
| Sender.Server.Flush | src/exchange/server/src/server.cpp:646-657 | every open connection on the list with something due is offered it during this call; those left on the list are a subsequence of the list before, open, and refused part of their last offer of this call |
| Sender.Server.Heartbeat | src/exchange/server/src/server.cpp:735-747 | its moves are exactly one heartbeat, in slot order, for each connection that is due one, logged in and has nothing queued |
| Logins.OneNameOneSession | src/exchange/server/src/server.cpp:369-391 | two usernames share a session exactly when they are the same but for letter case and for spaces or NULs as padding |
| Logins.JudgeKeeps | src/exchange/server/src/server.cpp:352-410 | no login moves a username to another session, and one let in gets its own session, unconnected |
| Logins.LetIn | src/exchange/server/src/server.cpp:352-410 | a login is let in, to its name's session and with its number, if and only if it names this session, its name is not blank, has a session or can have one, nobody is using it, and its number is 0 or not below the oldest held; it is told S exactly for a wrong session or only a stale number, and A otherwise |
| Logins.NotALogin | src/exchange/server/src/server.cpp:353-357 | a payload of the wrong length or without a sequence number is told A |
| Logins.LoginRoundTrip | src/infra/soupbintcp_proto.hpp:156-164 | the Login Request a client encodes is the one the server decodes |
| Logins.PackName | src/exchange/server/src/server.cpp:369-376 | the packed key is the normalised name's bytes, and blank means all spaces |
| Logins.Inbound.Login | src/exchange/server/src/server.cpp:352-410 | the connection, session and username tables and the note are as judged, and the step is one the session threads allow |
| Logins.Inbound.RejectLogin | src/exchange/server/src/server.cpp:414-418 | the connection takes no more input and the outbound thread is told |
| Logins.Inbound.Disconnect | src/exchange/server/src/server.cpp:444-454 | the session is free, the outbound thread is told, and a second call does nothing |
| Logins.Inbound.OnTcpEvent | src/exchange/server/src/server.cpp:231-261 | a new connection takes its slot; an end drops the connection, once, and data is read, only if it is about the connection the slot holds now |
| Logins.Inbound.HandlePacket | src/exchange/server/src/server.cpp:329-350 | a first login is judged, a logout drops, data reaches order entry only when logged in, anything else changes nothing |
| Sessions.NotesHeedable | src/exchange/server/src/server.cpp:526-550 | in every reachable state the next note finds its slot free, its session unused and its connection not out of date |
| Sessions.StepKeeps | src/exchange/server/src/server.cpp:231-747 | every step of the inbound and outbound session threads keeps the whole invariant |
| Sessions.RunKeeps | src/exchange/server/src/server.cpp:231-747 | so does every run |
| Sessions.RunGrows | src/exchange/server/src/server.cpp:662-730 | over any run what was sent stays sent and nothing is sent on a connection once it is closed |
| Sessions.RefusalTold | src/exchange/server/src/server.cpp:537-543 | a connection turned away is queued the Login Rejected with the reason it was turned away for |
| Sessions.OnTheWire | src/exchange/server/src/server.cpp:606-747 | in every reachable state a logged-in connection was handed a prefix of Login Accepted and its session's messages in order; any other at most one Login Rejected |
| Subscriber.Client.HandlePacket | src/client/src/load_generator.cpp:250-304 | each packet moves next_sequence and the handled messages as specified |
| Subscriber.Client.HandleReadable | src/client/src/load_generator.cpp:229-248 | every whole packet of the stream is handled once, in order, however the bytes arrive |
| Subscriber.Client.Connect | src/client/src/load_generator.cpp:153-226 | the packet sent is one whole Login Request that the server decodes to this username, this session and the client's next sequence number, on a connection that starts empty |
| Subscriber.Resumed | src/client/src/load_generator.cpp:252-289 | a reader holding the first start - 1 messages and served from start on holds exactly the messages before its next_sequence |
| Subscriber.HearsAll | src/client/src/load_generator.cpp:250-304 | once all of a served stream has come the reader holds every message and asks for the next, and no packet of it made it hang up |
| Resume.EventKeeps | src/client/src/load_generator.cpp:201-289 | every server step, reconnect, read and disconnect keeps every client caught up |
| Resume.HeldIsLetIn | src/exchange/server/src/server.cpp:394-410 | a client logging back in for a message its log still holds is let in, however stale the published value the inbound thread reads |
| Resume.HeldIsServed | src/exchange/server/src/server.cpp:552-584 | and, when the outbound thread comes to its login, is served from exactly that message if it is still held, and is told S if not |
| Resume.NoGapNoRepeat | src/client/src/load_generator.cpp:252-289 | over every run from start-up, what a client has handled is a prefix of its session's messages and next_sequence is its length plus one |
| Exchange.NoteClient | src/exchange/server/src/order_entry.cpp:28-188 | an order note is about the client whose message it came from |
| Exchange.StepKeeps | src/exchange/server/src/server.cpp:420-550 | with logins, disconnects and order notes on one ring, every step of the three threads keeps both invariants, and whoever has an order on record, a note on its way or a logged-in connection has a log when its turn comes |
| Exchange.EventAnswered | src/exchange/server/src/server.cpp:498-510 | answering an event adds exactly one message, its answer, to the log of the client it is for |
| Exchange.NoteAnswered | src/exchange/server/src/server.cpp:526-532 | taking a note adds exactly one message, Order Rejected with the note's reason, if it is a rejection, and none if it is not |
| Exchange.OthersSilent | src/exchange/server/src/server.cpp:481-524 | no other step of any thread adds a message |
| Exchange.EveryAnswerReaches | src/exchange/server/src/server.cpp:600-638 | over every run, no event is dropped, each session's messages are exactly the answers made for that client, in order, and a logged-in connection was handed a prefix of Login Accepted and those answers from its number on |
| Wire.LoadStore | src/infra/wire_codec.hpp:104-112 | a stored field loads back as as much of its value as its width holds |
| Wire.StoreLoad | src/infra/wire_codec.hpp:164-172 | any bytes are the big-endian form of what they load to |
| SoupBin.ParseFrame | src/infra/soupbintcp_proto.hpp:216-228 | a framed packet at the front of a stream parses as itself, consuming exactly its bytes |
| SoupBin.FrameParse | src/infra/soupbintcp_proto.hpp:216-228 | what parses is the frame of the packet it parses to |
| SoupBin.ParsePrefix | src/infra/soupbintcp_proto.hpp:216-228 | any proper start of a frame is incomplete, never malformed |
| SoupBin.WriteNumeric | src/infra/soupbintcp_proto.hpp:107-115 | the field is the number's digits, right-justified in spaces |
| SoupBin.ReadNumeric | src/infra/soupbintcp_proto.hpp:118-133 | reads spaces, digits, spaces, and nothing else |
| SoupBin.ReadsExactly | src/infra/soupbintcp_proto.hpp:118-133 | a field reads if and only if it is digits padded with spaces on either side, and as the decimal they spell if and only if that is below 2^64 |
| SoupBin.NumericRoundTrip | src/infra/soupbintcp_proto.hpp:107-133 | a number written in the 20-character field reads back as itself if and only if it is below 2^64, and modulo 2^64 otherwise |
| SoupBin.OverlongFields | src/infra/soupbintcp_proto.hpp:118-133 | 2^64 and 2^64 + 1 fit the field and read as 0 and 1 |
| Reassembly.CutsAgree | src/exchange/server/src/server.cpp:267-327 | every way of cutting a stream into segments handles the same packets and ends at the same point, if the packets handed on fit the buffer |
| Reassembly.CutIndependence | src/exchange/server/src/server.cpp:267-327 | all ways of cutting agree if and only if no packet the uncut stream hands on is longer than 512 bytes |
| Reassembly.SafeToCut | src/exchange/server/src/server.cpp:267-327 | on the bytes alone: a stream whose packets are all at most 512 bytes may be cut anywhere whatever the handler does, and under a handler that never stops only such a stream may |
| Reassembly.LongPacketSplit | src/exchange/server/src/server.cpp:315-322 | a 513-byte packet is handled whole and ends the connection when its length arrives ahead of it |
| Reassembly.ReceiveSound | src/exchange/server/src/server.cpp:267-327 | for every stream, what is kept is the unfinished start of a packet that fits the buffer |
| Reassembly.Connection.OnData | src/exchange/server/src/server.cpp:267-327 | the buffer, the packets handled and the connection's state after a segment are as specified |
| OuchCodec.SizeExact | src/infra/ouch_proto.hpp:576-585 | encoding takes exactly encoded_size bytes |
| OuchCodec.RoundTrip | src/infra/ouch_proto.hpp:587-648 | decoding an encoded message gives back its core, its present supported options, defaults for the rest, and the tag set cut to the supported tags |
| OuchCodec.Encode | src/infra/ouch_proto.hpp:587-605 | writes the message's bytes, or 0 exactly when they do not fit |
| OuchCodec.DecodeMessage | src/infra/ouch_proto.hpp:614-648 | terminates on every byte string with what the specification of decoding says |
| OuchCodec.SchemasGood | src/infra/ouch_proto.hpp:147-557 | all eight messages have distinct tags and typed defaults, and appendages within the length field |
| OuchCodec.FrameRoundTrip | src/infra/ouch_proto.hpp:703-757 | a whole frame survives the wire: its type byte leads decoding to its own message, and back comes all that message can carry |
| OuchCodec.CancelOnTheWire | src/infra/ouch_proto.hpp:587-605 | a Cancel Order's bytes: type, big-endian fields, appendage length, and each option as length, tag, value |
| OuchFrames.OutboundFits | src/infra/soupbintcp_proto.hpp:187-192 | every outbound OUCH message, whatever optional fields it carries, fits the server's 256-byte buffer with its SoupBinTCP header, so none goes unsent for its length |
| OuchFrames.PayloadFits | src/exchange/server/src/server.cpp:600-604 | the bytes of an answer are never empty, always fit, and decode at the client to the answer's type and every core field |
| OuchFrames.ClientReads | src/infra/ouch_proto.hpp:335-557 | the client that decodes an answer reads each of its fields in its own place |

## Left out

- DPDK bring-up, ports, queues, the tap interface and thread pinning: foreign calls and I/O.
- The TCP stack's internals: it is an environment with the stated assumptions.
- `TscClock`, latency samples, timestamps in requests, events and messages, prefetching: measurement only.
- Heartbeat intervals and idle and login timeouts as times: when they fall due is arbitrary.
- `retained_from_`: its value at a login is a parameter, so any value the outbound thread could have published is covered.
- The load generator's sockets, order generation, pipelining and backoff: I/O and randomness; only its session resume is modelled.
- The ITCH codec: its messages are a datatype; fixed-length fields would only add easy members next to OUCH.
- `OuchTagSet` as a bit set: a set of tags.
- The copying of a decoded inbound message's fields into the struct order entry reads: order entry starts from the struct.
- Shutdown, where spinning pushes give up and every connection is closed.
- Wrap-around of 64-bit offsets, sequence numbers, order ids and match numbers; `Resume` assumes fewer than 2^64 - 1 messages per session, so that a sequence number fits its field.
- The memory model beyond acquire and release: a load in `SpscRing` may return any value the other side has published since the last load, never an older one.
- `packet_factory.hpp`, `network_proto.hpp`, the benchmarks and the empty market feed stub.
- Subscriber.Client.HandleReadable: whether the order layer makes sense of a message, and so keeps the connection, is left open.

# Model of a small multiplayer game server and its browser client

The repository is a Go server and a JavaScript client. This project models the
parts of both that keep state or move bytes, and proves what they keep.

- **Sessions and rooms** (`LinkedList`, `SpotStack`, `SessionPool`, `Effects`, `Server`).
  Pre-allocated links move between a free pool, accepted sessions and rooms.
  `SessionPool` is the machine, with an invariant proved over every run; `Server`
  is the heap, intrusive lists and all, and every method is proved to take the
  machine's step. `Effects` says what every event and every raw message does, and
  where a session is after any history. A mutex-protected body is one step; so is the unlocked join.
- **Messages** (`Bytes`, `Book`, `ClientMessage`, `PlayerRecord`, `Relay`,
  `Conversation`). Both ends of the byte format, the full-status record, the
  stamping relay, and who hears what from whom.
- **Vitals** (`Vitals`). Hunger, thirst, energy and health over any life.
- **Tiles** (`TileBlocks`, `Autotile`, `TileTexture`). Pre-rendered blocks, the
  autotile expander and the offset texture, down to single pixels and texels.
- **Map files** (`Array2D`, `MapFormat`, `Bitmask`, `Borders`). The binary map
  reader, the neighbour bitmask and what it makes the browser draw.
- **Coroutines** (`Scheduler`). Run queue, sleep timers and resumption.
- **Map export** (`Rle`, `MapExport`). The run-length writer and the files it makes.
- **Smaller machines** (`Scene`, `Collision`, `Animation`).
- **Shared** (`Sequences`, `Options`, `Arithmetic`).

`dafny verify dfyconfig.toml` checks all of it.

## What the proofs found

Where the code does not do what it is for, the model keeps the code and a lemma
says exactly when it does.

- The last link of the pool can never be given out. Taking it dereferences a nil
  tail; the web framework recovers that panic, the pool stays without a tail, and
  the next session that leaves ends the process (`SessionPool.HealthyIff`,
  `SessionPool.WedgedForGood`). It takes as many connections as there are links
  (`SessionPool.EveryPoolWedges`, `SessionPool.WedgedPoolCrashes`).
- A message that ends before what its handler takes ends the process: nothing
  recovers a panic of a session. Three bytes are enough (`Relay.PanicsIff`,
  `SessionPool.HealthyIff`, `SessionPool.ThreeBytesCrash`).
- A chat line of 253 to 255 code units, which the client's writer allows, makes a
  message longer than the server accepts and ends the session
  (`Relay.ChatEndToEnd`); so does a map entry whose two names have more than 251
  (`Relay.EnterMapEndToEnd`).
- Server and browsers disagree about a coordinate whose low 16 bits are 32768 or
  more, such as a negative one, and neither gets the fraction of one
  (`Relay.StatusEndToEnd`).
- A bag's weight is never added up, so a new bag keeps within its limit if and only
  if it takes at most one item (`PlayerRecord.NewBagOverweightIff`).
- Quadrants of water tiles wrap to the row above: left ones unless the left bit is
  set, right ones unless it is set, the right bit is not, or they are an inner corner
  (`Autotile.WaterQuadrantWraps`). Whole tiles need the left bit (`Autotile.WaterWholeIff`).
- Offset textures show the wrong tile for the last column of the tileset, and for
  columns and rows beyond 127 (`TileTexture.NamesTileIff`).
- The run-length output does not tell a run from the three bytes that stand for it
  (`Rle.RunSharesIff`). Which inputs share an output is `Rle.AnyInputSharesIff`, and
  `Rle.SharesIff` by three bytes of an input without a triple. Different maps have one
  run-length file (`MapExport.TwoMapsOneFile`).
- The plain map file does not say whether a layer has cells. It determines the map if
  all layers are tile or object layers whose fields fit (`MapExport.PlainFileUnique`),
  not with image layers (`MapExport.ImageLayersAmbiguous`).
- The scan for collisions overlooks tiles that an object wider or higher than two
  tiles hits, and only then (`Collision.ScanFindsAllIff`, `Collision.HitNotSeen`).
- A thing killed before it entered the scene is still in it for one frame
  (`Scene.StaysOneFrameIff`, `Scene.DeadOnArrival`).
- A changed animation keeps its direction and, if it was going backwards, does not
  play as a new one except in the cases of `Animation.ShowsAsNewIff`; a delay below
  one freezes it (`Animation.Frozen`).

## Model

| member | source | states |
|---|---|---|
| LinkedList.List.AddLink | server/pecas/lista.go:56-71 | appends to the chain: next, prev, size and owner marks agree again on the old sequence plus the link; on a list whose tail was lost it panics |
| LinkedList.List.RemoveLink | server/pecas/lista.go:73-97 | deletes the link wherever it stands, leaves it detached, keeps the order of the rest; panics, changing nothing, exactly when another list owns it |
| LinkedList.List.TakeLink | server/pecas/lista.go:99-116 | drops and returns the last link; panics exactly on a list of at most one link, and a list of one is left with its head but no tail |
| LinkedList.List.ForEach | server/pecas/lista.go:130-134 | visits every value once, in chain order |
| LinkedList.Link.RemoveFromList | server/pecas/lista.go:32-37 | deletes the link from the list that owns it; fails exactly when none does |
| SpotStack.Stack.constructor | server/pecas/pilha.go:11-17 | an empty stack of the given size |
| SpotStack.Stack.Push | server/pecas/pilha.go:19-26 | adds on top, or fails exactly on a full stack and leaves the contents |
| SpotStack.Stack.Pop | server/pecas/pilha.go:32-39 | takes the top off, or fails exactly on an empty stack with zero |
| SessionPool.StartInv | server/server/ws_handler.go:16-28 | the freshly filled pool meets the invariant |
| SessionPool.AcceptKeepsInv | server/server/ws_handler.go:48-90 | an accept, whether it succeeds, is turned away or panics, keeps the invariant |
| SessionPool.EnterKeepsInv | server/server/session.go:131-136 | putting a pending session in an existing room keeps the invariant |
| SessionPool.ChangeRoomKeepsInv | server/server/server.go:104-111 | a room change never panics and keeps the invariant |
| SessionPool.LeaveKeepsInv | server/server/session.go:43-52 | recycling on a pool that is not wedged keeps the invariant |
| SessionPool.LiveCount | server/server/server.go:94-95 | free links and live sessions add up to MaxPlayers |
| SessionPool.StepKeepsInv | server/server/session.go:43-202 | of all steps exactly these end the process: a leave on a wedged pool, asked for or forced by a message too long, and a message whose handler reads past its end; every other keeps the invariant |
| SessionPool.StacksAndRoomsFit | server/server/session.go:43-52 | no pop finds the spot stack empty, no push finds it full, and a leaving link is in its own room's list |
| SessionPool.RunKeepsInv | server/server/ws_handler.go:23-58 | the invariant holds after every run of accept, join, received message, room change, move and leave |
| SessionPool.EveryRun | server/server/ws_handler.go:23-58 | over every run each link is in exactly one place, a joined link is in the list of its own room and no other, each spot is free or some live session's and not both, the stack is as high as the free list is long, and the last link is never given out |
| SessionPool.EverythingPlaced | server/server/ws_handler.go:15-28 | the same from the invariant alone, for every link and every spot |
| SessionPool.SessionKept | server/server/session.go:43-203 | a session keeps its connection and spot through every event but those that end it, and is in a room from its join on |
| SessionPool.SessionEnded | server/server/session.go:105-125 | after an event that ends it, asked for or forced by a message too long, a session is gone |
| SessionPool.SessionNew | server/server/ws_handler.go:48-90 | a session that was not there before is that of the connection just accepted |
| SessionPool.SpotTaken | server/pecas/pilha.go:32-39 | a spot that is not on the stack belongs to some live session |
| SessionPool.HealthyIff | server/server/session.go:161-202 | a run leaves the server running and its pool whole if and only if no accept of it finds exactly one free link and no message of it overruns |
| SessionPool.WedgedForGood | server/server/session.go:43-52 | a wedged pool admits and releases nobody, and the process ends if and only if a session leaves, is ejected, or sends a message that overruns |
| SessionPool.EveryPoolWedges | server/pecas/lista.go:99-116 | for every pool size above zero: as many connections as there are links wedge it |
| SessionPool.WedgedPoolCrashes | server/server/session.go:43-52 | for every pool size above one: after that one session joining and leaving ends the process |
| SessionPool.ThreeBytesCrash | server/server/handler_player.go:11-16 | for every pool size above one: the first session to join ends the process with the three bytes 10, 0, 0 |
| SessionPool.HeadcountIsJoined | server/server/server.go:88-98 | the room sizes added up are the number of joined sessions of those rooms |
| SessionPool.StatusAddsUp | server/server/server.go:88-98 | the reported total is the reported population plus the sessions that have not joined yet, in whatever order rooms are visited |
| SessionPool.HeardIn | server/server/server.go:134-143 | the filter of a cast keeps exactly the links in earshot, without repeats |
| SessionPool.HeardKeepsOrder | server/pecas/lista.go:130-134 | the recipients of a cast are in list order |
| SessionPool.CastReachesExactly | server/server/server.go:121-166 | a cast from a session goes once to each other session of the room at most 320 away on each axis, and to nobody else |
| SessionPool.CastFromServer | server/server/server.go:121-166 | a cast without a sender goes once to each session of the room at most 320 away on each axis, and to nobody else |
| Effects.JoinLands | server/server/session.go:131-136 | a session joins the room it was saved in if the server has it, and umbral if not; it is last in that room's list, keeps position, spot and connection, and every other session and list is as before |
| Effects.ChangeLands | server/server/server.go:104-111 | a session that changes room leaves its place in the one list and is last in the other; nothing else changes |
| Effects.MoveLands | server/server/handler_player.go:12-16 | a move changes the position of its session and nothing else |
| Effects.LeaveLands | server/server/session.go:43-52 | a session that ends puts its spot on the stack and its link at the end of the free list, leaves the list of its room, and changes nothing else |
| Effects.AcceptLands | server/server/ws_handler.go:48-90 | a connection gets the last free link and the top spot and waits at its saved place, nothing else changes; with one free link or none no session is new |
| Effects.ReceiveLands | server/server/handler_player.go:11-78 | from raw bytes: a position report puts its session at the signed numbers in bytes 3 and 4 and bytes 5 and 6; a map entry takes it to the room it names if the server has it with the zone; a message too long ends it; every other message leaves the pool as it is |
| Effects.StepPuts | server/server/session.go:43-203 | an event moves no session but its own, and that one as the event alone says |
| Effects.EverySessionExplained | server/server/session.go:43-203 | over every run from any pool: a session is where it was and the events since put it, or where its connection was saved and the events since then put it |
| Effects.EverySessionsPlace | server/server/ws_handler.go:48-99 | over every run from the start: each session came by some connection of the run, was not ended since, is in the room it joined or was last taken to, and at the position it last reported |
| Server.Server.constructor | server/server/ws_handler.go:15-28 | builds, on the heap, the pool machine's starting state |
| Server.Server.AllocatePool | server/server/ws_handler.go:17-28 | all links are free and inactive and the spots 0 to MaxPlayers - 1 are stacked in order |
| Server.Server.Accept | server/server/ws_handler.go:48-90 | takes the machine's accept step on lists, stack and client; the client returned is the record of the link taken off, with the top spot, the saved room and position, and a session ready to join; none exactly when at most one link is free or the pool is wedged |
| Server.Server.PutIn | server/server/server.go:109-110 | names the room in the client and appends its link to that room's list, all other lists unchanged |
| Server.Server.TakeOut | server/server/server.go:108 | deletes the link from the list of the room the client names, without panicking, all other lists unchanged |
| Server.Server.Join | server/server/session.go:131-136 | takes the machine's join step; the record then names the saved room if the server has it and umbral otherwise, at the saved position |
| Server.Server.ChangeClientRoom | server/server/server.go:104-111 | takes the machine's room-change step and never panics; the record then names that room, at the same position |
| Server.Server.RecycleClient | server/server/session.go:43-52 | spot pushed, link out of its room's list and at the end of the free list; panics exactly on a wedged free list |
| Server.Server.EndSession | server/server/session.go:105-125 | takes the machine's leave step; crashes exactly on a wedged pool |
| Server.Server.Move | server/server/handler_player.go:12-16 | takes the machine's move step; the record has the new position and the same room, and every list is as it was |
| Server.Server.Receive | server/server/session.go:161-202 | takes the machine's step for a received message, from raw bytes to lists: crashes exactly when it is fatal; otherwise the record has the position reported, or the room named, or is as it was, and only a position report or a chat line is sent on, to the machine's recipients |
| Server.Server.Status | server/server/server.go:88-98 | reports the live sessions, the free links and each room's size |
| Server.Server.CastInRoom | server/server/server.go:128-144 | walking the list reaches the machine's recipients in order and never meets a client of another room |
| Server.Server.MapcastBytes | server/server/server.go:121-145 | sends to the machine's recipients; refuses exactly a room the server does not have |
| Server.Server.Mapcast | server/server/server.go:148-166 | from a joined client's own room it never dereferences a missing room, and sends message byte and payload to the machine's recipients |
| Server.Server.Loop | server/server/session.go:43-203 | whoever connects, joins, sends what, travels or leaves, in any order: what happens on the heap is a run of the pool machine ending in the heap's state, and the process ends exactly when the machine crashes |
| Server.Server.ListsPlaced | server/server/ws_handler.go:15-28 | of the lists, the stack and the records themselves: a link is in the free list or is an active session's; a session in a room is in the list of the room it names and no other, a waiting one in none; a spot is stacked or an active client's and not both |
| Bytes.U8ReadBack | server/pecas/binary_book.go:37-46 | a byte reads back as the number put if and only if that is in 0..255 |
| Bytes.U16ReadBack | server/pecas/binary_book.go:48-53 | two bytes read back unsigned or signed as the number put if and only if it is in the respective range |
| Bytes.I32ReadBack | server/pecas/binary_book.go:55-61 | four bytes read back as the number put if and only if it fits 32 bits signed |
| Bytes.StringReadBack | server/pecas/binary_book.go:64-70 | a short string reads back as itself if and only if it has at most 255 bytes |
| Bytes.WrittenByPlace | server/pecas/binary_book.go:43-61 | the bytes written weigh 256 times the next, the first the most, and give the number modulo its width |
| Bytes.ReadByPlace | server/pecas/binary_book.go:97-106 | two bytes are read with the first as the high one; a signed number is the one of these bits in the signed range |
| Book.Book.PutBool | server/pecas/binary_book.go:32-35 | appends the flag's encoding |
| Book.Book.PutInt8 | server/pecas/binary_book.go:43-46 | appends the number's low byte |
| Book.Book.PutInt16 | server/pecas/binary_book.go:48-53 | appends the number's two low bytes, high one first |
| Book.Book.PutInt32 | server/pecas/binary_book.go:55-61 | appends the number's four low bytes, high one first |
| Book.Book.PutShortString | server/pecas/binary_book.go:64-70 | appends the low byte of the length and the uncut content |
| Book.Book.TakeInt8 | server/pecas/binary_book.go:97-101 | the next byte, unsigned; panics exactly at the end |
| Book.Book.TakeInt16 | server/pecas/binary_book.go:102-106 | the next two bytes as a signed number; panics exactly when they are not there |
| Book.Book.TakeShortString | server/pecas/binary_book.go:113-122 | the next short string; panics without a length, fails on a cut content and then does not move |
| ClientMessage.Message.TakeI8 | client-svelte/src/lib/client/game/client/client.js:32-36 | the next byte, unsigned; undefined exactly when there is none, and the position moves all the same |
| ClientMessage.Message.TakeBool | client-svelte/src/lib/client/game/client/client.js:37-41 | whether the next byte is one |
| ClientMessage.Message.TakeI16 | client-svelte/src/lib/client/game/client/client.js:42-47 | the next two bytes, unsigned, high one first |
| ClientMessage.Message.TakeI32 | client-svelte/src/lib/client/game/client/client.js:48-55 | the next four bytes as a signed 32-bit number |
| ClientMessage.Message.TakeShortString | client-svelte/src/lib/client/game/client/client.js:56-64 | the announced number of bytes after the length, or as many as there are; without a length the position is no number from then on |
| ClientMessage.Message.PutI8 | client-svelte/src/lib/client/game/client/client.js:69-72 | the constructed bytes grow by the low byte |
| ClientMessage.Message.PutI16 | client-svelte/src/lib/client/game/client/client.js:77-81 | the constructed bytes grow by the two low bytes of the number cut toward zero, although the high part is pushed uncut |
| ClientMessage.Message.PutShortString | client-svelte/src/lib/client/game/client/client.js:98-105 | the constructed bytes grow by a short string of the low bytes of at most 255 code units |
| PlayerRecord.ItemsReadBack | server/entities/player.go:43-51 | as many strings as were written are read back, each as it was, and the read ends where the write ended |
| PlayerRecord.ItemsInOrder | server/entities/player.go:43-51 | any item's string stands behind those of the items before it and in front of the rest |
| PlayerRecord.ReadFits | client-svelte/src/lib/client/game_state.js:440-472 | whatever bytes arrive, complete or cut anywhere, what the browser reads would fit in a message but for vitals that are undefined |
| PlayerRecord.FullStatusRoundTrip | client-svelte/src/lib/client/game_state.js:440-472 | the browser reads back every field the server wrote and consumes exactly its bytes if and only if every field fits its slot, strings have at most 255 bytes and ItemCount is the number of items |
| PlayerRecord.PlayerStatus.Tick | server/entities/player.go:89-104 | changes the vitals by one tick and nothing else; what that costs over a life is the ledger of Vitals |
| PlayerRecord.PlayerStatus.Walk | server/server/handler_player.go:12-18 | takes the new position and adds the distance along both axes to the distance walked |
| PlayerRecord.PlayerStatus.WriteToMessage | server/entities/player.go:122-133 | appends the status part of the layout |
| PlayerRecord.Bag.Add | server/entities/player.go:53-69 | refuses exactly an item too heavy alone or one too many; otherwise adds it last; ItemCount stays the number of items |
| PlayerRecord.PackedBound | server/entities/player.go:53-69 | whatever is offered to an empty bag, it holds at most MaxItemCount items and weighs at most their number times the limit |
| PlayerRecord.NeverOverweightIff | server/entities/player.go:53-69 | for every limit, count and recorded weight: the bag keeps within its limit over all sequences of items if and only if MaxItemCount items of the heaviest kind it takes do |
| PlayerRecord.NewBagOverweightIff | server/entities/player.go:53-69 | a new bag with a limit above zero keeps within it if and only if it takes at most one item; two items of the full limit break it |
| PlayerRecord.Bag.WriteToMessage | server/entities/player.go:43-51 | appends the bag part of the layout with all item names |
| PlayerRecord.Player.WriteToMessage | server/entities/player.go:169-173 | appends the whole layout of the player's record |
| PlayerRecord.ReadFullStatus | client-svelte/src/lib/client/game_state.js:440-472 | reads the record that the layout places at the read position and moves to its end |
| PlayerRecord.SendFullStatus | server/server/session.go:144-147 | through one message the browser gets the server's record, fully consumed, if and only if the record fits |
| Vitals.AnyLife | server/entities/player.go:89-104 | over any interleaving of moves and ticks the vitals stay in 0..100, hunger and thirst depend on the number of ticks alone, health and energy never rise, and the energy lost is at most a tenth of the distance, and exactly that, rounded down once a tick, while energy is left |
| Vitals.HealthLedger | server/entities/player.go:93-103 | over any life the health lost is one for each tick that ends with hunger 100, three for each with thirst 100 and one for each without energy, down to 0 and for nothing else |
| Vitals.HungerLedger | server/entities/player.go:89-92 | the ticks that end hungry are all but the first (99 - hunger) / 3, those that end thirsty all but the first 99 - thirst, whatever is walked |
| Vitals.EnergyLedger | server/entities/player.go:89-94 | over any life the energy lost is, for each tick, a tenth rounded down of the distance since the tick before, down to 0; distance left over is never saved up |
| Vitals.TiredForGood | server/entities/player.go:93-103 | who has no energy ends every further tick without |
| Vitals.HealthDrains | server/entities/player.go:95-100 | after n ticks hunger, thirst and, without energy, tiredness have cost at least a known amount of health |
| Vitals.DeadBy108 | server/entities/player.go:89-104 | health is 0 after 108 ticks whatever the player does, after 67 for one without energy |
| Vitals.IdleLife | server/entities/player.go:89-104 | who stands still loses exactly the known amount |
| Vitals.AliveAt107 | server/entities/player.go:89-104 | 107 ticks, or 66 without energy, can be survived: both bounds are exact |
| Relay.SetMessageHandler | server/server/server.go:60-80 | the table answers the new handler for its code and what it answered before for every other code, whatever its size |
| Relay.AddMessageHandlers | server/server/handlers_gen.go:4-8 | exactly the codes of status, map entry and chat have handlers |
| Relay.Receive | server/server/session.go:161-202 | stamps the id bytes in place and comes to the outcome of the receive step, for messages of any length and content |
| Relay.Dispatch | server/server/handler_player.go:11-78 | each handler's outcome: relay, echo, map entry, cut string or read past the end |
| Relay.ConstructByteBuffer | server/msg/message.go:88-101 | the message byte followed by all parts in order, in a buffer of exactly their size |
| Relay.PartsInOrder | server/msg/message.go:88-101 | any part stands behind those before it and in front of the rest |
| Relay.SendChat | client-svelte/src/lib/client/game_state.js:295-304 | the bytes of a chat message |
| Relay.SendStatus | client-svelte/src/lib/client/game_state.js:253-258 | the bytes of a position report, its coordinates cut toward zero |
| Relay.SendEnterMap | client-svelte/src/lib/client/game_state.js:229-235 | the bytes of a request to enter a map |
| Relay.PeerHearsChat | client-svelte/src/lib/client/game_state.js:512-516 | the spot and the text another browser takes from a chat message |
| Relay.PeerSeesStatus | client-svelte/src/lib/client/game_state.js:498-510 | the spot and the position another browser takes from a position report |
| Relay.PanicsIff | server/server/handler_player.go:11-78 | a handler reads past the end if and only if the message is a position report of less than seven bytes, a chat line or map entry of three, or a map entry that stops where the zone should begin; a session is ejected if and only if its message has more than 256 bytes |
| Relay.OutcomeOfBytes | server/server/session.go:161-202 | every other outcome, if and only if and from raw bytes: ignored, ejected, refused, unhandled, cut, moved to the signed numbers in bytes 3 to 6, said or echoed with the string at 3, entering with the two strings from 3 on |
| Relay.TablesAgree | server/server/server.go:60-80 | what comes of a message depends on the registered handlers, not on how far the table has grown |
| Relay.RelayedIsStamped | server/server/session.go:169-201 | what is relayed has 3 to 256 bytes, equals what was received but for the sender's spot in bytes 1 and 2, and never has a server code |
| Relay.ChatEndToEnd | server/server/handler_player.go:40-64 | a chat line ejects its sender if and only if it has more than 252 code units; otherwise it reaches the others as the spot and its low bytes, and unchanged if and only if every code unit is below 256 |
| Relay.ChatStamped | server/server/session.go:180 | stamping a chat message changes its spot and not its text |
| Relay.StatusEndToEnd | server/server/handler_player.go:11-38 | for all coordinates, fractional and negative too: the server has the browser's own if and only if it is whole and fits 16 bits signed, a peer if and only if it is whole and fits them unsigned, and the two agree if and only if what was sent is below 32768 modulo 65536 |
| Relay.WholeStatus | server/server/handler_player.go:11-38 | the same of the whole numbers that are written |
| Relay.EnterMapEndToEnd | server/server/handler_player.go:66-76 | the server takes the room and the zone the browser named, unless their names have more than 251 units together, which ejects the session |
| Conversation.ChatIsHeard | server/server/handler_player.go:40-64 | a chat line is sent once to exactly the sessions near the speaker in the same room, the speaker included, names the speaker and no other live session, holds the low bytes typed, and leaves the pool as it is |
| Conversation.StatusIsSeen | server/server/handler_player.go:11-38 | a received position report, of whatever coordinates, moves its sender in its own room, to the browser's coordinates if and only if they are whole and fit 16 bits signed; it is sent once to exactly the other sessions near the new position, names its sender alone, and shows the server's coordinates if and only if both, cut toward zero, are below 32768 modulo 65536 |
| Conversation.RoomChangeMovesEars | server/server/server.go:104-111 | after a room change a session hears what is said near it in the new room and nothing of any other, and everyone else hears what they did |
| TileBlocks.CopyTile | client-svelte/src/lib/client/blitz/webgl/drawer/tilemap2.js:131-137 | a rectangle copy writes the pixels of its target rectangle whose source exists and no other |
| TileBlocks.OwnTile | client-svelte/src/lib/client/blitz/webgl/drawer/tilemap2.js:113-118 | a pixel lies in a tile's rectangle of a tile's block exactly when the tile is its own |
| TileBlocks.PixelAfter | client-svelte/src/lib/client/blitz/webgl/drawer/tilemap2.js:120-137 | copying a tile draws its own pixels and disturbs none drawn before |
| TileBlocks.TileMap2.constructor | client-svelte/src/lib/client/blitz/webgl/drawer/tilemap2.js:43-61 | the least number of blocks that cover the map each way |
| TileBlocks.TileMap2.InitializeBlocks | client-svelte/src/lib/client/blitz/webgl/drawer/tilemap2.js:67-96 | every block exists and is blank |
| TileBlocks.TileMap2.DrawTile | client-svelte/src/lib/client/blitz/webgl/drawer/tilemap2.js:116-137 | one more tile is shown as drawing it directly would show it, all before it still are |
| TileBlocks.TileMap2.DrawTilesToBlocks | client-svelte/src/lib/client/blitz/webgl/drawer/tilemap2.js:103-142 | every pixel of the blocks is what drawing the map tile by tile gives |
| TileBlocks.TileMap2.DrawTilemap | client-svelte/src/lib/client/blitz/webgl/drawer/tilemap2.js:268-315 | after the first draw the blocks show the map and each is placed at its own offset |
| TileBlocks.TileMap2.ScreenShowsMap | client-svelte/src/lib/client/blitz/webgl/drawer/tilemap2.js:307-313 | each pixel of the map lies on exactly one placed block, which shows there what drawing the tiles would |
| Autotile.ChipsetPosBase | client-svelte/src/lib/client/game/autotilemap/autotilemap.js:27-52 | every entry of the table is the position of the cell a base tile starts from |
| Autotile.PlainPlace | client-svelte/src/lib/client/game/autotilemap/autotilemap.js:27-52 | the plain tiles from 18 and from 114 on are the cells from columns 12 and 20 on, row by row, six to a row |
| Autotile.BlockPlace | client-svelte/src/lib/client/game/autotilemap/autotilemap.js:27-52 | which of the autotiles stands in which block of the chipset, two to a row of blocks |
| Autotile.TilesShareNoCell | client-svelte/src/lib/client/game/autotilemap/autotilemap.js:27-52 | no two tiles but water are drawn from one cell of the chipset: the autotiles' 3 by 4 blocks are disjoint, the plain tiles' cells distinct, and none lies in a block |
| Autotile.LookUp | client-svelte/src/lib/client/game/autotilemap/autotilemap.js:434-447 | every cell gets its tile's chipset position, or zero, and is marked exactly when it is water or an autotile |
| Autotile.ExpandBase | client-svelte/src/lib/client/game/autotilemap/autotilemap.js:434-499 | every one of the 2h by 2w subtiles holds the number of its quadrant, for any map and any masks |
| Autotile.WriteCell | client-svelte/src/lib/client/game/autotilemap/autotilemap.js:481-497 | writes the four quadrants of one cell and no other |
| Autotile.BaseLayer | client-svelte/src/lib/client/game/autotilemap/autotilemap.js:479-501 | the map handed to the base layer is the expansion of the grid |
| Autotile.PlainQuadrant | client-svelte/src/lib/client/game/autotilemap/autotilemap.js:487-490 | the four quadrants of a plain tile are the four quarters of its chipset cell as TileMap2 decodes them |
| Autotile.ShiftStays | client-svelte/src/lib/client/game/autotilemap/autotilemap.js:104-146 | for every mask the shift of a quadrant is whole cells and stays within the autotile's block |
| Autotile.AutotileQuadrant | client-svelte/src/lib/client/game/autotilemap/autotilemap.js:492-497 | every quadrant of an autotile stays in the tile's own 3 by 4 cells and keeps its parity, for every mask |
| Autotile.ShiftedQuadrant | client-svelte/src/lib/client/game/autotilemap/autotilemap.js:492-497 | a shift by dx and dy moves an autotile's quadrant by as many subtiles right and down from its own cell |
| Autotile.WaterQuadrantWraps | client-svelte/src/lib/client/game/autotilemap/autotilemap.js:492-497 | each of the four quadrants of a water tile, of tile 0 those that are drawn at all, stays in the first six columns if and only if the left bit is set, or it is a right one and the right bit is not set or it is an inner corner; otherwise it wraps to the row above |
| Autotile.WaterWholeIff | client-svelte/src/lib/client/game/autotilemap/autotilemap.js:492-497 | a water tile other than 0 is drawn from its own columns as a whole if and only if its left bit is set |
| Autotile.DrawnSubtile | client-svelte/src/lib/client/blitz/webgl/drawer/tilemap2.js:124-127 | a pixel of the expanded map is the tileset pixel its quadrant's number decodes to |
| Autotile.PlainCellPixels | client-svelte/src/lib/client/game/autotilemap/autotilemap.js:479-501 | every pixel of a plain cell is the same pixel of the tile's chipset cell, from map to screen |
| Autotile.AutotileCellPixels | client-svelte/src/lib/client/game/autotilemap/autotilemap.js:479-501 | every pixel of an autotile cell comes from the autotile's own 48 by 64 pixels, at the same place within a cell |
| Array2D.PositionInjective | server/pecas/array2d.go:18-33 | two cells share a slice position only when they are the same cell |
| Array2D.Array2D.constructor | server/pecas/array2d.go:35-41 | an array of zeros of the given size |
| Array2D.Array2D.Set | server/pecas/array2d.go:18-24 | changes one cell and no other; fails exactly outside and then changes nothing |
| MapFormat.ParseInverts | server/autotilemap/autotilemap.go:83-134 | reading the encoding of any map gives it back and stops at its end, whatever follows |
| MapFormat.ParseSound | server/autotilemap/autotilemap.go:83-134 | a read that succeeds consumed exactly the encoding of what it returned |
| MapFormat.StrictPrefixFails | server/autotilemap/autotilemap.go:83-134 | no strict prefix of an encoding reads as a map |
| MapFormat.EncodedLength | server/autotilemap/autotilemap.go:83-134 | an encoding has 1 + name + 4 + 2wh + number of autotiles bytes |
| MapFormat.CellStands | server/autotilemap/autotilemap.go:99-115 | the k-th of the cells read stands k bytes on, and one for each autotile before it |
| MapFormat.MapStands | server/autotilemap/autotilemap.go:83-134 | a read map byte by byte: name behind its length, width and height with the low byte first, base cells, top cells |
| MapFormat.CellOfFile | server/autotilemap/autotilemap.go:99-126 | the loaded arrays hold at column x of row y the tile, mask and top tile that stand in the file behind y rows and x cells |
| MapFormat.CellsParse | server/autotilemap/autotilemap.go:99-115 | the base layer reads back cell by cell, a bitmask after exactly the autotiles |
| MapFormat.CellsSound | server/autotilemap/autotilemap.go:99-115 | the cells read are those whose encoding was consumed, and only autotiles have a mask |
| MapFormat.BinaryReader.ReadUint8 | server/pecas/binary_reader.go:36-43 | the next byte; fails exactly at the end, and then marks the stream finished |
| MapFormat.BinaryReader.ReadUint16 | server/pecas/binary_reader.go:45-52 | the next two bytes, low one first; a single byte left is an error but not the end |
| MapFormat.BinaryReader.ReadShortStr | server/pecas/binary_reader.go:64-74 | the next short string; fails exactly when its length or part of its content is missing |
| MapFormat.ReadCell | server/autotilemap/autotilemap.go:101-113 | reads one more cell into both arrays or fails exactly when the stream is short |
| MapFormat.ReadBase | server/autotilemap/autotilemap.go:97-115 | fills tiles and masks with exactly the cells of the stream, or fails |
| MapFormat.ReadTop | server/autotilemap/autotilemap.go:116-126 | fills the top layer with exactly the next bytes, or fails |
| MapFormat.ReadAutoTilemap | server/autotilemap/autotilemap.go:83-134 | returns the parsed map in its arrays, fully, with the stream at its end; otherwise an error and no map |
| Bitmask.CalcBitmask | server/autotilemap/autotilemap.go:50-81 | each bit says whether the neighbour on that side is the same tile or off the map; 0 for a place off the map |
| Bitmask.MaskByNumbers | server/autotilemap/autotilemap.go:50-81 | the eight bits by number, from 1 for the top left neighbour clockwise to 128 for the left one |
| Bitmask.MaskUnique | server/autotilemap/autotilemap.go:50-81 | that fixes the byte: a cell has one mask |
| Bitmask.MaskSymmetric | server/autotilemap/autotilemap.go:50-81 | a cell's bit towards a neighbour equals the neighbour's bit back |
| Bitmask.OnlyFacingBit | server/autotilemap/autotilemap.go:50-81 | after one tile changes, another cell's mask can differ only in the bit facing it |
| Bitmask.MaskIsLocal | server/autotilemap/autotilemap.go:50-81 | after one tile changes, a place outside the 3 by 3 block around it has exactly the mask it had |
| Bitmask.RecomputeBlock | server/autotilemap/autotilemap.go:50-81 | so masks right before the change and computed anew in the block are right on the whole map after it |
| Bitmask.SetIsWith | server/pecas/array2d.go:18-24 | what setting a cell of the array leaves is the map with that one tile changed |
| Borders.ShiftIsChoice | client-svelte/src/lib/client/game/autotilemap/autotilemap.js:104-146 | the four subtile functions are one choice, mirrored: it depends on the two sides the quadrant faces, the sides opposite and the corner between |
| Borders.BordersFollowNeighbours | client-svelte/src/lib/client/game/autotilemap/autotilemap.js:104-146 | with the server's mask of its neighbours a quadrant is an inner corner if and only if both its sides continue the tile and the corner does not; otherwise its column and its row are each the border, the middle or the far one if and only if the facing neighbour differs, both continue, or only the facing one does |
| Borders.BlockFollowsNeighbours | client-svelte/src/lib/client/game/autotilemap/autotilemap.js:479-501 | which of the six by eight subtiles of its autotile's block each quadrant of a map cell is drawn from, told by its neighbours alone |
| Borders.MiddleIsOwnCell | client-svelte/src/lib/client/game/autotilemap/autotilemap.js:479-501 | among eight neighbours of its own tile a cell is drawn from the four quarters of the tile's own cell |
| Scheduler.StepKeepsInv | server/scheduler/scheduler.go:69-187 | every step keeps: each live coroutine has exactly one wake-up (sender, timer or running), each dead one none, and the one running is the current one with its own table as self |
| Scheduler.RunKeepsInv | server/scheduler/scheduler.go:174-187 | the invariant holds after every run of the scheduler, its timers and its scripts |
| Scheduler.ReceivedIsSuspended | server/scheduler/scheduler.go:69-89 | in every run the coroutine received is suspended and no coroutine is running, however early its timer fired, so it is resumed |
| Scheduler.SelfIsOwnTable | server/scheduler/scheduler.go:69-89 | in every run the coroutine that runs has as self the table it was started with |
| Scheduler.StepLedger | server/scheduler/scheduler.go:130-145 | what each step does to the timers and senders of a coroutine, in receipts, firings and sleeps |
| Scheduler.Ledger | server/scheduler/scheduler.go:130-168 | over every run each sleep gives one timer and each firing or start one receipt, done or still pending |
| Scheduler.OneResumePerSleep | server/scheduler/scheduler.go:130-145 | a coroutine is received at most once more than it slept |
| Scheduler.LiveCoroutineCanRun | server/scheduler/scheduler.go:174-187 | unless stopped, every live coroutine can be brought to run within three events |
| Scheduler.StoppedForGood | server/scheduler/scheduler.go:183-184 | after the stop no coroutine runs or ends |
| Scheduler.Scheduler.StartCoroutine | server/scheduler/scheduler.go:157-168 | takes the machine's start step with a new coroutine object, suspended and with the given table, its creator blocked sending it |
| Scheduler.Scheduler.RunCoroutine | server/scheduler/scheduler.go:69-89 | takes the machine's receive step on the coroutine objects; the coroutine received then runs, with its table as self |
| Scheduler.Scheduler.SleepCurrentCoroutine | server/scheduler/scheduler.go:130-143 | takes the machine's sleep step: a timer for the coroutine that is inside, which has not yielded yet |
| Scheduler.Scheduler.FinishSleep | server/scheduler/scheduler.go:144 | takes the machine's yield step: that thread and no other is suspended |
| Scheduler.Scheduler.EndScript | server/scheduler/scheduler.go:78-82 | takes the machine's finish step: that thread and no other is dead |
| Scheduler.Scheduler.FireTimer | server/scheduler/scheduler.go:137-143 | takes the machine's fire step: one timer less, one blocked sender more, of the same coroutine |
| Scheduler.Scheduler.Loop | server/scheduler/scheduler.go:174-187 | whatever scripts, timers, creators and the channel choose, what happens to the objects is a run of the machine |
| Scene.PassCounts | client-svelte/src/lib/client/game_state.js:145-158 | in one frame a thing appears as often as it was spawned, plus its old places if it is alive at the end, plus none of them if it was dead from the start |
| Scene.NextTurn | client-svelte/src/lib/client/game_state.js:145-158 | in each turn the thing's spawns follow what is there, then the thing itself unless it is dead by then |
| Scene.LiveConserved | client-svelte/src/lib/client/game_state.js:142-169 | over every run without a reset a thing nobody kills is in scene and pending as often as before plus its spawns: nothing lost or doubled |
| Scene.ResetLeavesNothing | client-svelte/src/lib/client/game_state.js:116-119 | after a reset, whatever the run before it, no thing is in scene or pending |
| Scene.SpawnedSinceReset | client-svelte/src/lib/client/game_state.js:116-169 | what nobody kills is there after a reset exactly as often as it was spawned since |
| Scene.StaysOneFrameIff | client-svelte/src/lib/client/game_state.js:145-158 | a thing marked dead that nobody spawns again is still there after the next update if and only if it was pending |
| Scene.DeadOnArrival | client-svelte/src/lib/client/game_state.js:122-169 | spawned, killed before its first frame, and in the scene after it |
| Scene.DeadLeaves | client-svelte/src/lib/client/game_state.js:152-157 | a dead thing nobody spawns again is gone after one frame if it was in the scene, after two if it was pending, and stays gone |
| Scene.Stack.Push | client-svelte/src/lib/client/stack.js:21-24 | puts a thing on top; every slot below the top stays defined |
| Scene.Stack.Reset | client-svelte/src/lib/client/stack.js:55-58 | the stack is empty again |
| Scene.GameState.Spawn | client-svelte/src/lib/client/game_state.js:122-125 | the thing is pending and the scene unchanged |
| Scene.GameState.Kill | client-svelte/src/lib/client/game_state.js:128-130 | the thing's flag is set and nothing else |
| Scene.GameState.Reset | client-svelte/src/lib/client/game_state.js:116-119 | scene and pending are empty and no flag changes |
| Scene.GameState.Update | client-svelte/src/lib/client/game_state.js:142-169 | the new scene is what was pending, then in order what each thing spawned and the thing unless dead; nothing is pending; every slot below the top is defined |
| Scene.GameState.Render | client-svelte/src/lib/client/game_state.js:194-205 | the unguarded reads find every thing of the scene, in order |
| Rle.TokensExpand | maps/extensions/tileset_format.js:63-86 | for every input the runs expand back to it, hold 1 to 65535 bytes, and are cut only when full |
| Rle.TokensUnique | maps/extensions/tileset_format.js:63-86 | no other such decomposition has the same expansion |
| Rle.WireLength | maps/extensions/tileset_format.js:73-81 | the output is never longer than the input, and as long if and only if no run exceeds three |
| Rle.WriterKeepsIff | maps/extensions/tileset_format.js:57-86 | the output is the input itself if and only if no three equal bytes stand together |
| Rle.Cut | maps/extensions/tileset_format.js:63-86 | between two different bytes the input can be cut and the output is the two outputs joined |
| Rle.RunSharesIff | maps/extensions/tileset_format.js:73-81 | for every run of 3 to 65535 equal bytes: it and the three bytes it is stored as, taken as input, have one output if and only if those three are not themselves equal |
| Rle.RunSharesAnywhere | maps/extensions/tileset_format.js:57-86 | the same between any bytes that continue neither, so two inputs have one output |
| Rle.TriplesDecide | maps/extensions/tileset_format.js:57-86 | inputs without three equal bytes together are told apart by their outputs; an input with three whose output has none shares its output with that output |
| Rle.SharesIff | maps/extensions/tileset_format.js:57-86 | an input without three equal bytes together shares its output with another input if and only if three bytes of it in a row can be read as a run that its neighbours do not continue |
| Rle.HowManyInputs | maps/extensions/tileset_format.js:57-86 | for all bytes, the inputs that have them as output, listed, are exactly as many as the ways counted token by token from the bytes alone |
| Rle.AnyInputSharesIff | maps/extensions/tileset_format.js:57-86 | any input at all shares its output with another one if and only if its output can be read in more than one way |
| Rle.ConstructRLE | maps/extensions/tileset_format.js:57-97 | the scanning loop writes the encoding of the unique decomposition |
| MapExport.PutLayer | maps/extensions/tileset_format.js:106-123 | appends a layer: behind what was there stand the name, whether it is an object layer and, of a tile layer, width, height and the cell (x, y) two bytes wide at 2 (y width + x) |
| MapExport.WriteMapToFile | maps/extensions/tileset_format.js:101-130 | the plain file is the number of layers and then each layer where those before it end, and nothing else; otherwise its run-length encoding is written |
| MapExport.MapPlaces | maps/extensions/tileset_format.js:101-130 | every name, kind, size and cell of every layer by its place in the file |
| MapExport.TwoMapsOneFile | maps/extensions/tileset_format.js:101-130 | for every v from 1 to 255 the two-cell maps v, 257 v and v, 768 differ, as do their plain files, and have one run-length encoded file |
| MapExport.PlainFileUnique | maps/extensions/tileset_format.js:101-130 | of maps of tile and object layers whose fields fit, the plain files are equal if and only if the maps are |
| MapExport.LayerPrefix | maps/extensions/tileset_format.js:106-123 | of such a layer at the front of any bytes, the bytes tell the layer and where it ends |
| MapExport.ImageLayersAmbiguous | maps/extensions/tileset_format.js:106-123 | with image layers it fails: two different maps of one tile, two object and two image layers have one plain file |
| Collision.IntersectionMeaning | client-svelte/src/lib/client/game/util.js:30-33 | the intersection holds exactly the common points, and has area exactly when rectangles with area overlap |
| Collision.HitSharesPoint | client-svelte/src/lib/client/game/game_map.js:245-255 | a rectangle with area is hit by exactly the solid tiles of the map that have a point of it among their 16 by 16 |
| Collision.RectsIntersect | client-svelte/src/lib/client/game/util.js:15-36 | answers whether the rectangles overlap and writes the intersection, or zeros |
| Collision.WindowOnMap | client-svelte/src/lib/client/game/game_map.js:239-242 | the window never leaves the map |
| Collision.WindowCovers | client-svelte/src/lib/client/game/game_map.js:234-242 | an object of at most two tiles touches only tiles of the window |
| Collision.WindowMisses | client-svelte/src/lib/client/game/game_map.js:234-242 | along one axis: every wider object has a place where the window misses a tile it touches |
| Collision.WindowSufficientIff | client-svelte/src/lib/client/game/game_map.js:234-242 | along one axis: the window suffices for all positions and map sizes if and only if the object is at most 32 wide |
| Collision.NothingOverlooked | client-svelte/src/lib/client/game/game_map.js:245-255 | for such objects the first hit of the window is the first hit of the whole map |
| Collision.HitNotSeen | client-svelte/src/lib/client/game/game_map.js:225-256 | an object wider or higher than 32 has a place where it hits the one tile of a map and the scan does not see it |
| Collision.ScanFindsAllIff | client-svelte/src/lib/client/game/game_map.js:225-256 | the scan sees every tile hit, on all maps and at all positions, if and only if the object is at most 32 wide and at most 32 high |
| Collision.ObjectCollides | client-svelte/src/lib/client/game/game_map.js:225-256 | answers the first solid tile hit, column by column, with the exact intersection; for objects of at most 32 by 32 that of the whole map, and -1 if and only if there is none when tile numbers are not negative |
| Collision.SomeFirstHit | client-svelte/src/lib/client/game/game_map.js:245-255 | a hit anywhere implies a first hit |
| TileTexture.NearestPowerOf2 | client-svelte/src/lib/client/blitz/webgl.js:338-344 | the least power of two that is at least n |
| TileTexture.WriteTexel | client-svelte/src/lib/client/blitz/webgl/drawer/tilemap.js:90-99 | writes a texel that was blank and no other |
| TileTexture.WriteQuarter | client-svelte/src/lib/client/blitz/webgl/drawer/tilemap.js:83-99 | one more quarter of a tile holds its offsets, all reached before still do, all others are blank |
| TileTexture.TileBufferFromArray | client-svelte/src/lib/client/blitz/webgl/drawer/tilemap.js:62-105 | no write is out of bounds or repeated; each texel of the map holds its tile's offsets with alpha 255 and all others stay zero |
| TileTexture.CreateTexture | client-svelte/src/lib/client/blitz/webgl/drawer/tilemap.js:191-197 | the least power-of-two sides that hold two texels a tile, and every texel as it is to be |
| TileTexture.NamesTileIff | client-svelte/src/lib/client/blitz/webgl/drawer/tilemap.js:86-95 | for every tile counted from 1 and every tileset width the texel names the tile's own quarter if and only if the tile is not in the last column and neither its column nor its row is beyond 127 |
| TileTexture.CellNamesTileIff | client-svelte/src/lib/client/blitz/webgl/drawer/tilemap.js:83-99 | so of a map: the two by two texels of a cell name the quarters of its own tile under the same condition, and are opaque |
| Animation.CycleMoves | client-svelte/src/lib/client/game/animation.js:39-53 | in a cycle the frame is the number of moves modulo the frame count, either way round |
| Animation.WaveMoves | client-svelte/src/lib/client/game/animation.js:44-50 | in ping-pong the frame follows the wave that shows both ends twice |
| Animation.ClosedForm | client-svelte/src/lib/client/game/animation.js:39-53 | after n updates frame, direction and remaining delay are the closed forms at n / frameDelay, from construction or after a change in either direction |
| Animation.ShowsAsNewIff | client-svelte/src/lib/client/game/animation.js:29-36 | a changed animation shows, at every update, the frame a new one shows if and only if it was going forwards, never moves, has one frame, or is a cycle of two |
| Animation.FirstMoveDiffers | client-svelte/src/lib/client/game/animation.js:29-53 | otherwise the first move already goes to the last frame, or nowhere, instead of the second frame |
| Animation.GoesBackwards | client-svelte/src/lib/client/game/animation.js:44-50 | a ping-pong does go backwards, so a change can find that direction |
| Animation.FrameInRange | client-svelte/src/lib/client/game/animation.js:55-57 | the frame is always one of the animation's own |
| Animation.Animation.FrameDrawn | client-svelte/src/lib/client/game/animation.js:55-57 | after n updates of a new or changed animation the frame drawn is base frame plus the count of moves modulo the frames in a cycle, up and down with both ends twice in ping-pong, and one of its own frames |
| Animation.Frozen | client-svelte/src/lib/client/game/animation.js:40 | with a delay below one the animation stands still |
| Animation.Animation.Change | client-svelte/src/lib/client/game/animation.js:29-36 | starts another animation at its first frame and keeps the direction |
| Animation.Animation.Update | client-svelte/src/lib/client/game/animation.js:39-53 | one step of the clock, base frame unchanged |

## Left out

- Foreign parts: database and file storage, login tokens, HTTP, WebSocket, the Lua
  interpreter, WebGL state, shaders, sound and the user interface. Their inputs are
  parameters or arbitrary events of the machines.
- Message channels: a send is an attempted send; a full or closed channel, and the
  loss or delay it causes, is not modelled.
- The index of players by login, whose entries clash when one login connects twice.
- Broadcasts to all rooms, the exit, join and set-map notices as bytes, and the
  choice of an arrival point in a zone; a room change itself is modelled.
- What a panicking list operation has written when the process ends with it.
- Player.Load, which adds saved items to a bag again; only Bag.Add is modelled.
- Strings are bytes on the server and code units in the browser; conversions between
  Go strings and UTF-8 text are not modelled, nor are item names.
- Agreement of the Go and the JavaScript map reader: they use another byte order and
  the JavaScript one also reads a mask after water tiles.
- Water tiles in Autotile beyond which quadrants wrap (tile 0 is water too, but starts
  from subtile 1, so that what falls above the first row is not drawn), and the middle
  and top layers, which the loader leaves empty.
- TileTexture and TileBlocks model a texture as values; the vertical direction of
  texture coordinates and the shader's sampling are not modelled.
- Scheduler: scripts yield only by sleeping and sleep only inside a coroutine; a script
  that starts a coroutine would block on its own scheduler and is not modelled. The
  script's effects other than sleeping and ending are not modelled.
- Scene: an update does not reset the scene it is running in; the scene's own drawing
  and camera are left out, and Stack.pop, which nothing calls.
- Collision: coordinates are real numbers, without rounding; the filter argument, which
  the code ignores, is left out.
- Server.Server.Status is read at one moment; the source reads the sizes without the lock.
- SessionPool: whether the room a message names has a map with the zone it names is an
  input. What a session's clean-up still does while a panic ends the process is left out.
- SessionPool: sessions end only after they joined; the source joins before its first
  read, so no message or error comes earlier.

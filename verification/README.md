# A verified model of the input server and its protocol

The input server lets remote machines act as game controllers: a client connects,
authenticates, describes its input device and then streams events, which the server
writes to a virtual device of its kernel. This project models that system in Dafny
and proves what a maintainer relies on when changing it.

* `Protocol` – message types, the length table, byte orders, and the tokenizer that
  cuts a whole byte stream into messages.
* `Uinput`, `DeviceCreation`, `CallOrder` – the capability set of a device, the kernel calls
  that create it one by one and in which order, and the device they describe.
* `Slots` – the message handlers as functions of a slot, a message and the answers of
  the operating system; the incremental loop over the input buffer, and the parser of
  the whole stream it is measured against.
* `Fragmentation` – the loop does not depend on how the stream is cut.
* `Kernel`, `World`, `Runs` – sockets and devices, the two connection tables as a
  transition system, and what every run keeps.
* `Rounds`, `RoundContents` – what the main loop does with what `select` reports, and in which order.
* `Endings` – which messages end a connection, and what their sender is told.
* `Definedness` – when the behaviour of the server stays defined.
* `Isolation`, `Lifecycle`, `Devices`, `Axes` – one client cannot disturb another; how slots
  and devices are handed out, resumed and left behind; axes and the whitelist.
* `GamepadClient`, `InputServer` – the server's records and tables as classes whose
  methods update them in place, proved against the functions above.
* `Network`, `InputClient`, `Handshake` – partial transfers, the client, and the server on
  what the client sends.
* `Leftovers`, `Composition`, `EndToEnd`, `EventDelivery` – what earlier clients of a slot leave
  to the next one, when a handshake completes, a whole session among those of others, and what
  becomes of the events streamed in it.
* `Witnesses` – legal runs that show the departures listed below.
* `EasyArgs`, `Osc` – the command line parser and the OpenSound Control reader.
* `Wrappers` – optional values.

The operating system is a parameter. A slot asks it questions (can this reply be sent,
can this event be written, which descriptor does a new device get), and the function
`os` answers the n-th one; a negative answer is a failure. A statement holds for every such
function unless it asks for more: that the writes of the events are accepted
(`Fragmentation.EventFidelity`, `EventDelivery.EventsDelivered`), or, where it says what a client
gets when all goes well, for `Slots.Willing`, an operating system that refuses nothing
(such as `Axes.MissingGuard`, the exchanges of `Handshake`, `Composition.ConnectsExactly`,
`Composition.ComposedHandshake`, `EndToEnd.WholeSession`, `EventDelivery.SessionDelivers`, the runs
of `Witnesses`).

What a slot does to the world outside it is a list of effects, and `Kernel.Absorb` says what these
effects do to sockets and devices. Statements about runs ask two things of the operating system
(`World.Promised`): a new descriptor is not in use, and a socket is not descriptor 0. Of the
server's side they ask that it serves in the way its loop does and that its behaviour stays
defined (`World.Proper`); `Definedness.ProperExactly` has the exact condition for that. They hold
for both loops of `Slots.Rule`, the one that is written and the one that is intended; the class
`InputServer` runs the written one.

## Where the code departs from its documentation

The model follows the code. Where that breaks a property the documentation or the rest
of the code suggests, the project states exactly when the property holds.

* `server/input-server.c:491` compares the buffered bytes with a message size that is 0
  while the length byte of a PASSWORD or DEVICE message is missing
  (`common/protocol.c:31-35`), so the handler runs on bytes that were not received.
  `Slots.Rule` has the loop `AsWritten` and the `Intended` one, which waits as
  `common/network.h:57-60` does. `Fragmentation.AsWrittenExactly` shows that the written
  loop is independent of fragmentation if and only if no chunk ends right behind such a
  first byte.
* `server/input-server.c:485-488` leaves a connection open whose next byte is no message
  type. Nothing it sends is looked at any more (`Fragmentation.StuckForever`,
  `Witnesses.StuckRun`); once the buffer is full, `recv` has no room and the connection
  counts as closed (`Rounds.FullBufferDrops`, `Witnesses.FullBufferRun`).
* `server/uinput.c:98` reads the name without looking whether a DEVICE message ever set it
  (`server/input-server.c:420-431`). `Definedness.DefinedExactly` says exactly which runs that and
  the first item leave defined.
* `server/input-server.c:529-533` closes a connection without `client_close`, so the list
  of requested events outlives it, and `client_close` itself keeps the axes, both against the
  "clean slate" of `server/input-server.c:45-50`. `server/uinput.c:102-115` then sets the axes of
  an earlier client up on the device of the next. `Witnesses.StaleAxisRun` is such a run,
  `Lifecycle.EventsOutliveErrors` says when events stay, and `Leftovers.LeftoversExactly` when
  leftovers matter: a device is the one its client described if and only if that client sets
  every leftover event and axis itself. The deprecated setup (`server/uinput.c:118-128`) makes no
  range test and passes fuzz and flat on as well, so there an axis counts as soon as one of its
  four range fields is not zero (`DeviceCreation.Told`).
* `server/input-server.c:319-334` takes axes without looking at the whitelist, and the client sends
  one after every EV_ABS request, dropped or not. `Witnesses.ForbiddenAxisRun` gets a device with a
  forbidden axis; `Axes.MissingGuard`, `Axes.GuardedSetup` and `Axes.AxesExactly` say exactly when that
  happens. Requested codes are checked (`Runs.WhitelistEndToEnd`).
* `server/input-server.c:685-688` keeps the bytes of a waiting connection that is dropped.
  `Lifecycle.LeftoverReachable` shows that the next connection of the entry can meet them and
  `Lifecycle.LeftoverBytes` for which leftovers its HELLO is still understood.
* `server/input-server.c:165-168` and `server/input-server.c:306-311` send SUCCESS as one byte,
  `server/input-server.c:103-104` does so for VERSION_MISMATCH; the table
  (`common/protocol.c:13-14`) says two. A client that resumes a device waits for a byte that
  never comes, with and without a password (`Composition.ResumedClientWaits`): a handshake with the
  right password completes if and only if the slot has no device (`Composition.ConnectsExactly`).
  `Composition.GreetingIsWhole` says which answers to a HELLO are whole.
* `protocol/protocol.md:399-401` has the old device destroyed when a client sets up again. The
  code keeps it alive without a holder (`server/input-server.c:354-371`, `server/uinput.c:142`).
  `Lifecycle.ReSetupLeaks` exhibits it; `Devices.DevicesAccounted` shows that this is the only way
  in which a device is ever lost, and `Devices.DispatchDevices` names the message that does it.
* `protocol/protocol.md:124-125` ends the connection after a wrong password. The code keeps it in
  a status that leads nowhere (`server/input-server.c:299-315`, `Lifecycle.InvalidPasswordIsFinal`).
* `protocol/protocol.md:117-118` counts the password without its terminator; the clients send the
  NUL as well. `server/input-server.c:299` compares no more than the payload, so without the NUL it
  accepts every prefix of the password (`Slots.AcceptedPayloads`), and the two bytes of a PASSWORD
  message with an empty payload get past every password (`Witnesses.EmptyPasswordRun`). Where every
  payload carries its NUL, only the password itself does (`Runs.AuthenticatedByPassword`).
* `common/network.h:20` asks `send` for the whole length again after a short send, which sends what
  lies behind the message. `Network.WholeLengthIsExactOnlyForBytes` and `Network.RemainingIsExact`
  compare it with asking for the rest; `Network.ExactSchedule` says which schedules do no harm.
* `server/input-server.c:115` takes a slot with descriptor 0 for free (`Lifecycle.NamedSlot`).
* `osc/osc-xlater.c:137` checks the length with an argument count that is still 0, so a message is
  accepted without its arguments (`Osc.ParseEncoded`).
* `libs/easy_args.c:89-98` frees the option list but keeps `base`; a second parse would read freed
  memory. The class `EasyArgs.Parser` records this in `freed` and requires a fresh list.
* `server/input-server.c:347-350` never copies the device id of a DEVICE message.

## Model

| member | source | states |
|---|---|---|
| `Protocol.DataRoundTrip` | server/input-server.c:453-458 | the byte swaps of client and server are inverse in both directions, for all 16-bit types and codes and all signed 32-bit values |
| `Protocol.RequestRoundTrip` | client/input-client.c:80-83 | a REQUEST_EVENT message is one frame and names the event it was built from |
| `Protocol.FramesPartition` | common/protocol.c:29-39 | cutting a stream into messages loses and invents no byte, every piece is exactly one message, and the tail holds no further one |
| `Protocol.FramesAppend` | common/protocol.c:29-39 | tokenizing can be resumed from the tail of what had arrived, for any later bytes |
| `Protocol.FramesOfFrames` | common/protocol.c:4-39 | a sequence of messages is recovered from its concatenation |
| `Protocol.RestBound` | common/protocol.c:4-39 | an unfinished tail is shorter than 265 bytes or starts with a byte that is no message type |
| `Uinput.MapLookup` | server/uinput.c:31-32 | the scan of the terminated table finds the entry of a type, or the terminator for exactly the types without an ioctl |
| `Uinput.CapabilityRefinement` | server/uinput.c:25-61 | skipping repeated type ioctls enables exactly what the naive sequence enables, which is what the list requests |
| `Uinput.TypeBeforeCode` | server/uinput.c:43-57 | no code is enabled before its event type |
| `Uinput.EnableEvents` | server/uinput.c:25-61 | on success exactly the optimised sequence was issued and every call succeeded; on failure a prefix of it, ending in the first call that failed |
| `DeviceCreation.FieldOfField` | server/uinput.c:98 | a name field that a client sends arrives as the same name field, and strncpy stays within it |
| `DeviceCreation.Configure` | server/uinput.c:95-135 | names the device and describes its axes: those in use one by one, or with the deprecated setup the ranges of all; a failed setup call is passed over, a failed axis is not |
| `DeviceCreation.SetUpAxes` | server/uinput.c:103-115 | sets up every axis in use with its info, in order, or stops at the first that fails |
| `DeviceCreation.Prepare` | server/uinput.c:81-141 | makes the calls of the plan in their order, all of them or up to the first that is not accepted; reading a name that is not there ends defined behaviour behind the enabled events |
| `DeviceCreation.CreateDevice` | server/uinput.c:63-144 | descriptor, calls and defined behaviour are those of the attempt function; the descriptor is closed exactly when it is not handed out |
| `DeviceCreation.FirstRejected` | server/uinput.c:81-141 | all calls before it are accepted and it is not |
| `DeviceCreation.HandedOut` | server/uinput.c:63-144 | an attempt hands out the opened descriptor if and only if the name can be read and every call of the plan is accepted; behaviour becomes undefined if and only if the name cannot be read and everything before it is accepted |
| `CallOrder.CreatedInOrder` | server/uinput.c:73-144 | read off the calls: a device that is handed out was made by the version query, then ioctls that enable events, then one setup call, then axes (only behind a new setup call that succeeded), and last, once, UI_DEV_CREATE; the kernel granted every one of them |
| `CallOrder.FailedInOrder` | server/uinput.c:73-144 | a creation that fails made the calls of such an order up to the first one that was refused, and only that one was |
| `CallOrder.BuiltAsSpecified` | server/uinput.c:73-144 | the device that is handed out, name, capabilities and axes, is the one a kernel makes that takes over what each call says, with a name and axes only from setup calls that did not fail |
| `DeviceCreation.StrncpyIs` | server/uinput.c:98 | the device's name is what strncpy leaves in a zeroed field; a stored name can be read if and only if strncpy stays within it |
| `DeviceCreation.ToldMeaning` | server/uinput.c:105-127 | in terms of the fields: the kernel is told about an axis whose minimum or maximum is not 0, with the deprecated setup also about one with fuzz or flat only |
| `DeviceCreation.PlanMeaning` | server/uinput.c:89-141 | the calls of a plan describe exactly its device: the requested capabilities, the name, and the axes: one by one with the info received for those in use, or, with the deprecated setup, a range for every axis that is the device's own, and zero for exactly the axes it does not have |
| `DeviceCreation.AllGoesWell` | server/uinput.c:63-144 | a kernel that accepts everything is asked for the whole plan |
| `Slots.AcceptedPayloads` | server/input-server.c:299 | for every payload: accepted if and only if it is a prefix of the password or the password with its NUL and anything behind it |
| `Slots.AcceptanceIsEquality` | server/input-server.c:299 | for payloads that carry their NUL acceptance is string equality |
| `Slots.HandlerReturnsFrame` | server/input-server.c:497-540 | a handler that does not fail uses up exactly the framed size |
| `Endings.EndsExactly` | server/input-server.c:287-541 | for every live slot and message: the connection ends if and only if it is QUIT, out of its turn (PASSWORD and DATA are skipped), an axis or event out of range, a permitted event the list cannot grow for, a SETUP_END without a device, or its reply or event cannot be passed on |
| `Endings.AnswersExactly` | server/input-server.c:287-444 | for every live slot and message, what its sender is told: the verdict on a password, SETUP_REQUIRED, SUCCESS with the slot number, INVALID out of turn for REQUEST_EVENT and SETUP_END, and nothing else |
| `Endings.ChangesExactly` | server/input-server.c:287-541 | for every live slot and message, also one that ends the connection: which message changes status, device, name, axes and requested events, to what, and that no other does |
| `Fragmentation.DrainIsWholeStream` | server/input-server.c:475-543 | the incremental loop, with size 0 meaning wait, is the interpreter of the whole stream |
| `Fragmentation.WholeStreamAppend` | server/input-server.c:549-572 | serving later bytes from the kept tail continues the interpretation of the whole stream |
| `Fragmentation.FragmentationIndependence` | server/input-server.c:475-572 | for every stream and every way of cutting it, status, setup, replies, device writes and the fate of the connection are those of the whole stream |
| `Fragmentation.RulesAgreeExactly` | server/input-server.c:483-494 | on a buffer the written loop differs from the intended one exactly when the buffer ends behind the first byte of a variable-length message |
| `Fragmentation.AsWrittenExactly` | server/input-server.c:475-572 | the loop as written follows the whole stream after every chunk if and only if no chunk ends behind such a byte |
| `Fragmentation.SenderCanAvoidIt` | server/input-server.c:483-494 | a condition on the bytes alone: the written loop follows the stream if no chunk ends behind the first byte of a PASSWORD or DEVICE message |
| `Fragmentation.CutBehindFirstByte` | server/input-server.c:491 | the smallest cut the written loop gets wrong: one byte of a PASSWORD message |
| `Fragmentation.PendingBound` | server/input-server.c:480-494 | what an open slot keeps leaves recv room for at least 760 bytes, unless it is stuck on a byte that is no message type |
| `Fragmentation.StuckForever` | server/input-server.c:485-488 | from such a byte on a slot only collects bytes, whatever they are and however they are cut |
| `Fragmentation.InterpretAppend` | server/input-server.c:480-541 | interpreting two message sequences one after the other is interpreting them as one |
| `Fragmentation.InterpretData` | server/input-server.c:447-470 | DATA messages in SUCCESS status write their events and nothing else |
| `Fragmentation.EventFidelity` | server/input-server.c:447-572 | for every event list and every cut, of the loop as written: exactly the events that arrived completely are written, in order, and the bytes left over are a strict prefix of the next one |
| `Kernel.DeviceFate` | server/uinput.c:146-167 | a device that is not destroyed keeps its capabilities and gains exactly the events written to it |
| `Kernel.HandleKeeps` | server/input-server.c:287-470 | every handler keeps all invariants of its slot and touches no other socket or device |
| `Kernel.CloseKeeps` | server/input-server.c:31-52 | so does closing a connection, with or without its device |
| `Kernel.CleanupKeeps` | server/uinput.c:146-167 | so does destroying the device of a disconnected slot |
| `Kernel.DispatchKeeps` | server/input-server.c:496-540 | so does one turn of the loop, including QUIT and the close after an error |
| `Kernel.DrainKeeps` | server/input-server.c:475-543 | so does serving a whole buffer; it writes to, destroys and closes only what is there |
| `World.FreeEntry` | server/input-server.c:55-58 | the lowest free waiting entry |
| `World.FirstIdle` | server/input-server.c:128-134 | the lowest slot with neither connection nor device |
| `World.FirstDisconnected` | server/input-server.c:136-146 | the lowest slot without a connection |
| `Runs.ChosenIsFree` | server/input-server.c:110-156 | a slot is only given away while it has no connection |
| `Runs.PromoteSockets` | server/input-server.c:174-185 | promotion moves the socket: no descriptor is in two entries, the open sockets are the ones held |
| `Runs.AcceptKeeps` | server/input-server.c:54-76 | accepting a connection keeps every invariant, also when accept fails or the table is full |
| `Runs.HelloKeeps` | server/input-server.c:78-186 | a HELLO keeps every invariant, whatever it asks for and whether or not it can be answered |
| `Runs.StepKeeps` | server/input-server.c:666-701 | every legal step of the server keeps every invariant |
| `Runs.RunKeeps` | server/input-server.c:639-701 | every legal run, with any interleaving of the clients, keeps every invariant |
| `Runs.SocketOwnership` | server/input-server.c:54-186 | after every run the open sockets are exactly the descriptors in the two tables, each in one entry |
| `Runs.DeviceLiveness` | server/input-server.c:447-463 | after every run a connected slot in SUCCESS has a living device that no other slot has |
| `Runs.AuthenticationHistory` | server/input-server.c:287-316 | with a password set, a connected slot in SETUP_REQUIRED or SUCCESS has had a payload accepted since its HELLO |
| `Runs.AuthenticatedByPassword` | server/input-server.c:299-308 | if every payload judged since the HELLO carried its NUL, the accepted one is the password itself |
| `Runs.WhitelistEndToEnd` | server/input-server.c:379-417 | after every run every code that was enabled on request on any device is in range and on the whitelist |
| `Runs.RoomForMore` | server/input-server.c:554 | after every run recv is asked for at least 760 bytes on every slot that is not stuck, and never beyond the buffer |
| `Runs.OnlyLiveDescriptors` | server/input-server.c:475-543 | after every run, serving any bytes writes to living devices, destroys living devices and closes open sockets only |
| `Rounds.FullBufferDrops` | server/input-server.c:554-565 | a connection that still sends is dropped if and only if its buffer is full, which only a stuck slot of a reachable server can be |
| `Rounds.RoundIsProper` | server/input-server.c:666-696 | a round of the main loop serves only connected entries and offers recv only the room there is |
| `Rounds.RoundsAreLegal` | server/input-server.c:639-697 | any number of rounds is a legal run if the operating system keeps its promises, so every statement about legal runs holds of the main loop |
| `RoundContents.RoundExactly` | server/input-server.c:666-696 | the steps of a round are exactly those due: the accept, and for each connected entry with an input a recv of what is there and fits, or its end; listener, slots and waiting connections in this order, each once; only steps behind one that leaves defined behaviour are not taken |
| `RoundContents.ServedOnce` | server/input-server.c:666-696 | in a round that stays defined, an entry is served if and only if it is connected and ready, and then exactly once; an accept is the first step |
| `RoundContents.ListenerOnly` | server/input-server.c:666-670 | a round in which only the listener is ready puts the new socket into the lowest free entry and changes nothing else |
| `Definedness.DispatchWrecks` | server/uinput.c:98 | a message ends defined behaviour if and only if it is a SETUP_END in its turn without a readable name and the kernel accepts all calls before the name is read |
| `Definedness.DrainWrecks` | server/input-server.c:475-543 | serving a buffer ends it exactly there, or where the written loop serves the lone type byte of a variable-length message |
| `Definedness.DefinedExactly` | server/input-server.c:639-701 | for every run from a defined state: it stays defined if and only if no chunk comes to such a message or such a byte |
| `Definedness.ProperExactly` | server/input-server.c:666-701 | what runs ask of the server is exactly this and that it serves connected entries within the room there is |
| `Definedness.NamesKeepDefined` | server/input-server.c:420-431 | with the intended loop a run in which every SETUP_END taken in its turn follows a readable name is defined, and no other is if the operating system refuses nothing |
| `Isolation.OthersKeepMatch` | server/input-server.c:671-694 | no step of anyone else changes a connected slot or what its device received |
| `Isolation.OwnKeepsMatch` | server/input-server.c:671-680 | a slot's own step does in the full server what it does alone |
| `Isolation.NonInterference` | server/input-server.c:639-697 | for every interleaving, a slot that its own bytes keep connected ends up as if it were alone on the server |
| `Isolation.OwnBytesOnly` | server/input-server.c:639-697 | the same from every reachable state: buffer, status, setup, history and device log depend on the slot's own steps only |
| `Devices.DevicesAfter` | server/uinput.c:63-167 | serving a slot changes the living devices by exactly the ones it destroys and creates, and a replaced one stays alive |
| `Devices.DispatchDevices` | server/input-server.c:420-444 | a message makes the slot lose a device if and only if it is a SETUP_END that creates a device while the slot holds one |
| `Devices.DrainDevices` | server/input-server.c:475-543 | the devices a buffer leaves behind are one for each such message |
| `Devices.StepOrphans` | server/input-server.c:666-701 | no other step of the server leaves a device without holder or gives it one |
| `Devices.DevicesAccounted` | server/input-server.c:639-701 | after every run the living devices are those the slots hold, one each, and those left behind by setting up again, and no device is both |
| `Axes.DispatchAxes` | server/input-server.c:319-334 | a message creates a device with a forbidden axis if and only if it is a SETUP_END that succeeds while the kernel is told about one; only an ABSINFO for a forbidden axis whose info the kernel is told about brings one in |
| `Axes.DrainAxes` | server/input-server.c:475-543 | the same for a whole buffer |
| `Axes.MissingGuard` | server/input-server.c:327-333 | the check the code lacks: telling a slot about an axis and then to finish makes a device with permitted axes if and only if that axis is permitted or its info is none the kernel is told about |
| `Axes.GuardedSetup` | server/input-server.c:420-431 | a test before SETUP_END: under no answers of the operating system does it make a device with a forbidden axis, if and only if there is no readable name or the slot holds permitted axes only |
| `Axes.TakenBack` | server/input-server.c:332 | a forbidden axis that is sent again with an info the kernel is not told about no longer counts, so the ABSINFO alone does not decide |
| `Axes.RunCreates` | server/input-server.c:431-438 | every device of a run was created by serving a slot, with the specification it has |
| `Axes.AxesExactly` | server/input-server.c:319-444 | for every run: all devices it creates have permitted axes only, if and only if no SETUP_END creates one while the kernel is told about a forbidden axis |
| `Axes.AxesOnWhitelist` | server/input-server.c:319-444 | after every run in which no ABSINFO has the kernel told about a forbidden axis, the whitelist covers the axes of all devices |
| `Lifecycle.AnySlot` | server/input-server.c:126-156 | the two scans give the lowest idle slot, else the lowest disconnected one after eviction, else a refusal when all are connected; nothing else meets that specification |
| `Lifecycle.NamedSlot` | server/input-server.c:111-125 | auxiliary: a slot asked for by number is refused exactly while it is in use by a descriptor other than 0 |
| `Lifecycle.AutoAssigned` | server/input-server.c:126-185 | an automatically assigned client gets an empty slot; only the evicted device is destroyed; it inherits one only if the kernel refuses to destroy it |
| `Lifecycle.AcceptedWaits` | server/input-server.c:54-76 | auxiliary: an accepted connection is held by the lowest free waiting entry; with a full table, or when accept fails, no socket stays open |
| `Lifecycle.PromotedOrTurnedAway` | server/input-server.c:87-185 | a HELLO is promoted if and only if type, version and allocator allow it, and then the slot has its socket, no bytes, and the status the client was told; otherwise nothing but its socket goes |
| `Lifecycle.AnswerExactly` | server/input-server.c:91-172 | what a HELLO is answered, from the message and the tables: INVALID for another message, VERSION_MISMATCH, INVALID_CLIENT_SLOT beyond the table, CLIENT_SLOT_IN_USE for a named slot with a connection, CLIENT_SLOTS_EXHAUSTED when all are connected; else PASSWORD_REQUIRED with a password set, SUCCESS if and only if the slot keeps a device, SETUP_REQUIRED if not |
| `Lifecycle.GreetingExactly` | server/input-server.c:78-186 | what a HELLO does: a welcome client that can be told so is in the slot it is granted, the named one, the lowest idle one or the lowest disconnected one; in all other cases its socket goes; nothing else changes but an evicted device |
| `Lifecycle.LeftoverBytes` | server/input-server.c:682-693 | behind leftover bytes a HELLO is understood if and only if there are none, or they read the same |
| `Lifecycle.LeftoverReachable` | server/input-server.c:685-688 | leftover bytes reach the next connection of an entry in a legal run |
| `Lifecycle.DeviceChanges` | server/input-server.c:373-444 | serving a buffer destroys a device only for a QUIT in it and creates one only for a SETUP_END |
| `Lifecycle.EvictionIsLastResort` | server/input-server.c:128-146 | eviction strikes only disconnected slots, only for a client that named none, and only when no slot is idle |
| `Lifecycle.DeviceKept` | server/input-server.c:31-52 | a step other than the slot's own QUIT or SETUP_END, its eviction or the end of the server leaves its device and the events it received |
| `Lifecycle.DeviceSurvives` | server/input-server.c:31-52 | the same for every run of such steps, across drops and reconnects |
| `Lifecycle.Resumption` | server/input-server.c:158-185 | after a dropped connection and any such run, a HELLO naming the slot gets the very same device and need not set one up |
| `Lifecycle.ReSetupLeaks` | server/input-server.c:354-371 | setting up again leaves the old device alive without a holder |
| `Lifecycle.EventsOutliveErrors` | server/input-server.c:529-533 | when a message ends the connection, the list of requested events is empty afterwards if and only if it was before, the message is QUIT, or the list could not grow |
| `Lifecycle.ClosedForGood` | server/input-server.c:31-52 | auxiliary: closing leaves no socket, status or requested event, closes the socket once, and takes the device and its setup along only on request |
| `Lifecycle.QuitReleases` | server/input-server.c:373-377 | auxiliary: QUIT gives up the socket and destroys the device, unless the kernel refuses |
| `Lifecycle.OutOfTurn` | server/input-server.c:287-470 | a message in the wrong status, or of a type no client sends, changes nothing; only PASSWORD and DATA are skipped, everything else ends the connection, with INVALID for REQUEST_EVENT and SETUP_END only |
| `Lifecycle.StatusMachine` | server/input-server.c:287-444 | the only status changes are the ones by PASSWORD, SETUP_END and SETUP_REQUIRED in their turn, each told to the client |
| `Lifecycle.InvalidPasswordIsFinal` | server/input-server.c:299-315 | after a wrong password no bytes lead to another status, create a device or write to one |
| `Lifecycle.ShutdownReleases` | server/input-server.c:699-701 | the end of the server closes every slot and leaves only devices the kernel refused to destroy |
| `GamepadClients.GamepadClient.constructor` | server/input-server.c:574-581 | a free record without bytes, connection or device |
| `GamepadClients.GamepadClient.RecvData` | server/input-server.c:549-572 | moves the unused bytes to the front and appends the new ones; an error changes neither count nor offset |
| `GamepadClients.GamepadClient.HandlePassword` | server/input-server.c:287-316 | new status, reply and bytes used are those of the slot function, for which acceptance and authentication are proved |
| `GamepadClients.GamepadClient.HandleAbsInfo` | server/input-server.c:319-334 | stores the info of one axis in range, in SETUP_REQUIRED only; other axes stay |
| `GamepadClients.GamepadClient.HandleDevice` | server/input-server.c:337-351 | stores the name, in SETUP_REQUIRED only |
| `GamepadClients.GamepadClient.HandleSetupRequired` | server/input-server.c:354-371 | back to SETUP_REQUIRED from SUCCESS, keeping the device |
| `GamepadClients.GamepadClient.HandleRequestEvent` | server/input-server.c:379-417 | appends an allowed event, skips a forbidden one, fails out of range, and loses the list when it cannot grow |
| `GamepadClients.GamepadClient.HandleSetupEnd` | server/input-server.c:420-444 | creates the device call by call, replaces the descriptor, and answers with the slot number; ends defined behaviour exactly where the creation does |
| `GamepadClients.GamepadClient.HandleData` | server/input-server.c:447-470 | writes the decoded event in SUCCESS, skips the message otherwise |
| `GamepadClients.GamepadClient.CleanupDevice` | server/uinput.c:146-167 | destroys the device and forgets the setup, or neither |
| `GamepadClients.GamepadClient.ClientClose` | server/input-server.c:31-52 | socket, status and event list are reset, the device only on request; the byte count is not |
| `GamepadClients.GamepadClient.HandleMessage` | server/input-server.c:496-540 | one turn of the loop in place: the record becomes what the dispatch function gives and the buffer advances by the framed size |
| `GamepadClients.GamepadClient.ClientData` | server/input-server.c:475-543 | the loop over the buffer refines the written drain function; offset plus count stays constant while the connection lives |
| `InputServers.InputServer.constructor` | server/input-server.c:625-634 | the process starts in the start state of the transition system |
| `InputServers.InputServer.SlotReady` | server/input-server.c:672-679 | a slot's turn is one step of the transition system and leaves all other records alone |
| `InputServers.InputServer.ClientConnection` | server/input-server.c:54-76 | takes the lowest free entry for an accepted socket |
| `InputServers.InputServer.ChooseSlot` | server/input-server.c:110-156 | the two scans over the records compute the allocator's choice |
| `InputServers.InputServer.EvictDevice` | server/input-server.c:138-144 | destroys the device of the chosen slot only |
| `InputServers.InputServer.MoveToSlot` | server/input-server.c:158-185 | moves the connection to the slot and clears both buffers, or hangs up when the reply cannot be sent |
| `InputServers.InputServer.ClientHello` | server/input-server.c:78-186 | the whole HELLO refines the greeting function, short reads, refusals and the byte it answers included |
| `InputServers.InputServer.WaitingReady` | server/input-server.c:683-694 | a waiting connection's turn is one step of the transition system, with the bytes it keeps or forgets |
| `InputServers.InputServer.Round` | server/input-server.c:666-696 | one pass of the main loop leads where the steps of `Rounds.RoundSteps` lead, in the order listener, slots, waiting connections |
| `InputServers.InputServer.Shutdown` | server/input-server.c:699-701 | closes every slot with its device |
| `Network.SendMessage` | common/network.h:15-35 | what goes out is a prefix of the memory at the data address, for every schedule of short sends; success means at least the message, failure that a call failed |
| `Network.RemainingIsExact` | common/network.h:15-35 | asking for the remaining bytes never sends more than the message, under every schedule, and all of it unless a call fails |
| `Network.WholeLengthIsExactOnlyForBytes` | common/network.h:20 | asking for the whole length sends exactly the message under every schedule if and only if it has at most one byte |
| `Network.ExactSchedule` | common/network.h:18-32 | one schedule of short sends makes the code send exactly the message if and only if the parts taken add up to its length after some number of calls, none of which fails |
| `Network.RecvMessage` | common/network.h:37-97 | returns with the chunks received so far in the buffer as soon as they cover the reply, and fails exactly when the type is unknown or the stream ends before |
| `Network.WholeReply` | common/network.h:63-96 | for every fragmentation the reply is a prefix of the buffer when recv_message returns, and it does not return on less |
| `InputClient.AmountIs` | client/input-client.c:68 | the amount of a shift is the number it stands for |
| `InputClient.BitsAreASet` | client/input-client.c:68-78 | word and bit indexing is set membership |
| `InputClient.CapabilityScan` | client/input-client.c:64-100 | the scan requests exactly the set bits, once each, in increasing (type, code) order, without EV_REP and EV_LED |
| `InputClient.RequestThenInfo` | client/input-client.c:71-98 | the messages ask for the listed events in their order, each once; the info of an axis comes directly behind its request and nowhere else |
| `InputClient.SendKeyInfo` | client/input-client.c:43-103 | the loops send the messages of that list in order; they get through if and only if the event types, codes and axes can be read and every message sent; of a device that can be read all messages before the first one that cannot be sent go out |
| `InputClient.SendCodes` | client/input-client.c:71-98 | the same for one type: one request per set bit, each axis followed at once by its info |
| `Handshake.DeviceMessageCarries` | client/input-client.c:105-136 | the DEVICE message is one frame with the id and at most 79 characters of the name behind it |
| `Handshake.InitConnect` | client/input-client.c:150-232 | for every sequence of replies the client connects, and remembers the slot, if and only if the conversation says so and every message can be sent; it has then sent exactly these. Also when it fails: what it has sent, from the deciding reply alone |
| `Handshake.OnlySetupRequiredSetsUp` | client/input-client.c:179-226 | a first reply, or one to the password, other than the expected ones ends the handshake with nothing more sent; a setup is completed if and only if SETUP_REQUIRED is the deciding reply and the client can describe its device |
| `Handshake.SetupDevice` | client/input-client.c:105-148 | describes the device completely if and only if id, name, events and axes can be read and every message sent; without id or name it sends nothing |
| `Handshake.InterpretRequests` | server/input-server.c:379-417 | the server turns the scan into the permitted events in the client's order and the axes into the infos sent |
| `Handshake.AxesMeaning` | server/input-server.c:319-334 | afterwards exactly the axes that were sent have changed, to the info sent |
| `Handshake.InterpretSetup` | server/input-server.c:319-444 | the whole setup creates the described device and leads to SUCCESS |
| `Handshake.AnyCut` | server/input-server.c:475-572 | under any cut the server can digest, messages have the effect they have whole |
| `Handshake.PasswordExchange` | server/input-server.c:287-316 | under any such cut the attempt is accepted if and only if it equals the password |
| `Handshake.SetupExchange` | server/input-server.c:319-444 | under any such cut the setup ends in SUCCESS with the described device and the slot number as reply |
| `Leftovers.LeftoverEvents` | server/input-server.c:404-416 | with events left from an earlier client, the device has exactly the capabilities its client asked for if and only if the leftovers are among them |
| `Leftovers.LeftoverAxes` | server/uinput.c:102-115 | with axes left from an earlier client, the device has exactly the axes its client sent if and only if it sends every leftover one itself |
| `Leftovers.LeftoversExactly` | server/input-server.c:45-50 | both together: the device is the one described if and only if nothing is left that is not set anew |
| `Composition.WholeOrWaiting` | common/network.h:63-96 | in whatever pieces a reply arrives, recv_message returns if and only if the reply has the length of its type |
| `Composition.RepliesInOrder` | common/network.h:15-35 | of the server's replies those that could be sent reach the client, in their order |
| `Composition.ConnectsExactly` | client/input-client.c:150-232 | a handshake completes if and only if the password is right and the slot has no device; in every case the server was fed exactly what the client sends |
| `Composition.ComposedHandshake` | client/input-client.c:150-232 | with the right password and no device both end in SUCCESS with the same slot and every axis holds the info sent; the created device is the described one if and only if no earlier client left events or axes that this one does not set |
| `Composition.ResumedClientWaits` | server/input-server.c:165-168 | with and without a password, what a client is told about a slot with a device never lets recv_message return |
| `Composition.GreetingIsWhole` | server/input-server.c:98-172 | the answer to a HELLO is a whole message if and only if the version agrees and the client is not put on an existing device without a password |
| `Composition.HelloInPieces` | server/input-server.c:82-85 | a HELLO that arrives in pieces is treated as one that arrives whole |
| `EndToEnd.EntryGathers` | server/input-server.c:682-693 | whatever others do, a waiting entry gathers the bytes of its own client |
| `EndToEnd.GreetingAmongOthers` | server/input-server.c:682-693 | a HELLO in pieces between the steps of all others is answered as if it had come at once |
| `EndToEnd.SharedFeeds` | server/input-server.c:671-680 | on the shared server a slot makes of its chunks what the loop makes of them alone |
| `EndToEnd.WholeSession` | server/input-server.c:639-697 | from every reachable server and under every interleaving, a client that greets, authenticates and sets up is connected if and only if its slot had no device; both sides then agree, and the device is alive and the described one exactly if nothing was left over |
| `EventDelivery.DrainUses` | server/input-server.c:480-494 | between two steps no slot keeps a whole message |
| `EventDelivery.EventsDelivered` | server/input-server.c:447-697 | from every reachable server, for a slot in SUCCESS, every event list, every cut and every interleaving: the device log on the shared kernel is the old one followed by exactly the events that arrived completely, and the slot keeps the rest |
| `EventDelivery.Reachable` | server/input-server.c:639-701 | every legal run leads to a server to which that applies |
| `EventDelivery.SessionDelivers` | server/input-server.c:639-697 | from the first byte of the HELLO to the last event, among all other clients: the device made in the session has received the complete events and nothing else, and is the described one exactly if nothing was left over |
| `Witnesses.EmptyPayloadAccepted` | server/input-server.c:299 | an empty payload is accepted, whatever the password |
| `Witnesses.EmptyPasswordRun` | server/input-server.c:287-316 | a legal run past any password in which only an empty payload was judged |
| `Witnesses.StaleAxisRun` | server/input-server.c:31-52 | a legal run in which a fresh slot without device or events holds an axis of an earlier client |
| `Witnesses.ForbiddenAxisRun` | server/input-server.c:319-334 | a legal run that ends with a device that has an axis the whitelist forbids |
| `Witnesses.StuckRun` | server/input-server.c:485-488 | a legal run that ends with a connected slot that will not listen any more |
| `Witnesses.FullBufferRun` | server/input-server.c:554-565 | a legal run that fills the buffer of such a slot, after which whatever its client sends makes the server hang up |
| `Osc.NextDwordIsRoundUp` | osc/osc-xlater.c:123 | the least multiple of four that is not below the argument |
| `Osc.ParamFloat` | osc/osc-xlater.c:109-121 | the big-endian bit pattern of an argument |
| `Osc.ParseEncoded` | osc/osc-xlater.c:124-161 | an encoded message of which a part has arrived is accepted if and only if the path and the tags are there, with the right offsets, whatever lies behind it |
| `Osc.ParseTagged` | osc/osc-xlater.c:124-161 | any buffer with a terminated path and a terminated string behind it is accepted if and only if that string starts with a comma and lies, filled up, within the message |
| `Osc.ParseUnterminated` | osc/osc-xlater.c:129-135 | the other buffers: no end of the path in the message is an error, no end of the tags anywhere runs off the buffer |
| `Osc.RoundTrip` | osc/osc-xlater.c:109-161 | an encoded message gives back its path, its argument count and every bit pattern |
| `EasyArgs.FirstMatch` | libs/easy_args.c:163-181 | the first registered option of a name |
| `EasyArgs.Parser.constructor` | libs/easy_args.c:26 | an empty option list |
| `EasyArgs.Parser.AddArgumentElem` | libs/easy_args.c:28-54 | the option list grows at its end by the new option; one link changes |
| `EasyArgs.Parser.ParseItem` | libs/easy_args.c:153-184 | uses the words of the first piece and writes its value; -1 for a word that is no option, -2 and no write for a missing argument; never looks past the last word |
| `EasyArgs.Parser.Action` | libs/easy_args.c:100-151 | the typed handlers write their container, with the value of their type made of the next word, and report the words they used |
| `EasyArgs.Parser.Parse` | libs/easy_args.c:187-218 | the leftover words in their order, NULL behind them, and every container as the recursive specification has them, also up to a failure |
| `EasyArgs.LeftoversInOrder` | libs/easy_args.c:205-210 | the leftover words are those of the pieces that are no option, in their order |
| `EasyArgs.SplitIsPartition` | libs/easy_args.c:187-218 | every word belongs to one piece, in order, read by the first option of its name; only a last option without its argument remains |
| `EasyArgs.SplitOfRendered` | libs/easy_args.c:187-218 | rendered pieces are recognised in front of any other words |
| `EasyArgs.RoundTrip` | libs/easy_args.c:187-218 | parsing a rendered command line recovers its options and leftovers; it fails if and only if it ends in an option that lacks its argument |
| `EasyArgs.LastValueStays` | libs/easy_args.c:100-126 | a container holds the value, by its type, that the last option pointing at it was given, or its old value |

## Left out

- `tcp_connect`, `tcp_listener`, `udp_listener`, `select`, signals and logging: what they report is a parameter of the steps.
- `FD_ISSET` on the descriptor -1 of a free entry: the model serves connected entries only.
- `Config.whitelist` is an arbitrary set of events: `setCodeList` depends on libevdev's name tables, which are not part of this model.
- Undefined behaviour: a handler that reads bytes which were not received, or the creation of a device whose name was never sent or has no end, makes a slot `wrecked`; nothing is claimed from there on, and legal runs exclude it; `Definedness` says exactly which runs that are.
- One answer of the operating system stands for a whole reply and for the destruction of a device; creating a device is modelled call by call.
- The id of a device is left out, as the server never fills it in.
- Bytes that follow a HELLO in the same chunk are discarded, as in the code; the clients wait for the reply before they send on.
- What a connection is told that finds no free waiting entry; it is accepted and closed at once.
- Malloc failure and memory leaks, apart from the list of requested events and from devices.
- `Network.RecvMessage`: messages of variable length and the old buffer are not modelled, because the client receives only fixed-length replies and passes no old buffer; this leaves `common/network.h:58-60` and `common/network.h:88-90` out.
- `scan_devices`, `device_reopen`, the reconnect branch of `run`, `usage` and `set_slot`: user interface and device nodes.
- `EasyArgs.Parser.Action`: does not model the callback handler, for the same reason as the next line.
- `EasyArgs.Parser.AddArgumentElem`: options with a callback (`TYPE_FUNC`) are not modelled, because a callback may do anything; `strtol` and `strtoul` are parameters.
- `configure_mappings`, `osc_msg_xlate`, `input_negotiate`: terminal interaction, floating-point ranges and an event format the server does not read.
- The dissector under `wireshark` and the transcript in `protocol/example.txt`, which follow an older layout.

# Bathroom light firmware: a verified model

The firmware drives PWM channels, walks 1-Wire buses, and comes with a packet radio stack. This project
models the four parts of it that keep state through loops, interrupts and unreliable links, and proves what
they are for. `dafny verify dfyconfig.toml` checks everything.

**PWM** (`PinMasks`, `PwmWave`, `PwmCompiler`, `PwmShift`, `PwmMerge`, `PwmPrep`, `PwmDriver`, `Pwm`).
The phase compiler turns one duty per channel into a table that an interrupt routine replays. The meaning of a
table of times is a pin's on-time per period, and of a finished table the on-time of replaying it over and over,
a phase lasting one tick more than it says. Every pass is an in-place method; each keeps that meaning for every
pin where the end marker stays in its place. For all duties and periods `PwmPrep.PhasesPrep` says exactly when the
result serves: the period has at least 17 ticks, and no channel has its event less than 17 ticks before the end. `PwmDriver`
is the state machine of `pwm_start` with interrupts between any two of its steps; the class `Pwm.Driver` moves along its steps.

**1-Wire** (`RomOrder`, `OneWire`, `Dallas`). The search is a depth-first walk of a trie that remembers one ROM
and one bit position. The bus is a set of 64-bit ROMs with a shrinking set of participants. One search takes the walk to
the next ROM in bit order; a whole walk returns every device exactly once and starts over. The alarm search of the temperature
library, which moves its junction inside the loop and leaves byte 7 of its address stale, is proved to
make the same walk.

**Line codings** (`Crc`, `AskPll`, `AskCodec`, `AskLink`, `Ask`, `SerialLink`, `Serial`, `SerialSync`). The table, bitwise and parity forms of
the CRCs agree with the iterated updates and detect any damage in one byte. The software PLL locks after eight changes of level
and then decides every bit once. The receiver finds the start of a message at the end of the preamble whatever it has heard before:
an early match, which happens exactly after one pattern of ten bits, is dropped again in time. `Ask.Exchange` and `Serial.Exchange`
join two drivers by a line and return what was sent; `SerialSync` starts from any state of the receiver and says which frames are
lost until it is in step. The frame check sequence is that of RFC 1662, section C.2.

**Reliable datagrams, routing and mesh** (`Reliable`, `ReliableNode`, `ReliableSession`, `RoutingTable`, `Router`, `Mesh`,
`MeshBound`, `MeshSearch`, `MeshNode`). Stop-and-wait with 8-bit ids is a state machine over a link that loses frames and keeps their order; sends
have absolute numbers, of which the ids are the last eight bits, and `sendtoWait` over that link is a run of it. The routing table of ten
slots, some of them stale, refines a map. Forwarding and route discovery are bounded in any network by measures on everything in flight.

Where the code does not do what its documentation hopes for, the project follows the code and says exactly when it does.
That `sendtoWait` returns true does not always mean that the message was delivered: `Reliable.StartValueMisleads` and
`Reliable.StaleAckMisleads` are states of runs from which the next send can be misled, and `Reliable.TrueMeansDelivered` is
the exact condition in every reached state, on the ids that are still about when the send begins. The comment "We are certain to have a
route there" in the route discovery holds in every network of n nodes if and only if n is at most eleven: `MeshBound.ElevenNodesExactly`.

Each class holds the fields that the source updates in place, and its methods are proved against functions on values
(`PwmDriver.AfterInterrupt`, `AskCodec.BitIn`, `SerialLink.HandleRx`, `ReliableNode.Attempt`, `RoutingTable.AddRouteTo` and so on),
about which the lemmas speak. `Common` has the types that several modules share.

## Model

| member | source | states |
|---|---|---|
| PwmPrep.PhasesPrep | ESP8266BadLicht_OpenHAB/pwm.c:205-351 | the whole compiler, for all duties: the finished table, replayed for ever, gives each channel an on-time per cycle of 0, the duty or the period, takes exactly the period, touches no other pin, tells a partial duty from none and is safe to interrupt if and only if the period has at least 17 ticks and no channel has its event less than 17 ticks before the end of the period; then it ends in an empty entry |
| PwmPrep.FinishedServes | ESP8266BadLicht_OpenHAB/pwm.c:260-341 | the same of the tables between the passes: what the last four passes make of a table that encodes the duties serves the interrupt routine exactly if the end marker stays and no event is late |
| PwmCompiler.ClearTable | ESP8266BadLicht_OpenHAB/pwm.c:212-216 | every entry in use is blank |
| PwmCompiler.EnterChannel | ESP8266BadLicht_OpenHAB/pwm.c:219-235 | one channel's events: none, or one in the first entry and the opposite one in an entry of its own |
| PwmCompiler.Build | ESP8266BadLicht_OpenHAB/pwm.c:212-237 | build pass: every channel's events and no others, one entry for each partial duty, the end marker at the period; an event is late exactly if the duty of some channel makes it so |
| PwmCompiler.ChannelOnTime | ESP8266BadLicht_OpenHAB/pwm.c:218-236 | the events entered for a channel mean an on-time of 0, the duty or the period |
| PwmCompiler.TableIsBuilding | ESP8266BadLicht_OpenHAB/pwm.c:217-237 | the entries that are built: fresh single-pin events, none later than half the period rounded up |
| PwmCompiler.SortEvents | ESP8266BadLicht_OpenHAB/pwm.c:239-251 | the backward-stepping sort ends and leaves an ordered rearrangement; the positions are given by two inverse maps |
| PwmCompiler.RearrangedEvents | ESP8266BadLicht_OpenHAB/pwm.c:239-251 | a rearranged table has the same set and clear events for every pin |
| PwmShift.ShiftLeft | ESP8266BadLicht_OpenHAB/pwm.c:261-277 | the in-place pass computes the recursive description of shifting left |
| PwmShift.PulseMoves | ESP8266BadLicht_OpenHAB/pwm.c:263-272 | the mask surgery moves a pin's whole pulse earlier by the difference, around the end of the period |
| PwmShift.MoveKeepsMeaning | ESP8266BadLicht_OpenHAB/pwm.c:263-272 | one move keeps every pin's on-time |
| PwmShift.ShiftSettles | ESP8266BadLicht_OpenHAB/pwm.c:260-277 | after the pass every entry between the first and the end marker lies at `low` or later, before the period, and switches some pin; `low` is 17 if no event is late |
| PwmShift.ShiftTable | ESP8266BadLicht_OpenHAB/pwm.c:260-277 | the whole pass keeps every pin's on-time and ends settled, from any sorted table whose events keep `low` ticks from the end |
| PwmShift.LowFor | ESP8266BadLicht_OpenHAB/pwm.c:260-277 | there is such a `low` for every built and sorted table of at least 17 ticks but those of 33 ticks with an event at tick 17 |
| PwmShift.Mirrored | ESP8266BadLicht_OpenHAB/pwm.c:263-272 | events that all lie in the first 16 ticks are mirrored into the last 16 |
| PwmShift.MarkerLost | ESP8266BadLicht_OpenHAB/pwm.c:262-275 | an event at tick 17 of 33 draws the end marker to itself: afterwards no entry is at the end of the period |
| PwmShift.AllMirrored | ESP8266BadLicht_OpenHAB/pwm.c:262-275 | in a period of up to 16 ticks the end marker is mirrored as well |
| PwmMerge.SortKeepsShifted | ESP8266BadLicht_OpenHAB/pwm.c:285-297 | the second sort keeps on-times and leaves the end marker last |
| PwmMerge.MergeEqual | ESP8266BadLicht_OpenHAB/pwm.c:299-317 | the in-place merge computes the recursive description of merging |
| PwmMerge.MergeKeepsEvents | ESP8266BadLicht_OpenHAB/pwm.c:301-316 | merging keeps every pin's set and clear events |
| PwmMerge.MergeTable | ESP8266BadLicht_OpenHAB/pwm.c:300-317 | the merged table has strictly increasing times from 0 to the period and the same meaning |
| PwmMerge.MergeRises | ESP8266BadLicht_OpenHAB/pwm.c:300-317 | whatever the masks, the times of the merged entries increase strictly and end with the latest one |
| PwmPrep.TimesToDurations | ESP8266BadLicht_OpenHAB/pwm.c:326-332 | times become durations less one, with no underflow, and the last entry has none |
| PwmPrep.RotatePhases | ESP8266BadLicht_OpenHAB/pwm.c:335-341 | the cyclic shift in place is a rotation by one |
| PwmPrep.FinishedLayout | ESP8266BadLicht_OpenHAB/pwm.c:326-341 | entry by entry: a phase lasts from one time to the next, and the first comes last exactly if the last two times are less than 17 ticks apart |
| PwmPrep.FinishedIsSafe | ESP8266BadLicht_OpenHAB/pwm.c:326-341 | if no event lies in the first 16 ticks no phase is empty and the last one has at least 16 ticks |
| PwmPrep.FinishedIsUnsafe | ESP8266BadLicht_OpenHAB/pwm.c:326-341 | if the first event does and the last one lies in the last 16 ticks, the last phase is short however the table is turned |
| PwmPrep.FinishedLength | ESP8266BadLicht_OpenHAB/pwm.c:326-341 | the phases together take exactly the latest time |
| PwmPrep.FinishedKeepsMeaning | ESP8266BadLicht_OpenHAB/pwm.c:326-341 | durations and rotation keep a pin's on-time, now of the replayed table, whatever the level before |
| PwmPrep.FinishedDrives | ESP8266BadLicht_OpenHAB/pwm.c:326-341 | a table of times that asks the right thing of every channel is finished into one that does it |
| PwmWave.DurationsKeepMeaning | ESP8266BadLicht_OpenHAB/pwm.c:325-332 | replaying durations gives the on-time that the timeline of events means |
| PwmWave.RotateKeepsMeaning | ESP8266BadLicht_OpenHAB/pwm.c:334-341 | rotation keeps the on-time of a steady replay |
| PinMasks.MasksAreSets | ESP8266BadLicht_OpenHAB/pwm.c:211-272 | the 16-bit mask operations are the set operations that the model uses, pin by pin |
| PinMasks.OneDoubles | ESP8266BadLicht_OpenHAB/pwm.c:180 | the mask of pin 0 is 1, and that of every next pin twice the one before |
| Pwm.Driver.RunPhases | ESP8266BadLicht_OpenHAB/pwm.c:120-148 | the handler's loop stops at the first long phase, having written the phases up to it |
| Pwm.Driver.TakeNextSet | ESP8266BadLicht_OpenHAB/pwm.c:114-118 | at the end mark the next set is taken from its first phase |
| Pwm.Driver.Interrupted | ESP8266BadLicht_OpenHAB/pwm.c:112-149 | a call of the interrupt routine is the interrupt step of the state machine, and always possible while the timer is enabled |
| Pwm.Driver.ChooseSet | ESP8266BadLicht_OpenHAB/pwm.c:356-363 | the two tests choose a buffer that is neither current nor next, whatever interrupts do |
| Pwm.Driver.Compile | ESP8266BadLicht_OpenHAB/pwm.c:365 | the compiled buffer drives the channels; the two other buffers are left alone |
| Pwm.Driver.StopTimer | ESP8266BadLicht_OpenHAB/pwm.c:367-382 | without a partial duty the timer is stopped, the next set cleared and the pins held |
| Pwm.Driver.PublishSet | ESP8266BadLicht_OpenHAB/pwm.c:384-397 | start or publication of the prepared buffer |
| Pwm.Driver.Start | ESP8266BadLicht_OpenHAB/pwm.c:353-398 | after the call the timer runs if and only if some duty is partial, the next table does what the duties ask, and otherwise every pin is held at the level its duty asks |
| Pwm.Driver.SetDuty | ESP8266BadLicht_OpenHAB/pwm.c:400-410 | the duty is clamped, channels past the end are ignored |
| Pwm.Driver.SetPeriod | ESP8266BadLicht_OpenHAB/pwm.c:420-430 | the period is kept for the next start |
| Pwm.Driver.constructor | ESP8266BadLicht_OpenHAB/pwm.c:157-175 | three blank buffers, null pointers, timer off |
| PwmDriver.RunKeeps | ESP8266BadLicht_OpenHAB/pwm.c:112-398 | the invariant of the driver holds in every state of every run, interrupts anywhere |
| PwmDriver.BufferExclusion | ESP8266BadLicht_OpenHAB/pwm.c:112-118 | while it is rewritten a buffer is neither current nor next, and a write leaves both of those as they are |
| PwmDriver.InterruptsTerminate | ESP8266BadLicht_OpenHAB/pwm.c:112-149 | in every reachable state an interrupt ends, stays in its table and reads nothing past the end mark |
| PwmDriver.LoopsStayInside | ESP8266BadLicht_OpenHAB/pwm.c:120-148 | entered at any phase the do-loop stops before the end mark, if and only if the last phase has at least 16 ticks |
| PwmDriver.EndMark | ESP8266BadLicht_OpenHAB/pwm.c:114-118 | up to its end a table has exactly one entry with both masks empty: the one after its phases |
| PwmDriver.OutputIsWholeCycles | ESP8266BadLicht_OpenHAB/pwm.c:114-118 | the output since the timer was started is whole cycles of published tables, but for the start of the first |
| PwmDriver.SecondCycleIsExact | ESP8266BadLicht_OpenHAB/pwm.c:112-149 | in the second of two cycles of one table every channel is high for exactly its duty, whatever came before |
| PwmDriver.StillHoldsAll | ESP8266BadLicht_OpenHAB/pwm.c:367-382 | a one-entry table holds each pin high if its duty is not 0 and low if it is |
| PwmDriver.CanAlwaysRun | ESP8266BadLicht_OpenHAB/pwm.c:112-149 | an interrupt is possible in every reachable state with the timer enabled, and leads to a reachable state |
| OneWire.Bus.ReadPair | libraries/OneWire/OneWire.cpp:406-407 | the wired-AND of the participants' bits and of their complements |
| OneWire.Bus.WriteBit | libraries/OneWire/OneWire.cpp:446 | only the devices that have this bit go on |
| OneWire.JunctionConflicts | libraries/OneWire/OneWire.cpp:415-437 | at the junction of the last walk both bits read 0 |
| OneWire.WalkStep | libraries/OneWire/OneWire.cpp:404-460 | what one bit of the search keeps: the devices left, the path, the last 0 taken at a fork |
| OneWire.ArrivesFirst | libraries/OneWire/OneWire.cpp:367-476 | a walk with no discrepancy reaches the least ROM |
| OneWire.ArrivesNext | libraries/OneWire/OneWire.cpp:367-476 | a walk with the deepest junction reaches the next ROM in bit order |
| OneWire.ArrivesTarget | libraries/OneWire/OneWire.cpp:340-349 | a walk past the end reaches a ROM with the prefix, if there is one |
| OneWire.Master.ResetSearch | libraries/OneWire/OneWire.cpp:325-335 | the next search starts over with a zero ROM and no discrepancy, of a family or any |
| OneWire.Master.TargetSearch | libraries/OneWire/OneWire.cpp:340-349 | the family byte is set, the rest zero, the discrepancy 64, the family discrepancy 0 |
| OneWire.Master.Pick | libraries/OneWire/OneWire.cpp:415-437 | the direction at a bit, and the last 0 at a discrepancy, within the family byte and beyond |
| OneWire.Master.TakeBit | libraries/OneWire/OneWire.cpp:404-460 | one turn of the loop: nobody answers exactly if nobody takes part, else the walk goes on |
| OneWire.Master.Descend | libraries/OneWire/OneWire.cpp:376-461 | the loop reaches bit 64 exactly if somebody takes part, at the ROM the junction asks for |
| OneWire.Master.Search | libraries/OneWire/OneWire.cpp:367-488 | one search: the next ROM with its junction, or the end and a fresh start; a family byte of 0 is refused |
| OneWire.FindFamily | libraries/OneWire/OneWire.cpp:340-349 | after a targeted search a device of the family is returned if there is one |
| OneWire.ReturnedMore | libraries/OneWire/OneWire.cpp:463-474 | the state after one ROM more: LastDiscrepancy is the deepest fork where it took 0, or 0 if there is none |
| OneWire.ReturnedAll | libraries/OneWire/OneWire.cpp:374-488 | a walk that has ended has returned every ROM exactly once in increasing order |
| RomOrder.NoForkIsLast | libraries/OneWire/OneWire.cpp:466-471 | no fork left means the greatest ROM |
| RomOrder.TurnIsNext | libraries/OneWire/OneWire.cpp:415-437 | turning at the deepest fork and taking 0 below leads to the next ROM |
| RomOrder.ChainEnumerates | libraries/OneWire/OneWire.cpp:374-488 | least to greatest, each the next of the one before, is every ROM once |
| RomOrder.EnumerationIsChain | libraries/OneWire/OneWire.cpp:374-488 | conversely an ascending list of all ROMs is such a chain |
| RomOrder.ChainsAgree | libraries/OneWire/OneWire.cpp:374-488 | two walks of the same devices agree at every index |
| Dallas.Sensors.SearchOn | libraries/OneWire/OneWire.cpp:367-488 | one search more of a walk: the list grows by the next ROM, or is complete and the walk starts over |
| Dallas.Sensors.Begin | libraries/DallasTemperature/DallasTemperature.cpp:55-78 | enumerates every device once and counts those with a valid address, in 8 bits |
| Dallas.ValidExactly | libraries/DallasTemperature/DallasTemperature.cpp:81-89 | an address is valid if and only if the CRC of all of its eight bytes is 0 |
| Dallas.DamagedIsInvalid | libraries/DallasTemperature/DallasTemperature.cpp:81-89 | a valid address with one byte changed is not valid |
| Dallas.BitOfByte | libraries/OneWire/OneWire.cpp:420-460 | bit j of byte i is bit 8 * i + j in the order of the bus |
| Dallas.FamilyIsFirstByte | libraries/OneWire/OneWire.cpp:479 | the devices that the search refuses are those whose first byte is 0 |
| Dallas.CountIsExact | libraries/DallasTemperature/DallasTemperature.cpp:60-77 | up to 255 devices with valid addresses are counted exactly |
| Dallas.Sensors.GetAddress | libraries/DallasTemperature/DallasTemperature.cpp:92-105 | for a bus of any size, with the depth counted in 8 bits: the first device at which the depth is the index and the address is valid, and failure exactly if there is none |
| Dallas.LooksAtIndex | libraries/DallasTemperature/DallasTemperature.cpp:92-105 | with up to 256 devices that is the device of that index, if its address is valid |
| Dallas.IndexesAreDistinct | libraries/DallasTemperature/DallasTemperature.cpp:92-105 | different indexes give different devices |
| Dallas.Sensors.ResetAlarmSearch | libraries/DallasTemperature/DallasTemperature.cpp:647-655 | starts over although byte 7 keeps its old value |
| Dallas.Sensors.AlarmPick | libraries/DallasTemperature/DallasTemperature.cpp:693-711 | the junction updated inside the loop stands to the last 0 as LastDiscrepancy does |
| Dallas.Sensors.AlarmBit | libraries/DallasTemperature/DallasTemperature.cpp:685-716 | one turn of the alarm search loop keeps the same walk as the search of the bus |
| Dallas.Sensors.AlarmLoop | libraries/DallasTemperature/DallasTemperature.cpp:684-717 | the whole loop, or the first bit if nobody answers |
| Dallas.Sensors.AlarmDescend | libraries/DallasTemperature/DallasTemperature.cpp:684-717 | the loop arrives where the junction leads, and the new junction is the deepest fork |
| Dallas.Sensors.AlarmSearch | libraries/DallasTemperature/DallasTemperature.cpp:669-728 | the next alarming device, or the end, which stays until a reset |
| Dallas.Sensors.SearchBoth | libraries/DallasTemperature/DallasTemperature.cpp:669-728 | the alarm search and the conditional search return the same devices in the same order and end together |
| Dallas.WalksAgree | libraries/DallasTemperature/DallasTemperature.cpp:669-728 | equally long walks of either kind are in the same state |
| Crc.IbuttonUpdate | libraries/RadioHead-1.50/RHCRC.cpp:88-102 | eight conditional steps with the polynomial 0x8C |
| Crc.Crc16Update | libraries/RadioHead-1.50/RHCRC.cpp:48-61 | eight conditional steps with the polynomial 0xA001 |
| Crc.Crc8Bitwise | libraries/OneWire/OneWire.cpp:539-555 | the bitwise loop is the iterated update |
| Crc.TableIsSteps | libraries/OneWire/OneWire.cpp:500-516 | all 256 table entries are eight steps of their index |
| Crc.Crc8Table | libraries/OneWire/OneWire.cpp:525-533 | the table form is the iterated update, for any length |
| Crc.ParityIsSteps | libraries/OneWire/OneWire.cpp:577-592 | the parity form is eight steps |
| Crc.Crc16Parity | libraries/OneWire/OneWire.cpp:567-595 | the parity form of the whole sum is the iterated update |
| Crc.CcittIsSteps | libraries/RadioHead-1.50/RHCRC.cpp:79-86 | the straight-line update is eight one-bit steps with the reversed polynomial of RFC 1662, section C.2 |
| Crc.ComplementIsGood | libraries/RadioHead-1.50/RHCRC.cpp:79-86 | a sum followed by its complement, low byte first, always gives 0xf0b8 |
| Crc.OneByteDetected | libraries/RadioHead-1.50/RHCRC.cpp:48-102 | messages of equal length that differ in exactly one byte have different sums, for each of the three sums |
| Crc.CheckCrc16 | libraries/OneWire/OneWire.cpp:561-565 | the check of a stored, inverted sum is equality with the complement |
| Crc.StoredLowFirst | libraries/OneWire/OneWire.cpp:561-565 | the complement is stored low byte first |
| Crc.CheckSeparates | libraries/OneWire/OneWire.cpp:561-565 | two messages one byte apart do not both pass with the same stored sum |
| Crc.KnownSums | libraries/RadioHead-1.50/RHCRC.cpp:48-102 | the three sums of the digits 1 to 9, and the start value 0 of the iButton CRC |
| Crc.Crc8Appended | libraries/OneWire/OneWire.cpp:525-555 | the CRC of a message and one byte more is 0 exactly if the byte is the CRC of the message |
| AskPll.LockedBit | libraries/RadioHead-1.50/RH_ASK.cpp:644-678 | one bit on the line of a locked receiver leaves it locked and decides the bits up to it |
| AskPll.LockedReceives | libraries/RadioHead-1.50/RH_ASK.cpp:644-678 | whatever bits follow, each is decided once, in order and correctly, at most one sample late |
| AskPll.DecidedByCount | libraries/RadioHead-1.50/RH_ASK.cpp:646-678 | a bit is 1 exactly if five or more of the samples since the last decision were |
| AskPll.BitRamp | libraries/RadioHead-1.50/RH_ASK.cpp:652-678 | the ramp at the end of a bit depends on the ramp before and on whether the level changed |
| AskPll.EightChangesLock | libraries/RadioHead-1.50/RH_ASK.cpp:652-678 | from any ramp, eight changes of level lock the receiver |
| AskPll.AnySampleInRange | libraries/RadioHead-1.50/RH_ASK.cpp:652-666 | one sample brings any 8-bit ramp into range |
| AskCodec.Symbol6to4 | libraries/RadioHead-1.50/RH_ASK.cpp:597-612 | the search of half of the table is the decoding function |
| AskCodec.DecodeSymbol | libraries/RadioHead-1.50/RH_ASK.cpp:597-612 | half of the table is enough: every symbol decodes to its nibble |
| AskCodec.NoSymbol | libraries/RadioHead-1.50/RH_ASK.cpp:597-612 | what is no symbol is decoded as 0 |
| AskCodec.SymbolsBalanced | libraries/RadioHead-1.50/RH_ASK.cpp:22-33 | every symbol has three 1s and no four equal bits in a row; the symbols rise, and the first half of the start symbol is none of them |
| AskCodec.CodedByteIn | libraries/RadioHead-1.50/RH_ASK.cpp:680-713 | the twelve bits of a coded byte are received as that byte |
| AskCodec.FeedMessage | libraries/RadioHead-1.50/RH_ASK.cpp:680-722 | a counted message is received byte for byte and stops the receiver at its end |
| AskCodec.FalseStartDropped | libraries/RadioHead-1.50/RH_ASK.cpp:697-711 | a start symbol seen too early in the preamble is followed by the impossible count 0xcc, and the receiver gives up at once |
| AskCodec.PreambleStarts | libraries/RadioHead-1.50/RH_ASK.cpp:725-731 | whatever was heard before, the receiver starts at the last bit of the preamble |
| AskCodec.FalseStart | libraries/RadioHead-1.50/RH_ASK.cpp:725-731 | it starts earlier if and only if the ten bits last heard before are those of 0x338 |
| AskCodec.FrameIn | libraries/RadioHead-1.50/RH_ASK.cpp:680-731 | preamble and coded message are received as the message |
| AskCodec.FrameLayout | libraries/RadioHead-1.50/RH_ASK.cpp:437-470 | symbol by symbol: the preamble, then two symbols for every byte, that of its high nibble first |
| AskLink.CheckedIsGood | libraries/RadioHead-1.50/RH_ASK.cpp:462-470 | the check sequence that is sent makes the sum good |
| AskLink.DamageIsDetected | libraries/RadioHead-1.50/RH_ASK.cpp:616-628 | a message with one byte damaged is not good |
| AskLink.MessageIsCounted | libraries/RadioHead-1.50/RH_ASK.cpp:418-470 | a message of up to 60 bytes carries its own length, a good sum, its headers and its data |
| AskLink.MessageLayout | libraries/RadioHead-1.50/RH_ASK.cpp:437-470 | octet by octet: the length, the four headers, the data, and the complement of the sum over all of it, low byte first |
| AskLink.HearIsFeed | libraries/RadioHead-1.50/RH_ASK.cpp:644-731 | hearing samples is decoding the bits that the slicer decides |
| AskLink.LockedDecides | libraries/RadioHead-1.50/RH_ASK.cpp:644-678 | one sample after the last bit all bits have been decided |
| AskLink.RoundTrip | libraries/RadioHead-1.50/RH_ASK.cpp:644-731 | a locked idle receiver that hears the frame of a message has that message |
| Ask.Driver.constructor | libraries/RadioHead-1.50/RH_ASK.cpp:35-48 | the preamble is in the transmit buffer, the receiver idle |
| Ask.Driver.ByteIn | libraries/RadioHead-1.50/RH_ASK.cpp:693-721 | the count check, the buffer and the end of the message |
| Ask.Driver.BitIn | libraries/RadioHead-1.50/RH_ASK.cpp:666-732 | a bit in the receiver in place is the step of the decoder |
| Ask.Driver.Slice | libraries/RadioHead-1.50/RH_ASK.cpp:646-678 | a sample in place is the step of the PLL and slicer |
| Ask.Driver.ReceiveTimer | libraries/RadioHead-1.50/RH_ASK.cpp:644-732 | the receive interrupt, which stops itself at a complete message |
| Ask.Driver.SetModeIdle | libraries/RadioHead-1.50/RH_ASK.cpp:346-355 | idle, the line low |
| Ask.Driver.EncodeHeaders | libraries/RadioHead-1.50/RH_ASK.cpp:437-448 | the headers, coded and summed |
| Ask.Driver.EncodeData | libraries/RadioHead-1.50/RH_ASK.cpp:452-457 | the data, coded and summed |
| Ask.Driver.EncodeCheck | libraries/RadioHead-1.50/RH_ASK.cpp:462-470 | the complement of the sum, low byte first |
| Ask.Driver.Send | libraries/RadioHead-1.50/RH_ASK.cpp:418-479 | refuses more than 60 bytes, else the buffer holds the frame of the message and the transmitter is at its start |
| Ask.Driver.NextBit | libraries/RadioHead-1.50/RH_ASK.cpp:735-753 | the next bit of the frame, or the end one bit period after the last |
| Ask.Driver.TransmitTimer | libraries/RadioHead-1.50/RH_ASK.cpp:733-759 | every bit of the frame stays on the line for eight interrupts |
| Ask.Driver.HandleTimerInterrupt | libraries/RadioHead-1.50/RH_ASK.cpp:761-767 | receives or transmits by mode |
| Ask.Driver.SumOfBuffer | libraries/RadioHead-1.50/RH_ASK.cpp:618-621 | the sum over the receive buffer |
| Ask.Driver.ValidateRxBuf | libraries/RadioHead-1.50/RH_ASK.cpp:616-642 | drops a bad message, takes the headers of a good one, and accepts it if and only if the driver is promiscuous or it is sent to its address or to 255 |
| Ask.Driver.Recv | libraries/RadioHead-1.50/RH_ASK.cpp:385-415 | `available` and `recv` as one step: a message exactly if a complete, good one is there that is sent to this address or to 255, or the driver is promiscuous; its headers, and as many of the octets between them and the sum as fit |
| Ask.Carry | libraries/RadioHead-1.50/RH_ASK.cpp:733-767 | timer interrupts on both sides until the frame is out: the receiver has heard all of it |
| Ask.Exchange | libraries/RadioHead-1.50/RH_ASK.cpp:398-479 | end to end: what one driver sends the other returns, for every payload up to 60 bytes and all headers, if and only if it is promiscuous, addressed, or the message is for everybody |
| Ask.Overhear | libraries/RadioHead-1.50/RH_ASK.cpp:385-479 | of two drivers with different addresses that hear one frame only the addressed one returns it, and both return a broadcast |
| SerialLink.OnlyCheckMakesValid | libraries/RadioHead-1.50/RH_Serial.cpp:125-131 | a message becomes available only with the last byte of a check sequence, and then the receiver is idle |
| SerialLink.StuffedIn | libraries/RadioHead-1.50/RH_Serial.cpp:89-114 | stuffed data is recorded without the stuffing, DLE included |
| SerialLink.StuffedOne | libraries/RadioHead-1.50/RH_Serial.cpp:223-229 | stuffing doubles a DLE and nothing else |
| SerialLink.StuffedConcat | libraries/RadioHead-1.50/RH_Serial.cpp:223-229 | octets are stuffed one by one, whatever comes before |
| SerialLink.FrameIn | libraries/RadioHead-1.50/RH_Serial.cpp:67-137 | a whole frame with any check sequence is recorded and compared with its own sum |
| SerialLink.FrameSilent | libraries/RadioHead-1.50/RH_Serial.cpp:67-137 | no message becomes available before the last byte of a frame |
| SerialLink.NoiseIn | libraries/RadioHead-1.50/RH_Serial.cpp:69-75 | bytes without a DLE between frames change nothing |
| SerialLink.BurstIn | libraries/RadioHead-1.50/RH_Serial.cpp:67-178 | a frame makes a message available exactly if it is for this node, with its headers and data |
| SerialLink.FrameLayout | libraries/RadioHead-1.50/RH_Serial.cpp:198-221 | octet by octet: DLE STX, the headers and the data with every DLE twice, DLE ETX, and the sum of all but the stuffing and the start, high byte first |
| SerialLink.AddressedAre | libraries/RadioHead-1.50/RH_Serial.cpp:170-177 | the packets for a receiver are those sent to its address or to 255, or all if it is promiscuous |
| SerialLink.NotForBoth | libraries/RadioHead-1.50/RH_Serial.cpp:170-177 | of two receivers with different addresses on one line, no packet is for both unless it is sent to 255 |
| SerialLink.Delivered | libraries/RadioHead-1.50/RH_Serial.cpp:31-194 | for any sequence of frames, any bytes in them, and noise between: exactly the packets for this node, in order, unaltered, idle at the end |
| SerialLink.DamageIsDropped | libraries/RadioHead-1.50/RH_Serial.cpp:159-165 | a frame with one octet changed is dropped |
| SerialLink.LongFrameDropped | libraries/RadioHead-1.50/RH_Serial.cpp:146-156 | a frame with more than 60 bytes of data is dropped, unless the sum of its first 64 octets is that of all of them |
| SerialSync.FrameLost | libraries/RadioHead-1.50/RH_Serial.cpp:67-137 | a receiver that is not idle but between frames, or inside data that is none, loses the whole frame, and the two unstuffed octets of its check sequence decide where it is then |
| SerialSync.Resynchronised | libraries/RadioHead-1.50/RH_Serial.cpp:31-194 | from any of those states, for any frames and noise: exactly the packets for this node that follow the lost frames arrive, in order and unaltered, and how many are lost is a function of the state, the noise and the check sequences |
| SerialSync.LostAgain | libraries/RadioHead-1.50/RH_Serial.cpp:67-137 | the same frame again and again, heard out of step, is lost once if its own check sequence lets the receiver go, and for ever if not |
| SerialSync.AnyState | libraries/RadioHead-1.50/RH_Serial.cpp:31-194 | from any state at all: at most one message that nobody sent, then all packets for this node but for the first frames, of which no more are lost than by a receiver that is idle inside the first |
| SerialSync.Rejoin | libraries/RadioHead-1.50/RH_Serial.cpp:31-221 | two drivers on one line, the second in the middle of anything |
| Serial.Driver.constructor | libraries/RadioHead-1.50/RH_Serial.cpp:22-28 | idle, nothing recorded |
| Serial.Driver.ClearRxBuf | libraries/RadioHead-1.50/RH_Serial.cpp:139-144 | nothing recorded, the sum at its start |
| Serial.Driver.AppendRxBuf | libraries/RadioHead-1.50/RH_Serial.cpp:146-155 | what does not fit is not recorded nor summed |
| Serial.Driver.ValidateRxBuf | libraries/RadioHead-1.50/RH_Serial.cpp:159-178 | the comparison, the headers and the address |
| Serial.Driver.HandleRx | libraries/RadioHead-1.50/RH_Serial.cpp:67-137 | the state machine in place is the step function |
| Serial.Driver.Available | libraries/RadioHead-1.50/RH_Serial.cpp:31-36 | bytes are handled until there is a message or nothing left |
| Serial.Driver.Recv | libraries/RadioHead-1.50/RH_Serial.cpp:181-195 | the next message without its headers, as much as fits, and the buffer cleared |
| Serial.Driver.TxData | libraries/RadioHead-1.50/RH_Serial.cpp:223-229 | one octet stuffed and summed |
| Serial.Driver.StartFrame | libraries/RadioHead-1.50/RH_Serial.cpp:200-207 | the start of the frame and the headers |
| Serial.Driver.EndFrame | libraries/RadioHead-1.50/RH_Serial.cpp:211-219 | the end of the frame, summed, and the check sequence, high byte first |
| Serial.Driver.Send | libraries/RadioHead-1.50/RH_Serial.cpp:198-221 | what is written is the frame of the packet |
| Serial.Collect | libraries/RadioHead-1.50/RH_Serial.cpp:181-195 | receiving until nothing is left is draining the input |
| Serial.Exchange | libraries/RadioHead-1.50/RH_Serial.cpp:31-221 | two drivers on one line: every packet sent to the address of the receiver or to 255, or every packet if it is promiscuous, arrives, in order and unaltered, and no other |
| Reliable.StepKeepsOrder | libraries/RadioHead-1.50/RHReliableDatagram.cpp:47-146 | every step keeps frames in the order of the sends, and deliveries rising |
| Reliable.AtMostOnce | libraries/RadioHead-1.50/RHReliableDatagram.cpp:112-146 | in every run over a lossy link in order, sends are delivered in order and each at most once |
| Reliable.StepKeepsHonest | libraries/RadioHead-1.50/RHReliableDatagram.cpp:47-146 | every step keeps: while a send is under way its id belongs to it alone and an acknowledgement with it stands for its delivery; a confirmed send has been delivered |
| Reliable.NextIsSafeExactly | libraries/RadioHead-1.50/RHReliableDatagram.cpp:47-146 | of the next send in any ordered state: however it goes on, true means delivered, if and only if its id is not that of the last send delivered, of a frame in flight or of an acknowledgement in flight |
| Reliable.TrueMeansDelivered | libraries/RadioHead-1.50/RHReliableDatagram.cpp:47-146 | the same of the state that any run reaches |
| Reliable.AckMisleads | libraries/RadioHead-1.50/RHReliableDatagram.cpp:83-91 | an acknowledgement in flight with the id of the current send is taken for its own when what is before it is lost |
| Reliable.NearIsSafe | libraries/RadioHead-1.50/RHReliableDatagram.cpp:47-146 | so it is safe if fewer than 256 sends separate the next one from the last one delivered and from everything in flight |
| Reliable.WhenDelivered | libraries/RadioHead-1.50/RHReliableDatagram.cpp:131-141 | a received frame is delivered, now or before, exactly if its number is not a multiple of 256 past the last delivered one |
| Reliable.QuietExchange | libraries/RadioHead-1.50/RHReliableDatagram.cpp:47-146 | with nothing in flight and nothing lost a send returns true, and has been delivered exactly if its number is not a multiple of 256 past the last delivered one |
| Reliable.StartValueMisleads | libraries/RadioHead-1.50/RHReliableDatagram.cpp:131-141 | a run after which send 256 can return true undelivered: its id 0 is the start value of the receiver |
| Reliable.StaleAckMisleads | libraries/RadioHead-1.50/RHReliableDatagram.cpp:83-91 | a run after which send 257 can: the only thing in flight is a stale acknowledgement of send 1 |
| ReliableSession.WholeSendIsRun | libraries/RadioHead-1.50/RHReliableDatagram.cpp:47-110 | whatever arrives during its waits, a whole send is a run of the machine, confirmed exactly if the attempts succeed, and then delivered if its id is not about |
| ReliableSession.Send | libraries/RadioHead-1.50/RHReliableDatagram.cpp:47-110 | `sendtoWait` over the link: it returns true exactly if the run confirms the send, what it transmits is the data on the air, and the ids of the node and the machine stay together |
| ReliableSession.Take | libraries/RadioHead-1.50/RHReliableDatagram.cpp:112-146 | `recvfromAck` of the next frame is the receiving step: the same delivery, the same id remembered, the same acknowledgement |
| ReliableSession.Transfer | libraries/RadioHead-1.50/RHReliableDatagram.cpp:47-146 | of two nodes: what one passes to `sendtoWait` the other gets from `recvfromAck`, once, unless it remembers the id; each copy is acknowledged |
| ReliableNode.ListenAnswers | libraries/RadioHead-1.50/RHReliableDatagram.cpp:75-103 | a wait succeeds exactly if the acknowledgement is among what arrives |
| ReliableNode.AttemptSucceeds | libraries/RadioHead-1.50/RHReliableDatagram.cpp:47-110 | a unicast send returns true exactly if its acknowledgement arrives during one of its attempts |
| ReliableNode.ListenSends | libraries/RadioHead-1.50/RHReliableDatagram.cpp:92-98 | while waiting only what has been delivered is acknowledged again |
| ReliableNode.ListenRepeats | libraries/RadioHead-1.50/RHReliableDatagram.cpp:92-98 | and a frame that repeats it is acknowledged again if it arrives before the answer |
| ReliableNode.AttemptSends | libraries/RadioHead-1.50/RHReliableDatagram.cpp:52-57 | all transmissions of a send have the same headers, with the id of the send and without the ACK flag, and the caller's data; everything else acknowledges again what was delivered last |
| ReliableNode.AttemptConfirmed | libraries/RadioHead-1.50/RHReliableDatagram.cpp:75-103 | a send succeeds exactly if it is a broadcast or a frame from the peer to this node with the ACK flag and its id arrives during one of the attempts |
| ReliableNode.AttemptCount | libraries/RadioHead-1.50/RHReliableDatagram.cpp:52 | no more transmissions than retries and one, and all of them before a send fails |
| ReliableNode.AckFlag | libraries/RadioHead-1.50/RHReliableDatagram.cpp:174-186 | the top bit of the flags marks an acknowledgement, and the others are left as they are |
| ReliableNode.CountedIs | libraries/RadioHead-1.50/RHReliableDatagram.cpp:66-69 | retransmissions are counted in 32 bits |
| ReliableNode.Node.constructor | libraries/RadioHead-1.50/RHReliableDatagram.cpp:18-25 | no sends yet, three retries, all remembered ids 0 |
| ReliableNode.Node.Acknowledge | libraries/RadioHead-1.50/RHReliableDatagram.cpp:174-186 | one octet back to the sender with its id and the ACK flag |
| ReliableNode.Node.WaitForAck | libraries/RadioHead-1.50/RHReliableDatagram.cpp:75-103 | one time-out in place |
| ReliableNode.Node.Try | libraries/RadioHead-1.50/RHReliableDatagram.cpp:54-103 | one transmission and its wait |
| ReliableNode.Node.TryAll | libraries/RadioHead-1.50/RHReliableDatagram.cpp:52-108 | the attempts in place |
| ReliableNode.Node.SendtoWait | libraries/RadioHead-1.50/RHReliableDatagram.cpp:47-110 | the next id; the data goes out under it to the address given, and nothing else does but acknowledgements; true exactly if it is a broadcast or is acknowledged in time; one retransmission counted for each transmission after the first |
| ReliableNode.Node.RecvfromAck | libraries/RadioHead-1.50/RHReliableDatagram.cpp:112-146 | an ACK is ignored; anything else is acknowledged with its own id unless broadcast, and delivered and remembered exactly if its id is not the one remembered of its sender |
| RoutingTable.ViewSize | libraries/RadioHead-1.50/RHRouter.cpp:44-83 | the table is a map of at most ten routes, and full exactly if every slot is live |
| RoutingTable.GetIsLookup | libraries/RadioHead-1.50/RHRouter.cpp:87-94 | looking a route up is looking it up in the map |
| RoutingTable.DeleteView | libraries/RadioHead-1.50/RHRouter.cpp:97-103 | deleting a slot removes its route if it is live, and nothing else; live entries stay the first slots of their destinations |
| RoutingTable.AddView | libraries/RadioHead-1.50/RHRouter.cpp:44-83 | adding changes the route of that destination only, unless ten others are live: then slot 0 is lost |
| RoutingTable.AddedIsFound | libraries/RadioHead-1.50/RHRouter.cpp:44-94 | a live route that has been added is the one that is found |
| RoutingTable.DeleteToView | libraries/RadioHead-1.50/RHRouter.cpp:124-136 | deleting a destination removes that one only, stale slots or not |
| RoutingTable.RetireView | libraries/RadioHead-1.50/RHRouter.cpp:139-143 | only slot 0 is retired |
| RoutingTable.ClearView | libraries/RadioHead-1.50/RHRouter.cpp:146-151 | no route is left |
| Router.Node.constructor | libraries/RadioHead-1.50/RHRouter.cpp:20-25 | an empty table whatever the memory held |
| Router.Node.ClearRoutingTable | libraries/RadioHead-1.50/RHRouter.cpp:146-151 | the states are reset, the destinations stay |
| Router.Node.GetRouteTo | libraries/RadioHead-1.50/RHRouter.cpp:87-94 | the first live slot of the destination, if the map has it |
| Router.Node.DeleteRoute | libraries/RadioHead-1.50/RHRouter.cpp:97-103 | the later slots move down and the last is invalid |
| Router.Node.DeleteRouteTo | libraries/RadioHead-1.50/RHRouter.cpp:124-136 | the first slot of the destination, live or not, is deleted |
| Router.Node.RetireOldestRoute | libraries/RadioHead-1.50/RHRouter.cpp:139-143 | slot 0 is deleted |
| Router.Node.FillFreeSlots | libraries/RadioHead-1.50/RHRouter.cpp:74-83 | the third loop fills every invalid slot |
| Router.NextHopIsRoute | libraries/RadioHead-1.50/RHRouter.cpp:178-190 | a message goes next where the routing table says, and a broadcast to everybody |
| Router.Node.AddRouteTo | libraries/RadioHead-1.50/RHRouter.cpp:44-83 | the slot of the destination, else an invalid slot, else room is made |
| Router.Node.RouteMessage | libraries/RadioHead-1.50/RHRouter.cpp:178-194 | no route, or one transmission to the next hop that the routing table has for the destination |
| Router.Node.SendtoFromSourceWait | libraries/RadioHead-1.50/RHRouter.cpp:161-175 | refuses what is too long, else routes a message with 0 hops and the next id |
| Router.Node.RecvfromAck | libraries/RadioHead-1.50/RHRouter.cpp:204-288 | a message for this node or for everybody is returned with its headers and as much of its data as fits; any other is sent to its next hop with one hop more and nothing else changed, if hops are left and there is a route |
| Router.DeliveredAtTheEnd | libraries/RadioHead-1.50/RHRouter.cpp:262-282 | along stops whose tables lead to the destination a message is forwarded by each and delivered at the last one, if and only if its hops suffice for the way |
| Router.Relay | libraries/RadioHead-1.50/RHRouter.cpp:204-288 | the same of nodes that hand a message on: the source, the id, the flags and the data arrive as they were sent, and no node before the destination returns the message |
| Router.ForwardingIsBounded | libraries/RadioHead-1.50/RHRouter.cpp:274-282 | whatever the tables say, and however they change, a message is forwarded at most as often as it has hops left |
| Router.CyclesUseTheBound | libraries/RadioHead-1.50/RHRouter.cpp:274-282 | around a cycle it is forwarded exactly that often |
| Router.ReceptionUsesEnergy | libraries/RadioHead-1.50/RHRouter.cpp:204-288 | every reception lowers the hops left in the whole network |
| Router.RunsEnd | libraries/RadioHead-1.50/RHRouter.cpp:204-288 | no run of receptions is longer than the hops left in the network |
| Mesh.RebroadcastIsLonger | libraries/RadioHead-1.50/RHMesh.cpp:213-220 | a request that is sent on lists one node more and is still well listed |
| Mesh.RequestsAreWellListed | libraries/RadioHead-1.50/RHMesh.cpp:182-220 | in every run a request in flight lists no node twice, neither end, and no more nodes than the limit |
| Mesh.SentOnWeighsLess | libraries/RadioHead-1.50/RHMesh.cpp:213-220 | all copies sent on weigh less than the one that arrived |
| Mesh.StepTakesEnergy | libraries/RadioHead-1.50/RHMesh.cpp:182-220 | every arrival and every loss lowers the measure of the network, for any topology |
| Mesh.FloodEnds | libraries/RadioHead-1.50/RHMesh.cpp:182-220 | without new searches no run is longer than the measure of the state it starts in |
| Mesh.StepKeeps | libraries/RadioHead-1.50/RHMesh.cpp:182-220 | requests follow real links and tables stay sound, step by step |
| Mesh.RoutesAreSound | libraries/RadioHead-1.50/RHMesh.cpp:200-203 | in every run a live route names a neighbour from which its destination is reached by a path that avoids the node |
| Mesh.NothingIsEvicted | libraries/RadioHead-1.50/RHMesh.cpp:200-203 | with at most eleven nodes adding a learned route evicts nothing |
| Mesh.ReplyHasRoute | libraries/RadioHead-1.50/RHMesh.cpp:200-211 | in every run with at most eleven nodes, a node that replies has a route to the originator, by way of the sender |
| MeshBound.LargerNetworksForget | libraries/RadioHead-1.50/RHMesh.cpp:200-211 | in a network of any number from twelve to 256 nodes, a hub linked to eleven others of which two are linked, there is a run from empty tables in which the route is lost before the reply |
| MeshBound.ElevenNodesExactly | libraries/RadioHead-1.50/RHMesh.cpp:200-211 | every network of n nodes keeps the route to the originator at every reply in every run, if and only if n is at most eleven |
| MeshSearch.AnsweredExactly | libraries/RadioHead-1.50/RHMesh.cpp:182-220 | in any network a search can be answered if and only if there is a way of different nodes to the target on which neither the limit on hops nor the length of a message stops it |
| MeshSearch.ReplyComesBack | libraries/RadioHead-1.50/RHMesh.cpp:200-211 | with at most eleven nodes such a search has a run after which the reply goes from the target by the tables along the way to the originator, and is delivered there and nowhere before |
| MeshNode.Node.BroadcastRequest | libraries/RadioHead-1.50/RHMesh.cpp:51-60 | a search is a broadcast of three octets: a request, the length of an address, the address |
| MeshNode.Node.Mentioned | libraries/RadioHead-1.50/RHMesh.cpp:195-198 | whether this node is listed |
| MeshNode.Node.LearnRoutes | libraries/RadioHead-1.50/RHMesh.cpp:200-203 | routes to the originator and all listed nodes by way of the sender |
| MeshNode.RequestBack | libraries/RadioHead-1.50/RHMesh.cpp:51-60 | the bytes of a request stand for it |
| MeshNode.RequestArrives | libraries/RadioHead-1.50/RHMesh.cpp:186-220 | when the network model ignores, answers, sends on or only learns from the request that a message stands for, in terms of its bytes |
| MeshNode.Node.HandleRequest | libraries/RadioHead-1.50/RHMesh.cpp:182-221 | on the bytes, for any address length: nothing is done by the originator and by who is listed; others learn the routes, and reply along the new route with the list if the address is theirs, or send the message on with one octet more if hops are left, or do nothing more |

## Left out

- PwmPrep.PhasesPrep: a period below 17 ticks without a partial duty is excluded, because the source then reads the entry before the table. For the other periods in which the table does not serve it is not said what the pins do.
- Pwm.Driver.Compile: claimed for the periods and duties for which `PwmPrep.PhasesPrep` promises a table that serves; with any other the interrupt routine would pass the end mark or replay a cycle of the wrong length.
- Pwm.Driver.Start: claimed for the same periods and duties.
- Pwm.Driver.SetDuty: channel index 8, which passes the test in the source, is excluded: it would write past the array of duties.
- GPIO, multiplexer and timer registers, the overhead constants of the interrupt routine and its busy loop: only the masks written and the nominal phase lengths are kept.
- `pwm_init` beyond its reset of the buffers: the pins, the period and the duties are given to the constructor, and starting the timer is a separate call.
- Pin masks are sets of pins in the passes; `PinMasks.MasksAreSets` shows that these are the 16-bit operations.
- In `PwmDriver` what the compiler has written to its buffer so far is arbitrary until it is done; the passes themselves are methods of the modules before.
- The units of the vendor's SDK, and the period that `pwm_get_period` reports, which is clamped while the one that is compiled is not.
- ROMs are sequences of 64 bits in the order in which they are read, and the bytes and bit masks of the search are positions in it. Devices with family byte 0 are refused by the search and excluded where whole walks are claimed.
- OneWire pin timing, parasite power, scratchpads, conversions and float temperatures.
- Dallas.Sensors.Begin: leaves out the resolution and the power supply that the source also reads from each device.
- Platforms on which `char` is unsigned: the alarm junction is a signed number.
- Bits that are not in the low twelve of the ASK receive register: it starts at zero and only ever holds those.
- The set-up of the ASK timer, platform glue, and `available` racing the interrupt on an uncollected message: `Ask.Driver.Recv` is both calls in one step.
- Serial.Driver.Recv: of a frame with fewer than four octets and a right check sequence, which `send` never makes, the source copies what is past its buffer; `SerialLink.MessageOf` takes such a message to be empty.
- Time-outs, random delays and `millis`: what arrives during each wait is a parameter.
- ReliableNode.Node.SendtoWait: a retry count of 255 is excluded, with which the 8-bit counter never ends the loop.
- ReliableNode.Node.TryAll: excludes the same retry count.
- `Reliable` models one direction between two nodes, with the sender's other sends as steps; the other direction is the same machine with the nodes exchanged, since acknowledgements and requests do not mix.
- Promiscuous mode in the reliable datagram layer, and what a driver does before a frame reaches it.
- `peekAtMessage` learning from responses, route failure notices, and the waiting for a response after a search: tables hold what requests teach. Freedom of learned routes from global loops is not claimed.
- MeshNode.Node.HandleRequest: a request shorter than three octets is excluded, of which the source would read what is not there.
- "Oldest" as the order of insertion: stale slots are used again out of order, so only slot 0 is said to be retired. The return value of `deleteRouteTo` counts stale slots.
- Radio chips over SPI, displays, port expanders, other sensors and the network set-up: input and output, or facts about single bytes.

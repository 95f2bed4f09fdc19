# Spitfire server: a verified model of the codec and the city

Spitfire is a game server. Its clients talk to it in Adobe's AMF 3 format, and each player owns a city in which
buildings rise, troops are trained and technologies are researched while a timer thread runs. This project models

* **the AMF 3 codec** (`src/amf3.cpp`, `src/amf3.h`): the writer that turns a tree of values into bytes with a
  string table and a table of class definitions that grow while it writes, and the parser that rebuilds the tree
  and must rebuild the same tables on the way;
* **the timed work of all cities** (`src/Server.cpp`, `src/City.cpp`, `src/packets/pcastle.cpp`,
  `src/packets/ptroop.cpp`, `src/packets/pfortifications.cpp`, `src/packets/ptech.cpp`): construction, training and
  research as they are started and cancelled by packets and finished by the timer, with what they cost;
* **four smaller parts**: resources that accrue, population and loyalty, the map's index of open tiles, and the
  ledger of a hero's points and experience.

## How it is built

The parts that change state are classes whose methods loop over arrays and sequences as the source does:
`Writer`, `Parser`, `PlayerCity`, `Server`, `Map`, `Stores`, `CityStats`, `Garrison`, `Hero`, `HeroCity`. The
`ensures` of each method equates the new state with a function of the old one (`PutValue`, `GetValue`,
`World.NewBuilding`, ...), and the lemmas are about these functions: what each does in fields and numbers, one step,
whole runs, and what two of them do to each other.

| modules | what is in them |
|---|---|
| `U29` | the 29-bit integers of section 1.3.1 of the AMF 3 specification |
| `Amf3Value`, `Amf3Writer`, `Amf3Parser` | trees, when two cannot be told apart; writing and reading, as functions and as classes |
| `Amf3RoundTrip`, `Amf3Same`, `Amf3Codec` | the round trip of the trees in `Plain` |
| `Amf3Damage`, `Amf3Visible`, `Amf3Gap`, `Amf3GapValue`, `Amf3Exact` | that of the trees in `Covered` no others make it: what goes wrong, that it shows, and what happens behind a date, where the tables are one entry apart |
| `Amf3Anywhere`, `Amf3Nested` | which trees make it from every buffer; a tree outside `Covered` that does |
| `Amf3Bytes` | what is read from bytes that this writer does not produce |
| `Amf3Tables`, `Amf3Compression`, `Amf3Limits` | the reference tables, what they save, and short outputs |
| `Sequences` | the search for the first entry with some property; distinct entries, rising times |
| `Economy`, `Training`, `World` | resources and prices; one training queue; all cities, commands and timer passes |
| `Commands`, `Rounds`, `WorkRuns` | in fields and numbers: what each command does and when it is accepted, what a round of the timer does to a city, and that over every run work takes its time, no less and no more |
| `Construction`, `Barracks`, `ResearchWork` | the invariants of the three kinds of timed work |
| `Ledger`, `LedgerSteps`, `Solvency` | what a city is worth, by how much each step changes it, and that no step adds to it |
| `Runs`, `QueueRuns`, `Levels` | whole runs of the system, as seen by a single queue and by a single technology |
| `Troops`, `SystemTroops` | what becomes of the soldiers: of one queue, and over runs of the system |
| `PlayerCities`, `GameServer` | the handlers and the timer thread as classes |
| `Accrual`, `Population`, `MapIndex`, `HeroLedger` | the smaller parts |

## Where the code does not do what it is for

Each of these is modelled as coded, with a lemma that says exactly when the code does what is wanted:

* among trees without an empty name of a dynamic member (`Covered`), the round trip fails for integers outside 29
  bits, zero bytes inside strings, undefined values, dates, associative arrays, externalizable classes, and members
  that a class declares and its object lacks or the other way round, and for nothing else within the length limits
  (`Amf3Codec.RoundTripExact`, `Amf3Anywhere.EverywhereExact`); of the dates one text comes back as itself, but leaves
  the parser's string table one entry behind for good (`Amf3Codec.DateExact`, `Amf3GapValue.GapValue`); an empty
  name ends the object for the parser, so that an object of a class without sealed members that has one does not make
  it (`Amf3Codec.EmptyKeyExcluded`), though a tree with such an object inside it may (`Amf3Nested.NestedReturns`);
* giving up a building never refunds it, since the status is cleared before it is tested
  (`LedgerSteps.CancelBuildingWorth`), and may hit another city's building (`Construction.CancelHits`);
* an item spent on a slot that was never set overwrites position 0 (`Construction.SpeedUpItemExact`);
* a research that is cancelled while an older cancelled one waits in the list is finished all the same
  (`ResearchWork.CancelExact`, `Levels.CancelLevelExact`, `ResearchWork.CancelTwice`);
* the number of troops may be negative: an order that takes negative time puts its queue out of order
  (`Barracks.ProduceQueuesExact`), and one with a price makes the city richer, at once where the queue is full
  (`Solvency.OrderExact`), and else when the batch is finished (`Solvency.TickGainExact`, `Solvency.TrainingGainExact`)
  or taken back while it runs (`Solvency.CancelGainExact`);
* ballistas are paid for and never delivered (`Troops.TroopsExact`);
* the last open tile of a zone is never given to a player: `createNewPlayer` (lines 408 to 570 of
  `src/packets/pcommon.cpp`) takes the counter down before `GetRandomOpenTile` tests it. That player is let in and then
  gets none; those behind him find the zone full, until a player in any zone succeeds and the map is scanned anew, so
  that the next one fails in the same way (`MapIndex.LastTileExact`, `MapIndex.FailsAgain`).

Two formulas would go wrong on numbers that this server never has: the army's food is taken once per look and not per
hour, but `m_troopconsume` is set to 0 at line 287 of `src/City.cpp` and nowhere else, so that `Accrual.AnyPartition`
applies as it stands (`Accrual.PollingExact` and `Accrual.FoodExact` say what another value would do); and a maximum
population below 20 would stop all movement, but it is always at least 50 (`Population.FixedExact`).

## Model

| member | source | states |
|---|---|---|
| U29.PutGet | src/amf3.cpp:777-808 | wherever an encoded integer stands in a buffer, it is read as the representative of its residue mod 2^29 in [-2^28, 2^28), and reading stops right behind it |
| U29.ExactRange | src/amf3.cpp:1128-1154 | a 32-bit integer is read back as itself exactly in [-2^28, 2^28) |
| U29.PrefixFree | src/amf3.cpp:1128-1154 | no encoding is a proper prefix of another, and only congruent integers share one |
| U29.Meaning | src/amf3.cpp:777-808 | which byte strings are read to their end, and what number each stands for |
| U29.Minimal | src/amf3.cpp:1128-1154 | no byte string that is read as the same number is shorter than the encoding |
| U29.GetPut | src/amf3.cpp:777-808 | writing what was read restores the bytes exactly for canonical byte strings |
| Amf3Writer.ByteSwap5 | src/funcs.cpp:59-68 | swapping from both ends reverses the array in place |
| Amf3Writer.Search | src/amf3.h:109-117 | the table search finds the first entry that equals the key, or -1 |
| Amf3Writer.Writer.TypelessWriteInt | src/amf3.cpp:1128-1154 | the shift-and-mask branches append exactly the encoding `U29.Put`, and touch no byte behind it |
| Amf3Writer.Writer.TypelessWriteNumber | src/amf3.cpp:1155-1177 | eight bytes of the number are appended in reverse order by in-place swaps |
| Amf3Writer.Writer.TypelessWriteString | src/amf3.cpp:1178-1206 | an empty string, a table reference or an inline copy is appended, and a new string enters the table |
| Amf3Writer.Writer.WriteClassdef | src/amf3.cpp:1246-1286 | a known definition is written as a reference, a new one inline and entered into the table |
| Amf3Writer.Writer.WriteDictionary | src/amf3.cpp:1207-1215 | named entries are written as name and value, in order |
| Amf3Writer.Writer.TypelessWriteArray | src/amf3.cpp:1216-1240 | length, named entries, empty name, dense entries |
| Amf3Writer.Writer.TypelessWriteObject | src/amf3.cpp:1241-1337 | definition, sealed members by declared name, then for a dynamic class every member again and an empty name; an exception where a declared member is missing |
| Amf3Writer.Writer.Write | src/amf3.cpp:1029-1078 | for every tree the buffer and both tables end as the function `PutValue` says, exceptions included |
| Amf3Writer.ValueTokens | src/amf3.cpp:1029-1337 | the nested writing of a tree is the writing of one flat list of raw bytes, strings and definitions, from any state of the tables |
| Amf3Parser.Parser.ReadInteger | src/amf3.cpp:777-808 | the loop over shifting accumulators reads what `U29.Get` reads |
| Amf3Parser.Parser.ReadNumber | src/amf3.cpp:809-834 | eight bytes, reversed in place |
| Amf3Parser.Parser.ReadString | src/amf3.cpp:835-852 | a reference into the table or an inline string that is entered into it; fails on an index outside or a negative length |
| Amf3Parser.Parser.ReadClassdef | src/amf3.cpp:931-965 | a definition by reference or inline, entered into the table once it is complete |
| Amf3Parser.Parser.ReadArray | src/amf3.cpp:871-908 | at most one named entry, then the dense ones; the named one counts as dense too |
| Amf3Parser.Parser.ReadAMF3Object | src/amf3.cpp:909-1007 | sealed members in declared order, then names and values up to an empty name |
| Amf3Parser.Parser.ReadNextObject | src/amf3.cpp:725-775 | for every buffer, well-formed or not, the recursive parser ends, and succeeds exactly when `GetValue` does, with its value, position and tables |
| Amf3Parser.GetValue | src/amf3.cpp:725-1007 | every successful read moves forward by at least one byte, stays inside the buffer and only extends the string table |
| Amf3Bytes.CodeTable | src/amf3.cpp:725-775 | on any buffer: codes 0 to 3 are Undefined, Null, False and True, and every code that is not known is the integer 0, each of one byte; at the end of the buffer there is nothing |
| Amf3Bytes.SmallInteger | src/amf3.cpp:725-808 | code 4 and a byte below 128 are that number |
| Amf3Bytes.NumberBytes | src/amf3.cpp:809-834 | code 5 and eight bytes, the last one first in memory; fewer are refused |
| Amf3Bytes.StringReference | src/amf3.cpp:835-852 | code 6 and an even byte are the string of the table at half of it, refused where there is none |
| Amf3Bytes.StringInline | src/amf3.cpp:835-852 | code 6 and an odd byte are followed by half as many bytes, which enter the table unless there are none; refused where there are fewer |
| Amf3Bytes.DateBytes | src/amf3.cpp:853-869 | code 8, an odd byte and eight more read as one and the same text, whatever they are, and enter no table; a reference is refused |
| Amf3Bytes.ArrayBytes | src/amf3.cpp:871-908 | code 9, the odd byte of a length, no named entries, and elements of one byte each: exactly these, in order |
| Amf3Bytes.ArrayReference | src/amf3.cpp:871-908 | references to arrays are refused |
| Amf3Bytes.ObjectRefused | src/amf3.cpp:909-965 | so are references to objects, to class definitions that are not there, and classes that write themselves |
| Amf3Bytes.DefReference | src/amf3.cpp:931-965 | a reference to a class definition within the table is that one |
| Amf3Bytes.NamedArray | src/amf3.cpp:871-908 | an array with one named entry, written from any state of the tables, is read with it once under its key and once more as the first element, in front of the others |
| Amf3RoundTrip.StringBack | src/amf3.cpp:1178-1206 | a string written from any state of the tables is read back from the equal state, and the tables are equal again |
| Amf3RoundTrip.DefBack | src/amf3.cpp:1246-1286 | the same for class definitions: both sides number them alike, although they enter them at different moments |
| Amf3RoundTrip.ValueBack | src/amf3.cpp:1029-1337 | lockstep: from equal tables, any subtree in `Plain` is written without exception, read back to its last byte as `Reread` describes, and leaves equal tables |
| Amf3Same.RereadSame | src/amf3.cpp:986-1004 | the reread tree, with sealed members twice, cannot be told from the original by any lookup at any depth |
| Amf3Same.SameKeys | src/amf3.h:94-102 | the reread object has the keys of the original, no more and no fewer, and answers each as the original does |
| Amf3Codec.RoundTrip | src/amf3.cpp:1029-1337 | for every tree in `Plain`, every former content of the buffer and all bytes that follow, parsing gives an equivalent tree, the exact length and the tables of the writer |
| Amf3Codec.RoundTripExact | src/amf3.cpp:1029-1337 | on a buffer filled with one byte, of the trees in `Covered` (no empty name of a dynamic member) exactly those in `Plain` make the round trip |
| Amf3Codec.CopyExact | src/amf3.cpp:1195-1204 | when strcpy carries a string over whole: the buffer already held what follows its first zero byte |
| Amf3Codec.CleanExact | src/amf3.cpp:1195-1204 | for every buffer it does exactly when no zero byte stands before the last byte |
| Amf3Codec.DateExact | src/amf3.cpp:853-869 | a date comes back as itself for one text only, and never with equal tables |
| Amf3Codec.EmptyKeyStops | src/amf3.cpp:986-1004 | behind a dynamic member with an empty name the parser stops short of what was written |
| Amf3Codec.EmptyKeyExcluded | src/amf3.cpp:986-1004 | an object of a dynamic class without sealed members that has such a member among its own, behind good ones, does not make the round trip |
| Amf3Anywhere.EverywhereExact | src/amf3.cpp:1029-1337 | whatever the buffer held, as the one of `src/reply.cpp` may: a tree in `Covered` makes the round trip from every buffer exactly when it is `Simple` and within the length limits |
| Amf3Nested.NestedWritten | src/amf3.cpp:1298-1333 | the 22 bytes, three strings and two definitions that this tree is written as |
| Amf3Nested.NestedReturns | src/amf3.cpp:986-1004 | why `Covered` is needed: a tree with an empty dynamic name in a nested object that is outside `Plain` and yet makes the round trip from every buffer |
| Amf3Codec.Transfer | src/amf3.cpp:725-1337 | the two classes on one buffer: what the parser hands out is the same tree that the writer was given |
| Amf3Damage.LongLength | src/amf3.cpp:804-807 | a length of 2^27 or more is read as another one |
| Amf3Damage.BadString | src/amf3.cpp:1178-1206 | a string that does not survive is not read or read as another one; unless that one is empty, it stands in the table of the parser where the original stands in that of the writer |
| Amf3Damage.StaysDiverged | src/amf3.cpp:1178-1206 | tables that hold different strings at one place never agree again |
| Amf3Damage.BadDef | src/amf3.cpp:1246-1286 | a definition that does not survive is refused or read as another one |
| Amf3Visible.BadHeader | src/amf3.cpp:889-905 | arrays with named entries or too many elements are read with another number of entries |
| Amf3Exact.BadValue | src/amf3.cpp:1029-1337 | on a filled buffer and from any good state of the tables, a tree in `Covered` but outside `Plain` is not read back as itself, or leaves the tables different for good or one entry apart |
| Amf3Gap.GapString | src/amf3.cpp:835-869 | behind a date text that only the writer has in its table, a string is read as itself where it is in the table already, and every new one sets the tables apart for good |
| Amf3Gap.GapDef | src/amf3.cpp:931-965 | the same for class definitions: one that could be told from the wire is read as itself or sets the tables apart, any other is refused or read as another one |
| Amf3GapValue.GapValue | src/amf3.cpp:853-869 | the same for whole trees: whatever is read behind a date, the tables differ for good, or the tree is tame and the tables stay one entry apart, or it is read as another one |
| Amf3Tables.DistinctValue | src/amf3.cpp:1178-1206 | no table ever holds an entry twice, whatever is written |
| Amf3Tables.GoodPutValue | src/amf3.cpp:1178-1206 | writing `Plain` trees leaves nothing in the tables that a reference could not bring back |
| Amf3Compression.SameMeaning | src/amf3.cpp:1178-1206 | encodings with and without the string table are read as the very same tree |
| Amf3Compression.ReferenceCost | src/amf3.cpp:1183-1190 | a reference is longer than its string exactly for one byte from index 8192 and two bytes from index 2^20 |
| Amf3Compression.NeverLonger | src/amf3.cpp:1178-1206 | with at most 8192 strings in the table no tree is written longer than without a table |
| Amf3Limits.ShortRoundTrip | src/reply.cpp:39-45 | when the output is below 16 MB the round trip needs none of the length limits |
| Sequences.First | src/amf3.h:109-117 | the loops that search a list find its first entry with the property, or -1 exactly when there is none |
| Economy.Res.Plus | src/structs.h:67-75 | adds in each of the five resources |
| Economy.Res.Minus | src/structs.h:58-66 | subtracts in each |
| Economy.Res.Affords | src/packets/pcastle.cpp:416-424 | holds exactly when no component of the price exceeds what there is |
| Economy.Div3 | src/packets/ptroop.cpp:309-313 | integer division towards zero |
| Training.AddValid | src/City.cpp:1585-1635 | a new batch keeps the discipline (only the head is timed, ids rise and stay below the next one) exactly when its duration is not negative and an immediate end lies behind the epoch |
| Training.CancelValid | src/packets/ptroop.cpp:297-348 | a cancel keeps the discipline |
| Training.TickValid | src/Server.cpp:1273-1300 | so does the timer |
| Training.CancelRemovesOne | src/packets/ptroop.cpp:297-348 | a cancel takes out the named batch and no other |
| Training.StepSerial | src/Server.cpp:1278-1297 | every command keeps finished batches in order before waiting ones, and each at least its own cost after the one before |
| Training.RunSerial | src/Server.cpp:1278-1297 | so does every run |
| Training.SerialFifo | src/Server.cpp:1278-1297 | over every run batches finish in the order of their ids, the k-th not before the costs of all finished up to it have passed; cancelled ones cost no time |
| Training.Reachable | src/packets/ptroop.cpp:297-348 | in every reachable queue the discipline holds and a cancel removes at most one batch |
| Commands.NewBuildingExact | src/packets/pcastle.cpp:366-476 | in fields: taken exactly on an empty slot of a city at rest that can pay; type, level 0, status 1, begin and end are in the slot, the price is gone, the event is listed, and nothing else has changed |
| Commands.UpgradeExact | src/packets/pcastle.cpp:558-658 | the same for raising a building |
| Commands.DestructExact | src/packets/pcastle.cpp:477-557 | the same for tearing one down |
| Commands.SpeedUpFreeExact | src/packets/pcastle.cpp:788-813 | the end moves back by five minutes exactly for work of at most five |
| Commands.ItemExact | src/packets/pcastle.cpp:814-900 | the end moves back by what the item is worth, and the building is written back under its own id |
| Commands.CancelBuildingExact | src/packets/pcastle.cpp:920-999 | of the first event at the position, in whatever city: the work is given up, nothing is given back |
| Commands.CancelNothing | src/packets/pcastle.cpp:920-999 | without such an event nothing happens |
| Commands.IncomeExact | src/City.cpp:1284-1355 | each store changes by what comes in, and nothing else does |
| Commands.ProduceExact | src/packets/ptroop.cpp:217-281 | in fields: the order is taken exactly by a city that can pay; the batch is last in the queue, with its cost in milliseconds and, when it is alone, its end, unless the queue is full |
| Commands.ProduceNothing | src/packets/ptroop.cpp:217-281 | without a queue it is refused |
| Commands.CancelProduceExact | src/packets/ptroop.cpp:297-348 | the batch is gone, the next one runs if it was running, and all of its price or a third comes back |
| Commands.CancelProduceNothing | src/packets/ptroop.cpp:297-348 | without such a batch nothing happens |
| Commands.ResearchExact | src/packets/ptech.cpp:173-325 | in fields: taken exactly by a city at no research that can pay, up to level 10; begin and end are in the slot |
| Commands.CancelResearchExact | src/packets/ptech.cpp:327-401 | the slot is free again with its level, a third of the price comes back, and the first event of the city is marked |
| Commands.SpeedUpResearchExact | src/packets/ptech.cpp:403-511 | the end moves back by the amount given, or by five minutes for a research of at most five |
| Commands.NoClaim | src/packets/ptech.cpp:327-511 | a city with no slot of its own has nothing to cancel or speed up |
| Commands.SetStands | src/City.cpp:195-267 | setting a building in fields: slot, queue (types 2 and 32) and city level (type 31) |
| Rounds.TickBuilt | src/Server.cpp:1344-1451 | a round raises every building that is due by one, lowers one that is torn down by one and hands out a third, and leaves all other buildings, stores and levels as they are |
| Rounds.TickStudied | src/Server.cpp:1454-1510 | a research that is due is one level higher and the slot free; any other is as before |
| Rounds.QueuesExact | src/Server.cpp:1273-1300 | in every queue a head whose end has come is gone and the next batch runs from now on; any other queue is unchanged, and none is dropped |
| Rounds.PassExact | src/Server.cpp:1344-1451 | the loop that erases while it walks does to each city what is due there, whatever the order of the list |
| Rounds.StudyExact | src/Server.cpp:1454-1510 | so does the one for research |
| WorkRuns.StepStands | src/Server.cpp:1344-1451 | no command of any city and no round up to its end changes a building at work that nobody speeds up or gives up |
| WorkRuns.WorkFinishes | src/Server.cpp:1344-1451 | over every run that leaves it alone, the first round behind the end finishes the work, and none before |
| WorkRuns.BuildingTakesItsTime | src/packets/pcastle.cpp:366-476 | an order from beginning to end: under construction until `duration` has passed, whatever all cities do, then level 1 |
| WorkRuns.StudyFinishes | src/Server.cpp:1454-1510 | the same for a research: one level up in the first round behind its end, and not before |
| WorkRuns.StudyTakesItsTime | src/packets/ptech.cpp:173-325 | a research from beginning to end |
| WorkRuns.HeadFinishes | src/Server.cpp:1273-1300 | a batch at the head that nobody cancels stays there through all rounds before its end and is finished by the first at or behind it; the next one runs from then on |
| Construction.Bijection | src/packets/pcastle.cpp:391-408 | the invariant read as a bijection between events and buildings with status 1 or 2 |
| Construction.NewBuildingInv | src/packets/pcastle.cpp:366-476 | `newBuilding` keeps it: at most one event per city, naming its one busy building |
| Construction.UpgradeInv | src/packets/pcastle.cpp:558-658 | `upgradeBuilding` keeps it |
| Construction.DestructInv | src/packets/pcastle.cpp:477-557 | `destructBuilding` keeps it |
| Construction.CancelInv | src/packets/pcastle.cpp:920-999 | `cancleBuildCommand` keeps it |
| Construction.FinishInv | src/Server.cpp:1352-1448 | finishing or tearing down one building keeps it |
| Construction.BuildingPassInv | src/Server.cpp:1344-1451 | so does the whole loop, which erases while it walks |
| Construction.PassFinishesDue | src/Server.cpp:1344-1451 | after the loop no event waits whose work is due |
| Construction.SpeedUpFreeInv | src/packets/pcastle.cpp:788-813 | the free speed-up keeps it |
| Construction.SpeedUpItemExact | src/packets/pcastle.cpp:814-900 | a speed-up by item keeps it exactly when the slot knows its own position or nothing goes on at position 0 |
| Construction.CancelHits | src/packets/pcastle.cpp:933-957 | a cancel ends exactly one piece of work, and the own one exactly when no other city has an earlier event at that position |
| Barracks.ExactlyOne | src/City.cpp:227-249 | every barracks or wall of level 1 or more has exactly one queue at its position |
| Barracks.SetQueuesKeeps | src/City.cpp:227-249 | the bookkeeping keeps positions apart and other queues in place, and provides one where one is due |
| Barracks.SetBuildingKeeps | src/City.cpp:195-267 | every way of setting a building keeps queues in order, tearing down and building anew included |
| Barracks.NewBuildingQueues | src/packets/pcastle.cpp:366-476 | `newBuilding` keeps queues in order |
| Barracks.UpgradeQueues | src/packets/pcastle.cpp:558-658 | `upgradeBuilding` does |
| Barracks.DestructQueues | src/packets/pcastle.cpp:477-557 | `destructBuilding` does |
| Barracks.CancelQueues | src/packets/pcastle.cpp:920-999 | `cancleBuildCommand` does |
| Barracks.SpeedUpQueues | src/packets/pcastle.cpp:779-903 | both speed-ups do |
| Barracks.BuildingPassQueues | src/Server.cpp:1344-1451 | the construction loop does |
| Barracks.ProduceQueuesExact | src/packets/ptroop.cpp:217-281 | `produceTroop` does exactly when the order is refused, finds the queue full, or does not take negative time |
| Barracks.CancelProduceQueues | src/packets/ptroop.cpp:282-352 | `cancelTroopProduce` does |
| Barracks.AllTrainingQueues | src/Server.cpp:1266-1303 | the training pass does |
| ResearchWork.FlagMeansRunning | src/packets/ptech.cpp:194-239 | the flag holds exactly when one slot carries the city and one live event names that slot |
| ResearchWork.ResearchKeeps | src/packets/ptech.cpp:173-325 | `research` keeps flag, slot and event in step |
| ResearchWork.CancelExact | src/packets/ptech.cpp:327-401 | `cancelResearch` keeps them exactly when no cancelled event of the city is still in the list |
| ResearchWork.CancelTwice | src/packets/ptech.cpp:375-385 | four commands that get there, from a city at rest |
| ResearchWork.SpeedUpKeeps | src/packets/ptech.cpp:403-530 | `speedUpResearch` keeps them |
| ResearchWork.FinishKeeps | src/Server.cpp:1463-1500 | finishing a research does |
| ResearchWork.PassKeeps | src/Server.cpp:1454-1510 | the whole loop does |
| ResearchWork.PassSweeps | src/Server.cpp:1503-1507 | after a pass no cancelled event is left |
| ResearchWork.PassFinishesDue | src/Server.cpp:1454-1510 | after a pass every event is live and its work not due |
| Ledger.SetBuildingWorth | src/City.cpp:195-267 | setting a building changes the ledger by the difference of the two buildings, less the queue that is dropped |
| LedgerSteps.NewBuildingWorth | src/packets/pcastle.cpp:416-434 | starting a building moves its price from the stores to the site; only a forgotten queue is lost |
| LedgerSteps.IncomeWorth | src/City.cpp:1284-1355 | what comes in from outside adds exactly itself |
| LedgerSteps.UpgradeWorth | src/packets/pcastle.cpp:604-621 | so does an upgrade |
| LedgerSteps.DestructWorth | src/packets/pcastle.cpp:477-557 | starting a demolition changes nothing |
| LedgerSteps.CancelBuildingWorth | src/packets/pcastle.cpp:944-957 | giving up a building loses exactly its price and leaves the stores as they were; giving up a demolition loses nothing |
| LedgerSteps.FinishWorth | src/Server.cpp:1352-1421 | finishing keeps a third, rounded down, of the price in the ledger, and a demolition hands out exactly that third |
| LedgerSteps.ProduceWorth | src/packets/ptroop.cpp:236-261 | an order moves its price into the queue, or loses it where the queue is full |
| LedgerSteps.CancelProduceWorth | src/packets/ptroop.cpp:305-335 | a waiting batch is refunded in full, a running one to a third |
| LedgerSteps.TrainingWorth | src/Server.cpp:1273-1300 | a training pass takes the worth of the due heads out of the ledger and nothing else |
| LedgerSteps.ResearchWorth | src/packets/ptech.cpp:196-213 | a research moves its price from the stores to the slot |
| LedgerSteps.CancelResearchWorth | src/packets/ptech.cpp:365-369 | cancelling it loses two thirds, fractions included |
| LedgerSteps.FinishResearchWorth | src/Server.cpp:1463-1470 | finishing it takes its price out of the ledger |
| LedgerSteps.SpeedUpItemWorth | src/packets/pcastle.cpp:886-890 | speeding up changes nothing but what it overwrites |
| Solvency.NewBuildingPays | src/packets/pcastle.cpp:416-434 | no city gains and no store falls below zero when a building is started |
| Solvency.UpgradePays | src/packets/pcastle.cpp:604-621 | nor when one is raised |
| Solvency.CancelPays | src/packets/pcastle.cpp:936-964 | nor when one is given up |
| Solvency.BuildingPassPays | src/Server.cpp:1344-1451 | nor in the construction loop |
| Solvency.OrderExact | src/packets/ptroop.cpp:236-261 | no order, of whatever number, takes a store below zero, and it makes a city richer exactly when it is taken, finds the queue full, and has a negative number of troops that cost something |
| Solvency.TickGainExact | src/Server.cpp:1278-1297 | a queue that finishes its head gains worth exactly when the head is due, has a negative number, and its troops cost something |
| Solvency.TrainingGainExact | src/Server.cpp:1266-1303 | a training pass makes a city richer exactly when, of some resource, its due heads together are worth less than nothing |
| Solvency.LoneHeadExact | src/Server.cpp:1266-1303 | with one queue due, exactly when its head has a negative number and a price |
| Solvency.HeadsOffset | src/Server.cpp:1266-1303 | with two it need not: a head of as many of the same troops makes up for it |
| Solvency.CancelProducePays | src/packets/ptroop.cpp:297-348 | nor when an order is taken back |
| Solvency.TrainingPays | src/Server.cpp:1266-1303 | nor in the training pass |
| Solvency.ResearchPays | src/packets/ptech.cpp:196-213 | nor when a research is started |
| Solvency.CancelResearchPays | src/packets/ptech.cpp:365-395 | nor when it is cancelled |
| Solvency.ResearchPassPays | src/Server.cpp:1454-1510 | nor in the research loop |
| Solvency.FullQueueExact | src/packets/ptroop.cpp:236-261 | an order into a full queue makes nobody richer exactly when its number is not negative or the troops are free |
| Solvency.CancelGainExact | src/packets/ptroop.cpp:305-335 | a cancel makes the city no richer exactly when the batch waits, has no negative number, or is free |
| Runs.StepInv | src/Server.cpp:1266-1510 | every command and every round of the timer keeps construction, queues and stores in order, and makes no city richer than by its income |
| Runs.StepResearchExact | src/packets/ptech.cpp:327-401 | every step keeps research in order, but for the impatient cancel |
| Rounds.NothingStuck | src/Server.cpp:1273-1510 | after every round of the timer nothing that is due waits: no event is ever stuck, every due head of a queue has been finished, and a head whose end has come takes no time and was only just reached |
| Runs.FoundedExact | src/Server.cpp:2371-2406 | a new city in fields: a town hall of level 1 at position -1, and nothing else |
| Runs.RunInv | src/Server.cpp:1266-1510 | over every run, in any order and for any number of cities, all of this holds and no ledger ends above where it began plus what the city took in |
| Runs.RunResearch | src/Server.cpp:1454-1510 | over every patient run flag, slot and event agree |
| Levels.StepLevels | src/Server.cpp:1463-1470 | only the timer changes a level, by one for each finish, and every step accounts for its start, cancel or finish of a technology |
| Levels.RunLevels | src/Server.cpp:1463-1470 | over every run, patient or not, the level of each technology rises by exactly the number of its finishes |
| Levels.RunClaims | src/packets/ptech.cpp:194-239 | over every patient run each start of a technology ends in one finish or one cancel, or still goes on |
| Levels.CancelledKeepsLevel | src/packets/ptech.cpp:375-395 | so a technology that was cancelled keeps its level until it is started and finished again |
| Levels.CancelLevelExact | src/packets/ptech.cpp:375-385 | a cancelled technology keeps its level in the next pass exactly when none of the city's cancelled events was still in the list |
| Runs.NoIncomeNoGain | src/Server.cpp:1266-1510 | in a run without income no city ends richer than it began |
| Runs.FoundingKeeps | src/Server.cpp:2371-2406 | a city that is founded disturbs nothing, research included |
| Runs.HistoryKeeps | src/Server.cpp:1266-1510 | so with cities founded at any time between the runs all stays in order, and research while cancels are patient |
| Runs.Reachable | src/Server.cpp:1266-1510 | every state that is reached from a server without any city is in order, whatever the cities are founded with and earn |
| Runs.ProductionIsIncome | src/City.cpp:1284-1355 | what `CalculateResources` does to the stores is an income that a run may hold |
| QueueRuns.Evolution | src/Server.cpp:1266-1510 | each step of the whole system is, for a queue that stays, one command of that queue, and a pass exactly when it is the timer's |
| QueueRuns.Projection | src/Server.cpp:1266-1510 | so a run of the system, seen by one queue, is a run of that queue: at every point the same queue, and as finished batches those that the timer has finished in the system |
| QueueRuns.SystemFifo | src/Server.cpp:1278-1297 | the batches that the timer finishes in a queue, whatever else all cities do, come in the order of their ids, each at least its cost after the one before, and none before the costs of all up to it have passed |
| Troops.Garrison.SetTroops | src/City.cpp:1103-1128 | the chain of cases does what `WithTroops` says |
| Troops.TypeTable | src/funcs.h:234-245 | which field each type has, in numbers |
| Troops.SetTroopsExact | src/City.cpp:1103-1128 | a delivery adds to its own type and to no other; ballistas get lost |
| Troops.RunConserves | src/Server.cpp:1273-1300 | over every run, what was ordered and not cancelled is waiting or finished, type by type |
| Troops.DeliveredExact | src/City.cpp:1103-1128 | of any list of finished batches the city has all soldiers of every type but no ballistas |
| Troops.TroopsExact | src/City.cpp:1103-1128 | so deliveries are right exactly for the other types, or when the finished ballistas sum to zero |
| SystemTroops.StepSoldiers | src/Server.cpp:1273-1300 | in every step of the whole system, what waits in a queue afterwards or has been finished is what waited before with what was ordered |
| SystemTroops.SystemConserves | src/Server.cpp:1273-1300 | over every run of the system, type by type: what was ordered in a queue and not cancelled waits there or has been finished |
| SystemTroops.SystemDelivers | src/Server.cpp:1273-1300 | and of what the timer has finished in that run the city has all but the ballistas |
| PlayerCities.PlayerCity.SetBuilding | src/City.cpp:195-267 | in place: the slot, the queue, and the city level from the town hall |
| PlayerCities.PlayerCity.GetBarracksQueue | src/City.cpp:1645-1655 | the first queue at the position, or none |
| PlayerCities.PlayerCity.AddToBarracksQueue | src/City.cpp:1585-1635 | refuses a full queue, and else appends as `Training.Add` |
| PlayerCities.PlayerCity.CancelBatch | src/packets/ptroop.cpp:297-348 | finds the batch, erases it and starts the next one behind a running one |
| PlayerCities.PlayerCity.TrainingPass | src/Server.cpp:1273-1300 | finishes every due head of the city, one to a queue |
| PlayerCities.PlayerCity.Busy | src/packets/pcastle.cpp:391-408 | the two loops find a busy building exactly when there is one |
| GameServer.Server.AddPlayerCity | src/Server.cpp:2371-2406 | a new city with a town hall of level 1 |
| GameServer.Server.NewBuilding | src/packets/pcastle.cpp:366-476 | the whole new state, as `World.NewBuilding` |
| GameServer.Server.UpgradeBuilding | src/packets/pcastle.cpp:558-658 | the whole new state, as `World.UpgradeBuilding` |
| GameServer.Server.DestructBuilding | src/packets/pcastle.cpp:477-557 | the whole new state, as `World.DestructBuilding` |
| GameServer.Server.SpeedUpFree | src/packets/pcastle.cpp:788-813 | the whole new state, as `World.SpeedUpFree` |
| GameServer.Server.SpeedUpItem | src/packets/pcastle.cpp:814-900 | the whole new state, as `World.SpeedUpItem` |
| GameServer.Server.CancelBuilding | src/packets/pcastle.cpp:920-999 | the whole new state, as `World.CancelBuilding`: the first event at the position, whatever its city |
| GameServer.Server.Income | src/City.cpp:1284-1355 | the stores of one city change by what comes in, from whatever source, and nothing else does |
| GameServer.Server.CalculateResources | src/City.cpp:1284-1355 | one city has the stores that `Accrual.After` gives it, and nothing else changes |
| GameServer.Server.ProduceTroop | src/packets/ptroop.cpp:217-281 | the whole new state, as `World.Produce` |
| GameServer.Server.CancelTroopProduce | src/packets/pfortifications.cpp:239-308 | the whole new state, as `World.CancelProduce`; the handler of the walls is the same at position -2 |
| GameServer.Server.Research | src/packets/ptech.cpp:173-325 | the whole new state, as `World.Research` |
| GameServer.Server.CancelResearch | src/packets/ptech.cpp:327-401 | the whole new state, as `World.CancelResearch` |
| GameServer.Server.SpeedUpResearch | src/packets/ptech.cpp:454-511 | by item: the whole new state, as `World.SpeedUpResearch` |
| GameServer.Server.SpeedUpResearchFree | src/packets/ptech.cpp:421-452 | free, for a research of no more than five minutes: the whole new state, as `World.SpeedUpResearchFree` |
| GameServer.Server.TrainingPass | src/Server.cpp:1266-1303 | every city is brought forward by its own training pass |
| GameServer.Server.BuildingPass | src/Server.cpp:1344-1451 | the loop that erases while it walks, as the recursion `World.BuildingPass` |
| GameServer.Server.ResearchPass | src/Server.cpp:1454-1510 | the loop that erases while it walks, as the recursion `World.ResearchPass` |
| GameServer.Server.Tick | src/Server.cpp:1266-1510 | one round of the timer thread |
| GameServer.Server.Serve | src/Server.cpp:1266-1510 | one packet, payment or timer round on the objects keeps every invariant above, research exactly when the cancel is patient |
| Accrual.Stores.CalculateResources | src/City.cpp:1284-1355 | all five stores after a call, and the time of the call |
| Accrual.HoursExact | src/City.cpp:1297-1345 | in numbers: over h hours a store gains h times production and base, times efficiency and surcharge in percent, less the food of the army, up to its cap |
| Accrual.GoldExact | src/City.cpp:1347-1355 | gold gains h times what taxes leave after twenty pieces a level of each hero, with a floor at zero |
| Accrual.TwoCalls | src/City.cpp:1284-1355 | two calls do what one does |
| Accrual.AnyPartition | src/City.cpp:1284-1355 | however an interval is cut up by calls, the stores end as after one call at its end |
| Accrual.AfterStocked | src/City.cpp:1284-1355 | with an army that eats nothing no store falls below zero |
| Accrual.PollingExact | src/City.cpp:1296-1307 | for rates that are not negative it would not matter how often one looks exactly when the army eats nothing, which in this server it never does |
| Accrual.Capped | src/City.cpp:1297-1355 | over any calls gold stays at or above zero, stores below their cap never cross it, stores at or above it are left alone |
| Accrual.FoodExact | src/City.cpp:1296-1307 | food would fall below zero exactly when the army eats more than there is and grows |
| Population.CityStats.RecalculateCityStats | src/City.cpp:1466-1509 | population, loyalty and gold production after a tick; the two guards against leaving [0, maximum] never fire |
| Population.FixedExact | src/City.cpp:1466-1509 | a tick changes nothing exactly when all is at its target, or the maximum is too small to move anything |
| Population.Closes | src/City.cpp:1466-1509 | the measure: the loyalty gap closes by one, and once it is closed the population gap by a twentieth of the maximum, without overshooting |
| Population.Converges | src/City.cpp:1466-1509 | within 100 ticks plus the steps for the largest population all is settled, and stays so |
| Population.EndsAt | src/City.cpp:1466-1509 | in numbers: loyalty ends at what tax and grievance leave of 100, the population at that percentage of the maximum, rounded down, which loyalty and grievance come to, gold at the tax on it |
| Population.TargetGrows | src/City.cpp:1468-1468 | more loyalty or grievance never lowers the population aimed at; from 100 on it is the maximum, at 0 nobody |
| Population.Extremes | src/City.cpp:1466-1509 | a town without taxes fills up, one that taxes take everything from dies out unless there is grievance |
| Population.StepsCeil | src/City.cpp:1469-1469 | the number of steps is the quotient rounded up |
| Population.Monotone | src/City.cpp:1470-1491 | once loyalty is settled the population never turns back |
| MapIndex.ZoneExact | src/Map.cpp:173-252 | the sixteen branches are 4*floor(4y/size)+floor(4x/size) on the map, and -1 off it |
| MapIndex.ClassTable | src/funcs.h:150-160 | which types and owners make a tile open, owned, a city or an NPC, in numbers |
| MapIndex.StateOfTile | src/Map.cpp:254-258 | taking an id apart gives the zone of its tile on every map up to a side of 32768 |
| MapIndex.WhereExact | src/Map.cpp:97-158 | the list of a zone holds exactly its tiles of the class, once each, in order |
| MapIndex.Map.CalculateOpenTiles | src/Map.cpp:97-158 | after the scan every list holds the open flats of its zone and every counter the number of its tiles; occupiable = open + occupied |
| MapIndex.Map.GetRandomOpenTile | src/Map.cpp:160-171 | the drawn tile leaves the list, and nothing else changes |
| MapIndex.DrawsExact | src/Map.cpp:160-171 | draws give distinct open tiles while there are any, and -1 from then on |
| MapIndex.GivenAway | src/Server.cpp:2396-2404 | when a drawn tile has been given away, a new scan finds in every zone what the draw has left there |
| MapIndex.Map.NewPlayer | src/Server.cpp:2396-2404 | the whole map after a player has come through `createNewPlayer` and `AddPlayerCity`, all lists and counters scanned anew on success |
| MapIndex.PlayerStep | src/Map.cpp:160-171 | who gets a tile, which one, who is refused, and that lists and counters stay in order |
| MapIndex.PlayerExact | src/Map.cpp:160-171 | the same in fields: which tile is drawn, that the counter goes down for everybody who is let in, and that a tile the database did not take stays out of the list until the next scan |
| MapIndex.ArrivalsKeep | src/Map.cpp:97-171 | over every run of players in all zones: no tile is given twice or outside the zone asked for, tiles that are not given keep their owners, each list stays that of a new scan while the database takes all, and each counter is its length, or zero with one tile left |
| MapIndex.LastTileExact | src/Map.cpp:160-171 | after any such run a player gets a tile exactly when his zone has at least two open ones, and is refused exactly when the counter is zero |
| MapIndex.FailsAgain | src/Map.cpp:97-171 | a success in any zone brings the counter of a last tile back, and the next player there is let in and fails |
| HeroLedger.Hero.constructor | src/Server.cpp:2005-2045 | the running remainder ends as `Created` says |
| HeroLedger.CreatedBalanced | src/Server.cpp:2005-2045 | a new hero has spent exactly one point a level above the three bases, with none left |
| HeroLedger.CreatedReaches | src/Server.cpp:2005-2045 | every level up to five times that of the inn, and every distribution of it, can come up |
| HeroLedger.RaiseExact | src/packets/phero.cpp:428-466 | a level is bought exactly with experience of 100 times the square of the old one, which it takes; it gives one point |
| HeroLedger.SpendExact | src/packets/phero.cpp:378-427 | points are spent exactly when no stat falls and there are enough |
| HeroLedger.ResetExact | src/packets/phero.cpp:333-377 | all points above the bases come back |
| HeroLedger.StepBalanced | src/packets/phero.cpp:333-466 | every command keeps points balanced, every stat at or above its base, and the price of the next level 100*level*level |
| HeroLedger.RunBalanced | src/packets/phero.cpp:333-466 | over every run, of rewards of any sign, points are conserved, and experience earned = experience held + 100*k*k for every level bought |
| HeroLedger.ExperienceHeld | src/packets/phero.cpp:428-466 | no level is bought on credit: while rewards are not negative, neither is what the hero holds |
| HeroLedger.ResetThenSpend | src/packets/phero.cpp:333-427 | after a reset exactly the distributions at or above the bases that use no more than the points there are can be had |
| HeroLedger.HeroCity.PromoteToChief | src/packets/phero.cpp:269-304 | the named hero becomes mayor and the old one idle; afterwards the mayor is the only hero with the status |
| HeroLedger.HeroCity.DischargeChief | src/packets/phero.cpp:305-332 | the mayor becomes idle and there is none |
| HeroLedger.HeroCity.FireHero | src/packets/phero.cpp:228-267 | only an idle hero leaves, so never the mayor |
| HeroLedger.HeroCity.HireHero | src/packets/phero.cpp:165-225 | the hero of that name moves from the inn to the first free slot for a thousand pieces of gold a level; nobody is hired exactly when the feasting hall is full, no slot is free, the inn has nobody of that name, or the gold does not do |
| HeroLedger.HeroCity.ResetPoint | src/packets/phero.cpp:333-377 | only the named hero changes, as `Reset`, and only if his status allows it |
| HeroLedger.HeroCity.AddPoint | src/packets/phero.cpp:378-427 | only the named hero changes, as `Spend` |
| HeroLedger.HeroCity.LevelUp | src/packets/phero.cpp:428-467 | only the named hero changes, as `Raise` |
| HeroLedger.HeroCity.Reward | src/Server.cpp:1283-1288 | the mayor gains experience |

## Left out

Parts of the repository:

- Sockets, threads, locks, policy files: each command and each timer pass is one step.
- Database, Lua configuration, logging: foreign libraries; prices and durations are parameters.
- Building reply objects (`ToObject`), chat, mail, reports, quests, friends: message assembly.
- Alliances, army travel, combat, market, gambling, NPC growth: stubs, or no property of theirs is intact.
- `GetTileRangeObject`: what it is meant to address at the map's edge is unclear.
- Prestige, and prerequisites of buildings and technologies: the latter are a parameter `allowed`.

What the model does not say about the parts it covers:

- Machine overflow of counters, doubles' rounding and the `pow` in durations: integers are unbounded, doubles real, durations given.
- The codec's end of input: the source does not test for it; here it is a failure like every exception, and the writer requires room for its output and the zero byte that strcpy appends.
- XML, byte arrays, externalizable classes: not read or written by the source; externalizable definitions are refused.
- Object references: the parser's table of objects is never filled, so every reference fails, as in the source.
- Strings, sizes and building slots are sequences in fields, not C++ vectors and arrays: reallocation and aliasing are not modelled. The inner and outer buildings form one sequence of 76.
- Assignments through a list's end, where the next batch of an empty queue is started, do nothing here; the loop in `SetBuilding` that erases from a vector while it walks it removes the queue.
- Positions for which `GetBuilding` or `GetBarracksQueue` gives a null pointer, and technology numbers 0 and 25: the command is refused.
- `speedUpBuildCommand` and `speedUpResearch`: items and cents; the reduction is a parameter.
- Research slots belong to a client; the model gives each client one city.
- `playerrate` of `m_stats`, a quotient in floating point after the scan.
- `SetForts`: the same chain of cases as `SetTroops`, with none missing.
- Free slots of the inn: searching them by name, which the source does through a null pointer, finds nobody there.
- Where the database refuses an account or a city: a parameter `stored` of `Map.NewPlayer`.
- Reading the tile with number -1, as `createNewPlayer` does when no tile was drawn: the player gets none.
- Tax as a fraction: the handler accepts whole numbers from 0 to 100 only.

Members that state less than one might expect:

- Amf3Codec.RoundTripExact: for trees in `Covered` only; with empty names of dynamic members the answer depends on what the bytes behind them happen to read as (`Amf3Nested.NestedReturns`). Table sizes are limited (`Bounded`) to what 29-bit references can name.
- Amf3Anywhere.EverywhereExact: the same two limits.
- Amf3Damage.BadString: where the string is read as the empty one nothing is said of the tables; the value differs then.
- Amf3Codec.EmptyKeyExcluded: for the object that is written, not for one nested in it.
- Levels.RunClaims: for patient runs; in others `Levels.RunLevels` still holds.
- Amf3RoundTrip.ValueBack: needs the same limits on tables; `Amf3Limits.ShortRoundTrip` shows that outputs below 16 MB never meet them.
- Runs.RunInv: requires that no order has a negative number, no item is spent on a slot that was never set while position 0 is busy, and no payment takes more than there is; the first two conditions are shown to be exact for the single step (`Barracks.ProduceQueuesExact`, `Solvency.OrderExact`, `Solvency.TickGainExact`, `Construction.SpeedUpItemExact`).
- QueueRuns.SystemFifo: speaks of a queue while it is not dropped by building a barracks anew.
- SystemTroops.SystemConserves: the same, and for runs as in `Runs.RunInv`.
- WorkRuns.HeadFinishes: the same.
- WorkRuns.BuildingTakesItsTime: for runs as in `Runs.RunInv`; in those for research every cancel is patient.
- Commands.CancelBuildingExact: for events at positions where a building can be set, as all are in reachable states.
- Population.EndsAt: as `Population.Converges`.
- Construction.SpeedUpItemExact: the item's reduction is any number.
- Accrual.AnyPartition: requires rates that are not negative and a clock that does not go back.
- Population.Converges: requires a maximum of at least 20; the source never has less than 50.
- MapIndex.StateOfTile: ids are those of tiles; other ids are taken apart as in the source, with no claim.

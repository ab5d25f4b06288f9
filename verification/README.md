# A verified model of the agent's core

The project models, in Dafny, the parts of the agent whose correctness does not show in any single
function, and proves what they promise over every input, every run and every order of events.

**Commands across crashes** (`Commands`, `CommandMachine`, `CommandTheorems`, `CommandLosses`, `CommandHandler`). Commands
arrive in a persisted queue, are checked, inserted into a persisted store under their id, popped, executed,
reported and recorded. The model is a step machine over queue, store, execution log and report log in which
the agent may crash between any two statements, any database call may fail and any command may be delivered
again. An id is executed at most once over every run. Every delivery is still queued, in progress, or
reported, with two exceptions: a failed read may pop it, and a restart that fails is recorded but not
reported. `CommandLosses` proves that a delivery is lost in a run exactly when one of the two happened to it,
and gives runs in which each does. `CommandHandler` is the handler's code; its methods are proved to take
steps of the machine.

**Event delivery** (`QueueTable`, `QueueBatch`, `QueueStorage`, `QueuePush`, `QueueFraming`, `QueueCapacity`,
`QueueLive`, `QueueDelivery`, `QueueTheorems`, `QueueSender`). A table of rows with reused rowids, batches
bounded by bytes, the push and removal operations, the body of a request, the capacity check that is not
locked, and the loop that sends a batch and removes it once it is acknowledged. Every message ever stored is
live or removed, and batches are the oldest messages in order. Three promises one might expect are false of
the code, and the model says exactly when they fail, with runs that show it: a stopped agent sends a last
request for which no batch was read, with the body of the request before; answered with success it
acknowledges that body, possibly a second time, and removes everything that is stored, also what it did not
carry; and a producer that cannot read the number of stored messages takes it to be zero and fills a full
queue further.

**Configuration merge** (`YamlMerge`, `YamlTrees`, `YamlSequences`, `YamlSteps`, `YamlRounds`, `YamlWorklist`,
`YamlRoots`, `Configuration`, `Loading`, `Settings`). Group files are merged into the configuration in place, with a worklist over
heap nodes. The heap is described by a ghost tree; the in-place merge, whatever pair it takes first, leaves
the base equal to a recursive merge of values, for which lookup, order and repetition laws are proved. When a
group file cannot be used, what was merged before it stays, except when the agent has no local configuration
and the first group file is empty: the handle that the merge works on has then left the configuration, and
nothing stays. The header of the merge says that sequences are concatenated; the code merges them by key, and so does the model.
Of the YAML library the model takes three things for granted: assigning a node shares it, looking up a key in
a list turns the list into a map by position, and looking up a key in a scalar fails.

**Texts** (`Glob`, `Tokenizer`, `SqlText`, `SqlReadBack`, `SqlParse`, `QueueSql`, `Units`, `Numerals`). The glob table
against the meaning of patterns, the tokenizer against a two-pass definition and laws for words, quotes and
backslashes, rendered SQL against a reader of literals (section 5.3 of ISO/IEC 9075:1992) and a parser of whole
statements, the queue's statements against what the table gives, and settings with units against 64-bit arithmetic.

**Replacing things as a whole** (`Groups`, `CentralizedConfig`). The list of groups inside a transaction
whose every call may fail, and the installation of group files.

Answers of the server, stops and crashes, the order in which producers act, and failures of single database
and file system calls are parameters of the methods or steps of the machines. Which failures are not is said
under "Left out". `Options`, `Results` and `Paths` hold what several modules share.

## Model

| member | source | states |
|---|---|---|
| Commands.Admitted | src/agent/command_handler/src/command_handler.cpp:172-207 | An accepted command keeps its id, name and result, runs synchronously, and goes to the restart handler exactly when it is a restart; an unreadable head is never accepted; every delivery starts in progress |
| Commands.DecodesSent | src/agent/src/message_queue_utils.cpp:54-93 | What is read from a command object is the id, the name and the arguments that were put into it under the fields of the manager, whatever other fields it has |
| Commands.DecodesParts | src/agent/src/message_queue_utils.cpp:54-93 | Of any value: each part that is there with the right type, and an empty one where it is missing or has another type |
| Commands.AcceptedIff | src/agent/command_handler/src/command_handler.cpp:20-29 | Accepted are exactly fetch-config, restart, and set-group with a list of groups; which module each goes to |
| Commands.Updates | src/agent/command_handler/src/command_store.cpp:322-361 | An update writes what is given and leaves the rest: nothing given, each field alone, all of them |
| Commands.Records | src/agent/command_handler/src/command_store.cpp:322-361 | Recording a result changes status and message only, an unknown status and an empty message not even these |
| Commands.StoredReadBack | src/agent/command_handler/src/command_store.cpp:148-175 | A stored command is read back from its row |
| Commands.StatusFromInt | src/agent/command_handler/src/command_store.cpp:37-47 | 0, 1, 2 and 3 are success, failure, in progress and timeout, and these only; the inverse of the stored number; anything else is unknown |
| CommandMachine.DeliverKeeps | src/agent/src/message_queue_utils.cpp:34-52 | A delivery at any moment keeps the invariant |
| CommandMachine.CrashKeeps | src/agent/command_handler/src/command_handler.cpp:67-79 | A crash between any two statements keeps the invariant |
| CommandMachine.ReadInProgressKeeps | src/agent/command_handler/src/command_store.cpp:253-320 | Reading what was left in progress, in any order or failing, keeps the invariant |
| CommandMachine.SweepReportKeeps | src/agent/command_handler/src/command_handler.cpp:145-170 | Answering an interrupted command keeps the invariant |
| CommandMachine.SweepUpdateKeeps | src/agent/command_handler/src/command_handler.cpp:145-170 | Closing an interrupted command's row happens only after its answer, so nothing is lost |
| CommandMachine.MisreadKeeps | src/agent/src/message_queue_utils.cpp:54-93 | A failed read of the head keeps the invariant and is recorded as such |
| CommandMachine.TakeKeeps | src/agent/src/message_queue_utils.cpp:54-93 | Reading the head keeps the invariant |
| CommandMachine.RefuseReportKeeps | src/agent/command_handler/src/command_handler.cpp:93-117 | The answer to a refused command precedes its removal from the queue |
| CommandMachine.RefusePopKeeps | src/agent/src/message_queue_utils.cpp:95-98 | Removing a refused head loses nothing that was not answered, misreads apart |
| CommandMachine.StoreKeeps | src/agent/command_handler/src/command_store.cpp:148-175 | The insert succeeds only for a new id; the row of the head is then in progress and was never executed |
| CommandMachine.AcceptPopKeeps | src/agent/command_handler/src/command_handler.cpp:106-119 | The head is popped only when its row is in progress |
| CommandMachine.SpawnKeeps | src/agent/command_handler/src/command_handler.cpp:121-141 | Starting the execution of the stored command keeps the invariant |
| CommandMachine.DispatchKeeps | src/agent/src/command_handler_utils.cpp:71-91 | An execution begins only for a stored id that was never executed |
| CommandMachine.FinishKeeps | src/agent/src/command_handler_utils.cpp:71-112 | The report is made before the execution returns; restarts return without one |
| CommandMachine.RecordKeeps | src/agent/command_handler/src/command_store.cpp:322-361 | The row is closed only after the report |
| CommandMachine.StepKeeps | src/agent/command_handler/src/command_handler.cpp:67-143 | Every step of handler, executions, server and crashes keeps the invariant |
| CommandTheorems.AtMostOnce | src/agent/command_handler/src/command_handler.cpp:81-141 | Over every run with crashes and repeated deliveries no id is executed twice, and each executed id has a row from a valid delivery of that id |
| CommandTheorems.NoDeliveryLost | src/agent/command_handler/src/command_handler.cpp:81-141 | In every state of every run each delivery is queued, in progress or reported under its id; or a failed read popped it, or it is a restart that failed silently |
| CommandLosses.LostIff | src/agent/command_handler/src/command_handler.cpp:81-141 | In every state of every run a delivery is neither queued, in progress nor reported exactly when at some step a failed read popped it while it was neither in progress nor reported, or recording its result closed its row while it was neither queued nor reported |
| CommandLosses.OnlyRestarts | src/agent/src/command_handler_utils.cpp:71-112 | The second of these happens to restarts only |
| CommandLosses.CommandLostIff | src/agent/src/message_queue_utils.cpp:54-98 | A command other than a restart is lost exactly when a failed read popped it while it was neither in progress nor reported |
| CommandLosses.RestartLost | src/agent/src/agent.cpp:190-194 | For every valid restart a run in which no database call fails and the restart is lost |
| CommandTheorems.NoCommandLost | src/agent/command_handler/src/command_handler.cpp:93-126 | Without failed reads every command other than a restart is queued, in progress or reported |
| CommandTheorems.MisreadLosesHead | src/agent/src/message_queue_utils.cpp:54-93 | A failed read removes the head and answers under no id; the head survives exactly when it was already in progress or answered |
| CommandTheorems.LossyRun | src/agent/src/message_queue_utils.cpp:54-98 | For every command there is a run in which its only delivery is lost to a failed read |
| CommandTheorems.NeverResumed | src/agent/command_handler/src/command_handler.cpp:145-170 | What is in the store when the agent starts is never executed from then on |
| CommandTheorems.RowsStay | src/agent/command_handler/src/command_store.cpp:148-175 | Over every run no row is deleted or changes the delivery it comes from |
| CommandTheorems.OneAtATime | src/agent/command_handler/src/command_handler.cpp:20-29 | With the table of commands there is, at most one command is being executed in every reachable state |
| CommandHandler.CleanedRow | src/agent/command_handler/src/command_handler.cpp:145-170 | Exactly the rows whose write succeeds change: a restart is recorded as successful, anything else as stopped, with these messages; all others stay |
| CommandHandler.CleanedLeavesNone | src/agent/command_handler/src/command_handler.cpp:145-170 | When its writes succeed the clean-up leaves no command in progress |
| CommandHandler.DispatchSteps | src/agent/src/command_handler_utils.cpp:71-91 | A synchronous execution is four steps of the machine, with these effects on logs and row |
| CommandHandler.Handler.GetInProgress | src/agent/command_handler/src/command_store.cpp:253-320 | All commands in progress, in the order of the database; nothing when there is none or the read fails |
| CommandHandler.Handler.AnswerInterrupted | src/agent/command_handler/src/command_handler.cpp:145-170 | One report and one update, as steps of the machine |
| CommandHandler.Handler.AnswerAllInterrupted | src/agent/command_handler/src/command_handler.cpp:145-170 | One report per interrupted command, in order, and the rows closed whose update succeeds |
| CommandHandler.Handler.CleanUpInProgressCommands | src/agent/command_handler/src/command_handler.cpp:145-170 | From start-up to the loop: interrupted restarts reported as successes, all others as failures, each with its message |
| CommandHandler.Handler.RefuseCommand | src/agent/command_handler/src/command_handler.cpp:93-117 | The failure reported with its message, then the head is popped |
| CommandHandler.ReportsWhen | src/agent/src/command_handler_utils.cpp:71-112 | The configuration module always answers, the restart handler never, any other module exactly when it is there; with its result |
| CommandHandler.Handler.DispatchAndRecord | src/agent/command_handler/src/command_handler.cpp:121-126 | The execution log, the report and the row after a synchronous execution |
| CommandHandler.Handler.ProcessValid | src/agent/command_handler/src/command_handler.cpp:106-126 | A new id is stored, popped and executed, with this row and this report; a known id is answered with a failure and not executed |
| CommandHandler.Handler.ProcessHead | src/agent/command_handler/src/command_handler.cpp:81-141 | What one turn does to every kind of head, with commands delivered meanwhile, as steps of the machine; for a command object, from its id, name and arguments alone: which is run, its final row and its report, and with which message every other is answered |
| CommandHandler.Handler.CommandsProcessingTask | src/agent/command_handler/src/command_handler.cpp:67-143 | The task takes only steps of the machine and keeps its invariant, whatever is delivered meanwhile; while pops succeed the queue is served in order |
| QueueTable.InsertIncreases | src/agent/multitype_queue/src/storage.cpp:107-124 | A new row gets the id after the last one and these fields; rowids increase in insertion order, also when they are used again after the table shrank |
| QueueTable.SelectsOldest | src/agent/persistence/src/sqlite_manager.cpp:213-272 | An ordered, limited selection is the oldest matching rows, all of them for a limit that is not positive |
| QueueTable.DeletesFirst | src/agent/multitype_queue/src/storage.cpp:196-256 | Deleting the first matching rows one by one leaves exactly the others |
| QueueTable.RemovesSelected | src/agent/multitype_queue/src/storage.cpp:196-256 | A removal takes exactly the selected rows, and rowids stay increasing |
| QueueTable.FirstArePrefix | src/agent/multitype_queue/src/storage.cpp:196-256 | Without a filter what is removed is a prefix of the insertion order |
| QueueTable.ZeroRemovesEverything | src/agent/persistence/src/sqlite_manager.cpp:269-272 | A removal of zero or fewer rows removes all |
| QueueBatch.BatchIsUnique | src/agent/multitype_queue/src/storage.cpp:23-71 | Rows and bound determine the batch |
| QueueBatch.ReportedSizeSuffices | src/agent/multitype_queue/src/multitype_queue.cpp:188-224 | When the reported size, in characters and cut to 32 bits, reaches the batch size, the batch has that many bytes |
| QueueBatch.CharsOfEncoded | src/agent/persistence/src/sqlite_manager.cpp:350-414 | Of a UTF-8 text the database counts the code points before the first that is zero |
| QueueBatch.AsciiIsExact | src/agent/persistence/src/sqlite_manager.cpp:350-414 | For plain text the reported size is the number of bytes, modulo 2^32 |
| QueueStorage.InsertedAppends | src/agent/multitype_queue/src/storage.cpp:143-194 | New rows follow the old ones, as many as inserts succeeded, and rowids stay increasing |
| QueueStorage.AllInserted | src/agent/multitype_queue/src/storage.cpp:143-194 | When no insert fails every message is there, in order, with its fields |
| QueueStorage.InsertedAt | src/agent/multitype_queue/src/storage.cpp:143-194 | Whichever inserts fail, each message whose insert succeeds is there, at its place |
| QueueStorage.PrunedMembers | src/agent/multitype_queue/src/storage.cpp:196-256 | Whichever deletes fail, exactly the selected rows whose delete succeeds are gone |
| QueueStorage.PrunedAll | src/agent/multitype_queue/src/storage.cpp:196-256 | When no delete fails exactly the selected rows are gone |
| QueueStorage.ProcessRequest | src/agent/multitype_queue/src/storage.cpp:23-71 | The shortest prefix whose content, the concatenated fields, reaches the bound in bytes, or everything |
| QueueStorage.Storage.Store | src/agent/multitype_queue/src/storage.cpp:143-194 | The messages appended to one table, or an error with the transaction left open or not begun |
| QueueStorage.Storage.RemoveMultiple | src/agent/multitype_queue/src/storage.cpp:196-256 | The oldest matching rows removed, whichever deletes fail; exactly those when none does; or an error |
| QueueStorage.Storage.RetrieveMultiple | src/agent/multitype_queue/src/storage.cpp:258-294 | The oldest matching messages, in order |
| QueueStorage.Storage.RetrieveBySize | src/agent/multitype_queue/src/storage.cpp:296-332 | The shortest batch of the oldest matching messages whose content reaches the size |
| QueuePush.PushedGrows | src/agent/multitype_queue/src/multitype_queue.cpp:72-98 | A push appends as many rows as inserts succeed, at most as many as its elements weigh |
| QueuePush.PushedMessages | src/agent/multitype_queue/src/multitype_queue.cpp:72-98 | When nothing fails the messages are the old ones and then one per element, arrays flattened, in order |
| QueuePush.MultiTypeQueue.StoreElements | src/agent/multitype_queue/src/multitype_queue.cpp:78-96 | The elements are stored in order up to the first whose transaction fails; what is seen and what is committed |
| QueuePush.MultiTypeQueue.Push | src/agent/multitype_queue/src/multitype_queue.cpp:53-105 | Stored up to a failure when the number read leaves room, nothing otherwise; the messages one by one when nothing fails; a queue within its capacity stays within it when the number was read and no element is an array |
| QueueCapacity.StepKeeps | src/agent/multitype_queue/src/multitype_queue.cpp:72-98 | Every check, misread or not, store and removal, in any interleaving, keeps the bound |
| QueueCapacity.CapacityBound | src/agent/multitype_queue/src/multitype_queue.cpp:72-98 | With k producers rows stored and admitted never exceed the capacity plus (k-1) pushes plus what arrays add plus what was admitted on misread counts |
| QueueCapacity.OneProducer | src/agent/multitype_queue/src/multitype_queue.cpp:116-148 | A single producer of plain elements exceeds the capacity at most by what it pushed on misread counts |
| QueueCapacity.CapacityKeptIff | src/agent/multitype_queue/src/multitype_queue.cpp:72-98 | For any number of producers the capacity is kept up to a point of a run exactly when no push was admitted that did not fit |
| QueueCapacity.OverfillCauses | src/agent/multitype_queue/src/multitype_queue.cpp:72-98 | A push that does not fit is admitted only on a misread count, with an array among its elements, or while another producer is still storing |
| QueueCapacity.MisreadsOverfill | src/agent/multitype_queue/src/storage.cpp:346-357 | With counts that cannot be read any number of producers, one included, fill a full queue further |
| QueueCapacity.BoundIsReached | src/agent/multitype_queue/src/multitype_queue.cpp:72-98 | For every number of producers some run reaches the bound |
| QueueCapacity.NestedArrayOverfills | src/agent/multitype_queue/src/storage.cpp:143-194 | One producer overfills the queue with one element that is an array, by any amount |
| QueueFraming.SplitJoin | src/agent/src/message_queue_utils.cpp:6-27 | Splitting a body at newlines gives back its lines |
| QueueFraming.RenderBody | src/agent/src/message_queue_utils.cpp:6-27 | The body, byte by byte: the header, and per message a newline and its metadata unless empty, and a newline and its data unless it is an empty object; its lines are these parts when no part has a newline |
| QueueDelivery.PushKeeps | src/agent/multitype_queue/src/multitype_queue.cpp:72-98 | A push at any moment keeps the invariant |
| QueueDelivery.ReadKeeps | src/agent/multitype_queue/src/storage.cpp:296-332 | A batch read is the oldest live messages |
| QueueDelivery.SucceedKeeps | src/agent/communicator/src/communicator.cpp:397-407 | A success acknowledges the body that was sent, whether a new batch or that of an earlier request |
| QueueDelivery.PopKeeps | src/agent/multitype_queue/src/multitype_queue.cpp:264-280 | A removal, whichever of its calls fail, keeps the invariant |
| QueueDelivery.StepKeeps | src/agent/communicator/src/communicator.cpp:365-421 | Every step of producers, sender, stop and crash, and every failed read or delete, keeps the invariant |
| QueueDelivery.PopSelects | src/agent/multitype_queue/src/storage.cpp:196-256 | The rows a removal selects: as many of the oldest as were read, or all of them for a count of zero |
| QueueLive.KeptPlace | src/agent/multitype_queue/src/storage.cpp:222-240 | A message stays live exactly when its delete failed |
| QueueLive.PrunedIsKept | src/agent/multitype_queue/src/storage.cpp:222-240 | Deleting the first rows by rowid keeps exactly those whose delete failed |
| QueueTheorems.Conservation | src/agent/communicator/src/communicator.cpp:365-421 | Over every run each stored message is live or removed and live messages keep their order; while no removal failed the live ones are the end of the history; acknowledged bodies are stored messages in order |
| QueueTheorems.ZeroMeansStopped | src/agent/communicator/src/communicator.cpp:377-389 | Only a stopped agent sends or removes without a batch |
| QueueTheorems.RemovesAcknowledged | src/agent/src/agent.cpp:147-169 | The removal selects exactly the messages of the acknowledged body although others were stored meanwhile; without a batch it selects everything |
| QueueTheorems.LostIff | src/agent/communicator/src/communicator.cpp:373-407 | A message is removed and never acknowledged exactly when a removal without a batch took it unacknowledged |
| QueueTheorems.SmoothLossIff | src/agent/communicator/src/communicator.cpp:373-407 | Without crashes and failed removals, something is lost exactly when the last removal of a stopped agent finds a live message its request did not carry |
| QueueTheorems.LossyRun | src/agent/communicator/src/communicator.cpp:373-407 | For every message a run without crash or failure that loses it |
| QueueTheorems.TwiceIff | src/agent/communicator/src/communicator.cpp:397-407 | A message is in two acknowledged requests exactly when a request that carried an acknowledged message was answered with success |
| QueueTheorems.DeliveredTwiceIff | src/agent/communicator/src/communicator.cpp:373-407 | Without crashes and failed removals that happens exactly when the last request of a stopped agent repeats an answered body and is answered too |
| QueueTheorems.TwiceRun | src/agent/communicator/src/communicator.cpp:373-407 | For every message a run without crash or failure that acknowledges it twice |
| QueueTheorems.LastRemovalLoses | src/agent/communicator/src/communicator.cpp:373-407 | Without crashes and failed removals the last removal loses exactly the live messages its request did not carry |
| QueueSender.Sender.GetMessages | src/agent/communicator/src/communicator.cpp:373-389 | A batch of the oldest messages, whichever reads fail; or a count of zero after a stop, with the body of an earlier request |
| QueueSender.Sender.OnSuccess | src/agent/src/agent.cpp:147-169 | The body is acknowledged and the selected rows whose delete succeeds are removed, as steps of the machine |
| QueueSender.Sender.ExecuteRequest | src/agent/communicator/src/communicator.cpp:365-421 | What one turn acknowledges and removes, with and without token, for every status, whichever calls fail and whatever arrives meanwhile |
| QueueSender.Sender.ExecuteRequestLoop | src/agent/communicator/src/communicator.cpp:355-422 | The loop takes only steps of the delivery machine until it is stopped, and acknowledges once per successful turn whose body is not empty |
| YamlMerge.LookupLaw | src/agent/configuration_parser/src/yaml_utils.cpp:20-113 | What the merge holds at any path, as an equation on what the two files hold along it: combined where both have it, the addition's where only it has it, the base's where the addition is silent, and nothing where a map of the addition took the place of what was in the base's way |
| YamlMerge.CombineCases | src/agent/configuration_parser/src/yaml_utils.cpp:20-113 | Two maps and two sequences are merged; anything else is overwritten |
| YamlMerge.MergedKeys | src/agent/configuration_parser/src/yaml_utils.cpp:20-113 | The keys of a merged map: those of the base in their order, then the new ones in theirs |
| YamlMerge.FileLookup | src/agent/configuration_parser/src/configuration_parser.cpp:108-130 | What one more file does to what is held along a path, whatever the two roots are |
| YamlMerge.SilentIff | src/agent/configuration_parser/src/configuration_parser.cpp:108-130 | A file has nothing on a path exactly when it leaves alone what any configuration holds there |
| YamlMerge.ByPosition | src/agent/configuration_parser/include/configuration_parser.hpp:186-217 | A reader follows a list by position |
| YamlMerge.ByKey | src/agent/configuration_parser/include/configuration_parser.hpp:186-217 | A reader follows a map by key |
| YamlMerge.WellFormedIff | src/agent/configuration_parser/src/yaml_utils.cpp:20-113 | What the merge laws ask of a file: no map on a path of maps has a key twice |
| YamlMerge.UntouchedPathKeeps | src/agent/configuration_parser/src/configuration_parser.cpp:108-130 | A path on which all later files are silent keeps its value |
| YamlMerge.LastScalarWins | src/agent/configuration_parser/src/configuration_parser.cpp:108-130 | The last file with a scalar at a path decides it |
| YamlMerge.MergedPositions | src/agent/configuration_parser/src/yaml_utils.cpp:33-101 | Every base position of a sequence stays: an element gives way to the first additional one with the same text or first key, and to nothing else; what has neither stays |
| YamlMerge.MergedTail | src/agent/configuration_parser/src/yaml_utils.cpp:91-98 | After the base positions come exactly the additional elements whose text or first key no base element has, in order |
| YamlMerge.TwoElements | src/agent/configuration_parser/src/yaml_utils.cpp:33-101 | Two maps or scalars: the second takes the place of the first when text or first key agree, whatever else they hold; both stay otherwise |
| YamlMerge.Unidentified | src/agent/configuration_parser/src/yaml_utils.cpp:38-50 | Null, lists and empty maps stay in the base and are dropped from the addition |
| YamlMerge.MergeTwice | src/agent/configuration_parser/src/yaml_utils.cpp:8-115 | Merging a consistent file again changes nothing |
| YamlMerge.MergeTwiceIffConsistent | src/agent/configuration_parser/src/yaml_utils.cpp:33-101 | Merging twice equals merging once on every base exactly when same keys mean same elements in each sequence |
| YamlSequences.Collect | src/agent/configuration_parser/src/yaml_utils.cpp:38-50 | The keyed elements of the additional sequence, in order |
| YamlSequences.FindElem | src/agent/configuration_parser/src/yaml_utils.cpp:76-79 | The first collected element with a key, or none |
| YamlSequences.ReplaceKeyed | src/agent/configuration_parser/src/yaml_utils.cpp:52-89 | Every base element or its replacement, and which keys were merged |
| YamlSequences.AppendNewcomers | src/agent/configuration_parser/src/yaml_utils.cpp:91-98 | The collected elements whose keys were not merged |
| YamlSequences.MergeSequences | src/agent/configuration_parser/src/yaml_utils.cpp:33-101 | A new node whose value is the keyed merge; the two sequences are left alone and their elements shared |
| YamlSteps.StepPutOff | src/agent/configuration_parser/src/yaml_utils.cpp:25-32 | Putting off a pair of maps keeps what the tree stands for |
| YamlSteps.StepPlace | src/agent/configuration_parser/src/yaml_utils.cpp:102-112 | Overwriting or adding an entry keeps nodes apart and what the tree stands for |
| YamlRounds.Finished | src/agent/configuration_parser/src/yaml_utils.cpp:19-113 | When all entries are seen the base map is merged but for the pairs put off |
| YamlRounds.Round | src/agent/configuration_parser/src/yaml_utils.cpp:14-114 | One round of the worklist leaves what the whole tree stands for unchanged |
| YamlWorklist.WriteSlot | src/agent/configuration_parser/src/yaml_utils.cpp:102-112 | One entry of the base map is written and the additional node shared |
| YamlWorklist.MergeSlot | src/agent/configuration_parser/src/yaml_utils.cpp:20-113 | One entry of the additional map: put off, merged as a sequence, overwritten or added |
| YamlWorklist.MergeInto | src/agent/configuration_parser/src/yaml_utils.cpp:14-114 | One pair of maps: only the base node is written, the pairs it gives are those of nested maps |
| YamlWorklist.MergeYamlNodes | src/agent/configuration_parser/src/yaml_utils.cpp:8-115 | The in-place merge ends, and leaves the base equal to the recursive merge whichever pair is taken first; only nodes on paths of maps of the base are written |
| Configuration.ConfigurationParser.MergeOne | src/agent/configuration_parser/src/configuration_parser.cpp:108-130 | One group file merged into the configuration whatever its root, or taken over by an empty one; the handle moves on exactly when an empty file is taken over |
| Configuration.ConfigurationParser.MergeEntriesOf | src/agent/configuration_parser/src/configuration_parser.cpp:119-127 | Entries merged into a map, or into a list that becomes a map by position |
| Configuration.ConfigurationParser.TakeOver | src/agent/configuration_parser/src/configuration_parser.cpp:120-123 | An empty configuration becomes the file, whatever its root, and which node then holds it |
| Configuration.ConfigurationParser.LoadSharedConfig | src/agent/configuration_parser/src/configuration_parser.cpp:97-136 | The fold of the files before the first that fails; after a failure that is what stays, or nothing when an empty configuration started from an empty file |
| Configuration.KeepsMergedIff | src/agent/configuration_parser/src/configuration_parser.cpp:106-135 | What was merged before a failure stays exactly when no file fails, or the configuration or the first file was not empty, or all files merged were empty |
| Configuration.EmptyFirstForgets | src/agent/configuration_parser/src/configuration_parser.cpp:106-135 | For every file: after an empty file and before an unreadable one it is forgotten, without the empty file it stays |
| Configuration.ConfigurationParser.ReloadConfiguration | src/agent/configuration_parser/src/configuration_parser.cpp:144-158 | The result depends on the local file and the group files only |
| Configuration.ConfigurationParser.GetConfig | src/agent/configuration_parser/include/configuration_parser.hpp:186-217 | The node at a key path exactly when the path leads through maps by key and lists by position |
| Loading.Build | src/agent/configuration_parser/src/configuration_parser.cpp:44-63 | A parsed value becomes new nodes that share nothing and stand for the value |
| Loading.ParseFiles | src/agent/configuration_parser/src/configuration_parser.cpp:108-130 | The parsed group files share no node |
| Loading.LoadAll | src/agent/configuration_parser/src/configuration_parser.cpp:97-158 | From parsed files to the configuration, on values alone: the fold of the files before the first unusable one, as far as it stays |
| Settings.GetParsedConfigInRangeOrDefault | src/agent/configuration_parser/include/configuration_parser.hpp:229-258 | A value in range or the parsed default, and which of the two |
| Settings.GetConfigInRangeOrDefault | src/agent/configuration_parser/include/configuration_parser.hpp:82-104 | A value within the bounds given or the default, and which of the two |
| Settings.LastFileDecides | src/agent/configuration_parser/src/configuration_parser.cpp:108-130 | The setting read after loading is that of the last group file before the first unusable one that has it as a scalar, whatever the local file says; unset when what was merged was forgotten |
| Settings.UntouchedSetting | src/agent/configuration_parser/src/configuration_parser.cpp:97-136 | A setting of the local file on which the group files before the first unusable one are silent is read unchanged after loading, whether or not a file fails |
| Glob.Compose | src/common/globHelper/src/globHelper.cpp:21-46 | An entry matches two patterns in a row exactly when it can be cut into a match of each |
| Glob.CellRule | src/common/globHelper/src/globHelper.cpp:30-46 | Whether two prefixes match, from shorter prefixes |
| Glob.FirstRow | src/common/globHelper/src/globHelper.cpp:18-28 | The first row holds which prefixes of the pattern match nothing |
| Glob.NextRow | src/common/globHelper/src/globHelper.cpp:30-46 | Each further row holds which prefixes match, and rows before it are untouched |
| Glob.PatternMatch | src/common/globHelper/src/globHelper.cpp:8-49 | True exactly when the entry splits into pieces for each character of the pattern |
| Glob.DoubleStar | src/common/globHelper/src/globHelper.cpp:35-40 | A doubled star matches what one star matches, anywhere in a pattern |
| Glob.Literal | src/common/globHelper/src/globHelper.cpp:41-45 | A pattern without wildcards matches itself only |
| Tokenizer.TokenizeCommand | src/common/cmdHelper/src/cmdHelper.cpp:34-105 | The one-pass scan ends and equals the two-pass definition; no argument is empty; nothing but gaps is an error |
| Tokenizer.RoundTrip | src/common/cmdHelper/src/cmdHelper.cpp:34-105 | Quoting and joining a list and scanning it gives its non-empty arguments; the list itself exactly when it has one and none is empty |
| Tokenizer.RefusedIff | src/common/cmdHelper/src/cmdHelper.cpp:94-104 | A line is refused exactly when it has only quotes and spaces, with an even number of quotes before each space |
| Tokenizer.UnquotedWords | src/common/cmdHelper/src/cmdHelper.cpp:34-105 | Words without quotes and backslashes are split at the spaces |
| Tokenizer.QuotedPart | src/common/cmdHelper/src/cmdHelper.cpp:34-105 | Quotes inside a word keep what they enclose and disappear |
| Tokenizer.BackslashOutside | src/common/cmdHelper/src/cmdHelper.cpp:34-105 | Outside quotes a backslash disappears before a quote or backslash and stays before anything else |
| Tokenizer.BackslashLast | src/common/cmdHelper/src/cmdHelper.cpp:34-105 | A backslash at the end stays |
| Tokenizer.BackslashInside | src/common/cmdHelper/src/cmdHelper.cpp:34-105 | Inside quotes a backslash disappears before any character |
| SqlText.ReadBackIff | src/agent/persistence/src/sqlite_manager.cpp:26-29 | A written statement is read back exactly when no quote stands outside literals and no two literals touch |
| SqlText.AssignmentList | src/agent/persistence/src/sqlite_manager.cpp:238-255 | The conditions, each with its TEXT value as one literal |
| SqlText.WhereClause | src/agent/persistence/src/sqlite_manager.cpp:142-159 | The conditions joined by the operator, or nothing |
| SqlText.Insert | src/agent/persistence/src/sqlite_manager.cpp:91-114 | The text of the INSERT statement |
| SqlText.Update | src/agent/persistence/src/sqlite_manager.cpp:116-164 | The text of the UPDATE statement; none without fields |
| SqlText.Remove | src/agent/persistence/src/sqlite_manager.cpp:166-190 | The text of the DELETE statement |
| SqlText.Select | src/agent/persistence/src/sqlite_manager.cpp:213-274 | The text of the SELECT statement; a limit only when positive |
| SqlReadBack.InsertReadBack | src/agent/persistence/src/sqlite_manager.cpp:91-114 | Read back whatever characters the TEXT values hold, exactly when names and numbers are free of quotes; the literals are the TEXT values |
| SqlReadBack.UpdateReadBack | src/agent/persistence/src/sqlite_manager.cpp:116-164 | The same for fields and criteria of an UPDATE |
| SqlReadBack.RemoveReadBack | src/agent/persistence/src/sqlite_manager.cpp:166-190 | The same for the criteria of a DELETE |
| SqlReadBack.SelectReadBack | src/agent/persistence/src/sqlite_manager.cpp:213-274 | The same for the criteria of a SELECT, with its order and limit |
| SqlParse.SelectAsks | src/agent/persistence/src/sqlite_manager.cpp:213-274 | Parsed, the text asks for its fields, its table, its conditions under its operator, its order with the direction, and a limit exactly when positive, whatever the TEXT values hold |
| SqlParse.RemoveAsks | src/agent/persistence/src/sqlite_manager.cpp:166-190 | Parsed, a DELETE removes from its table what its conditions say |
| SqlParse.UpdateAsks | src/agent/persistence/src/sqlite_manager.cpp:116-164 | Parsed, an UPDATE sets its fields where its conditions hold |
| SqlParse.InsertAsks | src/agent/persistence/src/sqlite_manager.cpp:91-114 | Parsed, an INSERT puts each value under its own name |
| QueueSql.QueueSelects | src/agent/multitype_queue/src/storage.cpp:258-332 | The SELECT of the queue, read from its text, is answered by the selection of the table: the oldest rows with that module name and type, at most that many |
| QueueSql.OneAnswer | src/agent/multitype_queue/src/storage.cpp:258-332 | No other rows answer it |
| QueueSql.QueueDeletes | src/agent/multitype_queue/src/storage.cpp:222-240 | The DELETE of a row, read from its text, removes that row and no other |
| Units.TimeAcceptedIff | src/agent/configuration_parser/src/configuration_parser_utils.cpp:18-60 | Accepted exactly as a numeral below 2^64 with a suffix; out of range exactly as a larger one |
| Units.SizeAcceptedIff | src/agent/configuration_parser/src/configuration_parser_utils.cpp:62-113 | The same for sizes |
| Numerals.NumberMore | src/agent/configuration_parser/src/configuration_parser_utils.cpp:18-60 | One more digit makes a numeral ten times its value and the digit |
| Units.TimeRoundTrip | src/agent/configuration_parser/src/configuration_parser_utils.cpp:18-60 | A rendered time parses to the product exactly when it is below 2^63 |
| Units.SizeRoundTrip | src/agent/configuration_parser/src/configuration_parser_utils.cpp:62-113 | A rendered size parses to the product exactly when it is below 2^64 |
| Groups.AgentInfoPersistence.SetGroups | src/agent/agent_info/src/agent_info_persistence.cpp:229-272 | It succeeds exactly when no transaction is open and no call fails; then the list is committed; the whole new state for every list and every set of failing calls |
| Groups.AgentInfoPersistence.GetGroups | src/agent/agent_info/src/agent_info_persistence.cpp:189-212 | The names in id order, or none when the read fails |
| Groups.Atomic | src/agent/agent_info/src/agent_info_persistence.cpp:229-272 | When no call fails: exactly the list, with the next ids in order, committed. Otherwise nothing committed, and everything as before exactly when the transaction never began or no rollback failed |
| Groups.SeenUnchangedIff | src/agent/agent_info/src/agent_info_persistence.cpp:252-269 | After a failure, exactly when the connection sees the old table |
| Groups.CommittedIsLastSaved | src/agent/agent_info/src/agent_info_persistence.cpp:229-272 | After any sequence of replacements and failures the list saved last is committed |
| Groups.StuckIff | src/agent/persistence/src/sqlite_manager.cpp:416-433 | A transaction stays open exactly when some rollback failed |
| Groups.StuckForever | src/agent/persistence/src/sqlite_manager.cpp:416-433 | With a transaction left open no later replacement succeeds or changes anything |
| Groups.AgentInfo.SetAndSave | src/agent/src/agent.cpp:56-62 | Memory takes the new list first; it agrees with the store exactly when saving succeeds or the list was stored already |
| CentralizedConfig.InstalledAt | src/agent/centralized_configuration/src/centralized_configuration.cpp:114-173 | What the shared directory holds after some groups, name by name |
| CentralizedConfig.InstalledAll | src/agent/centralized_configuration/src/centralized_configuration.cpp:114-173 | When every file arrives: one file per group, its last download, beside what was there |
| CentralizedConfig.CentralizedConfiguration.CleanShared | src/agent/centralized_configuration/src/centralized_configuration.cpp:83-101 | Entries deleted in any order up to the first that cannot be; empty exactly when none is stuck |
| CentralizedConfig.CentralizedConfiguration.InstallGroup | src/agent/centralized_configuration/src/centralized_configuration.cpp:114-173 | A file reaches the directory exactly when it is downloaded, there, valid and movable; otherwise the directory is untouched |
| CentralizedConfig.CentralizedConfiguration.InstallGroups | src/agent/centralized_configuration/src/centralized_configuration.cpp:114-173 | The files of the groups before the first that fails |
| CentralizedConfig.CentralizedConfiguration.PrepareGroups | src/agent/centralized_configuration/src/centralized_configuration.cpp:64-102 | When set-group may start; the groups in memory, the stored ones and the directory after every outcome |
| CentralizedConfig.CentralizedConfiguration.ExecuteCommand | src/agent/centralized_configuration/src/centralized_configuration.cpp:56-186 | Success exactly when every file arrives and, for set-group, the groups are saved and the directory could be emptied; then one file per group, the last downloaded; valid files in every intermediate state; a reload exactly on success; groups in memory and stored, shared and temporary files after every outcome; fetch-config works on the groups in memory |
| CentralizedConfig.LeftBehind | src/agent/centralized_configuration/src/centralized_configuration.cpp:122-173 | At most the temporary file of the group that failed is left, and exactly when that stays |
| CentralizedConfig.ExactlyTheRequested | src/agent/centralized_configuration/src/centralized_configuration.cpp:64-178 | After a successful set-group: one valid file per requested group, its last download, and no other file |

## Left out

- HTTP, sockets, TLS, tokens and their timers: the sender sees a token or none, and the status of an answer.
- Waiting times of the queue and of commands: whether a wait ended is a free choice; the ten-minute limit of a command is one of the results it may have.
- Parsing and printing of JSON and YAML: values are datatypes, and printing is taken to be undone by parsing.
- CommandTheorems.NoDeliveryLost: a report is a call to report; the report queue may be full and drop it.
- CommandHandler.Handler.DispatchAndRecord: the asynchronous branch is in the machine only, as no command of the table takes it.
- Restart handlers: their result is either of the two they can give.
- YamlWorklist.MergeYamlNodes: maps are the roots, keys are scalars without repetition, and no node on a path of maps, whether map, list or scalar, is shared within the base, within a file or between them; with an alias there an assignment would be seen under both keys.
- Configuration.ConfigurationParser.LoadSharedConfig: group files and the local file have no aliases on paths of maps, for the same reason.
- QueueStorage.Storage.Store: what other connections see while a transaction is open is not modelled.
- QueueDelivery.StepKeeps: begin and commit of the transactions do not fail; QueueStorage and QueuePush say what happens when they do.
- QueueDelivery.PopKeeps: selects and deletes may fail; begin and commit of the removal do not, as above.
- QueueSender.Sender.OnSuccess: begin and commit of the removal do not fail, as above.
- QueueBatch.ReportedSizeSuffices: for reads without a module filter, as the sender makes them.
- Rowids and sizes beyond 64 bits: the table never reaches them.
- QueueFraming.RenderBody: message parts are opaque bytes; that printed JSON has no newline is a condition, not a result.
- SqlReadBack.InsertReadBack: the statement is read as the text that was rendered; handed to the engine as a C string it would end at a NUL in a value. The same holds for UPDATE, DELETE and SELECT.
- SqlParse.SelectAsks: names, tables and numbers have no space, quote, comma, parenthesis or equals sign, as those of the agent have none; TEXT values are any text. What the engine does with a statement is derived for the queue's SELECT and DELETE only.
- Groups.AgentInfoPersistence.SetGroups: an engine that rolls back on its own after an error is not modelled.
- CentralizedConfig.CentralizedConfiguration.ExecuteCommand: group names are file names without directories, and nobody else writes to the two directories.
- dbsync, sysInfo, module and task managers, enrollment, logging, services and packaging tools: not part of this model.

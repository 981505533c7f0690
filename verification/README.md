# A verified model of the COLO management daemon

The repository holds a daemon, `colod`, that manages pairs of virtual machines for coarse-grained
lock-stepping (COLO). Two daemons on two machines drive each other through a small RPC library; each
keeps its domains in memory and in a YAML save file, and both are controlled by a command-line tool.
This project models four parts of it in Dafny and proves properties of them.

**The two-daemon protocol.** `Types.dfy` and `Protocol.dfy` give every command and every peer handler
as a function on the state of a daemon (its picture of the pair, its domains, its save file, its live
processes and its RPC socket), and a run as a sequence of commands at either daemon in which each
remote call arrives, loses its request, or loses its reply. `SaveFile.dfy` is the list in the save file
with its in-place loops, `Daemon.dfy` the daemon as an object whose handlers change fields step by step;
each handler is proved equal to its function, and `Fleet.dfy` carries whole programs out on two such
objects. `Slots.dfy` states what each command does to one domain, `Outcomes.dfy` exactly when each command
returns 0 and what it then leaves behind, and `RoleSafety.dfy`, `Runs.dfy`, `Wiring.dfy` and `Start.dfy` hold
the results about all runs.

**The RPC library.** `Codec.dfy` is the wire format on values in both byte orders, `Serializer.dfy` the
buffer object with its cursor, `Rpc.dfy` the request, dispatch and reply on values, `RpcEndpoints.dfy`
the server and client objects, and `Records.dfy` the structures that cross the wire.

**The node graph of the YAML library.** `Reachability.dfy` and `Definedness.dfy` are about marking and
containment on values; `Documents.dfy` is a whole document as a value, with who shares what with whom,
and what each operation does to it, `Effects.dfy` the same node by node, `NodeGraph.dfy` the heap of nodes,
references and data with the recursive in-place walk, the public operations, programs of them and the map
iterator; `Discipline.dfy` says which programs lose nothing, and `Edits.dfy` that the daemon's own edits of the
save file are such. `Sheets.dfy` proves what these edits do to the entries a document shows, and `Rewrites.dfy`
that this is what the operations of `SaveFile.dfy` do to the list of records.

**The command line.** `Tokenizer.dfy` splits one string, `CommandLine.dfy` reads an argument vector
against a table of options and rewrites it to a normal form, `OptionValues.dfy` says which value every
spelling leaves in which option, `CommandParser.dfy` has the parser object.

## What the proofs show about the code

Where a promise does not hold in general, the model keeps the code as it is and proves exactly when it
does hold:

- A string written in big-endian order is followed by the next field in the right place if and only if
  its length modulo 65536 reads the same in both byte orders: the length is reversed in place before it
  is used as the number of characters to copy (`include/Serializer.hpp:182-191`).
- Enabling a domain is harmless with every peer, and with every reply that may still be on its way, if and
  only if `EnableGuard` holds, which the daemon can evaluate on itself. A name that is not
  defined is announced to the peer under the empty name, and after a time-out a late success is taken
  for the answer to the next call; either can end with both machines in the same role. A run of four
  commands with nothing lost shows the first, a run of five with one lost reply the second
  (`src/utils/colod_service.cpp:499-558`, `811-837`).
- A colo start that returns 0 has engaged both machines, with every peer, every delivery and every reply
  that may still be on its way, if and only if `StartGuard` holds: a start of a domain that is not enabled
  does nothing and returns 0, and a late success is taken for the answer of the peer, which is then never
  asked. A run of six commands with one lost reply shows it (`src/utils/colod_service.cpp:309-337`). A
  connection test that gets a reply makes both guards hold again for an enabled domain
  (`src/utils/colod_service.cpp:744-768`).
- After a time-out a call returns the reply to the last request that was sent, not its own, and the next
  connect opens a new socket but keeps the error code, so nothing is sent on it
  (`include/buttonrpc.hpp:234-241`, `338-363`).
- A container records itself in an undefined child unless the child already knows a container of the same
  rank. Appending loses it exactly then, if neither of the two is defined; inserting a pair loses it exactly
  when neither key, value nor container is defined and one of the two ends does not record it
  (`include/yaml-cpp/node/detail/node.h:22-24`, `56-61`, `114-123`). A key made from a literal records no container, so it may be defined in a
  container that is not (`include/yaml-cpp/node/detail/impl.h:168-171`).
- Rewriting separate values and clustered letters to `--n=v` and `--flag` keeps the meaning of every
  argument list read without complaint if and only if no option that a letter can set has `=` in its
  name (`include/commandline.h:447-515`).
- A start given on the secondary machine never starts the migration: the primary puts its commands
  together and does not send them (`src/utils/colod_service.cpp:927-941`).
- The addresses on a machine's command line go by the role of the node, those in its monitor commands by
  the role of the domain; they agree exactly when these roles do
  (`src/utils/domain.cpp:253-254`, `304-305`, `353`, `370`).
- A connect with a complete config makes the two pictures mirror images exactly when the config does not say
  "error"; an incomplete one changes the caller's picture before it is refused
  (`src/utils/colod_service.cpp:34-39`, `781-794`).

## Model

| member | source | states |
|---|---|---|
| RoleSafety.RolesNeverClash | src/utils/colod_service.cpp:499-558 | in every run from two fresh daemons whose enabling commands meet the guard, with any requests and replies lost and roles swapped by any reconnect, no domain is ever enabled on both machines as PRIMARY or on both as SECONDARY |
| RoleSafety.EnableGuardIsExact | src/utils/colod_service.cpp:499-558 | the guard, which looks at nothing but what the daemon knows and not at a reply still on its way, holds if and only if enabling keeps the roles compatible with every such reply, every compatible peer and every delivery |
| RoleSafety.EnableKeepsSafe | src/utils/colod_service.cpp:499-558 | an enabling that meets the guard keeps all roles compatible, whether its call is lost, rejected or answered |
| RoleSafety.UnguardedClashes | src/utils/colod_service.cpp:509-518 | when the guard fails there is a peer with compatible roles that ends up in the same role, a late success being on its way if a reply is outstanding |
| RoleSafety.StepKeepsSafe | src/utils/colod_service.cpp:811-837 | no command other than an unguarded enabling can make the roles clash |
| RoleSafety.CarelessRunClashes | src/utils/colod_service.cpp:509-518 | a run of two connects and two enablings of an undefined name, with nothing lost, leaves the name PRIMARY on both machines |
| RoleSafety.LateSuccessClashes | src/utils/colod_service.cpp:518-551 | a run of five commands with one lost reply, on a defined name, leaves it SECONDARY on both machines |
| Runs.MemoryAgreesWithFile | src/utils/colod_service.cpp:113-211 | in every run each record of the save file is known in memory, it says "running" exactly when it has a pid, and then memory has that pid and a running status |
| Runs.StepKeepsAgreement | src/utils/colod_service.cpp:280-496 | every command, at either daemon and with any loss, keeps that agreement on both daemons |
| Runs.FailoverNeedsRebuild | src/utils/colod_service.cpp:651-729 | between two successful failovers of one domain on one machine an enabling of it succeeds there or an offer of the peer arrives |
| Runs.FailoverNeedsRole | src/utils/colod_service.cpp:651-729 | a failover of a domain that is not enabled as PRIMARY or SECONDARY fails and leaves a known domain as it is; a successful one leaves it so |
| Runs.OutOfRoleUntilEnabled | src/utils/colod_service.cpp:651-729 | a domain that is not enabled in a role stays so, over any stretch of a run, until an enabling succeeds or an offer arrives |
| Wiring.PicturesStayMirrored | src/utils/colod_service.cpp:778-809 | in every run whose connects arrive with complete configs that do not say "error", the two pictures are mirror images from the first connect on |
| Wiring.ConnectMirrors | src/utils/colod_service.cpp:32-73 | a connect with a complete config that arrives makes the pictures mirror images if and only if the config does not say "error"; any other leaves the peer alone |
| Wiring.ConfigIsRead | src/utils/config_parser.cpp:7-62 | a config is taken over whole exactly when no entry is missing, and never changes the port |
| Wiring.OnlyConnectMovesPicture | src/utils/colod_service.cpp:280-496 | no command but connecting changes the picture of either daemon |
| Wiring.WiringMeets | src/utils/domain.cpp:252-305 | mirror images derive the same primary address: the packet sockets of both sides meet if and only if the definition pairs their ports, and disk and migration go to the machine that serves the disk |
| Wiring.WiringNeedsMatchingRoles | src/utils/domain.cpp:252-379 | on either machine the addresses of the command line and of the monitor commands point to different machines, as they must, exactly when the node has the role of the domain |
| Outcomes.FailoverIs | src/utils/colod_service.cpp:651-729 | a failover returns 0 if and only if the domain is up and enabled in a role and the monitor takes the commands; the domain is then RUNNING and DEGRADE, a secondary whose monitor refuses is left FAILOVER, and no other domain, nothing in the file and nothing else of the daemon changes |
| Outcomes.DestroySucceeds | src/utils/colod_service.cpp:433-496 | a destroy returns 0 if and only if the recorded process is alive and the domain runs plainly, or runs in colo mode and the call brings an agreement: with nothing outstanding, exactly that of a peer that has it enabled, up and recorded with a live process |
| Outcomes.DestroyedIsGone | src/utils/colod_service.cpp:433-496 | a destroy that returns 0 has ended the recorded process and left no pid and SHUT_OFF in memory and file, in colo mode on the peer too if the request went out; no destroy changes another domain on either machine |
| Outcomes.DestroyNotices | src/utils/colod_service.cpp:433-496 | a destroy asks the peer exactly for a domain in colo mode; hearing nothing ends the connection; what is left on the socket, and nothing else of either daemon changes |
| Outcomes.StartNotices | src/utils/colod_service.cpp:280-430 | a colo start keeps the connection if and only if each of the two calls it makes is heard |
| Outcomes.ConnectIs | src/utils/colod_service.cpp:32-73 | a connect returns 0 if and only if the config is complete, no reply is outstanding, and request and reply arrive; what the caller then believes of the connection, what is left on its socket, and what the peer has taken over |
| Outcomes.ConnectTestIs | src/utils/colod_service.cpp:744-768 | a connection test fails if and only if a connected daemon hears nothing, which ends the connection; showing the status has the same effect whatever code it returns |
| Outcomes.EnableIs | src/utils/colod_service.cpp:499-558 | enabling returns 0 if and only if the daemon is primary or secondary, hears a success and the record is not running; then memory and file have the role of the daemon, else the domain is not enabled and the file is as it was; a peer that is reached has the domain enabled in the other role with a new record; hearing nothing ends the connection |
| Outcomes.DefineIs | src/utils/colod_service.cpp:146-175 | a readable definition gives a shut-off domain without a role, with its path, in memory and file, and nothing else |
| Outcomes.UndefineIs | src/utils/colod_service.cpp:178-198 | undefining returns 0 if and only if the domain is not up, and then forgets it in memory and file and nothing else |
| Outcomes.DefineThenUndefine | src/utils/colod_service.cpp:146-198 | undefining undoes the definition of an unknown name |
| Outcomes.DisableIs | src/utils/colod_service.cpp:560-572 | disabling returns 0 if and only if the file does not say "running", and clears the enabling in memory and file; the role stays |
| Outcomes.PlainStartIs | src/utils/colod_service.cpp:280-307 | a plain start returns 0 if and only if the domain is saved, not up and its definition can be read; pid and status are entered in memory, and in the file if there is a process |
| Outcomes.ColoStartSucceeds | src/utils/colod_service.cpp:280-430 | with nothing outstanding, a start of a domain enabled in a role returns 0 if and only if it is not up, both machines can launch it, the peer has it enabled, both calls come through, and the monitors that are sent commands take them |
| Outcomes.PairIsDestroyed | src/utils/colod_service.cpp:433-496 | a destroy of a pair of machines that are engaged, with no loss, returns 0 and leaves both shut off |
| Outcomes.HalfFailsOver | src/utils/colod_service.cpp:651-729 | each half of an engaged pair can fail over, and its process goes on |
| Outcomes.LifeRun | src/utils/colod_service.cpp:280-558 | from two fresh daemons four commands pair the machines, after which the pair can be destroyed or either side fail over |
| Starts.SetupBeforeMigration | src/utils/colod_service.cpp:361-391 | in no start, whatever is outstanding, lost or refused, does the migration go out before the peer has, in that same start, sent capabilities, disk server, disk export and bandwidth |
| Starts.MigrationComesLast | src/utils/colod_service.cpp:361-391 | a log with a migration in it is, command by command, capabilities, disk server, disk export and bandwidth on the peer, then capabilities, remote disk, its attachment, colo capability, bandwidth and the migration here, with the addresses each carries |
| Starts.SecondaryServes | src/utils/colod_service.cpp:393-423 | a start on the secondary that returns 0 has got its own disk server ready in order and sent nothing else |
| Starts.StartLog | src/utils/colod_service.cpp:361-423 | in every start, whatever is outstanding, lost or refused, the log is a beginning of that one sequence for the role, and all of it when a start of an enabled domain returns 0 |
| Starts.StartGuardIsExact | src/utils/colod_service.cpp:280-430 | the guard, which looks at nothing but what the daemon knows, holds if and only if with every reply still on its way, every peer and every delivery a colo start that returns 0 leaves both machines running with pids recorded and status COLO_ENABLED, the migration started exactly on a start by the primary |
| Starts.TestClearsTheWay | src/utils/colod_service.cpp:744-768 | a connection test that succeeds leaves no reply outstanding, so that a start of an enabled domain and an enabling of a domain defined under its own name meet their guards |
| Starts.LateStart | src/utils/colod_service.cpp:321-337 | a daemon that takes a late success for the answer of its peer returns 0 while the peer runs the domain plainly |
| Starts.LateStartRun | src/utils/colod_service.cpp:321-337 | a run of six commands with one lost reply gets two fresh daemons there |
| Starts.LossFreeRunsSend | include/buttonrpc.hpp:338-356 | in every run without losses no reply is ever left outstanding on either daemon |
| Starts.LossFreeStart | src/utils/colod_service.cpp:280-430 | in every run without losses a colo start of an enabled domain that returns 0 leaves both machines COLO_ENABLED with recorded pids |
| Starts.StartsMeet | src/utils/domain.cpp:352-379 | in every run of careful commands whose connects arrive, a start on the primary that returns 0 sends disk and migration to the very host on which the peer, in the same log, serves its disk, each port being that of the definition on the machine that uses it; the packet sockets meet exactly when the definitions pair their ports |
| Starts.EngageOrder | src/utils/colod_service.cpp:361-423 | the second half of a start, when it returns 0 on the primary, logs exactly the whole set-up of the peer and then the commands of the primary |
| Starts.PeerSends | src/utils/colod_service.cpp:911-964 | a peer that answers without error has sent exactly the commands of its set-up and no migration |
| Starts.PeerStartEngages | src/utils/colod_service.cpp:839-881 | a peer that reports success had the domain enabled and has launched and recorded the process |
| Slots.StepIsQuiet | src/utils/colod_service.cpp:146-211 | every command but enabling moves each domain only in ways that keep role, enabling and save file in step |
| Slots.EnableSlots | src/utils/colod_service.cpp:499-558 | what enabling does to the one domain concerned on each daemon, for every delivery, and its return code |
| Slots.PeerSaveDomainSlot | src/utils/colod_service.cpp:811-837 | an offer that arrives overwrites the record and the memory of the peer with the opposite role, whatever ran there |
| Slots.DestroyIsQuiet | src/utils/colod_service.cpp:433-496 | destroying keeps memory and file in step on both daemons for every delivery |
| SaveFiles.MapUpdate | src/utils/config_parser.cpp:145-180 | rewriting the one record with a name in place is one update of the map the list stands for, and keeps names unique |
| SaveFiles.MapWithout | src/utils/domain.cpp:412-443 | rebuilding the list without a name is removing it from the map |
| SaveFiles.MapAt | src/utils/domain.cpp:445-481 | with unique names the first record with a name is the one the map has, and there is one exactly when the map has the name |
| SaveFiles.MapOfList | src/utils/domain.cpp:445-481 | with unique names every record of the list is the one its map has under that name, and every name of the map occurs in the list |
| SaveFiles.SaveFile.SaveDomainInfo | src/utils/colod_service.cpp:113-144 | the loop overwrites the first record with the name or appends: one map update, and names stay unique; an entry that is not a list is refused |
| SaveFiles.SaveFile.SaveDomainPid | src/utils/config_parser.cpp:145-161 | the loop sets pid and "running" of a saved name and nothing else |
| SaveFiles.SaveFile.RemoveDomainPid | src/utils/config_parser.cpp:163-180 | the loop clears pid and status of a saved name; it fails exactly on a file without domains |
| SaveFiles.SaveFile.SetColoEnable | src/utils/config_parser.cpp:182-204 | refused for a running domain, else one update, and success for an unknown name |
| SaveFiles.SaveFile.SetColoDisable | src/utils/config_parser.cpp:206-227 | refused for a running domain, else one update, and success for an unknown name |
| SaveFiles.SaveFile.Undefine | src/utils/domain.cpp:412-443 | the loop that rebuilds the list removes the name from the map; it never fails |
| SaveFiles.SaveFile.GetDomainPid | src/utils/domain.cpp:465-481 | the first match decides: the pid of the map, or failure for none |
| SaveFiles.SaveFile.GetDomain | src/utils/domain.cpp:445-463 | the last match decides and agrees with the map |
| Daemons.Daemon.ConnectPeer | src/utils/colod_service.cpp:32-73 | the handler, which stores each entry of the config as it finds it and gives up at a missing one, is with its call `ConnectPeer` on both daemons |
| Daemons.Daemon.ConnectStatus | src/utils/colod_service.cpp:76-111 | the handler, which calls the peer once connected and always returns 0 then, is `ConnectStatus` |
| Daemons.Daemon.ConnectTest | src/utils/colod_service.cpp:744-768 | the handler is `ConnectTest`: 0 exactly if the daemon is not connected or some reply comes back |
| Daemons.Daemon.EnableColo | src/utils/colod_service.cpp:499-558 | the handler, which enables before it calls, is `ColoEnable` on both daemons for every delivery |
| Daemons.Daemon.DoFailover | src/utils/colod_service.cpp:651-729 | the handler is `Failover`, for which `Outcomes.FailoverIs` holds: a secondary is marked before its commands go out, a primary after |
| Daemons.Daemon.DestroyDomain | src/utils/colod_service.cpp:433-496 | the handler, with its call, is `Destroy` on both daemons, for which `Outcomes.DestroySucceeds` and `Outcomes.DestroyedIsGone` hold |
| Daemons.Daemon.SendQmpCmds | src/utils/colod_service.cpp:247-277 | the loop sends the commands in order until the monitor stops taking them: a prefix of the list, the whole list when it returns 0 |
| Daemons.Daemon.StartDomain | src/utils/colod_service.cpp:280-430 | the handler is `Start` on both daemons, with the commands that went out in order, for which `Outcomes.ColoStartSucceeds` and `Starts.StartLog` hold |
| Fleet.Carry | src/utils/colod_service.cpp:32-73 | any command, carried out on two daemon objects, is one step of the protocol |
| Fleet.RunProgram | src/utils/colod_service.cpp:280-558 | any program on two daemon objects ends in the state of the protocol run; so memory agrees with the files and, for a careful program, roles do not clash |
| Codec.ReadsBack | include/Serializer.hpp:137-193 | for every schema of nested records, numbers and strings and either byte order, reading an encoding behind any prefix and before any suffix gives what was sent and stops right behind it; in big-endian order for strings of symmetric length |
| Codec.StringReadsBack | include/Serializer.hpp:151-193 | reading a string puts its first length mod 65536 characters in front of what the target holds, and lands on the next field |
| Codec.ReceivedWhole | include/Serializer.hpp:137-193 | a fresh target receives a value with strings under 65536 bytes unchanged |
| Codec.PrefixFree | include/Serializer.hpp:108-164 | encodings of one schema are prefix-free |
| Codec.BigEndianCursor | include/Serializer.hpp:178-193 | in big-endian order the cursor lands on the next field if and only if the length reads the same both ways |
| Codec.BigEndianText | include/Serializer.hpp:178-193 | in big-endian order the text comes back before every suffix if and only if no fewer characters are copied than announced |
| Codec.BigEndianRead | include/Serializer.hpp:151-193 | what a big-endian read finds: the copied characters, then what follows them |
| Codec.BigEndianLetter | include/Serializer.hpp:178-193 | the string "a" takes 258 bytes in big-endian order, 3 of which are read |
| Codec.MarkReadsBack | include/Serializer.hpp:151-164 | the length in front of a string is read as written, whatever follows |
| Codec.CopyLengths | include/Serializer.hpp:182-191 | how many characters are copied in each byte order |
| Codec.NumberLayout | include/Serializer.hpp:166-176 | a number is on the wire as its digits to base 256, the lowest first in little-endian order and last in big-endian order |
| Codec.StringLayout | include/Serializer.hpp:178-193 | a string is on the wire as two bytes for its length mod 65536, the lower one first, and that many characters |
| Codec.RecordLayout | include/Serializer.hpp:108-118 | a record is on the wire as its fields in order with nothing in between |
| Serializers.Serializer.ByteOrderer | include/Serializer.hpp:78-82 | the array is reversed in place in big-endian order and left alone otherwise |
| Serializers.Serializer.WriteNum | include/Serializer.hpp:166-176 | appends the number in the byte order of the serializer |
| Serializers.Serializer.WriteString | include/Serializer.hpp:178-193 | appends length and characters, with the length reversed in place first |
| Serializers.Serializer.ReadNum | include/Serializer.hpp:137-149 | reads at the cursor and advances; at the end of the buffer the target stays |
| Serializers.Serializer.ReadString | include/Serializer.hpp:151-164 | reads length and characters in front of the target without looking for the end |
| Serializers.Serializer.Write | include/Serializer.hpp:126-130 | appends exactly the encoding of a nested value |
| Serializers.Serializer.ReadAll | include/Serializer.hpp:113-118 | reads the components of a tuple in order |
| Serializers.Transfer | include/Serializer.hpp:137-193 | written with one object and read with another, a portable value arrives, whatever follows |
| Records.DomainTravels | include/colod.h:17-26 | a domain record read into any fresh one is the record sent, name and path cut to their length mod 65536 |
| Records.StatusTravels | include/config.h:47-56 | a status read into any fresh one is the status sent, its strings cut to their length mod 65536 |
| Records.RetReceived | include/colod_service.h:12-19 | a return value arrives with its signed code and its message cut to its length mod 65536 |
| Records.NumbersReadBack | include/config.h:106-138 | signed 32-bit numbers and the three enumerations survive their encoding |
| Records.DomainCall | include/buttonrpc.hpp:139-148 | calling a function of a domain record remotely is calling it locally: same new state, same return value |
| Records.SaveDomainCall | src/utils/colod_service.cpp:518-530 | the peer that is sent a domain record stores what `PeerSaveDomain` says, and its code comes back |
| Rpc.EndToEnd | include/buttonrpc.hpp:101-111 | a bound name runs its handler on exactly the arguments of the caller and returns code 0 and exactly its result, whatever bytes follow the arguments |
| Rpc.EndToEndUnbound | include/buttonrpc.hpp:300-312 | an unbound name leaves the server alone and returns code 1 and the message |
| Rpc.ServedDispatches | include/buttonrpc.hpp:276-285 | the name arrives cut to its length mod 65536, and the slice handed to the dispatch starts with the encoded arguments |
| Rpc.ArgumentsReadBack | include/buttonrpc.hpp:197-204 | the arguments are read as sent from any data that starts with them |
| Rpc.ReplyReadsBack | include/buttonrpc.hpp:101-111 | code, message and, only for code 0, the value are read back, for every 16-bit code |
| Rpc.ReplyNonEmpty | include/buttonrpc.hpp:300-312 | whatever request arrives, the reply of the server is not empty, so an empty reply means a time-out |
| Rpc.RequestLayout | include/buttonrpc.hpp:139-148 | a request is the length of the name, the name, the arguments and one byte |
| Rpc.ReplyLayout | include/buttonrpc.hpp:300-312 | the reply to a bound name is code 0, an empty message and the value of its handler, whose state is kept; to an unbound one code 1 and the text with the name, with the state untouched |
| RpcEndpoints.RpcServer.CallByName | include/buttonrpc.hpp:300-312 | the dispatch on objects is the dispatch on values |
| RpcEndpoints.RpcServer.Serve | include/buttonrpc.hpp:276-290 | one turn of the server loop is `Served` |
| RpcEndpoints.RpcClient.AsClient | include/buttonrpc.hpp:234-241 | a new socket keeps the error code: the client alternates afterwards exactly when it had not timed out |
| RpcEndpoints.RpcClient.MakeRequest | include/buttonrpc.hpp:139-148 | the request is name, arguments and one more byte |
| RpcEndpoints.RpcClient.NetCall | include/buttonrpc.hpp:338-363 | puts on the wire exactly a request, unless timed out, and then a reply or a time-out; keeps the alternation |
| RpcEndpoints.Invoke | include/buttonrpc.hpp:139-148 | client and server objects together: the result and the new state of the handler, or code 1 |
| RpcEndpoints.OwnReply | include/buttonrpc.hpp:341-356 | after call i the last request on the wire is that of the last call that followed no time-out; it is its own if and only if the call before it did not time out, which is when it sends |
| RpcEndpoints.History | include/buttonrpc.hpp:338-363 | the history of any such sequence: what was sent, what came in, that they alternate, and that a reply is outstanding exactly after a time-out |
| RpcEndpoints.CallAll | include/buttonrpc.hpp:338-363 | over any sequence of replies and time-outs on one socket the wire shows exactly the requests of the calls that follow no time-out and the replies that came, a request only when no reply is outstanding; each outcome is that of its reply |
| NodeGraph.Node.MarkDefined | include/yaml-cpp/node/detail/node.h:46-54 | on every graph, cyclic ones included, the walk ends; exactly the undefined nodes reachable from the start become defined and lose their sets, and nothing else changes |
| NodeGraph.Node.AddDependency | include/yaml-cpp/node/detail/node.h:56-61 | marks the container of a defined node, else records it unless one of equal rank is recorded |
| Definedness.MarkingAdvances | include/yaml-cpp/node/detail/node.h:51-52 | one more visited dependency keeps the state of the walk consistent |
| Definedness.MarkingEnds | include/yaml-cpp/node/detail/node.h:46-54 | a finished walk has marked exactly what is reachable |
| Definedness.LinkTracks | include/yaml-cpp/node/detail/node.h:22-24 | a new child tracks its container if and only if one of them is defined, it is recorded already, or no recorded container has its rank |
| Definedness.MarkKeepsTracks | include/yaml-cpp/node/detail/node.h:46-54 | marking from any node keeps every container of a defined node defined |
| Definedness.AppendLinks | include/yaml-cpp/node/detail/node.h:114-118 | appending keeps the invariant if and only if the container gets recorded |
| Definedness.PairLinks | include/yaml-cpp/node/detail/node.h:119-123 | inserting a pair keeps the invariant if and only if key, value or container is defined, or both ends record the container |
| Definedness.LiteralPairLinks | include/yaml-cpp/node/detail/impl.h:168-171 | a pair with a literal key keeps the invariant though the key records nothing |
| Definedness.EraseLinks | include/yaml-cpp/node/detail/impl.h:73-84 | removing an element keeps the invariant, and the counter bounds an all-defined prefix |
| Definedness.UnpairLinks | include/yaml-cpp/node/detail/impl.h:190-197 | removing a pair keeps the invariant |
| Definedness.CoherentMeaning | include/yaml-cpp/node/detail/node.h:46-61 | the invariant says: defined nodes have empty sets, their containers are defined, the counted prefix is defined, and a sequence grown by indexing has at most its last element undefined |
| Documents.PairKeeps | include/yaml-cpp/node/detail/node.h:119-123 | the same for a document: an insert is harmless if and only if key or value is defined, or the container stays known to both |
| Documents.PushKeeps | include/yaml-cpp/node/detail/node.h:114-118 | an append is harmless if and only if the container stays known to the new element |
| Disciplines.FitsNext | include/yaml-cpp/node/detail/node.h:113-158 | what a program text tells about its variables stays right through every operation, whatever the look-ups find |
| Disciplines.DisciplineSuffices | include/yaml-cpp/node/detail/node.h:22-67 | a program that puts each undefined node into at most one container and shares only nodes it knows to be defined never comes to a harmful operation, whatever document and variables it starts with |
| Edits.EditsAreDisciplined | src/utils/colod_service.cpp:113-144 | writing the status, saving a domain, changing a record and undefining are such programs, whatever they find in the file and whatever they write |
| Sheets.EntriesSet | src/utils/colod_service.cpp:116-121 | assigning fields to an entry sets exactly these fields, in its existing pairs or new last ones, and keeps every node outside the entry |
| Sheets.UpdateRewrites | src/utils/config_parser.cpp:145-227 | the search and the assignments of setting and clearing a pid, enabling and disabling set the fields of the entry with the name and leave everything else the file shows |
| Sheets.SaveDomainPuts | src/utils/colod_service.cpp:113-144 | saving a definition replaces the entry with the name as a whole by the new one, or adds it at the end; everything else the file shows stays |
| Sheets.UndefineRemoves | src/utils/domain.cpp:412-443 | undefining leaves exactly the entries with another name, in order |
| Rewrites.UpdateIsRead | src/utils/config_parser.cpp:145-227 | looking a key up after such an edit gives the text written to it last; other keys and other entries give what they gave before |
| Rewrites.FieldsGive | src/utils/config_parser.cpp:152-153 | setting fields one after the other gives each key its last text and leaves other keys |
| Rewrites.EditsRefineList | src/utils/colod_service.cpp:113-144 | for every change the daemon makes to the file and every list of records with unique names: the program over the nodes of a document that shows the list ends in one that shows the list the operation of `SaveFile` makes of it |
| Rewrites.EveryListIsShown | src/utils/config_parser.cpp:123-142 | for every list of records there is a document, as loaded from a file, that shows it |
| Rewrites.LoadedIsGood | src/utils/config_parser.cpp:123-142 | a document in which every node is defined and shares with none meets the invariant of the library |
| NodeGraph.Memory.SetScalar | include/yaml-cpp/node/detail/node.h:85-88 | the node is defined and has exactly this text, with all who share its data; nodes with other data keep kind and text; what the node reaches is marked and the invariant kept |
| NodeGraph.Memory.SetNull | include/yaml-cpp/node/detail/node.h:81-84 | what a variable without a value becomes when it is used: marked with all it reaches, and null |
| NodeGraph.Memory.SetRef | include/yaml-cpp/node/detail/node.h:63-67 | sharing a reference keeps the invariant if and only if the source is defined or the same node; then this node alone takes over contents, reference and data of the source |
| NodeGraph.Memory.SetData | include/yaml-cpp/node/detail/node.h:68-72 | sharing data keeps the invariant if and only if the source is defined or the same node; then exactly the nodes with the same reference take over contents and data of the source |
| NodeGraph.Memory.PushBack | include/yaml-cpp/node/detail/node.h:114-118 | the sequence has the element at its end, the pairs stay, and the container gets the next rank; the invariant survives if and only if the container stays known to the element |
| NodeGraph.Memory.AddPair | include/yaml-cpp/node/detail/node.h:119-123 | inserts a pair and links key and value in turn; the invariant survives if and only if one of the two is defined or the container stays known to both |
| NodeGraph.Memory.Index | include/yaml-cpp/node/detail/impl.h:35-42 | finds an element, or makes the next one when the last is defined, or neither; what it changes is exact |
| NodeGraph.Memory.Lookup | include/yaml-cpp/node/detail/impl.h:141-172 | the value of the first pair with the key, or of a new last pair whose key is defined at once; what it changes is exact |
| NodeGraph.Memory.Remove | include/yaml-cpp/node/detail/impl.h:73-84 | erases exactly one element and moves the counter with it |
| NodeGraph.Memory.RemoveKey | include/yaml-cpp/node/detail/impl.h:174-201 | erases exactly the first pair with the key, on a map only |
| NodeGraph.Step | include/yaml-cpp/node/detail/node.h:113-158 | an operation is found sound if and only if it is harmless, if and only if the invariant survives; and then the new document is given but for the identity of new nodes: what changes with the named node is exactly what shares its data, or its reference |
| NodeGraph.Run | include/yaml-cpp/node/detail/node.h:113-158 | a program, on any variables it is given, runs up to its first harmful operation, with the new document after every operation in the trace; the invariant holds at the end if and only if there was none, and a disciplined program always gets to its end |
| Effects.AssignWrites | include/yaml-cpp/node/detail/node.h:85-88 | after assigning a text exactly the nodes that share data with the one named have it, every other node keeps kind and text, and no contents, ranks or company change |
| Effects.NullifyWrites | include/yaml-cpp/node/detail/node.h:81-84 | the same for making null |
| Effects.ShareRefTakes | include/yaml-cpp/node/detail/node.h:63-67 | after sharing a reference the one node has contents, kind and text of the other and has left its company for that of the other; no other node has changed |
| Effects.ShareDataTakes | include/yaml-cpp/node/detail/node.h:68-72 | the same for sharing data, for exactly the nodes with the same reference |
| Effects.PushAppends | include/yaml-cpp/node/detail/node.h:114-118 | appending adds exactly the element at the end of the sequence of those who share the container and gives the container the highest rank |
| Effects.PairInserts | include/yaml-cpp/node/detail/node.h:119-123 | inserting adds exactly the pair at the end and changes no rank |
| Effects.AtGives | include/yaml-cpp/node/detail/impl.h:35-42 | indexing gives exactly the element with that number, or a new empty last one if the number is the next and the last element is defined; otherwise nothing, and nothing happens |
| Effects.KeyGives | include/yaml-cpp/node/detail/impl.h:141-172 | looking up gives the value of exactly the first pair whose key spells the text, or a new value in a new last pair with such a key, defined at once |
| Effects.EraseRemoves | include/yaml-cpp/node/detail/impl.h:73-84 | exactly the element with that number goes, those behind it move up, and the counter goes with it |
| Effects.DropRemoves | include/yaml-cpp/node/detail/impl.h:174-201 | exactly the first pair with the key goes, on a map only |
| Effects.KeyAgain | include/yaml-cpp/node/detail/impl.h:141-172 | a key looked up twice gives the same node both times |
| Effects.TextsInHistory | include/yaml-cpp/node/detail/node.h:73-100 | in no run does an undefined node come to have a text |
| NodeGraph.Memory.Meaning | include/yaml-cpp/node/detail/node.h:46-61 | the invariant as a reader of the document sees it |
| NodeGraph.MapIterator.IncrementUntilDefined | include/yaml-cpp/node/detail/node_iterator.h:159-167 | stops at the next pair with both ends defined, or at the end |
| NodeGraph.MapIterator.Advance | include/yaml-cpp/node/detail/node_iterator.h:124-137 | moves on and skips undefined pairs only |
| NodeGraph.Iterate | include/yaml-cpp/node/detail/node_iterator.h:83-89 | from begin to end the iteration shows exactly the pairs with defined key and value, in order |
| Tokenizer.Tokenize | include/commandline.h:374-408 | the loop, which skips ahead at a backslash, computes the scan |
| Tokenizer.TokenizeFailsExactly | include/commandline.h:394-405 | a string is refused if and only if it ends in an unescaped backslash or has an odd number of unescaped quotes |
| Tokenizer.TokenizeInvertsJoin | include/commandline.h:374-408 | tokens spelled in either style and joined with spaces are split back; the list comes back whole if and only if its last token is not empty |
| Tokenizer.PlainTextIsSplit | include/commandline.h:374-408 | text without quote and backslash is split at its spaces and nowhere else |
| Tokenizer.OneToken | include/commandline.h:374-408 | such text without a space is one token, itself |
| CommandLine.ShortsIndex | include/commandline.h:436-449 | the table of letters is exactly the inverse of the declared ones, and building it stops exactly at a letter two names share |
| CommandLine.NormaliseKeepsMeaning | include/commandline.h:451-516 | an argument list read without complaint and its normal form set the same options to the same values and leave the same operands |
| CommandLine.NormaliseIsExact | include/commandline.h:451-516 | this holds of every list if and only if no option a letter can set has `=` in its name, the letter `-` counting only behind that of a flag |
| CommandLine.NormaliseSettles | include/commandline.h:451-516 | nothing in a normal form depends on the argument after it |
| CommandLine.SettledIsNormal | include/commandline.h:451-516 | a normal form is left alone, so normalising twice is normalising once |
| CommandLine.OperandsLast | include/commandline.h:513-515 | moving the operands of a normal form behind its options changes nothing |
| CommandLine.ParseNormalForm | include/commandline.h:426-525 | all of this for a whole parse, with the needed options checked, under the exact condition on the table |
| CommandLine.ClusterIsRead | include/commandline.h:482-511 | a cluster is read like the flags and the setting it is rewritten to |
| CommandLine.SettingIsRead | include/commandline.h:453-457 | `--n=v` sets n to v for every v, also one that contains `=` |
| OptionValues.JoinedIsRead | include/commandline.h:453-457 | `--n=v` leaves v as the value of n, set, and every other option as it was, if n takes v; else it leaves all options and complains |
| OptionValues.ApartIsRead | include/commandline.h:458-479 | `--n v` the same |
| OptionValues.LettersAreRead | include/commandline.h:482-511 | `-x v` and `-abx v` leave v as the value of the option of x, and set the flags in front |
| OptionValues.FlagIsRead | include/commandline.h:458-479 | `--n` without a value sets a flag; an undeclared name, or one that needs a value when there is no next argument, gets exactly its complaint |
| OptionValues.ClusterComplains | include/commandline.h:482-511 | a cluster is read without complaint if and only if the letters in front stand for flags and the last for a flag or for an option that takes the next argument as its value |
| OptionValues.OperandIsRead | include/commandline.h:513-515 | anything else is an operand, and a dash alone is skipped |
| OptionValues.NormalFormTells | include/commandline.h:451-516 | after a normal form read without complaint every option has the last value it is given, or the one it had, and is set exactly if it was or is mentioned |
| OptionValues.ParseTells | include/commandline.h:426-525 | the same for a whole parse: values, flags and operands are those the normal form of the arguments says, and every needed option is set |
| OptionValues.MissedIs | include/commandline.h:519-522 | the complaints at the end are exactly about the needed options that are not set |
| CommandLine.NormalFormSpares | include/commandline.h:453-457 | a long option never sets a name that contains `=` |
| CommandParsers.Parser.Add | include/commandline.h:319-347 | declares an option, refusing a second declaration of the name |
| CommandParsers.Parser.SetOption | include/commandline.h:601-610 | sets a flag in its object, or complains |
| CommandParsers.Parser.SetOptionTo | include/commandline.h:612-621 | an option that takes the value is set and holds exactly this value in its object, without a complaint; otherwise one complaint, and the option is as it was; every other option object is unchanged |
| CommandParsers.Parser.ReadLong | include/commandline.h:452-479 | reads one long option, with the next argument if it needs it |
| CommandParsers.Parser.ReadCluster | include/commandline.h:481-511 | the loop over the letters, which looks one letter back, then the last letter |
| CommandParsers.Parser.BuildShorts | include/commandline.h:436-449 | the loop over the declared options builds the table of letters |
| CommandParsers.Parser.CheckMissing | include/commandline.h:519-522 | the loop complains about exactly the needed options that are not set |
| CommandParsers.Parser.ParseArguments | include/commandline.h:426-525 | the whole parse on option objects is `Parse`; it succeeds exactly without complaint, and then every option object holds the last value the normal form of the arguments gives it, every needed one is set, and the operands are those of the normal form |
| CommandParsers.Parser.ParseText | include/commandline.h:374-414 | one string is split and parsed, or refused with everything but the complaints unchanged |
| CommandParsers.TextOfNormalForm | include/commandline.h:374-525 | spelling out the normal form of an argument vector gives one string that parses to the same result, under the exact condition on the table |

## Left out

The protocol:

- Restarting a daemon: `domains_init` takes the status from the name field (`src/utils/config_parser.cpp:137`) and a failover is not written to the file, so nothing holds across a restart.
- YAML text, scalar conversion and copying files to the peer: a config file is its entries, any of which may be missing, and a definition is readable with an allowed name or not.
- `fork`, `kill` and the monitor are parameters: a fork gives a positive pid or fails, a pid is alive or not, and the monitor takes some prefix of the commands. The waiting times are gone.
- Listing, status texts and `set-params`, which change nothing in the protocol beyond testing domains.
- Command lines and monitor commands keep hosts, ports and kinds only, in order. The unknown-OS return code of the generators is ignored by their callers and here.
- A request is processed during its call or never. A reply that comes in late is the one the next call on the same socket receives.
- A definition file is taken to carry the name it is saved under.
- SaveFiles.SaveFile.SetColoEnable: a file that never had domains and one whose list is empty are the same here, as both make the loops do nothing.
- RoleSafety.RolesNeverClash: covers two daemons that start with empty save files; a role set up by hand in a file is outside.

The RPC library:

- Sockets: ZeroMQ's own errors, for instance for receiving on a new REQ socket before sending, are not modelled; such a call counts as one without a reply.
- The cursor is unbounded (32 bits in the source), and reads beyond a buffer find arbitrary bytes.
- RpcEndpoints.RpcServer.Serve: for a malformed request whose name is longer than the message, the negative length is taken as 0.
- Enumerations that arrive out of range, which no encoder of the program sends, become the first value.

The node graph:

- `node_data` functions whose bodies are not in the repository: marking is a flag, appending and inserting neither check nor set the kind, and recounting a sequence moves the counter to some all-defined prefix.
- NodeGraph.Memory.Index: converting a sequence to a map, whose code is not in the repository, integer keys of maps, which need scalar conversion, and subscripting a scalar yield a null result.
- NodeGraph.Memory.Lookup: converting a sequence to a map and subscripting a scalar yield a null result.
- NodeGraph.Memory.RemoveKey: the list of undefined pairs that the source keeps beside the map is not modelled.
- The ordered set of dependencies is a set whose insertion is refused by rank; ranks that change afterwards do not reorder it, and the walk visits it in any order.
- A variable without a node: using a default one makes a node, which is written out as `Create` and `Nullify`; using an invalid one throws, and here nothing happens.
- NodeGraph.Run: says nothing about a program once it has lost a container or shared an undefined node, since the code keeps no invariant then.
- Sheets.SaveDomainPuts: covers a file that has the key "domains", with an empty entry or a list of entries with names, the one saved there at most once; a file without that key, and one with something else under it, are not covered.
- Sheets.UpdateRewrites: the documents have each entry once and no anchors, as the daemon writes them, and the search is taken to end at the entry that is given.
- Edits.EditsAreDisciplined: of writing the status into the file no more is proved than this; what the other edits do to the entries is in `Sheets.dfy`.
- Rewrites.EditsRefineList: a record stands in the file as its six fields in the order the daemon writes them.
- `set_type`, `set_tag`, `set_style` and `force_insert`: they mark like `set_scalar` or add a pair like `insert`.

The command line:

- C strings are taken to contain no NUL character, and reading a value depends on its text only.
- CommandParsers.Parser.ParseText: does not print the tokens.
- Usage texts, the footer, `parse_check` with its exits, and typed access to values.

# Berserker, modelled and verified

Berserker is a workload generator: it opens network connections, listens on
ports, loads BPF programs and reads small workload scripts. This project models
the parts of it that carry state or structure and proves properties of them for
all inputs and all runs. `dafny verify dfyconfig.toml` checks everything.

## Parts

**The network client** (`SocketTable`, `Scheduler`, `ConnectionLoop`, `Runs`,
`Timing`, `Sending`, `Witnesses`, `Addressing`). `ConnectionLoop.Client` is the loop
in its own form: fields for the socket table, the map of dynamic connections, the close
list, the counter and the timers, updated in place by the arrival phase, the
sweep and the drain. Each method is proved against the functions of `Scheduler`,
where one iteration is described by filters on the table and the map. `Runs` and
`Timing` then reason about runs of any length, and `Sending` says in plain arithmetic
which sockets send. One iteration reads the clock and draws random numbers; a
`Tick` holds those values, arbitrary within their legal ranges.

**The script language** (`Grammar`, `Shape`, `Derivation`, `Soundness`,
`Completeness`, `Lookahead`, `Ast`, `Builder`, `Totality`, `Language`, `Printer`,
`Tokens`, `Phrases`, `RoundTrip`, `Quotes`, `Respelling`, `Productions`, `Constants`,
`SameProgram`, `Sources`). `Grammar` has one parse function
per production, with whitespace and comments skipped between the items of every
sequence and repetition, ordered choice and backtracking. `Builder` goes from
pair trees to the syntax tree and panics where the program does. `Derivation` is the
grammar once more, as a relation between trees and texts without order of choice and
backtracking; `Soundness` and `Completeness` show that the parse functions accept
exactly what it derives. `Totality` describes, on trees, what is built. `Printer` is a
specification: it prints a script with any layout (whitespace and comments anywhere
between tokens, a trailing comma in any list), and `RoundTrip` shows that parsing
inverts it. A layout chooses any skipped text behind each token; the only thing it
must not do is put a comment directly behind a value that ends in a slash.
`Respelling` and the three modules after it are about arbitrary sources: one quoted
constant is written differently, and everything else stays as it is. `Sources` holds
concrete sources.

**Small components**: `ArgsMap` (argument strings), `BpfNames` (program names in a
reused buffer), `PortRanges` (port ranges of endpoint workers), with `Decimal`
and `Common` underneath.

## Conventions and assumed environment

- smoltcp's `SocketSet` is assumed to be a vector of slots: `add` takes the lowest
  free slot, `iter` goes in slot order, `remove` needs a live handle.
- The image is built with `cargo build -r`, so unsigned arithmetic wraps. The
  connection counter and the endpoint computation wrap in the model as well;
  lemmas say where no wrapping takes place.
- The clock does not go back (`elapsed().unwrap()` aborts the program otherwise).
  Times are nanoseconds; elapsed times are whole milliseconds, rounded down.
  Lifetimes and intervals are the rounded milliseconds the code compares with.
- `conns_per_addr` is positive, and `connections_dyn_max` is positive if `preempt`
  is set: the code divides by the first and draws from a range ending at the second.
- In pest, `ASCII_DIGIT+` is one digit, a skip, then `ASCII_DIGIT*`; an atomic rule
  such as `ident` has no pairs inside.
- Reading a double from text is a function parameter of the builder.

## Where the code and its own words differ

The model follows the code; each point below is a lemma.

- `total_conns` is commented as the number of open connections. It also counts
  every arrival that opened none (`Runs.CounterConservation`,
  `Runs.CounterIsOpenConnections`, `Witnesses.CounterDrifts`).
- Static connections are to live throughout the run, but the preemption victim is
  drawn from all sockets (`Runs.StaticStep`, `Witnesses.StaticConnectionClosed`),
  and then the arrival opens nothing (`Runs.PreemptiveAdmission`).
- After a connection was closed, a new one can get the local endpoint of a live
  one (`Runs.EndpointRepeats`, `Witnesses.LiveEndpointRepeated`).
- Static connections survive every run only if there are none or `preempt` is off
  (`Witnesses.StaticsSurviveExactly`).
- The grammar accepts more than the builder handles (`Language.SourceToProgram`):
  `a{}` is accepted and then panics (`Sources.BareWorkPanics`, `Sources.BareWorkExample`). The name of a
  distribution is ignored (`Totality.DistNameIgnored`). A helper given to a helper
  loses its arguments (`Totality.NestedHelperReduced`, `Sources.NestedHelperLost`).
- A comment directly behind a value that ends in a slash swallows the slash: `/x///c`
  reads as `/x` (`Tokens.ValueReadExactly`, `Sources.SlashLost`).
- Otherwise the layout of a script changes the result in two ways only: padding behind
  a one-digit port makes the builder panic, and the target of a profile is the raw text
  of its argument (`RoundTrip.LayoutMatters`, `Sources.BehindPort`,
  `Sources.TargetKeepsPadding`).
- Padding inside the quotes of a constant does not reach its value, unless it is a
  comment directly behind a slash (`Tokens.QuotePadding`, `Quotes.PaddingBeforeQuote`).
  In any accepted source it leaves the result unchanged if and only if the constant is
  not part of the first argument of a profile, or the builder panics in any case
  (`SameProgram.EveryConstantPadded`).
- BPF names are unique for the first ten million programs and zero-terminated for
  the first million only (`BpfNames.NamesDistinct`, `BpfNames.Terminated`).

## Model

| member | source | states |
|---|---|---|
| Addressing.EndpointInverse | src/worker/network.rs:391-406 | the index of a connection is recovered from its local address and port by an explicit formula, for every base address, group size and 32-bit index |
| Addressing.EndpointInjective | src/worker/network.rs:391-406 | two indices have the same local endpoint if and only if they are equal |
| Addressing.DocumentedExample | src/worker/network.rs:378-382 | the example of the comment: with base 10.0.0.1 and 100 connections on an address, connection 10 is 10.0.0.2:49162 |
| Addressing.BaseAddressReserved | src/worker/network.rs:378-403 | the base address is never handed out, except for the last 32-bit index with one connection per address |
| Addressing.PortInDynamicRange | src/worker/network.rs:373-396 | ports stay within 49152..65535 (section 6 of RFC 6335) exactly while the offset within the group is below 16384 |
| Addressing.PortZero | src/worker/network.rs:396 | port zero, from which no connection can be made, comes up exactly at offset 16384 |
| Addressing.AllFit | src/worker/network.rs:396-403 | neither addition overflows for the first n indices if and only if the last address fits and the groups fit the port range |
| Addressing.BlocksModulo | src/worker/network.rs:391-406 | for every group size and any number of 32-bit indices, also where additions overflow: the first n connections use exactly the first ceil(n / conns_per_addr) addresses after the base and the first ports of each group, counted with wrap-around |
| Addressing.ConsecutiveBlocks | src/worker/network.rs:373-406 | the first n connections use exactly the next ceil(n / conns_per_addr) addresses, each full but possibly the last, with ports counted from 49152 |
| SocketTable.HandlesCount | src/worker/network.rs:205 | iterating the assumed socket set meets each live socket exactly once |
| SocketTable.AddEffect | src/worker/network.rs:221 | adding makes one more handle live, the lowest free one, and disturbs no other socket |
| Scheduler.EnoughLive | src/worker/network.rs:203-205 | the index drawn for preemption never exceeds the number of live sockets, so `nth` finds one |
| Scheduler.Victim | src/worker/network.rs:199-208 | the preemption victim is a live socket |
| Scheduler.AdmitReady | src/worker/network.rs:182-249 | no elapsed time the sweep computes is negative |
| Scheduler.AdmitEntry | src/worker/network.rs:212-224 | an entry of the map after admission is an old one, unchanged, or the new connection with its opening time and lifetime |
| Scheduler.AdmitKeepsPartition | src/worker/network.rs:182-237 | after admission the map lists every dynamic socket except the victim, which is still live, within all limits |
| Scheduler.Step | src/worker/network.rs:175-325 | an iteration keeps the loop invariant: map and table agree, limits hold, no stored time lies in the future |
| ConnectionLoop.InitialInv | src/worker/network.rs:125-171 | the invariant holds when the loop is entered, with every static connection live |
| ConnectionLoop.Client.constructor | src/worker/network.rs:130-171 | opening the static connections yields slots 0 to n-1 with indices 0 to n-1 |
| ConnectionLoop.Client.Preempt | src/worker/network.rs:199-208 | at the limit the drawn socket leaves the map and is scheduled for closing; otherwise nothing changes |
| ConnectionLoop.Client.Open | src/worker/network.rs:212-224 | a new dynamic socket, indexed by the counter, enters table and map under the same handle |
| ConnectionLoop.Client.Arrival | src/worker/network.rs:186-236 | an arrival counts itself, preempts, opens and re-arms as specified |
| ConnectionLoop.Client.Poll | src/worker/network.rs:177-237 | the arrival phase computes the specified admission and puts exactly the preempted handle on the close list |
| ConnectionLoop.Client.Examine | src/worker/network.rs:240-301 | one socket is closed if dynamic and overdue, otherwise offered to the send throttle |
| ConnectionLoop.SweepIsFilter | src/worker/network.rs:240-263 | the slot-by-slot sweep removes from the map and lists, once each, exactly the connections overdue when examined |
| ConnectionLoop.ScannedSends | src/worker/network.rs:278-300 | the slot-by-slot sweep sends what the throttle specification sends |
| ConnectionLoop.Client.Sweep | src/worker/network.rs:240-301 | the in-place sweep is the filter and throttle of the specification and leaves distinct live handles on the close list |
| ConnectionLoop.Client.Drain | src/worker/network.rs:303-308 | every listed handle is live when removed; the table loses exactly those, the counter is decreased once for each |
| ConnectionLoop.Client.Iterate | src/worker/network.rs:175-325 | one iteration computes Step, keeps the invariant, logs the specified sends, and has a duplicate-free close list |
| Runs.RunStarts | src/worker/network.rs:130-171 | every run starts with the static connections in the first slots, all counted, and the timers as first read |
| Runs.RunClient | src/worker/network.rs:130-325 | the imperative client, driven through any run, arrives at the specified state |
| Runs.Partition | src/worker/network.rs:130-308 | at every loop head the live sockets are the surviving static ones and the keys of the map, disjoint, within the limits; the table never outgrows them by more than one slot |
| Runs.ExcessIsOne | src/worker/network.rs:199-224 | within an iteration at most one socket exceeds the limits, and the victim's index is in range |
| Runs.CloseListSound | src/worker/network.rs:177-308 | when draining starts, victim and expired handles are disjoint and all live, in every iteration of every run |
| Runs.IterationIsFilter | src/worker/network.rs:240-308 | a handle survives an iteration exactly if it is neither the victim nor overdue when examined, with its socket and deadline unchanged |
| Runs.CounterConservation | src/worker/network.rs:170-224 | at every loop head the counter is the number of live sockets plus the number of arrivals that opened none, on 32 bits |
| Runs.CounterIsOpenConnections | src/worker/network.rs:170-171 | the counter equals the open connections exactly if these fit 32 bits and the number of turned-away arrivals is zero modulo 2^32 |
| Runs.DrainNeverUnderflows | src/worker/network.rs:303-308 | while the count stays within 32 bits, decreasing the counter never goes below zero |
| Runs.StaticStep | src/worker/network.rs:199-208 | an iteration closes a static connection exactly by preempting it, and never adds one |
| Runs.StaticsAreOriginal | src/worker/network.rs:132-142 | static connections still live are the original ones under their original handles |
| Runs.StaticSurvival | src/worker/network.rs:132-142 | without preemption every static connection is live in every reachable state |
| Runs.StaticsNeverIncrease | src/worker/network.rs:199-208 | the set of static connections only shrinks |
| Runs.VictimIsNth | src/worker/network.rs:203-205 | exactly as many live sockets as the drawn index come before the victim |
| Runs.AdmissionExactly | src/worker/network.rs:182-224 | a connection is opened exactly if the drawn interval has passed and there are fewer dynamic ones than the limit, or the preempted socket is one of them; it is indexed by the counter |
| Runs.PreemptiveAdmission | src/worker/network.rs:199-224 | at the limit under preemption exactly one handle is scheduled; a connection is opened if and only if the victim was dynamic, under another handle; the map is back at the limit |
| Runs.DistinctUntilFirstClose | src/worker/network.rs:144-224 | until something is closed, all connections opened so far have pairwise different local endpoints |
| Runs.EndpointRepeats | src/worker/network.rs:186-224 | in any reachable state a new connection repeats a live endpoint if and only if a live connection holds the next index |
| Runs.DistinctStep | src/worker/network.rs:186-308 | an iteration keeps all local endpoints different if and only if it opens no connection under an index held by a connection that survives the iteration |
| Timing.SendThrottle | src/worker/network.rs:278-300 | over all sockets and iterations the k-th send comes at least k times (send_interval + 1) ms after the timer was first set |
| Timing.SendCount | src/worker/network.rs:158-163 | the number of sends is bounded by the duration of the run over send_interval + 1 ms |
| Timing.ArrivalSpacing | src/worker/network.rs:165-183 | the next connection arrives exactly once the interval drawn at the previous arrival has passed |
| Timing.ChecksAreClose | src/worker/network.rs:312-324 | with work of at most W and waits capped at 100 ms, checks of a handle are at most 2W + 100 ms apart |
| Timing.SurvivorsNotExpired | src/worker/network.rs:245-258 | a connection in the map at a loop head was not expired at its latest check |
| Timing.OverstayBound | src/worker/network.rs:245-258 | at no loop head has a connection in the map been expired for longer than W |
| Timing.ExpiryIsTimely | src/worker/network.rs:245-324 | a connection closed for its age is found expired at most 2W + 100 ms after it first counts as expired |
| Timing.NoOverstay | src/worker/network.rs:245-258 | an iteration that starts after a connection expired ends with that connection out of the map |
| Sending.SendsExactly | src/worker/network.rs:240-301 | an iteration sends on exactly the sockets that are live after the arrival phase, not expired and willing, whenever more than send_interval ms (on 64 bits) have passed since the timer was set; in slot order, and the timer is left at the last reset |
| Sending.SendersUnique | src/worker/network.rs:278-300 | the senders of an iteration are determined by this |
| Sending.SendsWhenDue | src/worker/network.rs:278-300 | unless 2^64 ms have passed, a socket sends if and only if it is live, not expired, willing, and send_interval + 1 ms after the previous send have passed |
| Witnesses.CounterDrifts | src/worker/network.rs:170-212 | a run after which the counter is 1 and no socket is open |
| Witnesses.StaticConnectionClosed | src/worker/network.rs:199-208 | a run of two arrivals that closes the only static connection |
| Witnesses.StaticsSurviveExactly | src/worker/network.rs:132-208 | for every configuration: all static connections survive all runs if and only if there are none or preemption is off |
| Witnesses.LiveEndpointRepeated | src/worker/network.rs:186-224 | a run after which two live connections share address and port |
| Grammar.Skip | src/script/grammar.peg:1-2 | skipping leaves neither whitespace nor a comment in front |
| Shape.PIdentShaped | src/script/grammar.peg:4-5 | an identifier pair has identifier text and nothing inside |
| Shape.PValueShaped | src/script/grammar.peg:30 | a value pair's text neither starts nor ends with whitespace |
| Shape.PConstantShaped | src/script/grammar.peg:7-10 | a constant holds one value if quoted and nothing if digits |
| Shape.PArgsShaped | src/script/grammar.peg:12-29 | argument lists hold only arguments, each a helper, an identifier or a constant |
| Shape.PWorkShaped | src/script/grammar.peg:32-70 | a work unit has a name and at most one parameter list of key-value pairs |
| Shape.PDistShaped | src/script/grammar.peg:51-68 | a distribution is a name followed by options |
| Shape.PInstructionShaped | src/script/grammar.peg:35-72 | an instruction is one of six names and at most one argument list |
| Shape.PFunctionShaped | src/script/grammar.peg:61-80 | a function is a work unit, its expressions and at most one distribution, nested to any depth |
| Shape.PMachineShaped | src/script/grammar.peg:82-98 | a machine holds only machine instructions |
| Shape.FileShaped | src/script/grammar.peg:100-102 | every accepted source gives a tree of these shapes, with at most one machine, first |
| Derivation.Alphabets | src/script/grammar.peg:1-30 | the characters of values, of identifiers and of whitespace are the listed ones |
| Derivation.SkipIsGap | src/script/grammar.peg:1-2 | skipping leads over the one gap of whitespace and comments behind which neither starts |
| Soundness.PArgsSound | src/script/grammar.peg:12-29 | every argument list that is read is derived: parentheses, arguments, commas, and gaps between them |
| Soundness.PFunctionSound | src/script/grammar.peg:32-80 | every function that is read is derived, nested to any depth |
| Soundness.FileSound | src/script/grammar.peg:1-102 | every accepted source is derived by its tree, from its start to its end |
| Completeness.ArgsComplete | src/script/grammar.peg:12-29 | every derived argument list is read, with the tree that derives it |
| Completeness.InstructionNoFunction | src/script/grammar.peg:61-80 | no derived instruction is taken for the function that is tried first |
| Completeness.FunctionNoMachine | src/script/grammar.peg:61-102 | no derived work unit is taken for the machine, except `machine{}` |
| Completeness.FunctionComplete | src/script/grammar.peg:32-80 | every derived function that no colon follows is read, with the tree that derives it |
| Completeness.ParserIsGrammar | src/script/grammar.peg:1-102 | the parser gives a tree for a source if and only if that tree derives the source |
| Completeness.RefusedExactly | src/script/parser.rs:23-26 | a source is a syntax error if and only if no tree derives it |
| Language.SourceToProgram | src/script/parser.rs:23-52 | at most one tree derives a source; the program is a syntax error without one, a panic if it is not supported, and else what the items of the tree stand for |
| Shape.ValuesAreTrimmed | src/script/grammar.peg:1-33 | wherever a value occurs in an accepted source, its text is trimmed |
| Builder.BuildAstFromMInstr | src/script/parser.rs:54-94 | the loop yields the machine instructions in order, or a panic if any of them panics |
| Builder.BuildAstFromInstr | src/script/parser.rs:139-219 | the loop yields the instructions in order, or a panic if any of them panics |
| Builder.BuildAst | src/script/parser.rs:33-38 | the loop builds expressions and the machine in order and passes over everything else |
| Totality.ArgTotal | src/script/parser.rs:150-186 | an argument is built exactly if it is an identifier, quoted text, or a helper whose arguments are quoted or helpers; the result has its texts |
| Totality.NestedHelperReduced | src/script/parser.rs:161-182 | a helper given to a helper becomes a constant holding its name |
| Totality.InstructionTotal | src/script/parser.rs:139-219 | an expression is built as an instruction exactly if it is a handled one with a non-empty list of supported arguments, and then from the first of them, a task also from the others in order |
| Totality.NestedFunctionPanics | src/script/parser.rs:139-186 | a function inside a function always panics |
| Totality.MInstructionTotal | src/script/parser.rs:59-90 | a machine instruction is built exactly if it is a server with a 16-bit port, a profile with an argument, or a path with quoted text, where a port is a row of digits worth less than 65536; the result has that number or text |
| Totality.WorkTotal | src/script/parser.rs:96-118 | a work unit's head is built exactly if it has a parameter list; each key then has the value of its last parameter |
| Totality.RateIsLast | src/script/parser.rs:224-247 | the rate read is that of the last `rate` option, or zero |
| Totality.DistTotal | src/script/parser.rs:221-251 | a distribution is built exactly if that text reads as a number, and has that rate |
| Totality.DistNameIgnored | src/script/parser.rs:221-251 | distributions with the same options are built alike whatever their name |
| Totality.FunctionTotal | src/script/parser.rs:120-137 | a function is built exactly if head, instructions and distribution are supported, and then from these |
| Totality.BuilderTotality | src/script/parser.rs:23-52 | on accepted sources the builder returns if and only if the tree is supported, with one node per top-level item in order, each what its item stands for, only the first possibly a machine |
| Decimal.DecWritten | src/worker/bpf.rs:83 | numbers are written with the usual ten digits, the last one last |
| Decimal.ParseU16Exactly | src/script/parser.rs:63-68 | exactly the digit strings worth less than 65536 by position, possibly behind a plus sign, are read as a port, and as that number |
| Decimal.ParseU16Dec | src/script/parser.rs:66-69 | every 16-bit port written in decimal is read back |
| Tokens.IdentRead | src/script/grammar.peg:4-5 | a printed identifier is read exactly, up to the padding |
| Tokens.ValueReadExactly | src/script/grammar.peg:1-30 | the text of a value, followed by any skipped text, is read back if and only if no comment stands directly behind its last slash |
| Tokens.ValueRead | src/script/grammar.peg:30 | a printed value keeps its text in every layout |
| Tokens.QuotedRead | src/script/grammar.peg:7-8 | a quoted constant keeps its text, padding inside the quotes is dropped, in every layout |
| Tokens.QuotePadding | src/script/grammar.peg:7-8 | padding after an opening quote changes neither the value nor the rest, for any following text |
| Quotes.PaddingBeforeQuote | src/script/grammar.peg:7-30 | any constant with skipped text put before its closing quote, whatever its text and whatever follows, is read up to the same place, and keeps its value if and only if that is no comment directly behind a slash |
| Respelling.SkipAt | src/script/grammar.peg:1-2 | skipping in front of a constant outside comments stops at the same place whatever the constant is |
| Respelling.PQuotedAt | src/script/grammar.peg:7-8 | a constant is read alike in both sources, whether it stands before, at or behind the place where they differ |
| Productions.PArgsAt | src/script/grammar.peg:12-29 | an argument list is refused in both sources or read with similar pairs |
| Productions.PFunctionAt | src/script/grammar.peg:61-80 | a function, nested to any depth, is refused in both sources or read with similar pairs |
| Productions.PFileAt | src/script/grammar.peg:100-102 | a source is accepted if and only if it is with the constant written differently, and the trees differ only in text the builder does not read |
| Constants.ConstantStands | src/script/grammar.peg:1-102 | every quoted constant in the tree of an accepted source is read at a place outside comments and other quotes |
| SameProgram.ArgSimilar | src/script/parser.rs:150-186 | arguments whose pairs differ only in spans are built alike |
| SameProgram.FunctionSimilar | src/script/parser.rs:120-137 | functions whose pairs differ only in spans are built alike |
| SameProgram.ArgTextAt | src/script/parser.rs:63-77 | the raw text of an argument changes exactly if it contains the constant that was written differently |
| SameProgram.MInstrsMatch | src/script/parser.rs:54-94 | the instructions of a machine panic alike, and differ exactly if the constant belongs to the first argument of a profile |
| SameProgram.Respelled | src/script/parser.rs:23-94 | writing a constant of an accepted source differently, with the same value, changes the result if and only if it is part of the first argument of a profile and the builder does not panic |
| SameProgram.PaddedConstant | src/script/parser.rs:155-157 | the same for padding inside the quotes of a constant |
| SameProgram.EveryConstantPadded | src/script/parser.rs:71-157 | the same for every quoted constant in the tree of every accepted source |
| Tokens.DigitsRead | src/script/grammar.peg:9 | a number of two or more digits drops the padding after it |
| Tokens.DigitRead | src/script/grammar.peg:9 | a one-digit number keeps all the skipped text after it |
| Phrases.VariableNotDynamic | src/script/grammar.peg:20-27 | although helpers are tried first, no variable is taken for one, whatever its name starts with |
| Phrases.ArgRead | src/script/parser.rs:150-186 | every printed argument is read and built back, a helper inside a helper as its name, and spans its text in the source |
| Phrases.ArgsRead | src/script/grammar.peg:29 | every printed argument list is read and built back, element by element |
| Phrases.CallIsNoFunction | src/script/grammar.peg:61-80 | although functions are tried first, no call with arguments is taken for one |
| Phrases.InstructionRead | src/script/parser.rs:139-219 | every printed instruction is read and built back |
| Phrases.ParamsRead | src/script/grammar.peg:32-33 | every printed parameter list is read with its keys and values in order |
| Phrases.FuncNameRead | src/script/grammar.peg:35-49 | each of the six function names is read as itself, in spite of those tried before it |
| RoundTrip.FunctionRead | src/script/parser.rs:96-137 | every printed work unit is read and built back, with parameters as a map and its distribution |
| RoundTrip.MachineRead | src/script/parser.rs:46-94 | every printed machine is read and built back |
| RoundTrip.WorkIsNoMachine | src/script/grammar.peg:98-102 | no work unit is taken for the machine, even if called `machine` |
| RoundTrip.RoundTrip | src/script/parser.rs:23-251 | every valid script, printed with any layout, any trailing commas and any distribution names, parses and builds to its meaning, which is a panic if a one-digit port is padded |
| RoundTrip.PaddedDigitPanics | src/script/parser.rs:63-70 | a printed script makes the builder panic if and only if something stands between a one-digit port and its parenthesis |
| RoundTrip.LayoutMatters | src/script/grammar.peg:1-10 | two layouts of a script give the same result if and only if both panic, or none does and the profile targets have the same raw text |
| RoundTrip.LayoutIrrelevant | src/script/grammar.peg:1-10 | without one-digit ports and with identifiers as profile targets, the layout does not matter |
| RoundTrip.EveryTreeIsParsed | src/script/ast.rs:3-48 | every syntax tree of the supported fragment is the result of parsing some source in any given layout (which leaves single digits alone if there is a one-digit port) |
| Sources.SlashLost | src/script/grammar.peg:1-33 | two sources: a comment directly behind a slash takes the slash, one set off by a space does not |
| Sources.TargetKeepsPadding | src/script/parser.rs:71-77 | two accepted sources that differ in padding around the quotes of a profile target only and give different machines |
| Sources.BehindPort | src/script/parser.rs:63-70 | for any skipped text p, the source `machine{server(8p);}` gives a server if p is empty and a panic otherwise |
| Sources.NestedHelperLost | src/script/parser.rs:161-182 | a source with a helper inside a helper: the argument of the inner one is lost |
| Sources.TrailingText | src/script/grammar.peg:100-102 | `a(){})` is a syntax error |
| Sources.BareWorkPanics | src/script/parser.rs:96-101 | a work unit without parameter list is accepted by the grammar and makes the builder panic, for every name but `machine` and every layout |
| ArgsMap.JoinOfSplit | src/lib.rs:84-86 | splitting at commas loses nothing and leaves no comma |
| ArgsMap.SplitOfJoin | src/lib.rs:84-86 | splitting joined comma-free segments gives them back |
| ArgsMap.SplitOnceMeaning | src/lib.rs:87-88 | a segment is split at its first equals sign, if it has one |
| ArgsMap.ParseFails | src/lib.rs:84-98 | parsing fails exactly if some non-empty segment has no equals sign |
| ArgsMap.ParseLookup | src/lib.rs:84-95 | otherwise each key gets the value of its last segment, and there are no other keys |
| ArgsMap.RenderParse | src/lib.rs:80-99 | rendered entries with any extra commas parse to the map they list |
| ArgsMap.RoundTrip | src/lib.rs:80-99 | a map rendered in any order with any extra commas parses back to itself |
| BpfNames.NameIs | src/worker/bpf.rs:82-89 | a name is the first 16 bytes of `berserker`, the number in decimal, and zero bytes |
| BpfNames.SecondName | src/worker/bpf.rs:82-89 | program 1 is named `berserker1` |
| BpfNames.Overlay | src/worker/bpf.rs:84-88 | copying replaces a prefix of the buffer and leaves the rest as it was |
| BpfNames.NamePrograms | src/worker/bpf.rs:82-89 | although the buffer is never cleared, program i gets exactly its own name, cut to 16 bytes and zero-padded |
| BpfNames.Terminated | src/worker/bpf.rs:48-89 | a name contains a zero byte if and only if its number is below one million |
| BpfNames.NamesDistinct | src/worker/bpf.rs:82-89 | the names of n programs are pairwise different if and only if n is at most ten million |
| BpfNames.Collision | src/worker/bpf.rs:82-89 | programs 1000000 and 10000000 get the same name |
| PortRanges.Bounds.constructor | src/main.rs:57-58 | both bounds start at 1024 |
| PortRanges.Bounds.NewWorker | src/worker/mod.rs:33-57 | a worker starts at the previous upper bound and takes as many ports as sampled |
| PortRanges.ProductAt | src/main.rs:71-79 | pair i is core i / workers with process number i % workers |
| PortRanges.ProductOnce | src/main.rs:71-79 | every pair of core and process number comes up exactly once |
| PortRanges.CreateWorkers | src/main.rs:71-101 | the workers created get contiguous ranges in slot order and leave the final bound |
| PortRanges.PortsPartitioned | src/worker/endpoints.rs:50-58 | in one round the workers together try each port from 1024 up to the final bound exactly once |
| PortRanges.PortHasOneOwner | src/worker/mod.rs:33-57 | a port belongs to a worker if and only if it is below the final bound, and ranges do not overlap |
| PortRanges.StartWorkers | src/main.rs:57-101 | the workers get contiguous ranges core by core and process by process: worker k runs on core k / workers as process k % workers |
| PortRanges.PortHasOneSlot | src/main.rs:71-101 | a port lies between 1024 and the final bound if and only if a pair of core and process number owns it, and never two pairs |
| PortRanges.UniformBounds | src/worker/mod.rs:42-49 | uniform sampling keeps the final bound between the worker count times lower and times upper - 1 |

## Left out

- smoltcp polling, TCP states, receiving, the contents of messages, the tun device and fault injection: foreign library and device I/O; only the socket table is kept.
- `connect(..).unwrap()`: failures of smoltcp are not modelled; `Addressing.PortZero` says when the local port would be refused.
- `start_server`: blocking socket I/O without state of its own.
- Random distributions and floating point: draws are arbitrary values in their legal range, lifetimes and intervals are already rounded.
- Text to double: an arbitrary partial function of the text.
- Clocks that go back, `conns_per_addr` of zero, and preemption with no dynamic connections: the program aborts on them.
- PortRanges.CreateWorkers: stated for ranges whose final bound fits 64 bits, as a wrapped bound would end the sequence of ranges.
- RoundTrip.RoundTrip: scripts with nested functions, variables given to helpers, several options in a distribution, or digits as profile target are accepted by the grammar but are not printed; what happens to them is covered by `Totality`.
- RoundTrip.RoundTrip: layouts with a comment directly behind a value that ends in a slash are excluded, because there the program reads another value (`Tokens.ValueReadExactly`).
- SameProgram.PaddedConstant: a comment directly behind a slash is excluded for the same reason; `Quotes.PaddingBeforeQuote` says what it does to the value.
- Syscall and io_uring workers, process spawning, fork, kill and waitpid: operating-system calls.
- Configuration loading, defaults, `ArgsMap::get`, logging and `Display`: plumbing.
- `apply_rules`: the identity.
- BPF and perf event attributes other than the program name: foreign structures.
- Threads of `EndpointWorker::run_payload`: only the list of ports they are started for.

# Proofs about the ipnx tools

Dafny models of the parts of this repository that hold an algorithm, a protocol or a
device, and proofs of what each of them keeps. Every model follows its source branch
by branch. Where the source changes state in place, a class or a loop here does the
same and its contract ties it to a function of the old state; the theorems are lemmas
about those functions and about whole runs of them.

`dafny verify dfyconfig.toml` checks everything. The files fall into eight groups,
which do not depend on one another except where said. `Basics.dfy` and `Division.dfy`
are shared.

## The units table (Units*.dfy)

`tools/v10-units.py` holds two readers of one table of units: units.c's, which takes
characters one at a time with one character of push-back, and units.y's, a lexer and a
recursive-descent parser over a hash table of 700 slots; and a translator from the
syntax of the first to that of the second. `UnitsOld` and `UnitsNew` specify the
readers and their values, `UnitsOld.Reader` and `UnitsReader.Reader` are the readers
as they run, `UnitsTranslate` is the translator. The main result is
`UnitsProof.TranslationExactly`: for every definition of the syntax the translator is
meant for (at most one bar in the number, names that units.y lexes as one identifier),
the translation means to units.y what the original means to units.c if and only if
both refuse it, or the powers dropped from primitive dimensions cancel and a written
zero is multiplied by a unit that is worth zero anyway. `PowerDropped` and
`ZeroBecomesOne` are the two ways it fails. What each grammar means is said apart from
the readers' own functions: `UnitsExpressions.ExpressionRead` gives the value of every
line of units.y's (numbers, names, primitives, powers, `square` and `cubic`,
parentheses, products and quotients, however spaced),
`UnitsDefinitions.DefinitionRead` that of every definition of units.c's, over the
decimal numbers of `UnitsNumerals`; and a name is worth, by
`UnitsPrefixes.FindExactly` and `OldFindExactly`, the product of its prefixes' factors
times a unit's, and is unknown if and only if it does not fall apart so. The hash
table is proved to be a map in which the first definition of a name wins, probes end
on a full table, and a definition fails exactly when the table or the name buffer is
full.

## Case collisions and the case map (Names, Collisions, V8Import, V8Tree, V8Extract, CaseMap*)

`Collisions.Resolves` says what a resolution of case collisions is; both resolvers are
proved to make one (`V8Import.ImportResolves`, `V8Extract.ResolveCollisions`), and
`Collisions` proves that any resolution of percent-free paths stores different paths
apart even after folding, and changes nothing where nothing collides.
`Names.EscapeClashesExactly` says which names have another whose escape folds like
theirs: those with a capital, and those that spell the code of a capital after a
percent sign. `V8Tree` runs the importer's two functions as they are, on nodes changed
in place and groups in a dictionary, and shows that the order in which the groups are
taken does not matter. `CaseMapProof` proves exactly when the file server, reading
back the case map, undoes the escaping: `OnDiskExactly` and `ShownExactly` hold for
every path if and only if no renamed component lies below an escaped top-level
directory or below two escaped directories. The comment in `tools/netfsd.py` does not
mention these; the two ways are `TopEscapeLost` and `TwoEscapesLost`, and
`CaseMapSources.TopTape` and `TwoTape` are tapes whose files the importer stores and
the server never finds. The extraction tool's maps stand one directory deeper, so for
them only the second matters (`CaseMapSources.ExtractRecovered`).

## The NI1010 Ethernet controller (Il*.dfy)

`IlModel` is `libsimh/patches/pdp11_il.c` as a step machine with a log of what was
done to the guest; `IlDevice.Device` is the same board with its fields changed in
place, each function of the C file a method. `IlRuns` proves what every step keeps,
`IlTheorems` what follows for whole runs: buffers filled once each in the order
supplied, every frame complete or cut at a buffer whose count is not a multiple of 8,
interrupts conserved, fragments sent as one frame. What holds only without RESET,
FLUSH, loopback or a DMA fault is stated so, and `IlCases` has runs from power-up that
show what these do instead: RESET leaves the frame in flight and both RESET and FLUSH
the request (`FrameOutlivesReset`, `FlushLeavesRequest`, `ResetLeavesRequest`), a
loopback transmission abandons the frame in flight (`LoopbackOverrunsOne`). The
comment at lines 848-850 promises a clock-paced poll after every burst;
`IlPolling.ClockRun` says exactly which calls of a run ride the clock, and
`IlCases.SteadyTraffic` is a run, as long as one likes, in which none does.
`IlCommands` says what each command code does and answers, by its number;
`IlReports.StatReports` and `IlCounts.PacketsCounted` say what STAT tells the driver
after any run: the address the board was last given, and its packets.

## The netfs server (Netfs*.dfy)

`NetfsModel` is the state and the requests of `tools/netfsd.py`, `NetfsServer` its
classes. `NetfsRuns` proves over every run that each inode has at most one handle,
tags are never reused, and an object's number never changes. The main result about
directories is `NetfsListing.ListedOpens` with `OpensListed`: on a directory that does
not change, whose case map rows are one-to-one and clash with no name on disk, every
listed name opens under exactly the number listed, in any later state, and a name that
opens is listed if and only if it is fourteen bytes long or not the stored spelling of
a renamed name: a guest that types the escaped spelling gets a file it cannot see, as
on the share of `NetfsCases.SpellingOpens`.

A deletion removes the path kept in the object's handle, which is the one the handle
was made with. `NetfsDelete.AskedIs` gives it for every request after every run, and
`NamedExactly` says when it is the path the guest named: if and only if no live handle
is that object's or the handle was made with that path. With one name to an object
that is always so (`OneNameDeletes`); with two, deleting one after looking up the
other removes the other (`NetfsCases.OtherNameRemoved`). The root of the export is
refused under `..` and asked for under `.` or an empty name, and in no other case
(`RootAskedExactly`, `NetfsCases.DotAsksForRoot`).

`NetfsReplies` gives the reply to every request and the tables after it, without the
server's own functions. `NetfsImages` proves that a directory's image is that of the
directory as the host has it: whenever its path or number is asked for, and, over
every run, after a name in it was made, linked or deleted (`NameMade`, `NameDeleted`);
on the share of `NetfsCases.FileShown` a file just made is listed.

## The 9P2000.u server (Nine*.dfy)

`NineQids` is the double-checked qid table under every interleaving of threads;
`NineWire` the encoding, which `NineBytes` gives byte by byte; `NineDir` paged reads
of a directory snapshot; `NineModel`, `NineRuns` and `NineServer` a connection's fid
table under every sequence of messages; `NineReplies` says of each message what it is
answered and what it leaves of the table, and `NineComponents` what the paths are in
components; `NineSession` the size and dialect that they agree on; `NineEnds` what
ends a connection; `NineUnlink` what its clients can have unlinked. The requirements
are those of walk(5), read(5), open(5), clunk(5), remove(5) and version(5) in section
5 of the Plan 9 Programmer's Manual.

A size under 7, or more than 24 over the agreed one, ends the connection
(`NineEnds.ServeGoneExactly`). Of a message that is framed well `serve` answers its
own errors and OSError, and every other exception ends the connection and drops every
fid. `NineEnds.GoneExactly` says for every state and message when that happens: a read
or write of a fid with nothing behind it or at an offset of 2^63 or more, a walk that
comes to a name with a NUL, a device whose numbers makedev() does not take, a rename
to a name with a NUL, a length of 2^63 or more. `NeverGone` is what a client can do
about it, and a lemma for each case is a connection from its start, on a host that
makes nothing up, that ends so. Two more findings. A read reply may be empty before
the end (`NineDir.EmptyExactly`). And while Tremove refuses the export's root, a clunk
asks the host to remove it: `NineUnlink.RootUnlinkedExactly` says over every run that
this happens if and only if the share is writable and the fid clunked was opened on
the root with the bit for removal on close and not given up since.

## The filesystem readers (Blocks, BlockTrees, TreeWalk, TreeRecords)

One model for `tools/v8fs.py` and `tools/v10fs.py`, with the block size as a
parameter. `Blocks` relates `bmap` to the digits of the block number and proves the
map from blocks to slots a bijection; `BlockTrees` lays a tree of addresses on a disk
and proves that `bmap` gives each block its address, at every level. `TreeRecords`
lays out directories, and any bytes are one so laid out; `TreeWalk` proves that the
walk ends on every directory graph, expands each reachable directory once, and yields
every entry of those and nothing else.

## The saved session (Snapshot*.dfy)

`Snapshot` is the part of `app/ipnx/Machine.swift` that handles marker files and the
phase, one file operation at a time, with a simulator beside it that obeys what its
control console was sent, writes while it runs and nothing while it is stopped, and
with a crash allowed between any two operations. `SnapshotApp.Machine` has the methods
as they run undisturbed, each proved to be a run of such steps. `RestoredOnce` and
`NeverUpMarked` hold over every run, and `SnapshotPhases.PhaseTells` says what the
phase on the screen means.

A snapshot can be restored over a disk that it does not belong to.
`SnapshotStale.StaleExactly` says for every launch that any run comes to when: if and
only if there is a snapshot, no attempt marker, nothing staged, and the working disk
is another than the snapshot's or gone; `DeathExactly` says the same of the files the
app leaves behind wherever it dies. `SnapshotCases` has runs from the first launch
that come to it: a death after `continue` and before the snapshot is deleted, a save
that came too late, and a death in the middle of a staged reset; and
`PausedDeathHarmless`, for a death while suspended, does not.

## Telnet, WebSocket and archives (Telnet, WebSocket, Archive, Ar*)

Both Telnet filters output exactly the data of a stream however it is cut into chunks,
the Swift one also the bodies of subnegotiations. WebSocket frames read back as
written up to the reader's limit of 2^20 bytes. The comment in `tools/ipnxweb.py` says
that a client that sends an unmasked frame must be dropped; `ws_read` accepts one
(`WebSocket.ServedRead`), against section 5.1 of RFC 6455. `ArHeaders.PassesExactly`
says which sixty bytes are a header, `ArNumbers.SizeExactly` which size fields are a
number to int(). The two archive readers recover the bodies that were written. The one
of `tools/v8-import.py` reads its size field with int(), which takes a minus sign:
`ArWalk.StopsExactly` says that it returns if and only if its walk never comes to one
offset twice, and `StuckForEver` is an archive of one member on which it does not.

## Model

| member | source | states |
|---|---|---|
| UnitsOld.Reader.Get | tools/v10-units.py:127-137 | the next character and the one pushed back, a NUL among them being lost |
| UnitsOld.Reader.ReadTerm | tools/v10-units.py:139-179 | one number: its digits, the places after the point and the exponent, as the value of the text scanned |
| UnitsOld.Reader.GetNumber | tools/v10-units.py:139-179 | the leading number with its chain of divisions, the position after it, and division by zero refused |
| UnitsOld.Reader.Lookup | tools/v10-units.py:181-208 | a unit applied once for each repetition the next character asks for; an unknown name counts and leaves the value |
| UnitsOld.Reader.Convert | tools/v10-units.py:210-234 | a whole definition read from the position in the text: value, position, unknown names and errors |
| UnitsOld.GetFltCases | tools/v10-units.py:139-179 | a number followed by a bar is divided by all that comes after it |
| UnitsOldSide.NamesAreFactors | tools/v10-units.py:210-234 | the old reader's character loop multiplies exactly the factors that the translator lists, in order |
| UnitsOldSide.OldMeaning | tools/v10-units.py:210-234 | a definition means its number (zero counting as one) times the factors above the line over those below |
| UnitsReader.Reader.constructor | tools/v10-units.py:322-328 | an empty table of 700 slots |
| UnitsReader.FirstDefinitionWins | tools/v10-units.py:490-527 | after any sequence of definitions a name has the value it was given first |
| UnitsReader.ProbeReaches | tools/v10-units.py:335-354 | a linear probe from any hash comes to every slot |
| UnitsReader.StoreKeepsPlaced | tools/v10-units.py:490-527 | filling the first empty slot of a probe keeps every name findable from its own hash |
| UnitsReader.Reader.Probe | tools/v10-units.py:335-354 | an exact probe finds precisely the first definition of a name, or nothing, and ends on a full table |
| UnitsReader.Reader.Look2 | tools/v10-units.py:335-354 | a name that is not in the table loses its first fitting prefix at a time, the factors being multiplied, until a unit or nothing is left; what that is worth is UnitsPrefixes.LookExactly |
| UnitsReader.Reader.Lookup | tools/v10-units.py:356-363 | and a name that is nothing so is looked up without its final s; UnitsPrefixes.FindExactly says what it is worth |
| UnitsPrefixes.FindExactly | tools/v10-units.py:335-363 | the value of a name is q if and only if the name is prefixes and a unit (or nothing) with nothing defined on the way and each prefix the first that fits, q being the product of their factors times the unit, or the name means nothing so and without its final s it does |
| UnitsPrefixes.LookExactly | tools/v10-units.py:335-354 | the same of look2(), which leaves a final s alone |
| UnitsPrefixes.OneMeaning | tools/v10-units.py:335-354 | a name falls into prefixes and a unit with one value only |
| UnitsPrefixes.OldFindExactly | tools/v10-units.py:181-208 | the same of units.c's lookup: prefixes, a unit and any number of final s's, a bare prefix being nothing |
| UnitsPrefixes.Kilometer | tools/v10-units.py:335-363 | with a meter of 1 defined, a kilometer is 1000 |
| UnitsNumerals.NumeralRead | tools/v10-units.py:375-396 | a decimal number in a line is its digits by their places, moved as its dot and its exponent say, with its sign |
| UnitsExpressions.ExpressionRead | tools/v10-units.py:365-488 | for every line of the grammar, however spaced: what is multiplied in over what is divided by, each term to its powers, squares and cubes by keyword, dimensions added up so; refused if and only if something is divided by zero, zero is raised to a negative power, a power is broken or a dimension is none |
| UnitsDefinitions.DefinitionRead | tools/v10-units.py:139-234 | for every definition written in numbers, names and separators: a number over what each bar is followed by, one if it is zero, times the names before a slash over those after it, each to the power of the digit that ends it; unknown names are counted and only a division by zero is refused |
| UnitsDefinitions.NumeralScanned | tools/v10-units.py:139-179 | getflt's number: blanks, digits by their places and an exponent after its sign |
| UnitsReader.Reader.Define | tools/v10-units.py:490-527 | storing refines the map that keeps first definitions, and fails exactly when the table or the name buffer is full |
| UnitsReader.Reader.LexText | tools/v10-units.py:365-414 | the lexer's loop produces the specified tokens or the specified error for every text |
| UnitsReader.Reader.ReadUnit | tools/v10-units.py:432-444 | products and divisions read from the token list leave the value and the index the grammar gives |
| UnitsReader.Reader.ReadTerm | tools/v10-units.py:446-483 | a term with its powers |
| UnitsReader.Reader.ParseText | tools/v10-units.py:416-422 | a whole line, to its end or refused |
| UnitsReader.Reader.ReadDefinition | tools/v10-units.py:490-527 | a line of the table is parsed in the table so far, then stored; it fails exactly if it does not parse or there is no room, and leaves the table as before |
| UnitsTranslate.CollectTerms | tools/v10-units.py:543-577 | the translator's scan of the number reads the terms that the old reader would |
| UnitsTranslate.SplitNumber | tools/v10-units.py:543-577 | the number re-spelled and the text that follows it |
| UnitsTranslate.SplitFactors | tools/v10-units.py:579-594 | the names with their powers and their side of the line |
| UnitsNewSide.LexNumeral | tools/v10-units.py:365-414 | the new lexer reads a re-spelled number as the value the old reader gave the original |
| UnitsNewSide.LexBody | tools/v10-units.py:365-414 | the translation lexes to the number, the factors above, and the divisor |
| UnitsProof.ExpressionIs | tools/v10-units.py:602-613 | the translator's output is the number, the factors above the line and one divisor |
| UnitsProof.NewMeaning | tools/v10-units.py:416-488 | what the new grammar makes of that output |
| UnitsProof.Readings | tools/v10-units.py:596-613 | the two readings have dimensions that differ by exactly the dropped powers, and coefficients that differ only for a written zero |
| UnitsProof.Translation | tools/v10-units.py:602-613 | translating keeps coefficient and dimensions when no zero is written and primitives stand at power one |
| UnitsProof.TranslationExactly | tools/v10-units.py:596-613 | exactly when the translation keeps the meaning, for every translatable definition |
| UnitsProof.PowerDropped | tools/v10-units.py:597-598 | a power on a primitive dimension is lost |
| UnitsProof.ZeroBecomesOne | tools/v10-units.py:212-213 | a definition of zero is one to the old reader and zero to the new |
| Names.EscapeOneComponent | tools/v8-import.py:113-115 | an escaped name is still one path component |
| Names.EscapeApart | tools/v8extract.py:52-54 | escapes of different percent-free names stay different under case folding |
| Names.EscapeClashesExactly | tools/v8-import.py:113-115 | another name's escape folds like a name's if and only if the name has a capital or a percent sign before the code of one |
| Names.PercentCollides | tools/v8-import.py:113-115 | the plain case: A and %41 |
| Collisions.SiblingsApart | tools/v8-import.py:141-165 | in a resolved tree two names of one directory are stored apart after folding |
| Collisions.StoredApart | tools/v8extract.py:57-112 | different paths of a resolved tree are stored apart after folding |
| Collisions.StoredTextsApart | tools/v8-import.py:141-165 | so are their slash-joined spellings, as the host compares them |
| Collisions.NothingChanged | tools/v8extract.py:57-112 | a tree with no collisions is stored as it is |
| V8Import.BuildPaths | tools/v8-import.py:128-138 | the tree holds every prefix of every path on the tape and nothing else |
| V8Import.BuildOrder | tools/v8-import.py:128-138 | a node has the order of the first entry that mentions it |
| V8Import.OneKeeps | tools/v8-import.py:141-165 | in a group that folds alike one name at most is kept, and a loser has a capital |
| V8Import.ImportResolves | tools/v8-import.py:141-165 | the importer's renaming is a resolution of the tree's collisions |
| V8Import.FlattenStores | tools/v8-import.py:141-165 | every path emitted goes with its stored spelling, component by component, in whatever order |
| V8Import.TapeEmitted | tools/v8-import.py:128-165 | every file of the tape is emitted, under its own path |
| V8Import.ReportIsRenaming | tools/v8-import.py:141-165 | the collisions reported are exactly the renamed paths, each with its stored spelling |
| V8Import.ImportSafe | tools/v8-import.py:141-165 | for every tape of percent-free names no two emitted paths are stored alike after folding |
| V8Tree.Cell.Insert | tools/v8-import.py:128-138 | one entry walked into a tree of nodes changed in place grows it as specified |
| V8Tree.BuildTree | tools/v8-import.py:128-138 | the whole tape, entry by entry |
| V8Tree.GroupChildren | tools/v8-import.py:145-147 | children grouped by folded name, every child in one group |
| V8Tree.Canon | tools/v8-import.py:149-154 | the one member of a group that keeps its name, by the sort and the count of names without capitals |
| V8Tree.FlattenTree | tools/v8-import.py:141-165 | group by group and below, the two lists hold exactly what is specified, each item as often |
| V8Tree.AnyOrder | tools/v8-import.py:148-164 | however the groups order the children, together they give the same |
| V8Extract.LeastOf | tools/v8extract.py:96-97 | the winner of a group has the fewest capitals, then comes first |
| V8Extract.Group | tools/v8extract.py:79-88 | every component of every path is grouped with those of its directory that fold alike |
| V8Extract.ResolveGroup | tools/v8extract.py:93-103 | the losers of one group are escaped and recorded, unless an escape still clashes |
| V8Extract.ResolveCollisions | tools/v8extract.py:57-103 | percent-free paths are always resolved; the rows say the renaming, parents before what is beneath them |
| V8Extract.StoredPath | tools/v8extract.py:105-112 | a path's stored spelling, its renamed components replaced |
| V8Extract.ExtractSafe | tools/v8extract.py:57-112 | percent-free paths that differ are stored apart after folding; nothing changes where nothing collides |
| CaseMap.Map.constructor | tools/netfsd.py:185-208 | reading the rows fills the two dictionaries as specified |
| CaseMapProof.RewriteIs | tools/netfsd.py:202-208 | a directory is filed with one component escaped: the shallowest renamed one below the top |
| CaseMapProof.OnDiskExactly | tools/netfsd.py:185-216 | looking a path up component by component finds its stored path if and only if it is recoverable |
| CaseMapProof.ShownExactly | tools/netfsd.py:210-212 | and a listing shows the true path again under the same condition |
| CaseMapProof.ReadBack | tools/netfsd.py:185-216 | both directions at once |
| CaseMapProof.OthersUntouched | tools/netfsd.py:214-216 | a name never renamed passes through unchanged |
| CaseMapProof.TopEscapeLost | tools/netfsd.py:202-208 | a row below an escaped top-level directory is mistranslated |
| CaseMapProof.TwoEscapesLost | tools/netfsd.py:202-208 | a row below two escaped directories is mistranslated |
| CaseMapSources.SortedWritten | tools/v8-import.py:341-345 | rows sorted by path put every directory before what it holds |
| CaseMapSources.ImportRecovered | tools/v8-import.py:341-345 | for every tape: the server reading the importer's map finds and shows each file exactly if it is recoverable |
| CaseMapSources.ExtractRecovered | tools/v8extract.py:191-212 | for every extraction into a tree of a fresh share: exactly if no renamed component is below two escaped ones |
| CaseMapSources.LostOnTape | tools/v8-import.py:341-345 | a file of a tape that is not recoverable is stored, and neither found nor shown by the server |
| CaseMapSources.TopTape | tools/netfsd.py:202-208 | a tape of three files, one of them lost below an escaped top-level directory |
| CaseMapSources.TwoTape | tools/netfsd.py:202-208 | a tape of four files, one of them lost below two escaped directories |
| IlModel.DmaAddress | libsimh/patches/pdp11_il.c:332-335 | an address of 18 bits |
| IlDevice.Device.constructor | libsimh/patches/pdp11_il.c:875-896 | the state at power-up, every field of it, from which the runs start |
| IlDevice.Device.SetReceiveInterrupt | libsimh/patches/pdp11_il.c:376-385 | one more completion pending and the request up, if the driver asked to hear of them |
| IlDevice.Device.AcknowledgeReceive | libsimh/patches/pdp11_il.c:397-417 | one completion reported; the request stays while others are pending |
| IlDevice.Device.AcknowledgeCommand | libsimh/patches/pdp11_il.c:387-395 | the command request and its vector |
| IlDevice.Device.ReadStatus | libsimh/patches/pdp11_il.c:421-430 | reading the status register clears the done bits and keeps the status |
| IlDevice.Device.RxPump | libsimh/patches/pdp11_il.c:759-795 | one buffer filled from the frame in flight, with the counters, status and interrupt |
| IlDevice.Device.DeliverFrame | libsimh/patches/pdp11_il.c:694-727 | a frame dropped and remembered, or put in flight behind its four-byte header |
| IlDevice.Device.PollWire | libsimh/patches/pdp11_il.c:809-819 | frames taken while there is a buffer for the next and none is in flight |
| IlDevice.Device.Serve | libsimh/patches/pdp11_il.c:804-860 | a service call: finish a chain, poll, and choose the next call's pace |
| IlDevice.Device.WriteCommand | libsimh/patches/pdp11_il.c:478-692 | a command word: enables first, then the command, then its status and CDONE |
| IlDevice.Device.Load | libsimh/patches/pdp11_il.c:574-618 | transmit fragments held until the one that sends |
| IlDevice.Device.SupplyBuffer | libsimh/patches/pdp11_il.c:548-566 | a buffer put last in the ring of sixteen, or refused when it is full |
| IlDevice.Device.ResetBoard | libsimh/patches/pdp11_il.c:494-504 | what RESET clears, and what it leaves |
| IlDevice.Device.FlushRing | libsimh/patches/pdp11_il.c:568-572 | FLUSH also stops the frame in flight |
| IlRuns.Enqueue | libsimh/patches/pdp11_il.c:559-562 | supplying a buffer to the ring puts it last and disturbs no other |
| IlRuns.PartFits | libsimh/patches/pdp11_il.c:759-795 | the next buffer continues its frame within its byte count |
| IlRuns.UsedInOrder | libsimh/patches/pdp11_il.c:793-794 | the buffer used is the oldest supplied |
| IlTheorems.CompleteGivesFrame | libsimh/patches/pdp11_il.c:694-727 | a complete delivery gives the guest exactly the frame that arrived, read by its own length field |
| IlTheorems.DeliverBegins | libsimh/patches/pdp11_il.c:694-727 | a frame that meets a buffer is begun, clipped to 1514 bytes and marked if one was lost |
| IlTheorems.CalmDelivery | libsimh/patches/pdp11_il.c:694-795 | over every run without RESET, FLUSH, loopback or DMA faults: buffers used once each in the order supplied, holding a prefix of header, frame and four zeros; each frame ends complete or at a count not a multiple of 8 |
| IlTheorems.InterruptsConserved | libsimh/patches/pdp11_il.c:376-417 | without RESET or FLUSH: completions raised are vectors returned plus those pending, and the request is up exactly while some are |
| IlTheorems.PendingAsserts | libsimh/patches/pdp11_il.c:376-417 | in every run, a pending completion keeps its request asserted |
| IlTheorems.StaleRequest | libsimh/patches/pdp11_il.c:568-572 | after RESET or FLUSH a vector with nothing pending is returned exactly if the request was up |
| IlTheorems.ResetKeepsFrame | libsimh/patches/pdp11_il.c:494-504 | the first buffer supplied after RESET gets the rest of the old frame |
| IlTheorems.OnlyFlushStops | libsimh/patches/pdp11_il.c:494-572 | RESET leaves a frame in flight, FLUSH never does |
| IlTheorems.LoopbackOverruns | libsimh/patches/pdp11_il.c:608-609 | a loopback transmission abandons the frame in flight exactly if a buffer is waiting |
| IlPolling.ServiceSchedules | libsimh/patches/pdp11_il.c:804-860 | a service call counts and schedules by whether something is attached, no frame is left in flight and one has come |
| IlPolling.StepBurst | libsimh/patches/pdp11_il.c:851-855 | of all that can happen to the board only a service call and RESET change the burst counter |
| IlPolling.RunPaces | libsimh/patches/pdp11_il.c:851-858 | over every run without RESET the calls are paced by the frames they find |
| IlPolling.QuietRun | libsimh/patches/pdp11_il.c:851-858 | in a run with nothing on the wire the unit is back on the clock when its window runs out, and not before |
| IlPolling.ClockRun | libsimh/patches/pdp11_il.c:848-858 | a call of a run rides the clock exactly if the window of the earlier ones has run out and it finds no frame |
| IlPolling.BurstBounded | libsimh/patches/pdp11_il.c:851-855 | the window stays below 200 over every run |
| IlCases.SteadyTraffic | libsimh/patches/pdp11_il.c:848-855 | a run of any length in which a frame comes at every call and no call rides the clock |
| IlCases.FlushLeavesRequest | libsimh/patches/pdp11_il.c:568-572 | a run from power-up in which FLUSH leaves the request up, and a vector with nothing pending |
| IlCases.ResetLeavesRequest | libsimh/patches/pdp11_il.c:494-504 | the same with RESET |
| IlCases.FrameOutlivesReset | libsimh/patches/pdp11_il.c:494-504 | a run from power-up in which a buffer supplied after RESET gets the rest of a frame from before |
| IlCases.LoopbackOverrunsOne | libsimh/patches/pdp11_il.c:608-609 | a run from power-up in which a packet sent in loopback abandons the frame in flight |
| IlTheorems.FragmentsSentOnce | libsimh/patches/pdp11_il.c:574-618 | a packet in any number of fragments leaves as one frame, and nothing before the last |
| IlTheorems.OutgoingParts | libsimh/patches/pdp11_il.c:598-604 | that frame: destination, the board's address, type and data, zeros up to sixty bytes |
| IlReports.RecordIs | libsimh/patches/pdp11_il.c:517-535 | the 66 bytes of STAT: length 62, the address at 4, packets received at 10 and sent at 14, low byte first, the two names at 50 and 58, zeros elsewhere |
| IlReports.RunAddress | libsimh/patches/pdp11_il.c:639-653 | over every run the board has the address last loaded or defaulted, or at power-up if it had none, or the one it began with |
| IlReports.StatReports | libsimh/patches/pdp11_il.c:517-535 | after every run STAT writes as much of that record as was asked for, with that address, or fails and writes nothing |
| IlCommands.OtherCodes | libsimh/patches/pdp11_il.c:654-670 | a code that is not obeyed changes nothing, and is answered with success if it is one of ten and as a bad command otherwise |
| IlCommands.ModeCodes | libsimh/patches/pdp11_il.c:506-638 | online, promiscuous and loopback, set and cleared by their codes, and nothing else |
| IlCommands.AddressCodes | libsimh/patches/pdp11_il.c:639-653 | the address loaded from memory, with its fault, or defaulted, and nothing else |
| IlCommands.BufferCodes | libsimh/patches/pdp11_il.c:494-572 | RESET, FLUSH and RCV by their codes: what is emptied, what is kept, and the refusal of a seventeenth buffer |
| IlCommands.TransmitCodes | libsimh/patches/pdp11_il.c:574-618 | LDXMIT and XMIT by their codes: each status, and the fragments held or dropped |
| IlCommands.PowerClears | libsimh/patches/pdp11_il.c:865-888 | the simulator's reset: registers, interrupts, modes, buffers and fragments cleared, the frame in flight as it was |
| IlCommands.CommandRequest | libsimh/patches/pdp11_il.c:376-417 | after every run the command request is up, and its vector given, if and only if a command with its interrupt enabled came since the last acknowledgment |
| IlCounts.PacketsCounted | libsimh/patches/pdp11_il.c:574-618 | after every run from power-up: received are the frames the guest had to their end, cut short or not, and sent the XMITs that could be |
| IlCounts.FrameDropped | libsimh/patches/pdp11_il.c:694-712 | a frame that finds no buffer marks the next one and counts as an error, and changes nothing else |
| IlCounts.BufferUsed | libsimh/patches/pdp11_il.c:762-795 | a buffer used is reported back, and is an error with its status if and only if the transfer faults |
| IlCounts.ImageBytes | libsimh/patches/pdp11_il.c:694-727 | every byte of a frame as the guest gets it: the mark of a lost one, the length with four, the frame, four zeros |
| IlTheorems.StatusSurvivesRead | libsimh/patches/pdp11_il.c:421-430 | the driver reads CDONE with the command's status, then the same status without CDONE |
| IlTheorems.CsrFields | libsimh/patches/pdp11_il.c:686-691 | the fields of the register are read back from its sixteen bits |
| IlTheorems.ReceiveHidesFault | libsimh/patches/pdp11_il.c:548-692 | a receive command's status never tells of a faulted transfer |
| IlTheorems.AddressJoined | libsimh/patches/pdp11_il.c:332-335 | the driver's split of an 18-bit address over two registers is undone |
| NetfsModel.V8Name | tools/netfsd.py:292-299 | a name cut to fourteen bytes |
| NetfsServer.Server.constructor | tools/netfsd.py:332-345 | a server with nothing numbered and no handle |
| NetfsServer.Server.InodeFor | tools/netfsd.py:347-366 | the root's number, the one kept, the next one, or none left |
| NetfsServer.Server.HandleForPath | tools/netfsd.py:371-394 | the handle of the object at a path, its attributes read again, or a new one under the next tag |
| NetfsServer.Server.HandleForIno | tools/netfsd.py:396-409 | the handle of a number that was given out, if its path still leads to it |
| NetfsServer.Server.HandleFor | tools/netfsd.py:411-435 | the handle of a tag, or of its inode when the tag is gone |
| NetfsServer.Server.ReleaseTag | tools/netfsd.py:437-448 | a handle leaves both tables; the root's stays |
| NetfsServer.Server.ListChildren | tools/netfsd.py:476-495 | the records of a directory, appended one by one |
| NetfsServer.Server.BuildImage | tools/netfsd.py:451-495 | a directory image: the dots, then each name once |
| NetfsServer.Server.LookupName | tools/netfsd.py:498-552 | a name looked up in a directory: dots, names under fourteen bytes, and the scan for those of fourteen |
| NetfsServer.Server.InvalidateParent | tools/netfsd.py:650-663 | the image of the directory a path is in is made again, if it has a handle |
| NetfsServer.Server.GetInode | tools/netfsd.py:814-822 | the NGET request |
| NetfsServer.Server.PutTag | tools/netfsd.py:824-828 | the NPUT request |
| NetfsServer.Server.StatTag | tools/netfsd.py:830-841 | the NSTAT request |
| NetfsServer.Server.Make | tools/netfsd.py:889-915 | creating or linking a name |
| NetfsServer.Server.Nami | tools/netfsd.py:843-887 | the name request and all its modes, with the path a deletion has the host remove |
| NetfsRuns.InoForKeeps | tools/netfsd.py:347-366 | the root is 2, a host object keeps its number, a new one gets the next from 3 until 65534 is given |
| NetfsRuns.ForPathKeeps | tools/netfsd.py:371-394 | asking for a path keeps both tables and names the object there |
| NetfsRuns.RunKeeps | tools/netfsd.py:346-448 | over every run the tables agree, numbers do not change, tags do not come back and the root stays |
| NetfsRuns.OneHandleEach | tools/netfsd.py:371-394 | each inode has at most one live handle |
| NetfsRuns.TagsNeverReused | tools/netfsd.py:437-448 | a tag given up never names anything again |
| NetfsRuns.NumbersStable | tools/netfsd.py:347-366 | an object's number is the same at any later time by any path, in 3..65534, and no other object's |
| NetfsRuns.RootNeverReleased | tools/netfsd.py:437-448 | an existing root handle survives every request |
| NetfsRuns.HardLinksShare | tools/netfsd.py:371-394 | two names of one host object lead to one handle |
| NetfsListing.ScanIs | tools/netfsd.py:472-495 | the scan lists each name once, for the first on disk that truncates to it, under its object's number |
| NetfsListing.ScanComplete | tools/netfsd.py:472-495 | a name with a visible object is always listed |
| NetfsListing.ListedOpens | tools/netfsd.py:451-552 | a listed name opens, in any later state, under exactly the number listed |
| NetfsListing.OpensListed | tools/netfsd.py:498-552 | a name that opens is listed if and only if it has fourteen bytes or is not the stored spelling of a renamed name |
| NetfsCases.SpellingOpens | tools/netfsd.py:498-552 | a share on which the stored spelling opens a file that is listed under its true name alone |
| NetfsReplies.ForPathReaches | tools/netfsd.py:371-394 | asking for a path fails, changing nothing, if and only if nothing is there or no number is left; else the handle is the object's, live or new |
| NetfsReplies.GetAnswered | tools/netfsd.py:814-822 | NGET for every number: the live handle, or the object at the path last seen for it, or no such file and nothing changed |
| NetfsReplies.PutAnswered | tools/netfsd.py:824-828 | NPUT for every tag: an error for 0, and else the handle gone from both tables unless it is the root's or no one's, all others as they were |
| NetfsReplies.StatAnswered | tools/netfsd.py:830-841 | NSTAT for every tag and number: a live tag's own object with its attributes read again, the root for its number, else no such file and nothing changed |
| NetfsReplies.NamiRefused | tools/netfsd.py:843-868 | no handle, a read-only share, no directory: which error, and nothing changed |
| NetfsReplies.RootStandsIn | tools/netfsd.py:411-435 | an unknown tag with the root's number is served as the root |
| NetfsReplies.DotAnswered | tools/netfsd.py:843-887 | a dot or an empty name is the directory itself |
| NetfsReplies.UpAnswered | tools/netfsd.py:843-887 | two dots are the directory above, or the root, which is said to be it and is not deleted |
| NetfsReplies.NameAnswered | tools/netfsd.py:843-887 | a name that means an object is answered with that object's handle and number, whatever the request was for, and NDEL with what the host said |
| NetfsReplies.AbsentAnswered | tools/netfsd.py:843-915 | a name that means nothing is made by NCREAT and NLINK, and answered with the new object's number or the host's error, and is absent otherwise |
| NetfsImages.ForPathShows | tools/netfsd.py:371-394 | a path asked for gives the object's attributes as they are, and a directory's image as it is |
| NetfsImages.GetShows | tools/netfsd.py:396-409 | so does a number |
| NetfsImages.MadeShows | tools/netfsd.py:889-915 | after NCREAT or NLINK every live image of the directory is that of the host's directory now |
| NetfsImages.DeletedShows | tools/netfsd.py:639-663 | and after NDEL |
| NetfsImages.NameMade | tools/netfsd.py:843-915 | the same after every run, for the directory the request named |
| NetfsImages.NameDeleted | tools/netfsd.py:843-887 | the same after every run, for the directory of the object removed |
| NetfsImages.NameShown | tools/netfsd.py:451-496 | such an image lists a name if and only if the host has a visible name that truncates to it |
| NetfsCases.FileShown | tools/netfsd.py:629-663 | a run in which a file just made is in the live image of its directory |
| NetfsDelete.ForPathKept | tools/netfsd.py:371-394 | asking for a path gives the object's live handle, under the path it was made with, or a new one under this path |
| NetfsDelete.AskedIs | tools/netfsd.py:639-648 | after every run, for every request: which path a deletion has the host remove, if any |
| NetfsDelete.NamedExactly | tools/netfsd.py:639-648 | it is the path the guest named if and only if no live handle is that object's or its handle was made with that path |
| NetfsDelete.OneNameDeletes | tools/netfsd.py:639-648 | while no object is met under two paths it is that path in every run |
| NetfsCases.OtherNameRemoved | tools/netfsd.py:371-394 | a run in which deleting one name of a file has the host remove the other |
| NetfsDelete.RootAskedExactly | tools/netfsd.py:873-883 | the root of the export is asked for exactly under a dot or an empty name in it |
| NetfsCases.DotAsksForRoot | tools/netfsd.py:505-512 | a run in which a dot asks for the root where two dots are refused |
| NetfsListing.ImageNamesOnce | tools/netfsd.py:451-495 | no name is in an image twice, dots included |
| NetfsListing.DotsOpen | tools/netfsd.py:498-512 | the dots open as the numbers listed for them |
| NetfsListing.RecordReads | tools/netfsd.py:454-456 | a guest reads a record back as its number and name |
| NetfsListing.ImageAt | tools/netfsd.py:451-495 | the image is its records of sixteen bytes, in order |
| NineQids.SamePathSameFile | tools/9pfsd.py:385-404 | under every interleaving two threads get the same number exactly if they asked about the same file |
| NineQids.RootIsTwo | tools/9pfsd.py:385-404 | the root has 2 and nothing else does |
| NineQids.ExactlyUpToNext | tools/9pfsd.py:385-404 | outside the lock the numbers given are exactly 3 up to the next |
| NineWire.Buf.Number | tools/9pfsd.py:184-187 | a number appended little end first, cut to its width |
| NineWire.Buf.String | tools/9pfsd.py:190-195 | a string appended behind its length |
| NineWire.Parse.Read | tools/9pfsd.py:209-223 | a field taken, or an error with nothing taken |
| NineWire.AllRead | tools/9pfsd.py:178-225 | fields written one after another are read back in order, each number modulo its width |
| NineWire.ShortMessage | tools/9pfsd.py:209-214 | a message cut short anywhere is an error |
| NineWire.StatReads | tools/9pfsd.py:437-475 | a directory entry gives its fields back, and leads to the next exactly if its size fits two bytes |
| NineBytes.NumberIs | tools/9pfsd.py:175-179 | a number's bytes, the least significant first |
| NineBytes.TextIs | tools/9pfsd.py:182-187 | a string's: its length in two bytes, and its bytes |
| NineBytes.EntryBytes | tools/9pfsd.py:437-473 | every byte of a directory entry, plain and extended, in the order of stat(5) |
| NineWire.BareIsPrefix | tools/9pfsd.py:437-475 | the 9P2000 entry is the 9P2000.u entry up to muid |
| NineDir.Page | tools/9pfsd.py:829-833 | one reply: whole entries while they fit |
| NineDir.Snapshot | tools/9pfsd.py:742-783 | the entries and the offsets at which each starts and the last ends |
| NineDir.OffsetsAccepted | tools/9pfsd.py:813-828 | an offset is accepted if and only if it is a boundary of an entry |
| NineDir.PassReads | tools/9pfsd.py:808-833 | a pass never fails and has read the first entries, whole, in order and once each |
| NineDir.PassCompletes | tools/9pfsd.py:808-833 | with counts that hold the next entry a pass reads the whole directory and then nothing |
| NineDir.EmptyExactly | tools/9pfsd.py:829-833 | a reply is empty at the end, or when the count is too small for the next entry, and only then |
| NinePaths.JoinDescends | tools/9pfsd.py:312-348 | a name joined to a path of the export is one, and dirname undoes it |
| NinePaths.DirnameDescends | tools/9pfsd.py:312-348 | going up from below the root stays in the export |
| NineComponents.JoinIs | tools/9pfsd.py:312-348 | joining a name adds it to the components |
| NineComponents.DirnameIs | tools/9pfsd.py:312-348 | going up takes the last component off |
| NineComponents.InsideExactly | tools/9pfsd.py:289-303 | a real path is inside the export if and only if the export's components are the first of its own |
| NinePaths.AboveIsOutside | tools/9pfsd.py:289-303 | the directory above the root is outside it |
| NineSession.VersionAgrees | tools/9pfsd.py:619-639 | the size agreed is at least 256 and the largest that neither the client nor the connection exceeds, or 256; the dialect is one the client asked for or unknown; every fid is gone |
| NineSession.RunAgrees | tools/9pfsd.py:619-639 | over every run size and dialect are those answered last, and the size is never above the greater of 256 and the first |
| NineSession.RunInDialect | tools/9pfsd.py:742-783 | over every run every entry of every open directory is in the form in force |
| NineSession.EntriesInDialect | tools/9pfsd.py:437-473 | over every run from a connection with no fids, the extended form if and only if 9P2000.u was answered last |
| NineSession.UnitFits | tools/9pfsd.py:706-740 | the unit that an open or a create suggests is the size agreed less 24 |
| NineSession.ReadFits | tools/9pfsd.py:785-806 | every reply to a read of a directory has at most that many bytes of entries |
| NineRuns.WalkStays | tools/9pfsd.py:660-690 | as far as it gets a walk stays in the export, with one qid for each element that succeeded |
| NineReplies.ElementExactly | tools/9pfsd.py:312-348 | where one element of a walk leads, for every name: itself, up, the name in the directory, or with 14 bytes the only name cut to it; inside the export, and through links only as -L allows |
| NineReplies.WalkAnswered | tools/9pfsd.py:660-690 | a walk follows that relation from element to element; with all found the new fid is the last, with the first missing an error, with another the qids so far and no fid |
| NineReplies.WalkRefused | tools/9pfsd.py:660-690 | which walks are refused before any element, with which error |
| NineReplies.OpenAnswered | tools/9pfsd.py:706-740 | exactly when a file or a directory is opened, what the fid then is, and each error otherwise |
| NineReplies.ModeBits | tools/9pfsd.py:706-740 | truncation is bit 4 of the mode, removal on close bit 6 |
| NineReplies.CreateAnswered | tools/9pfsd.py:857-906 | exactly when something is made, where the fid then is, and each error otherwise |
| NineReplies.FileRead | tools/9pfsd.py:785-806 | what reading a file gives, which errors there are, and what ends the connection |
| NineReplies.FileWritten | tools/9pfsd.py:835-855 | the same of writing |
| NineReplies.FidGone | tools/9pfsd.py:698-931 | clunk, remove and stat: the fid gone after the first two, and each error |
| NineReplies.RenamedExactly | tools/9pfsd.py:942-978 | where a rename leads, if anywhere, for every name |
| NineReplies.WstatExactly | tools/9pfsd.py:942-1015 | Twstat succeeds if and only if all that was asked for was done, and moves the fid as soon as the rename was |
| NineReplies.AttachAnswered | tools/9pfsd.py:641-651 | an attach gives the root, or says why not |
| NineRuns.RenamedStays | tools/9pfsd.py:942-978 | a rename leads to a path of the export, or is refused |
| NineRuns.RunKeeps | tools/9pfsd.py:641-978 | over every sequence of messages each fid's path is the root or beneath it, and an unopened fid holds no file and no snapshot |
| NineRuns.WalkAllOrNothing | tools/9pfsd.py:660-690 | a walk changes only its new fid, and that only if every element succeeds |
| NineRuns.NoWalkFromOpen | tools/9pfsd.py:660-690 | a walk from an open fid is refused |
| NineRuns.OthersUntouched | tools/9pfsd.py:599-617 | no message touches a fid it does not name |
| NineRuns.RemoveAlwaysDrops | tools/9pfsd.py:908-931 | remove and clunk always drop the fid |
| NineRuns.ErrorKeepsTable | tools/9pfsd.py:599-617 | a failing message leaves the table as it was, but for those whose file operation may have been done |
| NineRuns.OpenedByError | tools/9pfsd.py:706-740 | a failed open has opened the fid exactly if it passed every check and the file went away before it was looked at again; otherwise nothing changed |
| NineRuns.StaysOpen | tools/9pfsd.py:706-740 | an open fid stays open, in the same mode, while it exists |
| NineEnds.GoneExactly | tools/9pfsd.py:540-572 | for every state and well-framed message, exactly when the connection ends |
| NineEnds.ServeGoneExactly | tools/9pfsd.py:503-549 | for every size and message: on a size that no message has, or as above |
| NineEnds.WalkEndsExactly | tools/9pfsd.py:660-690 | a walk ends it exactly if it comes to an element with a NUL |
| NineEnds.CreateEndsExactly | tools/9pfsd.py:857-906 | a create exactly if it passes every check and its device numbers do not fit |
| NineEnds.WstatEndsExactly | tools/9pfsd.py:942-1015 | a wstat exactly if its rename comes to a name with a NUL, or its length to one that does not fit |
| NineEnds.NeverGone | tools/9pfsd.py:503-572 | a client that frames its messages within the size agreed on, makes no link, pipe or device and sends no such name, offset or length is never hung up on |
| NineEnds.LinkReadEnds | tools/9pfsd.py:857-906 | a connection that ends by reading a link it made |
| NineEnds.FarReadEnds | tools/9pfsd.py:785-806 | one that ends by reading a file at 2^63 |
| NineEnds.NulWalkEnds | tools/9pfsd.py:328-335 | one that ends by walking to a name that is a NUL |
| NineEnds.NulRenameEnds | tools/9pfsd.py:965-978 | one that ends by renaming to it |
| NineEnds.LongFileEnds | tools/9pfsd.py:1002-1015 | one that ends by asking for a length of 2^63 |
| NineEnds.BigDeviceEnds | tools/9pfsd.py:886-889 | one that ends by a device number of 2^40 |
| NineEnds.NulCreateRefused | tools/9pfsd.py:898-901 | creating a name with a NUL is an error, and nothing changes |
| NineUnlink.UnlinksInside | tools/9pfsd.py:908-931 | over every sequence of messages only what is in the export is unlinked |
| NineUnlink.RenamedRoot | tools/9pfsd.py:965-978 | nothing is renamed to the root, nor the root to anything |
| NineUnlink.ArmedStep | tools/9pfsd.py:706-741 | one message arms a fid on the root exactly if it is a Topen of it there, with the bit for removal on close, that succeeds |
| NineUnlink.RootUnlinkedExactly | tools/9pfsd.py:908-931 | over every run the root is unlinked if and only if the share is writable and the message clunks a fid so opened and not given up since |
| NineUnlink.RootOnClose | tools/9pfsd.py:908-931 | a connection from its start in which a clunk asks for the root, which remove refuses |
| NineRuns.ReadOnIsPass | tools/9pfsd.py:785-833 | reads of an open directory are a pass over its entries |
| NineRuns.WholeDirectoryRead | tools/9pfsd.py:785-833 | with enough room the client gets every entry exactly once, in order and unsplit |
| NineServer.Server.Version | tools/9pfsd.py:619-639 | the message size and the dialect agreed, every fid dropped |
| NineServer.Server.Attach | tools/9pfsd.py:641-651 | a fid for the root |
| NineServer.Server.Walk | tools/9pfsd.py:660-690 | the walk, element by element, and what it does to the table |
| NineServer.Server.OpenFid | tools/9pfsd.py:706-740 | opening a file or a directory, and every refusal |
| NineServer.Open.OpenDirectory | tools/9pfsd.py:742-783 | a snapshot taken, or nothing changed |
| NineServer.Server.ReadEntries | tools/9pfsd.py:808-833 | a rewind takes a new snapshot; any other read goes on in the old one |
| NineServer.Server.Create | tools/9pfsd.py:857-906 | an object made, and the fid moved to it and opened |
| NineServer.Server.Read | tools/9pfsd.py:785-806 | a read of a file or a directory, and the reads that end the connection |
| NineServer.Server.Write | tools/9pfsd.py:835-855 | a write, its refusals, and the writes that end the connection |
| NineServer.Server.Clunk | tools/9pfsd.py:908-918 | the fid dropped, and what is unlinked on close |
| NineServer.Server.Remove | tools/9pfsd.py:920-931 | the fid dropped before the file is unlinked, or refused |
| NineServer.Server.Wstat | tools/9pfsd.py:942-1015 | the rename and the fid's new path, then the changes |
| NineServer.Server.Change | tools/9pfsd.py:983-1015 | mode, times and length, each with what stops it |
| Blocks.LocateFinds | tools/v10fs.py:193-209 | every block that can be mapped has one slot and is the block of it |
| Blocks.SlotFound | tools/v10fs.py:193-209 | every slot of the tree of indirect blocks is that of one block: the map is a bijection |
| Blocks.DigitAt | tools/v8fs.py:180-198 | the quotient and remainder of the loop are a digit of the block number |
| Blocks.Descend | tools/v10fs.py:193-209 | the inner loop follows the block addresses by those digits, a zero ending in a hole |
| Blocks.Bmap | tools/v8fs.py:180-198 | bmap is following the direct, single, double or triple tree by the digits |
| Blocks.Read | tools/v10fs.py:211-216 | exactly size bytes, each from where bmap puts it, holes as zeros |
| BlockTrees.WordBack | tools/v10fs.py:91-92 | four bytes, low first, are the number they spell |
| BlockTrees.FollowsTree | tools/v10fs.py:193-209 | from a block laid out as a tree of addresses, following digits comes to the address at those digits, at every level |
| BlockTrees.MappedAsLaid | tools/v10fs.py:193-209 | for every block of a disk so laid out, direct or through one, two or three levels, bmap is its address |
| BlockTrees.PastTheTrees | tools/v10fs.py:193-209 | a block past the third tree is a hole |
| BlockTrees.LaidIsRead | tools/v10fs.py:211-216 | and a file is read as the blocks at those addresses |
| TreeRecords.DirectoryRead | tools/v10fs.py:218-228 | a directory laid out record by record is listed by its records in use, without the dots, each with its number, low byte first, and its name up to a NUL; bytes short of a record at the end are passed over |
| TreeRecords.IsLaid | tools/v10fs.py:218-228 | any bytes are a directory so laid out |
| Blocks.InodePlace | tools/v10fs.py:173-191 | inodes follow one another from block 2 with no gap and none across a block's end |
| TreeWalk.ReadDir | tools/v10fs.py:218-228 | whole records only, without the dots and cleared slots |
| TreeWalk.Walk | tools/v8fs.py:220-242 | the walk ends on every graph and yields the entries of the directories it expands, in order |
| TreeWalk.WalkOrSelf | tools/v10fs.py:230-255 | the V10 walk, where a file is its own listing |
| TreeWalk.ExpandsReachable | tools/v10fs.py:230-255 | the directories expanded are exactly those reachable from the start, each once |
| TreeWalk.AllYieldsAre | tools/v10fs.py:230-255 | what is yielded is exactly the entries of the directories expanded |
| TreeWalk.YieldsCounted | tools/v8fs.py:220-242 | there are as many yields as entries |
| TreeWalk.FindPath | tools/v10fs.py:257-273 | a path looked up component by component, the first entry of a name counting |
| TreeWalk.WalkedIsFound | tools/v8fs.py:244-257 | where no directory has a name twice, a walked path is looked up to the inode yielded |
| SnapshotRuns.StepKeeps | app/ipnx/Machine.swift:436-788 | every file operation, wait, simulator action and crash keeps the invariant |
| SnapshotTheorems.RestoredOnce | app/ipnx/Machine.swift:618-636 | over every run a saved snapshot is handed to restore at most once |
| SnapshotTheorems.NeverUpMarked | app/ipnx/Machine.swift:442-496 | the machine is never up, pausing or paused with an attempt marker on disk |
| SnapshotTheorems.TriedIsMarked | app/ipnx/Machine.swift:618-636 | a snapshot that was tried and is still there is marked, so the next launch boots cold |
| SnapshotStale.LaunchRestores | app/ipnx/Machine.swift:500-637 | a launch with a snapshot, no marker and nothing staged restores it over the disk as it is |
| SnapshotStale.LaunchCopies | app/ipnx/Machine.swift:500-637 | a launch with no disk restores the old snapshot over a new copy |
| SnapshotStale.HarmlessStep | app/ipnx/Machine.swift:500-788 | while the app lives and nothing is staged, a snapshot that is current or will be dropped stays so |
| SnapshotStale.StaleExactly | app/ipnx/Machine.swift:500-637 | for every launch of every run: it can restore a snapshot over another disk if and only if the files say so |
| SnapshotStale.DeathExactly | app/ipnx/Machine.swift:442-788 | the same of the files left wherever the app dies |
| SnapshotCases.StaleAfterContinue | app/ipnx/Machine.swift:768-773 | a run from the first launch: resumed, the app dies before it deletes the snapshot, and the next launch restores it over a written disk |
| SnapshotCases.StaleAfterLateSave | app/ipnx/Machine.swift:756-762 | the same by a save that came too late, with the machine up |
| SnapshotCases.StaleAfterReset | app/ipnx/Machine.swift:536-548 | the same by a death between a reset's marker and its snapshot, over a new copy of the disk |
| SnapshotPhases.PhaseTells | app/ipnx/Machine.swift:434-500 | over every run, until a restore is given up for a cold restart: which phase shows at each step of a launch, a failure being possible at any time after it, and only a machine that came up being up or suspended |
| SnapshotPhases.RestartBegins | app/ipnx/Machine.swift:705-720 | the cold restart begins a launch again and leaves the wait it was in behind |
| SnapshotPhases.TaskDoes | app/ipnx/Machine.swift:740-778 | what suspending and going on send to the simulator after each wait, what shows, and what is waited for next |
| SnapshotPhases.LeftBehind | app/ipnx/Machine.swift:454-475 | that wait, answered by the new simulator, still shows a session being restored |
| SnapshotCases.PausedDeathHarmless | app/ipnx/Machine.swift:737-763 | after a death while suspended no launch restores over another disk |
| SnapshotApp.ProvisionedRuns | app/ipnx/Machine.swift:500-637 | provisioning undisturbed is a run of single steps |
| SnapshotApp.SettledRuns | app/ipnx/Machine.swift:661-702 | staging or consuming undisturbed is a run of single steps |
| SnapshotApp.Machine.constructor | app/ipnx/Machine.swift:434-440 | the first state of every run |
| SnapshotApp.Machine.Start | app/ipnx/Machine.swift:436-440 | only the first of two callers starts the machine |
| SnapshotApp.Machine.BringUp | app/ipnx/Machine.swift:442-637 | from its start to the copy it waits for or to the launch, all staged media applied, is the specified stretch of steps |
| SnapshotApp.Machine.AfterCopy | app/ipnx/Machine.swift:585-637 | from the copy to the launch, or failed |
| SnapshotApp.Machine.AfterConnect | app/ipnx/Machine.swift:450-460 | connected, or failed |
| SnapshotApp.Machine.AfterOutput | app/ipnx/Machine.swift:460-481 | the snapshot consumed, and up or failed |
| SnapshotApp.Machine.AfterLogin | app/ipnx/Machine.swift:483-492 | up or failed |
| SnapshotApp.Machine.ConsumeSnapshot | app/ipnx/Machine.swift:784-788 | the snapshot deleted, then its marker |
| SnapshotApp.Machine.StageDisk | app/ipnx/Machine.swift:661-670 | an image staged in place of a reset, or the copy failed |
| SnapshotApp.Machine.StageFresh | app/ipnx/Machine.swift:673-677 | a reset staged in place of an image |
| SnapshotApp.Machine.CancelStaged | app/ipnx/Machine.swift:679-682 | nothing staged any more |
| SnapshotApp.Machine.SimhExited | app/ipnx/Machine.swift:704-719 | one cold restart if a restore failed, otherwise failed |
| SnapshotApp.Machine.Background | app/ipnx/Machine.swift:737-743 | pausing, and the simulator told to stop |
| SnapshotApp.Machine.AfterPrompt | app/ipnx/Machine.swift:743-755 | a save asked for, or given up on |
| SnapshotApp.Machine.AfterSave | app/ipnx/Machine.swift:756-763 | paused, or told to go on and up again |
| SnapshotApp.Machine.Foreground | app/ipnx/Machine.swift:765-767 | a task scheduled if the machine is paused |
| SnapshotApp.Machine.GoOn | app/ipnx/Machine.swift:767-769 | the simulator told to continue |
| SnapshotApp.Machine.AfterContinue | app/ipnx/Machine.swift:769-777 | the snapshot consumed and the machine up |
| Telnet.Filter.Feed | tools/ipnxweb.py:63-85 | a chunk fed byte by byte to the five-state machine |
| Telnet.CutsDoNotMatter | tools/ipnxweb.py:63-85 | however a stream is cut the output is that of the whole |
| Telnet.SwiftCutsDoNotMatter | app/ipnx/TelnetFilter.swift:34-66 | nor do cuts matter to the Swift filter, whose state also outlives a call |
| Telnet.ExactlyTheData | tools/ipnxweb.py:50-85 | every stream of data, doubled 255s, commands, options and subnegotiations gives exactly its data |
| Telnet.SwiftFilter.Filter | app/ipnx/TelnetFilter.swift:34-66 | one call of the Swift filter: payload, refusals and commands |
| Telnet.SwiftStream | app/ipnx/TelnetFilter.swift:34-66 | over every stream: the data and subnegotiation bodies, one refusal for each DO or WILL in order, the commands |
| Telnet.OptionAnswered | app/ipnx/TelnetFilter.swift:34-66 | a DO is answered with WONT and a WILL with DONT, by their bytes, and DONT and WONT with nothing |
| Telnet.SamePayload | app/ipnx/TelnetFilter.swift:34-66 | the two filters give the same payload on exactly the streams whose subnegotiations say nothing |
| WebSocket.ServedBytes | tools/ipnxweb.py:95-106 | every byte of a server's frame: one final frame with its opcode, no mask, the length in one, three or nine bytes, high byte first, the payload |
| WebSocket.MaskedBit | tools/ipnxweb.py:109-140 | a bit of a masked byte is set if and only if those of the payload and of the key's byte at its place modulo four differ |
| WebSocket.ServedRead | tools/ipnxweb.py:95-140 | a server's frame reads back as it was, whatever follows, if and only if it is within the limit |
| WebSocket.SentRead | tools/ipnxweb.py:109-140 | so does a client's frame under any mask |
| WebSocket.StreamRead | tools/ipnxweb.py:109-140 | a connection is heard message by message up to the first over the limit and not beyond |
| WebSocket.NotBefore | tools/ipnxweb.py:109-156 | a frame is heard when its last byte has come and not before, and the same whatever follows it |
| WebSocket.Shortest | tools/ipnxweb.py:95-106 | no frame that reads the same is shorter than the one written |
| WebSocket.Socket.RecvExact | tools/ipnxweb.py:143-155 | exactly so many bytes however the network cuts them, or nothing |
| WebSocket.Socket.ReadFrame | tools/ipnxweb.py:109-140 | one frame off the socket, and the bytes it leaves |
| ArHeaders.PassesExactly | tools/unpack-nested-ar.py:51-71 | sixty bytes pass the header tests if and only if they are a name of allowed characters, a decimal mode and a decimal size, each in its field between blanks, and the two bytes at the end |
| ArHeaders.HeadsRead | tools/unpack-nested-ar.py:74-83 | the name and the size are then those, the size by its digits' places |
| ArNumbers.SizeExactly | tools/v8-import.py:85-88 | a size field is a number to int(), and which, if and only if it is a sign or none and digits that single underscores may part, between blanks of str.strip() |
| ArNumbers.SliceIs | tools/v8-import.py:89 | a slice has the bytes from one index up to the other, an index below zero counting from the end |
| ArHeaders.StripExactly | tools/unpack-nested-ar.py:57-68 | what strip() leaves has no blank at either end, and only blanks are gone |
| Archive.EveryByte | tools/unpack-nested-ar.py:45-95 | magic, headers, bodies and padding account for every byte |
| Archive.MemberAt | tools/unpack-nested-ar.py:66-95 | each member lies where its offset says |
| ArWalk.ArMembers | tools/v8-import.py:70-93 | on every archive on which it returns: the members walked over by their signed sizes, or a refusal |
| ArWalk.StopsExactly | tools/v8-import.py:79-92 | it returns if and only if its walk never comes to one offset twice |
| ArWalk.ForwardStops | tools/v8-import.py:79-92 | which is so if every size met leads forward |
| ArWalk.StuckForEver | tools/v8-import.py:79-92 | an archive of one member, of size -60, on which it never returns |
| ArWalk.BelievingRecovers | tools/v8-import.py:70-93 | on every archive whose sizes are right it returns, with the members written |
| Archive.Headers | tools/unpack-nested-ar.py:45-63 | every offset that passes the header tests, in order |
| Archive.Members | tools/unpack-nested-ar.py:66-95 | what lies between headers, one byte of padding taken off where the size says so |
| Archive.ScanningFinds | tools/unpack-nested-ar.py:45-63 | where only true headers pass the tests, the scan finds exactly those |
| Archive.BodyBetween | tools/unpack-nested-ar.py:66-95 | and what lies between them is the bodies as written |
| ArWalk.ReadersAgree | tools/v8-import.py:70-93 | on an archive where only headers look like one, the scan finds as many members as the walk and with the same bodies |

## Left out

- Floating point: the units readers compute over exact reals; rounding and overflow are not modelled.
- Text classes and case folding are ASCII's; Unicode digits, letters and lower-casing are not modelled.
- Error messages, counters of the units tool, and the table's comment and exclusion lines (`readfile` is modelled from one definition on).
- UnitsProof.TranslationExactly: covers the definitions the translator does not refuse (it stops at a second bar) whose names the new lexer reads as one identifier each and whose numbers are well formed.
- UnitsDefinitions.DefinitionRead: speaks of numbers with one dot at most; UnitsOld.Reader.GetNumber of any.
- V8Import.FlattenStores: speaks of what is emitted and not of its order, which depends on the order of the groups; V8Tree.FlattenTree reads the tree as a value, because it changes nothing in it.
- V8Tree.Cell.Insert: goes down the tree by a call for each component where the source loops with one variable.
- The sorting of names: listings, walks and case map rows are given already sorted, and rows are read as rows, not as lines of text with tabs and comments.
- Wrap-around of the board's 32-bit counters (completions pending, packets): they are unbounded here.
- A faulted DMA transfer of the NI1010 is taken to write nothing; the bus dropping a request as it grants it belongs to the simulator and is part of AcknowledgeReceive.
- Multicast filters, attach and detach, and the two remaining registers of the NI1010: reads and writes with no effect on the frames.
- netfs file contents (read, write, truncate, update), user mapping, names with slashes and what lies above the export.
- The wire format of netfs requests and the sockets and threads of every server.
- Which device numbers makedev() takes is the host's answer; other exceptions of the 9P server are those that its calls raise for a NUL or a number out of range.
- 9P flush, authentication, permission bits and file contents; symbolic links are an answer of the host, as are errors of its file operations.
- The qid numbers in a 9P connection are attributes the host gives; that they are one-to-one is proved apart, in NineQids.
- 9P exports whose root is `/`.
- An answered wait of the app means that the simulator did what was waited for: it has stopped, saved or gone on.
- Snapshot.Step: keeps the state of the app as a value, because it may die between any two file operations; the methods are in SnapshotApp.Machine. Deletions are assumed to succeed, and marker files about accounts and the screen are not modelled.
- Failures while provisioning other than that of the copy (the boot file, the configuration), and a copy or a save cut short by a crash: each is whole or has not begun.
- Bytes above 127 in the names of archive members.
- ArWalk.ArMembers: speaks of the archives on which the source returns; ArWalk.StopsExactly says which those are.
- WebSocket handshakes, HTTP, fragmented messages and control frames beyond their opcodes.
- Inode caches, device numbers, and the superblock of the filesystem readers.
- The user interface, fonts, mouse, terminals, probes, release scripts and the makefile generator.

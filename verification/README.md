# Varnish 3.0.2 cache process: a verified model

This project models nine parts of the Varnish cache process and proves what they are for. Where the
program changes things step by step the model is imperative: classes with the program's fields, arrays
for its buffers, and its loops with their invariants, each proved against a specification whose own
properties are proved beside it. Where threads share data the model is a state machine whose steps are
the program's lock regions and single word writes, and theorems are about every run.

- **Object index** (`DigestBits`, `CritbitTree`, `CritbitMemory`, `Critbit`, `CritbitThreads`,
  `SimpleList`, `HeadIndex`, `CritbitList`). The crit-bit tree over 256-bit digests as tagged words in
  memory; insertion and removal as walks that overwrite one word; readers without a lock against
  inserts, unlinks and reference counting. The tree refines a counted map, and so does the sorted list
  of the simple hasher; in every interleaving the two give the same answers.
- **ESI** (`EsiMarks`, `EsiStep`, `EsiParse`, `EsiVep`, `EsiSplit`, `EsiExact`, `EsiAstray`, `EsiWhole`, `EsiCode`,
  `EsiInclude`, `EsiPaths`, `EsiViews`, `EsiTags`, `EsiDocument`, `EsiMeaning`, `EsiDeliver`, `EsiGzip`). The parser
  that is fed a document in pieces, the instruction bytes it emits, and their delivery over segmented storage. What
  a document means, and that this is what is sent; for which documents it does not matter how they are cut; no
  byte is lost. Bodies wrapped in stored blocks inflate to themselves.
- **Bans** (`BanThreads`, `BanRuns`, `BanFates`, `BanLists`, `BanSpec`, `BanWords`). Lazy invalidation as an interleaving of inserts,
  duplicate hunts, object creation, checks by requests and by the lurker, and tail retirement; the list
  operations as a class; the byte form of a ban, and the words of the command it is made of.
- **Busy objects and the waiting list** (`WaitingList`, `WaitingRuns`, `WaitingWakes`, `HashLookup`). Two reference
  counts and a bounded wake-up; no wake-up is lost, and who came first is woken first.
- **Shared memory log** (`ShmLog`, `ShmLogReader`, `ShmLogWriter`). Writers that reserve, fill and publish against
  readers that follow record headers; what they read is what was logged.
- **Chunked bodies** (`Hex`, `ChunkWriter`, `ChunkReader`, `ChunkForms`). The gathering writer and the reading loop;
  what is written is read back.
- **Vary** (`Vary`, `VaryMatch`, `VaryNames`). A stored spec against a request, with the memo buffer that successive
  candidates share.
- **Streaming** (`Stream`). Delivery of a body while it is fetched.
- **Request state machine** (`RequestMachine`, `RequestRuns`, `RequestPanics`, `RequestRoutes`, `RequestSession`). The steps of a request over VCL verdicts
  and backend answers, restarts and ESI sub-requests: every run ends, all assertions but one always hold,
  a finished request has released whatever it held, and where each verdict leads.

`Wrappers`, `Seqs`, `Vct`, `Endian` and `HttpHeader` are shared.

## Assumptions

- Unlinked crit-bit nodes and heads stay readable as long as a reader may come across them: cooled memory
  outlives every reader.
- Lock regions and single word writes are atomic and seen in order.
- Digests are 32-byte values, regular expressions are predicates, reads from a connection return any
  non-empty piece of what is left, and writes append.
- A log writer publishes before the room behind it is used again by the next lap.

## Where the code falls short of what one would expect

Each of these has a lemma with a concrete input, and the theorem beside it says when the code does meet
the property.

- The instructions for a document with comments can depend on how it is cut. The comment state marks
  bytes verbatim even inside a removed part (`cache_esi_parse.c:708`), and a tag may stand in the middle
  of the end of an ESI comment without resetting the search for it (`cache_esi_parse.c:644-677`).
  `EsiAstray` has a document for each. The parser model keeps a record `astray` of these two events
  (`EsiExact.AstrayExactly`), and `EsiExact.CutsAgreeExactly` says that all ways of cutting a document
  give the same instructions if and only if it is not raised.
- With `rush_exponent` 0 a session can be left on the waiting list for ever
  (`WaitingRuns.ZeroRushStrands`); with at least 1 it cannot, and the parameter's minimum is 2
  (`mgt_pool.c:213`).
- The room test in `VRY_Match` is two bytes short of what the assertion behind it asks for
  (`cache_vary.c:207` against `cache_vary.c:216`), so there are buffers for which the assertion fails
  although a restart would have made room (`Vary.RoomCheckFallsShort`). `Vary.WalkPacks` says exactly when
  it holds all the way: `Vary.Packs` looks at the candidate's headers, the request and the size of the
  buffer alone.
- `vcl_deliver` may restart a request whose body is being streamed. `cnt_prepresp` then lets the backend
  go and drops the object but leaves the body filter set in the worker (`cache_center.c:227-244`), and the
  next `cnt_fetchbody` on that worker fails its assertion (`cache_center.c:702`):
  `RequestRuns.StreamedRestartPanics` has the run, and `RequestPanics.PanicsExactly` says exactly which runs
  fail: those where a body is about to be fetched after such a restart, in the same request or, since the
  filter stays in the worker after the request is done, in the next one on that worker.
- A ban check that a newer insert overtakes may pass over a ban that is marked as a duplicate meanwhile
  (`BanRuns.OvertakenCheckPasses`). `BanRuns.PassingVerdict` says that a check which lets an object pass is
  wrong exactly when a ban inserted after it read `ban_start` matches; `BanRuns.NoBanIsMissed` that such a ban
  is still ahead of the object, and `BanFates.StartedToFinished` that a check not overtaken is right.

## Model

| member | source | states |
|---|---|---|
| CritbitThreads.RunRefinesReference | varnish-3.0.2/bin/varnishd/hash_critbit.c:192-471 | in every interleaving of lock-free searches, locked inserts, locked unlinks and reference counting, the lookups and derefs that take effect are a run of a counted map with the same answers, and the tree shows exactly that map |
| CritbitList.TreeIsList | varnish-3.0.2/bin/varnishd/hash_simple_list.c:65-111 | in every interleaving the tree answers as the sorted list of the simple hasher does when it replays the same operations, and in the end has counted heads for exactly the digests in the list, with the same heads and counts |
| CritbitThreads.ReadersAreSafe | varnish-3.0.2/bin/varnishd/hash_critbit.c:192-265 | a reader without the lock makes at most 256 hops, even through unlinked nodes, never follows a null word, and any head it returns has the wanted digest |
| CritbitThreads.AtMostOneLiveHead | varnish-3.0.2/bin/varnishd/hash_critbit.c:417-471 | at no time of any run do two heads with the same digest both have a positive count |
| CritbitThreads.DeadHeadsStayDead | varnish-3.0.2/bin/varnishd/hash_critbit.c:392-471 | between any two states of a run, a published head whose count is zero keeps it at zero, and once unlinked is never linked again |
| CritbitThreads.RetriesMeetNewHeads | varnish-3.0.2/bin/varnishd/hash_critbit.c:430-470 | a lookup that meets a dead head and starts over waited for the lock of that head until it was unlinked; no later search under the tree lock, by any thread, finds that head again |
| CritbitThreads.NoThreadIsStuck | varnish-3.0.2/bin/varnishd/hash_critbit.c:392-471 | in every reachable state each busy thread can make its next move with all assertions holding, or waits for the lock of a head whose holder can |
| CritbitThreads.StepKeepsInv | varnish-3.0.2/bin/varnishd/hash_critbit.c:192-471 | every move keeps the joint invariant: tree well formed, each word a reader follows is a published link that its hops are paid for, counts are the references owned, a head is linked while counted and until its last holder unlinks it |
| CritbitThreads.StepRefines | varnish-3.0.2/bin/varnishd/hash_critbit.c:392-471 | forward simulation: each move is invisible or one operation of the counted map with the same answer |
| Critbit.InsertCorrect | varnish-3.0.2/bin/varnishd/hash_critbit.c:192-265 | splicing at the word the second descent finds keeps the tree well formed and adds exactly the new head |
| Critbit.DeleteCorrect | varnish-3.0.2/bin/varnishd/hash_critbit.c:269-297 | overwriting the word above the parent keeps the tree well formed, takes out exactly the digest, and parks a node that was reachable and no longer is |
| Critbit.ParkedIsParent | varnish-3.0.2/bin/varnishd/hash_critbit.c:284-296 | the node parked on the cool-off list is the parent of the leaf taken out |
| Critbit.HcbRoot.Insert | varnish-3.0.2/bin/varnishd/hash_critbit.c:192-265 | the method that walks and overwrites words in place finds the head, reports a miss without the lock, or leaves the memory that insertion is proved to give |
| Critbit.HcbRoot.FindSplice | varnish-3.0.2/bin/varnishd/hash_critbit.c:247-260 | the second descent stops at the splice word: the first that does not lead to a node with a smaller critical bit |
| Critbit.HcbRoot.Walk | varnish-3.0.2/bin/varnishd/hash_critbit.c:201-231 | the first descent ends at the head that a search for the digest ends at |
| Critbit.HcbRoot.Delete | varnish-3.0.2/bin/varnishd/hash_critbit.c:269-297 | the method that deletes in place leaves an index without the digest and the parent parked at the end of the cool list |
| CritbitMemory.SpliceInserts | varnish-3.0.2/bin/varnishd/hash_critbit.c:247-264 | publishing the prepared node with one word write is tree insertion as seen from every word on the path |
| CritbitMemory.CutDeletes | varnish-3.0.2/bin/varnishd/hash_critbit.c:280-296 | one word write above the parent is tree deletion as seen from every word on the path, and the parent cannot be reached any more |
| CritbitTree.InsertKeepsShape | varnish-3.0.2/bin/varnishd/hash_critbit.c:237-264 | critical bits keep increasing along every path and the keys below a node keep agreeing on all earlier bits |
| CritbitTree.InsertContents | varnish-3.0.2/bin/varnishd/hash_critbit.c:192-265 | insertion adds exactly the new key |
| CritbitTree.DeleteContents | varnish-3.0.2/bin/varnishd/hash_critbit.c:269-297 | removal takes out exactly the given key |
| CritbitTree.DescendFinds | varnish-3.0.2/bin/varnishd/hash_critbit.c:210-231 | a search ends in a leaf of the tree and finds the key exactly when the tree holds it |
| DigestBits.CritBit | varnish-3.0.2/bin/varnishd/hash_critbit.c:169-184 | the byte index, mask and bit number computed are those of the first bit in which two different digests differ |
| DigestBits.BuildBitTable | varnish-3.0.2/bin/varnishd/hash_critbit.c:62-78 | the loop fills the table with the number of leading zeros of each byte |
| SimpleList.HslHead.Lookup | varnish-3.0.2/bin/varnishd/hash_simple_list.c:65-92 | the in-place search and insertion leaves the list that the specification says, sorted, and answers as the counted map |
| SimpleList.HslHead.Deref | varnish-3.0.2/bin/varnishd/hash_simple_list.c:98-111 | drops a reference and takes the element out with the last one, as the counted map |
| SimpleList.LookedRepresents | varnish-3.0.2/bin/varnishd/hash_simple_list.c:65-92 | a lookup on a sorted list that stands for a map gives a sorted list that stands for the map after the lookup, and the same head |
| EsiMeaning.DocumentMeans | varnish-3.0.2/bin/varnishd/cache_esi_parse.c:550-976 | for every document built of text, plain tags, comments, CDATA, includes, ESI comments, removed parts, remarks and misplaced or unknown ESI tags, and every way of cutting it: no assertion fails; there are instructions exactly if it has any ESI in it; and carried out, they send the plain bytes as they are, one included document for each include in order, and nothing of what is removed or hidden in a remark |
| EsiMeaning.DeliverDocument | varnish-3.0.2/bin/varnishd/cache_esi_deliver.c:284-404 | end to end: such a document, parsed in any pieces and delivered from storage cut in any other way, sends exactly what it means |
| EsiMeaning.NotXmlMeansNothing | varnish-3.0.2/bin/varnishd/cache_esi_parse.c:577-601 | a document whose first byte other than white space opens no tag is never taken for ESI, whatever follows and however it is cut |
| EsiMeaning.DocTaken | varnish-3.0.2/bin/varnishd/cache_esi_parse.c:607-976 | reading any part of a document between two tags, also inside ESI comments and removed parts, adds to what is sent exactly what that part means |
| EsiTags.AttrTaken | varnish-3.0.2/bin/varnishd/cache_esi_parse.c:724-892 | an attribute with its value in either quotes or in none is run over, and the value of src is kept for the end of an include |
| EsiTags.NoKeyword | varnish-3.0.2/bin/varnishd/cache_esi_parse.c:213-238 | a tag with which no keyword begins is run over to its end, however much of a keyword it begins with |
| EsiViews.ViewMark | varnish-3.0.2/bin/varnishd/cache_esi_parse.c:314-366 | marking sends exactly the bytes that were not marked before, or none of them |
| EsiExact.CutsAgreeExactly | varnish-3.0.2/bin/varnishd/cache_esi_parse.c:550-976 | for every document on which no assertion fails: all ways of cutting it into non-empty pieces give the same instructions if and only if the whole does not lead the parser astray |
| EsiExact.AstrayExactly | varnish-3.0.2/bin/varnishd/cache_esi_parse.c:644-709 | the parser goes astray at two bytes and no other: the one that shows a comment inside a removed part to be no ESI comment, and the last one of the end of an ESI comment that a tag interrupted |
| EsiExact.SplitDependence | varnish-3.0.2/bin/varnishd/cache_esi_parse.c:550-976 | a document that leads the parser astray comes out with different instructions when fed byte by byte |
| EsiSplit.SplitIndependence | varnish-3.0.2/bin/varnishd/cache_esi_parse.c:550-976 | for every document and every way of cutting it, the pieces leave the parser in the very same control state as the whole, failed assertions and `astray` included; and unless one of these two is set, with the very same instructions |
| EsiSplit.FeedIsBytes | varnish-3.0.2/bin/varnishd/cache_esi_parse.c:550-976 | from any state between pieces, feeding pieces comes to what a parser without pieces makes of the same bytes one after another; the marks differ at most by storage already marked as it will be anyway |
| EsiSplit.LoopByte | varnish-3.0.2/bin/varnishd/cache_esi_parse.c:571-976 | inside a piece the loop can be stopped after any byte and started again, in any state, keywords half matched included |
| EsiSplit.MatchCut | varnish-3.0.2/bin/varnishd/cache_esi_parse.c:213-238 | matching a keyword at once, or after its first bytes were put aside at the end of a piece, leads to the same state and marks |
| EsiSplit.BytesAlike | varnish-3.0.2/bin/varnishd/cache_esi_parse.c:314-398 | parsers whose marks differ only by an early settlement of pending bytes stay so over any input |
| EsiAstray.RemovedCommentDependsOnCut | varnish-3.0.2/bin/varnishd/cache_esi_parse.c:700-709 | a document with a comment in a removed part, and two ways of cutting it, that give different instructions: the comment state marks verbatim without regard to removal |
| EsiAstray.TagInCommentEndDependsOnCut | varnish-3.0.2/bin/varnishd/cache_esi_parse.c:644-677 | a document where a tag interrupts the end of an ESI comment, and two ways of cutting it, that give different instructions |
| EsiParse.RankDrops | varnish-3.0.2/bin/varnishd/cache_esi_parse.c:571-976 | a transition that consumes nothing lowers the rank of the state and byte, so the parser terminates on every input from every state |
| EsiWhole.Conservation | varnish-3.0.2/bin/varnishd/cache_esi_parse.c:244-398 | the verbatim and skip lengths emitted for a document, comments or not and however cut, sum to exactly the bytes fed, and each is positive |
| EsiWhole.ParseAccounted | varnish-3.0.2/bin/varnishd/cache_esi_parse.c:314-398 | each piece is accounted for in full and leaves no byte unmarked |
| EsiWhole.DeliverParsed | varnish-3.0.2/bin/varnishd/cache_esi_deliver.c:284-404 | the same for the instructions of any document, well formed or not: delivered from any segmentation they send their rendering and end exactly at the end of the body |
| EsiDeliver.Deliver | varnish-3.0.2/bin/varnishd/cache_esi_deliver.c:284-404 | the loop over the instruction bytes sends exactly the verbatim bytes and includes, in order, over any storage segments including empty ones |
| EsiDeliver.Walk | varnish-3.0.2/bin/varnishd/cache_esi_deliver.c:310-377 | walking a length over segments passes exactly the next bytes of the body and stays at its place |
| EsiDeliver.Instruction | varnish-3.0.2/bin/varnishd/cache_esi_deliver.c:287-404 | one instruction is read back from its bytes and carried out |
| EsiDeliver.ReadInclude | varnish-3.0.2/bin/varnishd/cache_esi_deliver.c:379-399 | the host and path of an include are read back as written |
| EsiCode.DecodeEmitted | varnish-3.0.2/bin/varnishd/cache_esi_deliver.c:132-159 | every length the parser can emit decodes to itself and to its own width, whatever follows |
| EsiInclude.DoInclude | varnish-3.0.2/bin/varnishd/cache_esi_parse.c:439-545 | the loops that take an include apart (the search for the path, for the directory of the request URL, and the replacement of entities) append exactly the code of that include, and fail exactly when an absolute include has no path |
| EsiInclude.AppendPath | varnish-3.0.2/bin/varnishd/cache_esi_parse.c:515-533 | the loop over the rest of the attribute appends it up to its terminator with the five entities replaced |
| EsiCode.IncludeHasNoNul | varnish-3.0.2/bin/varnishd/cache_esi_parse.c:439-545 | the host and path in the code of an include contain no NUL, so they read back whole |
| EsiPaths.UnescapeEscape | varnish-3.0.2/bin/varnishd/cache_esi_parse.c:515-533 | a path written with entities comes out as it was |
| EsiPaths.AbsoluteInclude | varnish-3.0.2/bin/varnishd/cache_esi_parse.c:482-491 | an absolute include asks the host it names for the path from the first slash behind it |
| EsiPaths.RootedInclude | varnish-3.0.2/bin/varnishd/cache_esi_parse.c:492-493 | a rooted include asks the host of the request |
| EsiPaths.RelativeInclude | varnish-3.0.2/bin/varnishd/cache_esi_parse.c:494-513 | a relative include is looked for in the directory of the request, whatever its query |
| EsiPaths.NoDirectory | varnish-3.0.2/bin/varnishd/cache_esi_parse.c:494-513 | when the request has no slash before its query, what goes before the include is all of that, the question mark with it |
| EsiVep.VepState.VepParse | varnish-3.0.2/bin/varnishd/cache_esi_parse.c:550-976 | the loop that updates the parser state in place, with a cursor and a start-of-mark pointer, does on one piece what the parser as a function does; a failed assertion ends both |
| EsiVep.VepState.VepFinish | varnish-3.0.2/bin/varnishd/cache_esi_parse.c:1039-1065 | finishing marks what is held back and hands over the code, or nothing when no ESI was seen |
| EsiVep.VepMatch | varnish-3.0.2/bin/varnishd/cache_esi_parse.c:213-238 | the table search finds the first entry decided by the input, or that more input is needed |
| EsiVep.VepState.Hunt | varnish-3.0.2/bin/varnishd/cache_esi_parse.c:644-677 | the hunt for the next tag, with the end of an ESI comment watched |
| EsiVep.VepState.MatchBuf | varnish-3.0.2/bin/varnishd/cache_esi_parse.c:916-943 | keywords split over pieces: bytes are gathered, and the byte that decides is looked at again |
| EsiVep.VepState.AttrVal | varnish-3.0.2/bin/varnishd/cache_esi_parse.c:865-892 | attribute values up to their delimiter |
| EsiMarks.MarkCommonConserves | varnish-3.0.2/bin/varnishd/cache_esi_parse.c:314-366 | marking loses and invents no byte |
| EsiGzip.Wrap | varnish-3.0.2/bin/varnishd/cache_esi_deliver.c:410-425 | a body in any segments, wrapped by ved_pretend_gzip and closed, inflates under section 3.2.4 of RFC 1951 to itself; what follows is the checksum and the length modulo 2^32 |
| EsiGzip.BodyInflates | varnish-3.0.2/bin/varnishd/cache_esi_deliver.c:179-209 | the same for the blocks alone, whatever follows them |
| EsiGzip.Worker.PretendGzip | varnish-3.0.2/bin/varnishd/cache_esi_deliver.c:179-209 | the loop writes blocks of at most 65535 bytes that carry exactly the piece, and counts its bytes |
| EsiGzip.Worker.DeliverChild | varnish-3.0.2/bin/varnishd/cache_esi_deliver.c:483-487 | all segments of a body that is not gzipped are wrapped in order |
| BanRuns.NoBanIsMissed | varnish-3.0.2/bin/varnishd/cache_ban.c:372-477 | in every run of inserts, object creations, checks, lurker checks and tail retirements, for every ban inserted after a live object was created some identical ban is still ahead of its pointer or was evaluated against it without matching |
| BanFates.StartedToFinished | varnish-3.0.2/bin/varnishd/cache_ban.c:655-728 | from start to end, with other threads at work: a check by a request during which no ban is inserted leaves the object without a ban pointer and on no list if some ban newer than its old one matches, and else on the newest ban |
| BanFates.FinishedVerdict | varnish-3.0.2/bin/varnishd/cache_ban.c:655-728 | the same from the end of the walk, whatever is inserted from then on |
| BanFates.HitIsFinal | varnish-3.0.2/bin/varnishd/cache_ban.c:715-726 | once a check has found a match, the object ends without a ban pointer, is never checked again and never gets one, until it is destroyed |
| BanFates.CondemnTakesOff | varnish-3.0.2/bin/varnishd/cache_ban.c:704-709 | condemning takes the object off its list and lowers the count of the ban it hung on, and changes nothing else |
| BanFates.SettleHangs | varnish-3.0.2/bin/varnishd/cache_ban.c:704-713 | an object that passed hangs on the ban that was the newest when its check began, on no other, and the counts follow |
| BanFates.VisitAdvances | varnish-3.0.2/bin/varnishd/cache_ban.c:675-694 | each turn of the loop brings a check one ban nearer to that of its object, or stops it at an unmarked ban that it can test and that matches |
| BanFates.GivingUpLeaves | varnish-3.0.2/bin/varnishd/cache_ban.c:696-702 | a check that had to skip bans and found nothing leaves the object where it was |
| BanFates.CreatedToFinished | varnish-3.0.2/bin/varnishd/cache_ban.c:440-728 | over the whole life of an object: when the bans inserted since its creation are on the object alone, a finished check leaves it without a ban pointer exactly if one of them matches; the same as testing every ban |
| BanRuns.OvertakenCheckPasses | varnish-3.0.2/bin/varnishd/cache_ban.c:655-728 | a run in which a check lets an object pass although a ban it walked over matches: the ban was inserted again meanwhile and the older copy marked before the walk got there |
| BanRuns.PassingVerdict | varnish-3.0.2/bin/varnishd/cache_ban.c:655-728 | a check that lets an object pass is wrong exactly when some ban inserted after it read ban_start matches; for requests, and for the lurker where the bans on the way are on the object alone |
| BanRuns.PassedBansDoNotMatch | varnish-3.0.2/bin/varnishd/cache_ban.c:655-728 | a ban on the object alone that the object passed, with no newer copy ahead, does not match it |
| BanRuns.LurkerKeepsRequestBans | varnish-3.0.2/bin/varnishd/cache_ban.c:742-813 | the lurker never takes an object past a ban that looks at the request |
| BanRuns.NoFreedBanIsTouched | varnish-3.0.2/bin/varnishd/cache_ban.c:441-477 | in every reachable state whatever a thread does next touches only bans still in the list, so the unlocked walk and the later move are safe |
| BanRuns.RefcountsAddUp | varnish-3.0.2/bin/varnishd/cache_ban.c:151-197 | the reference count of a ban is the number of objects hung on it plus the duplicate hunts that end at it plus tail references; a retired ban has none |
| BanRuns.DuplicatesHaveASurvivor | varnish-3.0.2/bin/varnishd/cache_ban.c:399-434 | every ban marked as a duplicate has a newer unmarked identical ban in the list |
| BanFates.InsertedDuplicatesGo | varnish-3.0.2/bin/varnishd/cache_ban.c:399-434 | when the hunt of a ban inserted with duplicates to be looked for is through, every older copy that was in the list is marked, and stays so |
| BanFates.RetiresExactly | varnish-3.0.2/bin/varnishd/cache_ban.c:151-166 | the last ban retires exactly if it is not the newest, no object hangs on it, no hunt ends at it and no tail reference holds it |
| BanFates.DestroyTakesOff | varnish-3.0.2/bin/varnishd/cache_ban.c:457-478 | destroying an object takes it off its ban and lets the last ban retire under the same conditions |
| BanThreads.StepKeepsInv | varnish-3.0.2/bin/varnishd/cache_ban.c:372-813 | every step keeps the joint invariant of list, counts, hunts and checks |
| BanRuns.RunKeepsInv | varnish-3.0.2/bin/varnishd/cache_ban.c:372-813 | so does every run |
| BanLists.BanList.Insert | varnish-3.0.2/bin/varnishd/cache_ban.c:372-434 | run without interruption, insertion puts the ban in front and marks exactly the older copies, whatever the clock says; the list stays in order of time exactly if the clock moved on |
| BanLists.BanList.CheckLast | varnish-3.0.2/bin/varnishd/cache_ban.c:151-166 | the oldest ban is taken off exactly if nothing refers to it and it is not the only one; every mark keeps its newer copy, after any mix of inserts, reloads and retirements |
| BanLists.BanList.Reload | varnish-3.0.2/bin/varnishd/cache_ban.c:514-560 | reloading does nothing for a ban of a time already there; else it inserts the ban in order of time, gone if a newer copy exists, and marks the older copies |
| BanLists.ReloadOrder | varnish-3.0.2/bin/varnishd/cache_ban.c:514-560 | after a reload every marked ban still has a newer unmarked copy, except copies of the empty start-up ban, and times that decreased strictly still do |
| BanLists.InsertOrder | varnish-3.0.2/bin/varnishd/cache_ban.c:372-434 | the same after an insert, whose time is in order exactly if it is later than the newest |
| BanLists.DuplicatesChangeNoVerdict | varnish-3.0.2/bin/varnishd/cache_ban.c:682-694 | checking only the unmarked bans gives the verdict of checking all of them |
| BanLists.BanList.CheckObject | varnish-3.0.2/bin/varnishd/cache_ban.c:655-728 | the loop stops at a ban that matches, moves the reference onto the newest ban when none matches and none was skipped, and leaves all other counts |
| BanSpec.Evaluate | varnish-3.0.2/bin/varnishd/cache_ban.c:595-649 | evaluating the bytes of a ban returns 1 exactly when all its tests hold, after as many tests as it takes |
| BanSpec.Iter | varnish-3.0.2/bin/varnishd/cache_ban.c:253-271 | one test is read back from its bytes and the cursor lands behind it |
| BanSpec.BanBuilder.AddTest | varnish-3.0.2/bin/varnishd/cache_ban.c:316-363 | a test is accepted exactly when its three words parse, and then its bytes are appended |
| BanSpec.BanBuilder.Spec | varnish-3.0.2/bin/varnishd/cache_ban.c:386-394 | the spec made by BAN_Insert has time, length, request flag and the tests; the flag tells whether some test looks at the request |
| BanSpec.GetLump | varnish-3.0.2/bin/varnishd/cache_ban.c:236-250 | a length-prefixed piece is read back |
| BanSpec.HeaderOf | varnish-3.0.2/bin/varnishd/cache_ban.c:213-218 | the recorded length is the length of the bytes, so the walk stops exactly at the end |
| BanSpec.BuiltBansAreObjectOnly | varnish-3.0.2/bin/varnishd/cache_ban.c:316-363 | a ban built without the request flag evaluates the same for every request: the assumption of the run model |
| BanWords.BanThenEvaluate | varnish-3.0.2/bin/varnishd/cache_ban.c:841-880 | a ban asked for in words, put into bytes and evaluated: it is refused exactly if an operator is unknown or an expression cannot be compiled, and else strikes an object exactly if all its comparisons (==, !=, ~, !~ on the URL, request headers and object headers) hold |
| BanWords.Ban | varnish-3.0.2/bin/varnishd/cache_ban.c:841-880 | the command makes a ban exactly if its words come in threes with && between and every test is accepted |
| BanWords.WordsMean | varnish-3.0.2/bin/varnishd/cache_ban.c:316-363 | the test made of three words holds exactly if the comparison they ask for does |
| BanWords.UrlByPrefix | varnish-3.0.2/bin/varnishd/cache_ban.c:327-330 | only the beginning of a field is looked at: what follows req.url is ignored |
| WaitingRuns.WaitersHaveHope | varnish-3.0.2/bin/varnishd/cache_hash.c:304-520 | no lost wake-up: in every reachable state with `rush_exponent` at least 1, a non-empty waiting list implies a busy object core, a woken session, or a session whose release will rush |
| WaitingRuns.FirstWaiterCanBeWoken | varnish-3.0.2/bin/varnishd/cache_hash.c:488-520 | from every such state some run of the moves of the program wakes the first session in the queue |
| WaitingWakes.QueueIsFifo | varnish-3.0.2/bin/varnishd/cache_hash.c:304-520 | first come, first served: sessions join the queue at its end and leave it at its front, woken, as many as a rush allows or all there are, at no other moves than those that make an object available or let one go |
| WaitingWakes.UnbusyWakes | varnish-3.0.2/bin/varnishd/cache_hash.c:603-643 | making an object available wakes exactly the front of the queue, leaves all other sessions as they are, and touches no other object core |
| WaitingWakes.DropWakes | varnish-3.0.2/bin/varnishd/cache_hash.c:588-600 | dropping a busy object removes its core and wakes exactly the front of the queue |
| WaitingWakes.ReleaseWakes | varnish-3.0.2/bin/varnishd/cache_hash.c:673-748 | letting an object go lowers its count, or removes the core with the last reference, and wakes exactly the front of the queue |
| WaitingWakes.FilledOutlives | varnish-3.0.2/bin/varnishd/cache_hash.c:673-748 | an object put into the cache stays there when its fetcher lets go, until the expiry queue gives it up |
| WaitingWakes.TakenHoldOf | varnish-3.0.2/bin/varnishd/cache_hash.c:526-643 | so does an object that a purge or the expiry thread takes hold of |
| WaitingWakes.HeldIsThere | varnish-3.0.2/bin/varnishd/cache_hash.c:304-748 | what a session has a reference to is in the cache |
| WaitingRuns.CountsAddUp | varnish-3.0.2/bin/varnishd/cache_hash.c:304-748 | the count of a head is its object cores plus waiting and woken sessions plus lookups in flight and objects being dropped; the count of an object core is the references to it |
| WaitingRuns.AssertionsHold | varnish-3.0.2/bin/varnishd/cache_hash.c:588-748 | every assertion on the way of the next move holds |
| WaitingRuns.BusyHasOneOwner | varnish-3.0.2/bin/varnishd/cache_hash.c:588-643 | a busy object core has exactly one session with references to it, which will make it not busy or drop it |
| WaitingList.StepKeepsInv | varnish-3.0.2/bin/varnishd/cache_hash.c:304-748 | every lock region keeps the joint invariant |
| WaitingRuns.ZeroRushStrands | varnish-3.0.2/bin/varnishd/cache_hash.c:488-520 | with a rush of zero there is a run that leaves a session waiting with nobody left to wake it: the condition of the theorem is needed |
| HashLookup.Lookup | varnish-3.0.2/bin/varnishd/cache_hash.c:343-457 | the loop over the object cores gives the right verdict: first fresh object, else the one in grace that expired last if somebody fetches or nobody can, else wait, else fetch |
| HashLookup.VerdictIsUnique | varnish-3.0.2/bin/varnishd/cache_hash.c:343-457 | the verdict asked for is unique, so the loop is determined by it |
| HashLookup.VerdictIsMove | varnish-3.0.2/bin/varnishd/cache_hash.c:341-483 | what a lookup then does is a move of the protocol: what it takes is not busy, and it waits only if there is a busy core |
| HashLookup.ObjHead.HshRush | varnish-3.0.2/bin/varnishd/cache_hash.c:488-520 | the loop wakes the first sessions of the queue, as many as a rush allows or all there are, leaves the rest queued in order and all other sessions as they are, and drops the list when it is empty |
| HashLookup.ObjHead.Unbusy | varnish-3.0.2/bin/varnishd/cache_hash.c:603-643 | makes the core not busy and rushes |
| HashLookup.ObjHead.Deref | varnish-3.0.2/bin/varnishd/cache_hash.c:673-748 | drops a reference, unlinks the core with the last one, and rushes |
| ShmLogReader.ReaderSeesWholeRecordsInOrder | varnish-3.0.2/bin/varnishd/cache_shmlog.c:71-146 | in every interleaving of writers that reserve, fill word by word and publish, a reader that has not been overtaken reads only whole records, in the order of their places, and never leaves the buffer |
| ShmLogReader.EveryRecordReadIsPublished | varnish-3.0.2/bin/varnishd/cache_shmlog.c:131-146 | each record read stands in room its writer has published |
| ShmLogReader.RecordsSeenWereWritten | varnish-3.0.2/include/vsl.h:53-60 | each record a reader sees is one that some writer took room for; where writers log what they are called with, it decodes to tag, identifier, length and content of such a call |
| ShmLogReader.ReaderMeetsWholeRecords | varnish-3.0.2/lib/libvarnishapi/vsl.c:163-205 | a reader on track meets the end marker, the wrap marker, or a whole record, and stays on track past it |
| ShmLogReader.StepKeepsTrack | varnish-3.0.2/bin/varnishd/cache_shmlog.c:71-146 | no step of a writer throws a reader off, short of overtaking it |
| ShmLog.StepKeepsInv | varnish-3.0.2/bin/varnishd/cache_shmlog.c:71-146 | every step keeps slots apart, unpublished slots starting with the end marker and published ones holding their records |
| ShmLog.HeaderIsNoMarker | varnish-3.0.2/include/vsl.h:53-62 | no header of a record can be taken for a marker, and it tells where the next record starts |
| ShmLog.ContentFits | varnish-3.0.2/include/vsl.h:53 | a record has as many words of content as its bytes need |
| ShmLogWriter.Vsl.Get | varnish-3.0.2/bin/varnishd/cache_shmlog.c:93-127 | reservation gives the next room in order, wrapping first if it is too small, with an end marker behind it; other writers may be at work on theirs, only not on the words handed out |
| ShmLogWriter.Vsl.Wrap | varnish-3.0.2/bin/varnishd/cache_shmlog.c:71-88 | wrapping clears the front before the old end gets its wrap marker, and counts the serial number on, past zero |
| ShmLogWriter.Vsl.VSLR | varnish-3.0.2/bin/varnishd/cache_shmlog.c:130-146 | one record is reserved, filled and published, beside other writers at work, and decodes to the tag, identifier, length and content of the call |
| ShmLogWriter.RecordDecodes | varnish-3.0.2/bin/varnishd/cache_shmlog.c:46-67 | what vsl_hdr writes is read back by VSL_TAG, VSL_LEN, VSL_ID and VSL_DATA |
| ShmLogWriter.Vsl.Flush | varnish-3.0.2/bin/varnishd/cache_shmlog.c:177-196 | a batch of records becomes visible with its first header, beside other writers at work |
| ShmLogWriter.Worker.WSLR | varnish-3.0.2/bin/varnishd/cache_shmlog.c:200-230 | a record that decodes to the call joins the batch of the worker; when there is no room the batch is flushed first, whole and in order |
| ShmLogWriter.Worker.FlushBatch | varnish-3.0.2/bin/varnishd/cache_shmlog.c:177-196 | the records of a batch are published together and decode to the calls they were made of |
| ChunkWriter.RoundTrip | varnish-3.0.2/bin/varnishd/cache_wrw.c:170-237 | for every sequence of writes and forced flushes, the chunked reader reads back exactly the concatenated data under any pattern of partial reads, and stops where the body ends |
| ChunkWriter.BodyReadsBack | varnish-3.0.2/bin/varnishd/cache_fetch.c:235-299 | any series of non-empty chunks with the last chunk reads as the data it was made of |
| ChunkWriter.Send | varnish-3.0.2/bin/varnishd/cache_wrw.c:195-237 | the wire gets non-empty chunks that join to the data given, and one empty chunk at the end |
| ChunkWriter.Wrw.Write | varnish-3.0.2/bin/varnishd/cache_wrw.c:170-190 | the data is put out or held in the slots, flushed when they run out, never lost |
| ChunkWriter.Wrw.Flush | varnish-3.0.2/bin/varnishd/cache_wrw.c:95-139 | gathers the slots with chunk head and tail; no empty chunk is emitted, and a slot for the tail is always free |
| ChunkWriter.Wrw.Chunked | varnish-3.0.2/bin/varnishd/cache_wrw.c:195-220 | a slot is set aside for the chunk head |
| ChunkWriter.Wrw.EndChunk | varnish-3.0.2/bin/varnishd/cache_wrw.c:223-237 | the last data goes out as a chunk and the empty chunk follows |
| ChunkWriter.ChunkReads | varnish-3.0.2/bin/varnishd/cache_fetch.c:235-299 | one chunk reads back and reading goes on behind it |
| ChunkReader.FetchChunked | varnish-3.0.2/bin/varnishd/cache_fetch.c:235-299 | the read loop over a connection that delivers arbitrary pieces agrees with the grammar: success, failure, data stored and bytes left |
| ChunkReader.FetchChunk | varnish-3.0.2/bin/varnishd/cache_fetch.c:245-297 | one chunk agrees with the grammar, in success and in every failure |
| ChunkForms.ChunkReadsAnyForm | varnish-3.0.2/bin/varnishd/cache_fetch.c:245-297 | a chunk whose size is written in capitals, small letters or both, with white space and zeros in front and blanks behind, and with or without carriage returns, is read as its data |
| ChunkReader.ReadHeader | varnish-3.0.2/bin/varnishd/cache_fetch.c:246-283 | the size line is read as the grammar says: leading white space, leading zeros, digits that fit the buffer, line end |
| ChunkReader.Object.Bytes | varnish-3.0.2/bin/varnishd/cache_fetch.c:83-107 | the wanted bytes, or all there are, go to storage in order, over segments of any size |
| Hex.NumberOfHex | varnish-3.0.2/bin/varnishd/cache_fetch.c:177-194 | a number written in hexadecimal reads as itself |
| ChunkForms.NumberAnyCase | varnish-3.0.2/bin/varnishd/cache_fetch.c:177-194 | the same digits in either case read as the same number |
| VaryMatch.VaryBuf.Match | varnish-3.0.2/bin/varnishd/cache_vary.c:178-249 | the assertion on room holds exactly if the request's own entries pack into the buffer one after another, and then the loop returns 1 exactly when for every entry of the stored spec the request has the recorded value, or lacks the header as recorded, or the header is Accept-Encoding with gzip support; what earlier candidates left in the buffer matters for neither. A spec is left to keep exactly if the request's own fits as a whole, and it is that |
| VaryMatch.VaryBuf.VryMatch | varnish-3.0.2/bin/varnishd/cache_vary.c:178-249 | the loop, its restart on overflow, its truncation of the buffer and its one assertion agree with the walk over entries |
| VaryMatch.MatchOwn | varnish-3.0.2/bin/varnishd/cache_vary.c:65-133 | a spec made from a request matches that request, and the assertion on room holds exactly if its entries pack |
| VaryMatch.Create | varnish-3.0.2/bin/varnishd/cache_vary.c:65-133 | the spec built from a Vary header records the trimmed value of each header named, or its absence; a malformed Vary header gives none |
| VaryNames.NamesRead | varnish-3.0.2/bin/varnishd/cache_vary.c:78-118 | the names of a list come out as they went in, whatever blanks are around names and commas |
| VaryNames.MissingComma | varnish-3.0.2/bin/varnishd/cache_vary.c:78-118 | two names without a comma between are an error, found behind the first of them |
| VaryNames.TrimTakes | varnish-3.0.2/bin/varnishd/cache_vary.c:100-108 | a value is recorded without the blanks behind it, and otherwise as it is |
| VaryMatch.Validate | varnish-3.0.2/bin/varnishd/cache_vary.c:251-259 | the assertion of validation holds exactly if no header name in the spec has a zero byte in it |
| VaryMatch.VaryBuf.VryCmp | varnish-3.0.2/bin/varnishd/cache_vary.c:149-176 | the comparison of bytes tells same, other header and other value apart and stays inside the buffer |
| VaryMatch.VaryBuf.Build | varnish-3.0.2/bin/varnishd/cache_vary.c:190-227 | the entry the request would have is written behind what is kept, after a restart if there is no room |
| Vary.MatchVerdict | varnish-3.0.2/bin/varnishd/cache_vary.c:178-249 | the verdict of the walk, for every state of the buffer |
| Vary.WalkPacks | varnish-3.0.2/bin/varnishd/cache_vary.c:178-249 | from every state of the buffer, the rest of a match comes to an end exactly if the request's own entries for the rest of the spec pack behind what is used so far |
| Vary.FitsExactly | varnish-3.0.2/bin/varnishd/cache_vary.c:178-249 | a match ends without an overflow exactly if the request's own spec fits the buffer as a whole, and then leaves that spec |
| Vary.OwnSpecMatches | varnish-3.0.2/bin/varnishd/cache_vary.c:178-249 | a spec of the request's own entries matches from every state of the buffer |
| Vary.RoomCheckFallsShort | varnish-3.0.2/bin/varnishd/cache_vary.c:205-216 | a buffer and a spec for which the assertion on room fails after the first entry although the second alone would fit: the room test does not count the two bytes before the end marker |
| HttpHeader.SameHdr | varnish-3.0.2/bin/varnishd/cache_vary.c:154-159 | length-prefixed header names are equal exactly when the names are |
| Stream.StreamObj.StreamPoll | varnish-3.0.2/bin/varnishd/cache_response.c:361-410 | after each poll every byte fetched so far has been sent once and in order, also for pass objects whose sent segments are freed |
| Stream.StreamObj.Bytes | varnish-3.0.2/bin/varnishd/cache_fetch.c:83-107 | a fetch loop that polls after every read delivers exactly the bytes it fetched, however the reads and segments fall |
| Stream.StreamObj.FetchStorage | varnish-3.0.2/bin/varnishd/cache_fetch.c:148-171 | a full or missing last segment is followed by a new one; a half-filled one is filled further |
| Stream.StreamObj.Free | varnish-3.0.2/bin/varnishd/cache_response.c:394-409 | a pass object lets go of what was sent without losing count of where the rest starts |
| RequestSession.Session.CntSession | varnish-3.0.2/bin/varnishd/cache_center.c:1551-1628 | the dispatcher loop, with the sub-requests that ESI deliveries make, always comes to an end, and its result, final state and turns taken are those of the run as a function |
| RequestRuns.Run | varnish-3.0.2/bin/varnishd/cache_center.c:1551-1628 | a run of the steps from any state between steps always ends: finished with nothing left and the delivery around it untouched, parked, or stopped at the one assertion that can fail, and that only with a filter left behind |
| RequestRuns.Includes | varnish-3.0.2/bin/varnishd/cache_esi_deliver.c:46-119 | so does every series of sub-requests, and the delivery is then where it was |
| RequestRoutes.HitIsDelivered | varnish-3.0.2/bin/varnishd/cache_center.c:999-1068 | in every run, sub-requests included: when vcl_hit says deliver, the very object found by the lookup just before is made ready and, unless vcl_deliver restarts, delivered in the next turn but one, without a turn at the backend |
| RequestRoutes.PassedHitIsNotSent | varnish-3.0.2/bin/varnishd/cache_center.c:1012-1040 | any other verdict on a hit drops the reference for good: the object is not sent in this run or a sub-request, and a pass, error or restart goes on as such |
| RequestRoutes.MarkedObjectIsPassed | varnish-3.0.2/bin/varnishd/cache_center.c:1118-1152 | an object marked for passing is never sent: the lookup that finds it passes |
| RequestRoutes.WhatIsSent | varnish-3.0.2/bin/varnishd/cache_center.c:160-321 | whatever is delivered or streamed was, two turns before, an object found with vcl_hit saying deliver, a body fetched on the core or object of the request, or the page made up for an error |
| RequestRoutes.WhatIsStored | varnish-3.0.2/bin/varnishd/cache_center.c:533-638 | the backend is asked only for a core that the lookup before inserted and vcl_miss wants fetched, or after vcl_pass; a stored object is marked for passing exactly if vcl_fetch said so |
| RequestRoutes.InsertedIsSettled | varnish-3.0.2/bin/varnishd/cache_center.c:662-945 | no core stays busy: each one that a lookup inserts is made not busy later in the run, or given up with the only reference to it |
| RequestRoutes.FetchFollows | varnish-3.0.2/bin/varnishd/cache_center.c:1178-1300 | a turn at the backend follows exactly a miss with fetch or a pass with pass |
| RequestRoutes.LookupFollows | varnish-3.0.2/bin/varnishd/cache_center.c:1357-1450 | which turns lookup, pipe, hit, miss and pass follow, exactly |
| RequestRoutes.ErrorFollows | varnish-3.0.2/bin/varnishd/cache_center.c:421-530 | which turns an error page and a restart follow, exactly |
| RequestRoutes.DeliverFollows | varnish-3.0.2/bin/varnishd/cache_center.c:160-255 | which turns the making ready, delivery, streaming and end of a request follow, exactly |
| RequestRoutes.RestartsCount | varnish-3.0.2/bin/varnishd/cache_center.c:224-244 | restarts are counted one by one, and nothing else is |
| RequestRoutes.ParksExactly | varnish-3.0.2/bin/varnishd/cache_center.c:1093-1103 | a run parks exactly at a lookup of the request itself that finds nothing but busy objects |
| RequestRoutes.IncludesEnd | varnish-3.0.2/bin/varnishd/cache_esi_deliver.c:46-119 | a delivery that comes to an end has run one sub-request to its end for each include, a level deeper, up to the deepest level |
| RequestRuns.FinishedReleasesAll | varnish-3.0.2/bin/varnishd/cache_center.c:299-321 | in every run from STP_START that is not parked and meets no failing assertion, the request reaches DONE with object, object core and backend connection released, every reference it took dropped and none twice, and restarts and the flags of the worker cleared, all but a body filter that a restart left behind |
| RequestRuns.ParkedHoldsNothing | varnish-3.0.2/bin/varnishd/cache_center.c:1093-1103 | a run parked on a busy object holds nothing but its reference to the object head, and may still be restarted |
| RequestPanics.PanicsExactly | varnish-3.0.2/bin/varnishd/cache_center.c:661-704 | a run, sub-requests included, fails an assertion exactly if some turn restarts while a filtered body is being streamed and a later one is about to fetch a body; on a worker in which the request before left its filter, exactly if any turn is about to fetch a body |
| RequestPanics.LeftExactly | varnish-3.0.2/bin/varnishd/cache_center.c:224-247 | a finished request leaves the filter in the worker exactly if it was there before or a turn of its run restarted a streamed, filtered body |
| RequestRuns.StreamedRestartPanics | varnish-3.0.2/bin/varnishd/cache_center.c:224-247 | with two restarts allowed there is a run in which an assertion fails: a body is streamed through a filter, vcl_deliver restarts, and the next fetch finds the filter still set in the worker |
| RequestMachine.StuckIsStale | varnish-3.0.2/bin/varnishd/cache_center.c:702 | that assertion fails exactly when such a restart left a filter behind |
| RequestMachine.TurnKeeps | varnish-3.0.2/bin/varnishd/cache_center.c:160-1527 | every step keeps what the assertions of all steps rely on, and comes nearer to the end by restarts left and then steps left, although the count of restarts is cleared on delivery |
| RequestRuns.ResumeGood | varnish-3.0.2/bin/varnishd/cache_esi_deliver.c:46-119 | after a sub-request the delivery goes on with its own object and references as they were |
| RequestSession.Session.CntFetch | varnish-3.0.2/bin/varnishd/cache_center.c:533-638 | what cnt_fetch does to the session, with its assertions on the way |
| RequestSession.Session.CntFetchbody | varnish-3.0.2/bin/varnishd/cache_center.c:662-878 | what cnt_fetchbody does: fails on a filter left over, else prepares the object and streams, stores or drops the body |
| RequestSession.Session.CntPrepresp | varnish-3.0.2/bin/varnishd/cache_center.c:160-255 | what cnt_prepresp does to the session, restarts included |
| RequestSession.Session.CntLookup | varnish-3.0.2/bin/varnishd/cache_center.c:1071-1152 | a lookup parks the session or takes one reference and goes where it leads |
| RequestSession.Session.VedInclude | varnish-3.0.2/bin/varnishd/cache_esi_deliver.c:46-119 | a sub-request runs on the same session with the object in delivery set aside |

## Left out

- Of the request state machine: WAIT and FIRST, the reuse of a connection after cnt_done, workspace and header contents, verdicts at which a step is unfinished (restart from vcl_miss and vcl_pass, error from vcl_pipe, pipe in a sub-request), and storage that cannot be had.
- Gzip: the gzipped branches of ESI parsing and delivery, the splicing of deflate streams, gunzipping while streaming, the value of checksums.
- Write errors, allocation failure, closed connections in delivery, and sessions dropped by the worker pools: success is assumed where the program gives up half-way.
- How long an ESI sub-request polls for a busy object: only what its last poll finds is modelled. Range delivery, `esi_syntax` other than 0.
- Persistent storage: BAN_RefBan, the silo's own ban lists.
- The value of a digest, regular expressions, clocks, parameters, statistics, the command line but for `ban`, and the manager process.
- The age and reuse of cooled memory: hcb_cleaner is represented by the cool list it drains, which only grows here.
- Words of a log record behind its last byte: what is in the padding is not said.
- A reader of the log that sleeps through 2^32 laps can take an old serial number for the current one; laps are not counted modulo 2^32.
- Entries of the iov array are the bytes they point at; that callers keep those bytes until the flush is assumed.
- WRW_Reserve with fewer than three slots, which the program never asks for.
- WRW_Write of more than SSIZE_MAX bytes in one chunk.
- Assertions of the program that can fail end a run of the model: `dead` in the ESI parser (an include of `http://` without a path, an attribute value left over), Panic in Vary matching.
- ShmLogReader.ReaderSeesWholeRecordsInOrder: says nothing of a reader that the writers have overtaken, which the program does not detect either.
- WaitingRuns.FirstWaiterCanBeWoken: that the run which wakes the session is taken in the end is left to the scheduler.
- VaryMatch.Validate: speaks of bytes that are a spec of entries, and says nothing of others.
- EsiExact.CutsAgreeExactly: leaves out documents on which an assertion fails; those fail however they are cut (EsiSplit.SplitIndependence).
- EsiMeaning.DocumentMeans: what documents mean that are not built of the constructs in EsiDocument.Doc (a tag cut off by the end of the document, two src attributes, attributes that are no attributes, comments where EsiExact.AstrayExactly has them); how they are cut and that no byte is lost is covered for these too.

# Packet scanner core, in Dafny

A model, with proofs, of the parts of the packet scanner that decide what it sees and what it
blocks: decompressing gzip bodies, searching for keywords, parsing HTTP, keeping the segments of
TCP streams between two threads, and matching access rules.

Code that works step by step is modelled as methods and classes with loops and mutable state, each
proved against a specification that does not mention how it works; the specifications' own
properties are lemmas. `dafny verify dfyconfig.toml` checks everything.

| files | what they model |
|---|---|
| Bits, Canonical, HuffmanTree, HuffmanBuild, HuffmanMain | the canonical prefix codes of RFC 1951 section 3.2.2, and the construction of the linked lookup tables |
| BitReader, Inflate, InflateCodes, Blocks, DynamicHeader | the bit buffer, the token loop, blocks with fixed and dynamic codes (sections 3.2.5 to 3.2.7) |
| FormatTables, DynamicExample | the tables of the format against the RFC's numbers, and one dynamic block bit for bit |
| Window, Crc | the circular window and the check sum of RFC 1952 |
| AcSpec, AcMachine, Acsm, PatternList, Publish | the keyword automaton, its linked pattern lists, and the two copies that updates swap |
| Rules | the rules over keywords |
| Acch | the scanner that searches compressed tokens without expanding them first |
| HttpSwitch, HttpRun, HttpInvariant, HttpExecute, HttpMessages | the incremental HTTP parser, in its strict mode |
| HttpHeaders, HttpUrls, HttpStartLines, HttpWhole | what the parser recognises: header names and values, URLs, start lines, and whole messages |
| StreamTable, StreamRace, StreamData | the table of streams, and the race between packet thread and scanner |
| Trie | the reference-counted trie of access rules |
| Checksum, Hash, Url | the Internet check sum, the connection hash, the URL splitter |
| Common | bytes and optional values, for all parts |

How the parts fit together:

- A Huffman build is `Finished` tables; `Blocks.BuiltIsDecoder` turns them into a `Decoder` of the
  code; `InflateCodes.Inflater.Run` decodes tokens with decoders and reports what its outcome says
  about the bits. A build from incomplete lengths gives a `LooseDecoder`, whose run may go astray on bits
  that are no token; the reports say so. `InflateCodes.BlockIsDecoded` and `DynamicHeader.DynamicIsDecoded` read the reports
  backwards: what was encoded is what comes out.
- The automaton is described by words: state s stands for a prefix of some pattern, and every edge
  must lead to the longest suffix that is such a prefix. The breadth-first pass keeps that as its
  invariant, `AcMachine.SearchIsExact` draws the conclusion, and `Publish`, `Rules` and `Acch` build on it.
- For HTTP, `HttpRun.Feed` is what a byte string means, one byte at a time and without marks;
  `HttpExecute.HttpParser.Parse`, with marks and with bodies read in bulk, is proved to make the same
  calls, so cutting the input, bodies and chunks are lemmas about `Feed`.
- `HttpWhole.RequestIsRead` and `HttpWhole.ResponseIsRead` take a message as it is written down, a start line
  and headers in whatever case and spacing, and give what is reported and how the message goes on;
  `HttpWhole.BodyOfLength`, `HttpWhole.ChunkedBody` and `HttpWhole.BodyUntilClose` add the body.
- `StreamTable` says what the table means when nobody interferes; `StreamRace` takes one slot and
  lets the two threads' stores and hops interleave in any order. `StreamData` ties the race's list to the
  segments that the client sent, so the scanner's buffer is a stretch of what arrived.

## Findings

Properties that one would expect and that the code does not have, each with its exact condition:

- Wide tables (copeungz.c:483, the loop tests `++j < z`): a second-level table may be made wider than
  the code needs, and then the all-ones code of the longest length is lost. `HuffmanMain.DecodesAllIffNotWide`:
  all code words decode if and only if no subtree is `Wide`. `HuffmanMain.WideExists` and
  `HuffmanMain.LoseLastCode` run into it with lengths 1, 2, 3, 3 looked up one bit at a time.
  `HuffmanMain.FewSymbolsNotWide` keeps the three callers away from it.
- Left-over codes (copeungz.c:448-452 and 519): the symbol array is filled for used symbols only, but
  the test for "no symbol left" compares with its full length. In an incomplete code with unused
  symbols, the first unused code word decodes to whatever the array held (`Blocks.LeftOverDecodesJunk`;
  `Blocks.DecodeUnusedCode` shows it for one code among two symbols). It reaches the callers only
  through a single one-bit code, which the RFC allows for distances. `Blocks.BuildOfLone`: such lengths
  are refused if and only if the array's next cell holds nothing that an entry can be made of; and
  `DynamicHeader.DynamicIsDecoded`: otherwise every valid block in them is decoded, whatever the cell holds.
- Token batches (copeungz.c:717-744): when the buffer fills up in the middle of a copy, the batch is
  handed over without the copy's distance. `InflateCodes.WholeIffLiteral`: a batch that a block fills is
  whole if and only if its last token is a literal. `InflateCodes.Inflater.FillAndResume`: exactly then are
  the two buffers in step afterwards; otherwise the new batch begins with the old distance, one entry
  ahead of its length. `Blocks.CutBlockIsCut` gives a block in the fixed codes that is cut.
- Length overflow (http.c:1465-1471 and 1738-1743): the test misses some products that wrap around.
  `HttpMessages.LengthStoredIff` and `HttpMessages.SizeStoredIff`: the digits of a length or of a chunk size
  are stored as their value if and only if that is below 2^64 - 1. `HttpMessages.WrapsUnnoticed`: the parser
  reads the 20 digits of ten times 2^61 without an error, and goes on with 2^62.
- Empty patterns (acsmx.c:208-216): the loop over depth 1 copies no match list, so an empty pattern is
  reported only where the last byte starts no pattern. `AcMachine.SearchIsExact` proves this count for all
  lists; `AcMachine.EmptyEntryMissed`: beside the pattern "a", the empty one is found in "b" but not in "a".
- A leading colon (urlparser.c:33-47): the splitter takes an empty scheme where the regular expression
  of RFC 3986 takes none. `Url.AgreesUnlessColon`: the two agree if and only if the URL does not start
  with a colon.
- Fields after the one asked for: urlparser.h:99-100 promises endpoints 0 and 0, urlparser.c:49-52 and its
  like leave them as they were. `Url.ParseUrlField`: they are 0 and 0 afterwards if and only if they were
  before.
- A one's complement check sum cannot tell the two zeros apart, nor words that change in opposite
  directions; `Checksum.ChangeIsNoticed`, `Checksum.WordsAreCovered` and `Checksum.LongsAreCovered` give the
  exact conditions under which a changed word, or a changed address or number, goes unnoticed.
- Skipped segments (loop-1831-wxy.c:91-98): update_dh puts temp_up on the last segment when its walk meets the
  end of the list, but the packet thread appends without the lock. `StreamRace.PassesUnseenIff`: a segment that
  the walk has not seen is passed over if and only if the walk met the end and at least two segments have
  arrived since. `StreamRace.SkipsUnseen` is such a run: the second of three segments is never scanned,
  whatever it holds. `StreamRace.UpdatesBlindly`: an update of a slot that has changed hands since the
  check puts temp_up on the new stream's last segment, however little was done with.
- Buffers of a new slot (get_data.c:573-580): when a slot is chained, the token buffers are allocated for the
  slot before it, and that slot's data is looked at; without buffers nothing is decompressed.
  `StreamTable.BuffersIff`: a slot has buffers if and only if it was once taken over while free, or another
  slot was chained behind it. `StreamTable.ChainedWithoutBuffers`: two streams of one bucket, the second
  chained by its first server segment, leave the second one without.

## Model

| member | source | states |
|---|---|---|
| AcSpec.LongestSuffixStep | acsmx.c:238-260 | the longest suffix of a text and a byte that is a prefix of a pattern depends only on that of the text: why failure links suffice |
| AcSpec.FailStep | acsmx.c:238-260 | the failure word of a child, and a missing edge, are both found from the failure word of the parent |
| AcSpec.MatchesAreExact | acsmx.c:249-254 | own entries plus the failure state's list, taken at the longest-suffix state, are exactly the listed patterns that end the text, once per entry |
| AcMachine.ExtendTrie | acsmx.c:172-187 | a new state for one more byte keeps the numbering of prefixes and all trie edges |
| AcMachine.ShallowDone | acsmx.c:219-262 | when a row is visited, every shallower row is finished and every state as deep has been queued |
| AcMachine.ChildIsNew | acsmx.c:228-230 | a child met by the pass was never queued before |
| AcMachine.ChildStep | acsmx.c:228-255 | queueing a child with its failure state and its inherited list keeps the invariant of the pass |
| AcMachine.FillStep | acsmx.c:256-260 | filling a missing edge from the failure row keeps the invariant of the pass |
| AcMachine.AllVisited | acsmx.c:195-266 | when the queue is empty, every edge of every state leads to the longest suffix and every list is final |
| AcMachine.RunIsLongestSuffix | acsmx.c:441-443 | on a compiled table, the search stands in the state of the longest suffix of what it has read |
| AcMachine.SearchIsExact | acsmx.c:423-470 | for every list and text, each non-empty entry is hit exactly once at each position where it ends, and nothing else is; empty entries exactly where the last byte starts no pattern |
| AcMachine.EmptyEntryMissed | acsmx.c:208-216 | with the patterns "" and "a", the empty one is hit in the text "b" and not in the text "a" |
| AcMachine.OffsetsAreStarts | acsmx.c:495-519 | at the offset of a hit, end less length, its pattern really stands |
| AcsmObject.Acsm.DelPattern | acsmx.c:303-328 | the first entry that strcmp finds equal goes, and only that one |
| AcsmObject.Acsm.AddPatternStates | acsmx.c:151-189 | inserts a pattern with at most one new state per byte; every state's depth is the length of its word |
| AcsmObject.Acsm.FindFailure | acsmx.c:231-247 | following failure links ends at the state of the child's longest proper suffix |
| AcsmObject.Acsm.CopyMatches | acsmx.c:249-254 | the failure state's entries are added to the list, whatever the order |
| AcsmObject.Acsm.BuildDfa | acsmx.c:195-266 | from a trie with a closed root row, the pass ends with a compiled table |
| AcsmObject.Acsm.Compile | acsmx.c:333-392 | the table answers for the list, and has 1 plus the sum of the pattern lengths rows, enough for every state |
| AcsmObject.Acsm.SearchOffset | acsmx.c:478-520 | stores the start of every hit, in hit order, and nothing else |
| AcsmObject.Acsm.SearchKeywords | acsmx.c:526-561 | collects the pattern of every hit, in hit order |
| PatternList.HoldsUnlinked | acsmx.c:314-324 | unlinking a node and freeing it leaves the rest of the list, in order |
| PatternList.HoldsStill | acsmx.c:314-324 | a list none of whose nodes was freed or changed holds what it held |
| Publish.Matcher.Add | acsmx.c:285-299 | a new head for the edited list; every node that A's match lists reach is still there, unchanged |
| Publish.Matcher.Delete | acsmx.c:303-328 | the first equal entry is unlinked in place and freed unless it is the head; no node that A's match lists reach is freed or changed |
| Publish.Matcher.CopyLists | acsmx.c:137-146 | match lists lie in new nodes of their own, apart from the pattern list and from the other automaton's |
| Publish.Matcher.Compile | string_matcher.c:60-61 | B answers for the edited list while A goes on answering for the published one |
| Publish.Matcher.Swap | string_matcher.c:63-65 | the edited list is published and both automata share it |
| Publish.Matcher.AddStr | string_matcher.c:3-17 | the word is put in front of the published list |
| Publish.Matcher.DelStr | string_matcher.c:51-69 | the first equal word is taken off the published list |
| Publish.Matcher.Search | acsmx.c:526-561 | between any two steps of an update, the search reads allocated nodes only and returns the pattern of every hit |
| Publish.Matcher.KwMatch | string_matcher.c:187-197 | the count is that of the exact hits for the published list |
| Publish.Matcher.GetKeywords | string_matcher.c:245-254 | a non-empty word is returned if and only if it is published and occurs in the text |
| Publish.Replay | string_matcher.c:3-69 | after any history of additions and fitting deletions the matcher answers for the list that the history leaves |
| Publish.HitIffOccurs | acsmx.c:423-470 | a non-empty pattern is among the hits if and only if it is listed and occurs |
| Rules.Parse | query_table.c:120-160 | the words between the operators, without the spaces around them, and the operators in order |
| Rules.ParsePrinted | query_table.c:120-160 | however a rule is spaced when it is written down, parsing returns its words and operators |
| Rules.FormulaIsEval | query_table.c:326-343 | the formulas written out for one to three words are the value of the rule with "&" binding tighter than "#" |
| Rules.KnownRule | query_table.c:120-343 | the rule "a & b#c" holds if and only if a and b occur, or c does |
| Rules.Engine.AddRule | query_table.c:248-252 | the rule is appended and all its words are published |
| Rules.Engine.DelRule | query_table.c:260-272 | exactly the live rules with this text are dropped, and places do not move |
| Rules.Engine.LogicQueryMatch | query_table.c:385-399 | the places of exactly the live rules whose formula holds over "word occurs in text", in order |
| Rules.PlaceHolds | query_table.c:248-272 | after any history, the place of an addition holds its rule, unless the same text was deleted later |
| Rules.FoundIff | query_table.c:248-399 | a query returns the place of an addition if and only if its text was not deleted later and its formula holds over the text |
| Rules.Replay | query_table.c:248-399 | the engine run over any history and queried gives exactly these places, in order |
| Window.CopyBackAdd | copeungz.c:159-188 | a copy may be cut into pieces anywhere |
| Window.CopyBackBlock | copeungz.c:162-167 | a copy no longer than its distance is a block of the output so far |
| Window.DecodeLinear | acsm.c:891-911 | decodes to the expansion of the tokens, followed by a zero |
| Window.Lz77.CopyToken | copeungz.c:155-192 | a copy across the end of the window, in blocks or byte by byte, appends exactly the bytes at its distance |
| Window.Lz77.Decode | copeungz.c:125-196 | flushed bytes and window together are the linear expansion of all tokens |
| Crc.TableIsDivision | copeungz.c:44-97 | each of the 256 table entries is the remainder of its byte |
| Crc.UpdateIsDivision | copeungz.c:116-119 | for every string, the table-driven register is that of the division bit by bit |
| Crc.PiecesAreWhole | copeungz.c:111-121 | a string in pieces leaves the register of the whole string |
| Crc.BurstIsNoticed | copeungz.c:116-119 | two strings of any length that differ within four consecutive bytes only never have the same check sum |
| Crc.Register.Updcrc | copeungz.c:105-123 | continues the register from the last call, or starts it anew for a null pointer |
| Acch.CompileAutomaton | acsm.c:354-419 | compiling gives a table that answers for the list and the depth of every state |
| Acch.Scanner.ScanAc | acsm.c:548-608 | the state follows the text read since the last restart; status 0 means that a pattern occurs, and without restarts anything else that none ends here |
| Acch.Scanner.ScanCopy | acsm.c:637-758 | a copy token ends with a pattern found, or has appended exactly its length |
| Acch.Scanner.Run | acsm.c:609-768 | until a match the window is the linear decoding; 1 means that a pattern occurs in the decoding of the tokens up to the reported one; on literals 1 is returned if and only if a pattern occurs |
| Canonical.PrefixFree | copeungz.c:455-466 | no canonical code word starts another |
| Canonical.Tiling | copeungz.c:455-466 | in a full code every pattern of the longest length starts with exactly one code word |
| HuffmanBuild.IncrementBackwards | copeungz.c:540-543 | from the reversed code word to the next one |
| HuffmanBuild.TableBits | copeungz.c:477-490 | the width tried for a table: wide enough, and too wide exactly over a wide subtree |
| HuffmanTree.LinkStep | copeungz.c:492-514 | opening and linking a table keeps all entries made so far |
| HuffmanTree.FillStep | copeungz.c:535-538 | replicating an entry fills exactly the cells that start with the code word's bits |
| HuffmanBuild.FillTables | copeungz.c:455-553 | the nested loops end with finished tables, if every entry can be made |
| HuffmanMain.HuftBuild | copeungz.c:361-557 | 2 exactly for oversubscribed lengths or symbols without an entry, 1 exactly for incomplete ones longer than a bit, and otherwise finished tables of the reported width |
| HuffmanMain.DecodesSymbol | copeungz.c:601-632 | a buffer that starts with a symbol's canonical code is looked up, through any number of tables, to that symbol's entry, using exactly the code's bits |
| HuffmanMain.DecodesAllIffNotWide | copeungz.c:477-490 | all code words decode if and only if no subtree is wide |
| HuffmanMain.WideExists | copeungz.c:483-490 | complete lengths with a wide subtree |
| HuffmanMain.LoseLastCode | copeungz.c:477-490 | building them succeeds, and the code 111 then runs into an entry that was never set |
| HuffmanMain.FewSymbolsNotWide | copeungz.c:1023-1141 | a complete code with no more symbols than root cells is never wide |
| Blocks.BuiltIsDecoder | copeungz.c:361-557 | tables of a code whose words all are symbols', or whose symbols all are used, decode that code and report everything else |
| Blocks.LeftOverDecodesJunk | copeungz.c:519-533 | otherwise the first unused word decodes to what the symbol array held |
| Blocks.DecodeUnusedCode | copeungz.c:448-452 | such lengths, such a buffer, and the symbol without a code that comes out |
| Blocks.BuiltIsLoose | copeungz.c:361-557 | whatever the array held, tables that are not too wide decode the symbols' words to the symbols, and other words to some symbol or none |
| Blocks.BuildOfLone | copeungz.c:517-533 | a single one-bit code among several symbols: the build returns 2 if and only if the array's next cell has no entry, and otherwise 0 and a loose decoder |
| Blocks.DynamicBlock | copeungz.c:1126-1179 | lengths are refused exactly unless each alphabet's code is complete, a single one-bit symbol, or a single one-bit code with an entry behind it; otherwise the block is decoded in these codes, and only the last kind can go astray |
| Blocks.CutBlockIsCut | copeungz.c:717-744 | a block in the fixed codes whose batch ends with a copy |
| Blocks.FixedLitComplete | copeungz.c:857-866 | the fixed literal code is complete, with codes of up to nine bits |
| Blocks.FixedDistUsed | copeungz.c:871-874 | the fixed distance code is incomplete, but uses all its symbols |
| Blocks.FixedBlock | copeungz.c:840-918 | both fixed tables are built, and the block is decoded in these codes |
| FormatTables.RfcExample | copeungz.c:455-466 | the code words that RFC 1951 section 3.2.2 prints for its example, bit for bit |
| FormatTables.FixedLitWord | copeungz.c:857-866 | the fixed literal code: each of the four ranges counts up from its first word, 48, 400, 0 and 192 |
| FormatTables.FixedLitWords | copeungz.c:857-866 | the first and last code word of each range, bit for bit as section 3.2.6 prints them |
| FormatTables.FixedDistWord | copeungz.c:871-874 | fixed distances are five-bit numbers |
| BitReader.Reader.Need | ungzip.h:63 | the buffer holds exactly the bits fetched and not consumed; it fails exactly at the end of the input |
| BitReader.Reader.Dump | ungzip.h:62 | consumes exactly n bits |
| Inflate.TokenRange | copeungz.c:703-805 | lengths less 3 fit a byte and distances 16 bits, so nothing is lost when they are stored |
| Inflate.LengthBases | ungzip.h:141-147 | the length tables partition 3 to 258, apart from the symbol for 258 |
| Inflate.DistanceBases | ungzip.h:148-154 | the distance tables partition 1 to 32768 |
| FormatTables.LengthTable | ungzip.h:141-147 | every length symbol's first length and number of extra bits, in the numbers of section 3.2.5 |
| FormatTables.DistanceTable | ungzip.h:148-154 | the same for distance symbols |
| FormatTables.KnownCopy | copeungz.c:700-806 | a copy with extra bits: 40 bytes from 39 back are stored as 37 and 39 |
| Inflate.NextSymbol | copeungz.c:594-632 | the next symbol of the bit stream is fetched, or there is none, or too few bits are left |
| InflateCodes.Inflater.NextToken | copeungz.c:594-827 | one token is read off the bits and recorded, or the reason why not is one |
| InflateCodes.Inflater.Run | copeungz.c:560-836 | the recorded pairs are exactly the tokens of the bit stream, both buffers in step between tokens; each outcome says what follows in the bits, and a full batch what is left of a copy; with strict decoders the run never goes astray |
| InflateCodes.Inflater.Resume | copeungz.c:735-790 | both counters start over; a copy that was cut stores its distance first, so that one buffer is one entry ahead |
| InflateCodes.Inflater.FillAndResume | copeungz.c:560-836 | a block that fills the batch: the buffers are in step afterwards if and only if the batch ends with a literal, and the bits are just behind the token either way |
| InflateCodes.WholeIffLiteral | copeungz.c:643-744 | the batch that a block fills is handed over in the middle of a copy if and only if its last token is a copy |
| InflateCodes.OneParse | copeungz.c:560-836 | bits can be read as tokens in one way only |
| InflateCodes.BlockIsDecoded | copeungz.c:560-836 | an encoded block is decoded to its tokens, unless it has more than 50 near copies in a row or fills the buffer |
| DynamicHeader.FieldsRoundTrip | copeungz.c:964-1017 | the counts and the lengths of the code length code are read as sent, each for its own symbol |
| FormatTables.TripleIsFor | ungzip.h:139-140 | in any header the i-th triple behind the first 14 bits is the length for the i-th of nineteen symbols, which are written out |
| FormatTables.TripleIsRead | copeungz.c:1003-1017 | and whatever bits are read, that is the symbol whose length the triple becomes |
| DynamicHeader.BuiltInOneLevel | copeungz.c:1020-1035 | the table of the code length code has one level: every cell names a symbol and its length, except for the word that a single one-bit code leaves over |
| DynamicHeader.ReadRun | copeungz.c:1043-1110 | one run: a length, a repetition or a gap of zeros, refused exactly if it leads beyond the last length |
| DynamicHeader.ReadHeader | copeungz.c:964-1110 | the code lengths, or why there are none, or that a word left over by a single one-bit code was met |
| DynamicHeader.HeaderIsRead | copeungz.c:964-1110 | a valid header, sent as whatever runs, is read to its lengths, and the reader stops right behind it |
| DynamicHeader.HeaderIsValid | copeungz.c:964-1110 | whatever is accepted without meeting such a word is such a header |
| DynamicHeader.InflateDynamic | copeungz.c:921-1202 | header and block together, for every content of the symbol arrays |
| DynamicHeader.DynamicIsDecoded | copeungz.c:921-1202 | a header, the tokens in the codes it describes, and the end of the block are decoded to exactly these tokens if the builds accept the codes, and refused otherwise |
| DynamicExample.BlockIsRead | copeungz.c:921-1202 | one block given as bits, with repetitions and both kinds of gaps, is read to 258 and 4 given code lengths, to the byte 97 and a copy of three bytes from one back, and to the pairs stored for them |
| HttpInvariant.NeverCrashes | http.c:1652-1814 | no assertion of the machine can fail, for any input and any answers of the callback |
| HttpRun.FeedSplit | http.c:632-1817 | the meaning of two byte strings in a row is that of their concatenation |
| HttpRun.MergeRight | http.c:104-117 | merging adjacent data callbacks of a kind does not depend on where it starts |
| HttpExecute.HttpParser.ReadBody | http.c:1647-1693 | as much of a body as the buffer holds, in one step, means what its bytes mean one by one |
| HttpExecute.HttpParser.ExecuteByte | http.c:644-1817 | executing a byte again and again ends, with at most one mark set |
| HttpExecute.HttpParser.Parse | http.c:572-1848 | the state, the error, what was consumed and the callbacks, up to merging, are those of the bytes one by one |
| HttpMessages.SplitInvariant | http.c:572-1848 | two calls and one call over the same bytes: the same state, error, consumption and merged callbacks |
| HttpMessages.AnyBuffers | http.c:572-1848 | however the input is cut into buffers, it means the same |
| HttpMessages.BodyConserved | http.c:1647-1663 | bytes delivered and bytes remaining add up to the declared length |
| HttpMessages.BodyExact | http.c:1647-1682 | exactly the declared number of bytes is delivered, and the message is complete with the last |
| HttpMessages.AppendExactIff | http.c:1461-1471 | a digit is appended exactly if and only if the result is below 2^64 - 1 |
| HttpMessages.LengthStoredIff | http.c:1412-1474 | the digits of a length are stored as their value if and only if that is below 2^64 - 1 |
| HttpMessages.WrapsUnnoticed | http.c:1456-1474 | a string of 20 digits that the parser stores as another length |
| HttpMessages.LengthStored | http.c:1412-1474 | a decimal length below 2^64 - 1 is stored exactly |
| HttpMessages.SizeStored | http.c:1695-1746 | a hexadecimal chunk size below 2^64 - 1 is stored exactly |
| HttpMessages.SizeStoredIff | http.c:1695-1746 | the digits of a chunk size are stored as their value if and only if that is below 2^64 - 1 |
| HttpMessages.HexDigits | http.c:180-197 | the digits of a size are 0 to 9, a to f and A to F, with these values |
| HttpMessages.ChunksConserved | http.c:1695-1812 | at any byte of a chunked body exactly the data bytes seen so far have been delivered, in order |
| HttpMessages.PartOfPiece | http.c:1695-1812 | within the data of a chunk, what was delivered and what remains add up to its size |
| HttpMessages.ChunksRoundTrip | http.c:1695-1812 | the chunked coding of any pieces, with whatever extensions, delivers their data as one body, and completes the message |
| HttpHeaders.TokensAreTokens | http.c:145-177 | the table of tokens is the definition in section 2.2 of RFC 2616, and lowers letters |
| HttpHeaders.NameIsRecognised | http.c:1177-1349 | for every token as a field name: at its end the parser is in the state for "content-length", "transfer-encoding", "connection" or "proxy-connection", or "upgrade" if and only if that is the name in lower case; and the name is reported exactly |
| HttpHeaders.ValueIsRecognised | http.c:1357-1542 | "chunked", "keep-alive" and "close" are recognised if and only if the value, without the spaces behind it, is that in lower case, in a header of the right kind; and every value is reported exactly |
| HttpUrls.UrlAcceptedIff | http.c:425-569 | a URL is accepted if and only if it has one of the forms for its method, server, absolute or origin, and then it is reported exactly |
| HttpStartLines.MethodIsRead | http.c:875-980 | each of the methods is recognised by its name |
| HttpStartLines.RequestLineIsRead | http.c:875-1175 | a request line as written: method, URL and version |
| HttpStartLines.StatusLineIsRead | http.c:695-873 | a status line as written: version, code and any reason |
| HttpWhole.HeadersRun | http.c:1177-1554 | any headers as written: names and values are reported exactly, and flags and length are what the headers say |
| HttpWhole.FinishedIs | http.c:1853-1895 | after a message the parser waits for the next one, or for nothing, as version, flags and framing say |
| HttpWhole.HeadersEnd | http.c:1556-1645 | the empty line: headers complete, and then no body, chunks, a body of the stated length or one until the close, as section 4.4 of RFC 2616 orders them |
| HttpWhole.RequestIsRead | http.c:875-1645 | any request line and headers as written: the method, version, URL, fields and values are exactly those, and what follows is as the headers say |
| HttpWhole.ResponseIsRead | http.c:695-1645 | the same for a status line and headers |
| HttpWhole.BodyOfLength | http.c:1647-1682 | behind such headers a body of the stated length is delivered exactly, and the message is then complete, and not before |
| HttpWhole.ChunkedBody | http.c:1695-1812 | behind "transfer-encoding: chunked" any chunks deliver their data exactly, and the message is then complete |
| HttpWhole.BodyUntilClose | http.c:1684-1693 | without either all that comes is delivered as the body |
| HttpWhole.PostIsRead | http.c:572-1848 | one request with a content length, byte for byte, with all that is reported for it |
| StreamTable.Table.Find | get_data.c:458-481 | the stream's slot, or a free one, or the last of a full chain |
| StreamTable.Table.Insert | get_data.c:483-584 | the table stays the map from streams to their lists, with the segment appended; a server segment has its own stream's slot looked at if and only if the stream was there or a slot was free |
| StreamTable.Table.Free | get_data.c:592-639 | the stream leaves the map, and its slot can be used again |
| StreamTable.BuffersIff | get_data.c:522-580 | after any history a slot has token buffers if and only if it was once taken over while free, or another slot was chained behind it |
| StreamTable.ChainedWithoutBuffers | get_data.c:552-580 | two streams of one bucket, the second of which is left without buffers |
| StreamTable.ListsAreArrivals | get_data.c:483-639 | a stream's lists are what its own operations since its last free leave, whatever other streams do; without any it is not in the map |
| StreamTable.ListsInOrder | get_data.c:483-584 | of the history alone: a stream's up list is the segments of its client's arrivals since its last free, at increasing places that leave none of them out; and its down list those of its server's |
| StreamTable.InMapIff | get_data.c:483-639 | a stream is in the table's map if and only if something arrived for it since its last free |
| StreamTable.Replay | get_data.c:458-639 | over any history the table follows that map, each live stream with exactly one slot, and every chain is what the history makes it |
| StreamRace.NoFault | get_data.c:483-639 | in any interleaving, no step follows a null or freed pointer, and no copy leaves its buffer |
| StreamRace.ScannerIsSafe | loop-1831-wxy.c:25-103 | under the lock and with an owner seen, the list is of allocated segments, and the scanner's position is null or in it, also after reuse of the slot |
| StreamRace.CheckIsFirst | loop-1831-wxy.c:25-53 | in any interleaving, check_gk changes temp_up only from null, to the first segment |
| StreamRace.UpdateIsExact | loop-1831-wxy.c:73-104 | in any interleaving, update_dh puts temp_up on the first segment behind the stated number of bytes, counted from the old one, or on the last segment if its walk met the end |
| StreamRace.BufferIsExact | loop-1831-wxy.c:250-309 | the scanner's buffer is exactly filled with the data of consecutive segments, beginning where the last update since the slot was taken put temp_up, and with the first segment if there was none |
| StreamRace.PassedByUpdates | loop-1831-wxy.c:73-104 | a segment in front of the buffer was passed by an update that was told so, that found temp_up null, or whose walk had met the end before the segment came |
| StreamRace.PassesUnseenIff | loop-1831-wxy.c:73-104 | an update passes over a segment that its walk has not seen if and only if the walk met the end of the list and two more segments have come since |
| StreamRace.SkipsUnseen | loop-1831-wxy.c:73-104 | a run in which the second of three segments is skipped unseen |
| StreamRace.UpdatesBlindly | loop-1831-wxy.c:91-98 | an update that finds temp_up null puts it on the last segment, whatever it was told |
| StreamData.ListIsReceived | get_data.c:483-584 | in any interleaving, the list is what the client sent since the slot was last given up, segment by segment, each with its own data |
| StreamData.BufferIsReceived | loop-1831-wxy.c:250-309 | the scanner's buffer is a stretch of what the client sent, in the order in which it came |
| StreamData.BufferIsAll | loop-1831-wxy.c:250-309 | from where it starts, the buffer covers at least all segments that had arrived when the scanner began to measure |
| StreamRace.NothingLeaks | get_data.c:592-639 | between operations the allocated segments are exactly those of the list |
| Trie.RefsCover | trie.c:228-290 | the insertions through a word less the deletions that found their rule are at least as many as the live rules through it |
| Trie.Tree.InsertForUserId | trie.c:228-244 | the rule becomes live with the next even id; every node has exactly the references of its word's insertions less effective deletions |
| Trie.Tree.InsertForResourceId | trie.c:247-263 | the rule becomes live with the next odd id; the references are exact |
| Trie.Tree.Delete | trie.c:266-290 | the rule is live no longer, no other rule is lost, and the references are exact |
| Trie.Tree.MatchBelow | trie.c:177-204 | the search below a node finds exactly the live rules through it that match the rest of the text |
| Trie.Tree.Match | trie.c:324-331 | true if and only if some live rule matches, and then the id belongs to such a rule |
| Trie.LiveIds | trie.c:228-290 | a rule is live exactly if it was last inserted, not deleted; parity tells for what; no two live rules share an id |
| Trie.Replay | trie.c:228-290 | the tree follows any history, of whatever length, that leaves no reference count above a short and no id above an int; every node's references are its word's insertions less effective deletions |
| Trie.OftenFits | trie.c:228-290 | adding and removing a rule again and again is such a history, as long as there are ids |
| Checksum.TwoFolds | get4_ll.c:358-360 | two folds reach the one's complement sum for every value of an int |
| Checksum.Checksum | get4_ll.c:340-362 | the complement of the one's complement sum, without overflow, for up to 65535 bytes |
| Checksum.StoredIsZero | get4_ll.c:340-362 | the result stored in a zeroed aligned word makes the sum of the whole zero |
| Checksum.ChangeIsNoticed | get4_ll.c:340-362 | exactly when a changed word goes unnoticed |
| Checksum.WeightIs | get4_ll.c:365-461 | the check sum of a segment is the complement of the sum of its fields, each with its own weight |
| Checksum.SameAnswerIff | get4_ll.c:365-461 | two segments have the same check sum if and only if these sums agree modulo 0xffff |
| Checksum.BytesAreCovered | get4_ll.c:383-435 | a change of the protocol, the data offset, the reserved bits or the flags always changes the check sum |
| Checksum.WordsAreCovered | get4_ll.c:400-447 | a change of a port, the window or the urgent pointer changes it unless it is from one zero to the other |
| Checksum.LongsAreCovered | get4_ll.c:375-418 | a change of an address, the sequence number or the acknowledgement changes it unless its two words add up to the same modulo 0xffff |
| Checksum.PayloadIsCovered | get4_ll.c:449-458 | a change of the payload changes it unless its words add up to the same modulo 0xffff |
| Checksum.KnownSegment | get4_ll.c:365-461 | one segment byte for byte, and its check sum 0xed9f |
| Checksum.Tcp4Checksum | get4_ll.c:365-461 | the check sum of pseudo header, header and payload, an odd payload padded: the complement of the weighted sum of all fields |
| Checksum.SegmentVerifies | get4_ll.c:365-461 | a segment sent with the computed check sum sums to zero at the receiver |
| Hash.ConnectionHash.Init | hash.c:37-52 | whatever the random bytes, a permutation of 0 to 11 |
| Hash.PermutationCovers | hash.c:37-52 | such an array holds each index exactly once |
| Hash.ConnectionHash.MakeHash | hash.c:54-68 | the keyed bytes as one number modulo 0xff100f, without overflow of 32 bits |
| Hash.KeyedInjective | hash.c:65-66 | no two connections are keyed alike |
| Hash.ConnectionHash.Index | get_data.c:432-437 | a bucket of the table |
| Hash.BothDirections | get_data.c:432-437 | the same bucket for both directions of a connection |
| Hash.BucketAlone | get_data.c:432-437 | the bucket is the own hash if the reversed one is 0, the reversed one if the own is, and 0 if they are equal |
| Hash.KnownHash | hash.c:54-68 | one connection, number for number, and its hash 13449186 |
| Url.ReadMatches | urlparser.c:31-124 | every URL has components that match the expression |
| Url.MatchIsRead | urlparser.c:31-124 | and only one way to match, which is what is read |
| Url.AgreesUnlessColon | urlparser.c:33-47 | the splitter reads what the expression of RFC 3986, appendix B, reads, if and only if the URL does not start with a colon |
| Url.KnownUrl | urlparser.c:31-124 | "http://a/b?c#d" is read to its five components |
| Url.PlacesCutOut | urlparser.c:31-124 | the endpoints cut exactly the components out of the URL |
| Url.ParseUrlField | urlparser.c:21-125 | stores these endpoints up to the field asked for; later ones stay as they were |

## Left out

- Sockets, capture, sending, the databases, configuration and logging: no behaviour of their own here.
- InflateCodes.Inflater.Run: one input buffer; the source can suspend in the middle and resume, but does not save all it needs (copeungz.c:1040, 601-620). The run ends where a full buffer is handed over, and Resume takes one step beyond; the source gives up at the third hand-over (copeungz.c:665, 739, 810).
- Blocks.DynamicBlock: the symbol arrays' former contents are parameters; values that would index behind the base tables are left out.
- HuffmanMain.HuftBuild: memory never runs out, so its code 3 and huft_free are not modelled; tables are rows of one growing pool, not chunks with a link in front. The symbol array's former content is a parameter.
- Stored blocks, gzip headers, process_gzip_data, waitbuf and DelHeader: tied to packet boundaries.
- AcsmObject.Acsm.Search: match lists are sequences in the table; Publish gives them nodes, which are laid out after the pass instead of during it.
- Publish.Matcher.Delete: the pattern bytes of nodes are never freed in the source, so they are values here; a removed head stays allocated, as in the source.
- Publish.Matcher.DelStr: requires a non-empty list, because the source reads through a null pointer otherwise.
- Rules.Parse: at most four words and texts shorter than 256 bytes, the sizes of the source's arrays; formulas of four words have no value in the source.
- Rules.Engine.AddRule: at most 10000 additions, the size of the source's table, whose places are not used again.
- Rules.Engine.LogicQueryMatch: at most 32 hits, the size of the source's list.
- Acch.Scanner.Run: nothing is claimed about patterns missed inside copies, because the status index runs ahead of the window (acsm.c:681, 693), nor about the reported keyword; the decoded text ends before the window does, and the look-ups ahead stay in the status buffer. Distances reach only into the output, so the source's guards for others are not needed.
- HttpExecute.HttpParser.Parse: strict mode; callbacks return 0 except on_headers_complete, whose answer may be any function of the parser; after an upgrade the call stops. Bytes from 128 on count as in the source's tables.
- HttpWhole.RequestIsRead: headers without continuation lines, lines that end in CR and LF, one space behind the method and the URL, version numbers and codes up to 999, content lengths that are decimal numbers below 2^64 - 1, at most HTTP_MAX_HEADER_SIZE bytes; other inputs are covered by HttpExecute.HttpParser.Parse only.
- HttpWhole.ChunkedBody: the trailer behind the last chunk is empty, and the last size is a single zero.
- HttpInvariant.NeverCrashes: method names are recognised as the source does, which accepts any byte at index 2 (http.c:965-970).
- StreamRace.CheckIsFirst: what check_gk returns decides only whether the scanner goes on, so it is not modelled.
- StreamRace.NoFault: memory is sequentially consistent; one slot, its up list and its first lock; the down list, the blocking state and decompression are not in the race.
- StreamTable.Table.Insert: buffers are there or not; what process_gzip_data does with them is the business of the other parts.
- Trie.Replay: nothing is said about histories that overflow a reference count or an id; rules consist of digits, stars and spaces, the domain of c2i (trie.c:147-155), which leaves out the placeholder of trie_chk_rule.
- Checksum.Tcp4Checksum: payloads that fit an IP packet; a header without options, as in the source.
- Hash.ConnectionHash.Init: the source of random bytes is a parameter.
- The older copies http_old.c, loop.c and the like, Arena.c, MemoryManager.c, qs_parse.c and strtounicode: they would add only easy members.

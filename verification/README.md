# Watcher: a verified model

Watcher turns batches of WhatsApp messages into wiki thread pages. This project
models the deterministic code around its model calls and proves what that code
promises. A model's answer is an arbitrary value throughout.

`dafny verify dfyconfig.toml` checks everything.

## What is modelled

**The page** (`Text`, `PageFormat`, `Schema`). A page is text, parsed into
verbatim slices and dumped by concatenating them. Parsing a dump gives the page
back exactly when the page is well-formed, and dumping a parse gives the text
back exactly when both frontmatter delimiter lines end in a bare newline. The
source's module comment promises the second for any input; a page with CRLF
delimiters is the counterexample.

**The editor** (`Neutral`, `Fence`, `Editor`, `Sections`, `Tidy`,
`Frontmatter`, `TitleEdits`, `Squeezing`, `SharedText`, `EditRuns`). Text of any
shape is neutralised and written inside fences, or below what a shared section
says. `Tidy.TidyPage` is the invariant: well-formed, and no last line that
would turn into a section header once a newline follows it. A parsed page is
tidy exactly when its last line is no such header. Every run of edits with
arbitrary text keeps a tidy page tidy, so the dump parses back to the edited
page; the sections are the old ones with schema sections added in schema order;
an `append` section's fenced text only grows at its end; a `human` section keeps
its text, and what a confirmed proposal or a shared edit adds goes below it. Writing a fence is a lens exactly when its first opening marker is
closed or there is none.

**Items** (`Items`, `ItemText`, `ItemEdits`, `Upserts`, `UpsertMeans`,
`UpsertTwice`, `CleanItems`, `FieldReads`). The grammar of item lines with its lazy and greedy
matches. Formatting then parsing is the identity exactly on items whose text is
whole, and a block id comes back from any text at all. A field that the text
opens may run over the text's end; what is then read back is said exactly.
Applying the same items twice is promised to be applying them once
(docs/adr/0014-inboxes-live-on-the-wiki.md:19); that is false of some items, for
appending and for upserting. Both exact conditions are proved, and inputs outside
them are shown.

**Transfer** (`Transfer`, `MergeSettles`, `ThreadTransfer`, `TaskRuns`,
`ThreadSections`). The project agent's handlers, and what each section of the
page shows after them. Applying any thread twice is applying it once, byte
for byte, exactly when its tasks settle and what it appends is found again; a
task settles exactly when its text takes no owner and no due date, spells none
and forms no ticked box. Through any number of transfers of any threads, with
rewritten Status texts between them, no task disappears and no ticked box is
unticked, and an owner or due date set on the page stays exactly as long as no
thread's text swallows it.

**Assignment** (`Concatenation`, `Placement`, `Chunking`, `Assignment`,
`Batches`, `HandOver`, `TokenBudget`). The placement class with its stack loop,
the greedy chunks, validation and salvage of an answer, the whole of
`assign_batch`, and the router that hands messages over to it. The messages
placed are exactly those in no reply cycle, each in one bucket, in batch order,
with the message they reply to. The router drops a message exactly when
its replies lead, by way of another reply, to a message left to the worker, and
nothing else is lost. The first prompt of each round keeps the whole budget,
unless the smallest context or a single message takes more than its share.

**Storage** (`Occ`, `InboxLines`, `Inbox`, `InboxPosts`, `InboxPage`, `InboxDone`,
`PagedRead`). Writers
that read, change and write against a revision, interleaved in any way with
each other and with people: the page is the replay of what was committed. The
inbox page on top of it, for posts of any text: items read back from their
lines, one pending item per subject that shows the last text posted about it,
acknowledged items ticked among the last fifty, and after any interleaving the notes people
last wrote, byte for byte. The paged read returns the page of its last call, whole.

**The Thread Store** (`Vault`, `Slugs`, `ThreadStore`). A cache over the vault
that is at all times what a fresh load would return; fresh ids. Archiving and
relocating may stop at any store operation: no page is lost or overwritten, a
second archiving completes the first, and a second relocation does too, but for
the one page a stop leaves in both places.

**Rendered items** (`Rendering`, `NextBatch`). A model's typed items become item
lines. Two rows share a block id exactly when an unchecked last resort is given out twice,
which the same new item does from its fifth copy on. Reading the lines back
gives exactly the ids given, whatever the text, and the item's own known
messages. New items named again in the next batch keep their ids exactly if the
page shows each one's text last on its own row; a text that spells a field, or
names a member, is shown not to.

**Names** (`Names`, `NamesGiven`, `NamesTwice`). Aliases become wikilinks through three passes
with numbered placeholders. That is a single walk over the text exactly when no
alias is the number of a placeholder. The walk links the longest alias that stands free, and the earliest given of one
length, to its own title. It keeps every link already there,
and a second one changes nothing if the aliases have edges of one kind; for one
alias this is the exact condition, and the source's own form `Title (jid)` does
not meet it.

**The Scheduler** (`Scheduler`, `Exclusion`). The ledger and the backoff of one
run, and lock keys over every interleaving: at most one body a key, first come
first served, nobody left waiting. A try for the lock is refused exactly while a
body runs, but it can queue, which the source says it never does.

Text is a sequence of characters. Whitespace is Python's whole class; word
characters and case folding are ASCII; the newline is the only line break.
Loading YAML and validating it against a page type's schema is a function from
the raw block to the page type or nothing (`PageFormat.Loader`).

## Model

| member | source | states |
|---|---|---|
| `PageFormat.SplitRest` | shared/wiki/parser.py:66-94 | the loop over header matches cuts the text into the preamble and sections the recursive parse gives |
| `PageFormat.DumpLoop` | shared/wiki/parser.py:139-143 | the loop that adds up the slices produces the page's dump |
| `PageFormat.ParsedPageWellFormed` | shared/wiki/parser.py:66-110 | whatever the text, a page the parser returns is well-formed, with a raw block that closes only at its end |
| `PageFormat.RoundTripIffWellFormed` | shared/wiki/parser.py:66-94 | parsing the dump gives back preamble and sections exactly when the page is well-formed |
| `PageFormat.ParseAfterDump` | shared/wiki/parser.py:97-110 | a well-formed page is read back from its dump slice for slice |
| `PageFormat.DumpAfterParse` | shared/wiki/parser.py:5-8 | dumping what was parsed gives the text back exactly when both delimiter lines end in a bare newline |
| `PageFormat.DumpAfterParseFailsOnCRLF` | shared/wiki/parser.py:21 | a page with CRLF delimiters that the dump does not give back |
| `Neutral.NeutraliseLoop` | shared/wiki/editor.py:68-76 | the loop over lines computes the neutralised text |
| `Neutral.NeutraliseSafe` | shared/wiki/editor.py:68-76 | neutralised text opens no section and neither opens nor closes a fence, whatever the text |
| `Neutral.NeutraliseKeepsIffNeutral` | shared/wiki/editor.py:68-76 | neutralising changes exactly the texts that hold a heading or a marker |
| `Neutral.NeutraliseIdempotent` | shared/wiki/editor.py:68-76 | neutralising twice is neutralising once |
| `Neutral.NeutralLineShows` | shared/wiki/editor.py:68-76 | reading `&lt;` as `<`, a neutralised line is the line given, but for a backslash before the hashes of a heading |
| `Schema.TablesAreGood` | shared/wiki/schema.py:134-195 | no two sections of a page type differ only in case, and every title survives a header line |
| `Schema.CanonicalIdempotent` | shared/wiki/schema.py:204-215 | a canonical title is its own canonical title |
| `Schema.CanonicalMeans` | shared/wiki/schema.py:198-215 | a title of the schema in any case stands for that title, the words for tasks for the open tasks where there are any, every other title for itself |
| `Schema.OwnerMeans` | shared/wiki/schema.py:218-220 | a section has the owner its canonical title has in the table, and none if it is not there |
| `Schema.OwnedTitle` | shared/wiki/schema.py:218-220 | a section with an owner has a canonical title a header line carries |
| `Fence.SplitAgain` | shared/wiki/editor.py:155-163 | splitting a rewritten body finds the same outside and exactly the text written |
| `Fence.PutGetIff` | shared/wiki/editor.py:155-180 | reading gives what was written exactly when the first opening marker is closed or absent |
| `Fence.PutPutIff` | shared/wiki/editor.py:155-188 | a second write replaces the first exactly when the first opening marker is closed or absent |
| `Fence.PutTheSame` | shared/wiki/editor.py:171-188 | writing back what is read changes nothing |
| `Fence.PutKeepsOutside` | shared/wiki/editor.py:155-168 | every byte outside a complete fence stays; a missing fence is added after all there was |
| `Fence.OrphanHappens` | shared/wiki/editor.py:155-163 | a lone opening marker is one nobody closes |
| `Fence.OrphanFence` | shared/wiki/editor.py:155-180 | after a write behind an unclosed marker, readers see everything from that marker on |
| `Fence.GrowKeepsPrefix` | shared/wiki/editor.py:191-204 | appending keeps the text the fence showed as a prefix, in every state of the fence |
| `Tidy.TerminatingTail` | shared/wiki/parser.py:22 | adding the missing final newline opens a section exactly when the last line reads as a header |
| `Tidy.HeaderTailHappens` | shared/wiki/parser.py:22 | such a last line: no header before the newline, a header after it |
| `Tidy.TidyIffTailOk` | shared/wiki/parser.py:66-94 | a well-formed page is tidy exactly when its last line is no unterminated header |
| `Tidy.HeaderOfTitle` | shared/wiki/editor.py:134 | the header written for a plain title carries exactly that title |
| `Tidy.InsertTidy` | shared/wiki/editor.py:127-135 | inserting a section, with the newline its neighbour may need, keeps the page tidy |
| `Tidy.PutSectionTidy` | shared/wiki/editor.py:183-188 | rewriting a fence with any text keeps the page tidy |
| `Tidy.GrowSectionTidy` | shared/wiki/editor.py:191-208 | appending to an append, shared or human section keeps the page tidy; what the section then says is `SharedText.LinesGoBelow` and `SharedText.LinesGoInside` |
| `SharedText.LinesGoBelow` | shared/wiki/editor.py:191-208 | on a shared section, or a human one for a confirmed proposal: the lines there without the final newlines, then exactly the lines given, neutralised and in order, then a blank line when another section follows |
| `SharedText.LinesGoInside` | shared/wiki/editor.py:191-204 | on an append section whose first opening marker is closed or absent: the fence shows what it held and below it exactly the lines given, neutralised |
| `Sections.WithSectionFinds` | shared/wiki/editor.py:110-135 | afterwards the section is the first of its title, with its old body or the schema's skeleton |
| `Sections.WithSectionOrdered` | shared/wiki/editor.py:119-128 | a missing section goes in where the schema wants it: schema order is kept |
| `Sections.WithSectionAdds` | shared/wiki/editor.py:101-135 | a missing section is put before the first that the schema has after it, with its canonical title, its header and the two markers of its owner or a blank line; the others stay |
| `Sections.RewriteGets` | shared/wiki/editor.py:148-152 | a rewritten section reads back as written, with page type and frontmatter unchanged |
| `Sections.RewriteTwice` | shared/wiki/editor.py:110-152 | a second rewrite of a section replaces the first |
| `Sections.RewriteOthers` | shared/wiki/editor.py:110-152 | every other section keeps header and body, but for the newline an insertion needs before it |
| `Frontmatter.PatchRawMeans` | shared/wiki/editor.py:304-314 | the key's line is replaced and every other byte of the block stays |
| `Frontmatter.SetFieldTidy` | shared/wiki/editor.py:304-320 | a field is set and validated, or refused, and the page stays tidy |
| `Frontmatter.SetTitleTidy` | shared/wiki/editor.py:323-332 | a title of any text keeps the page tidy, validated, and its sections as they were |
| `Frontmatter.YamlTextNoNewline` | shared/wiki/editor.py:266-301 | any title is rendered as a scalar on one line |
| `TitleEdits.TitleSet` | shared/wiki/editor.py:304-332 | setting a title replaces the first `title` line, or adds one at the end of the block, and the first heading, or puts one in front, with the words of the title; every other byte of both, and the sections, stay |
| `TitleEdits.YamlTextReadsBack` | shared/wiki/editor.py:266-301 | the scalar a text is rendered as, bare or quoted with its escapes, reads back as the text |
| `Squeezing.OneLineIs` | shared/wiki/editor.py:326 | a text on one line is its words joined with single spaces |
| `EditRuns.RunReadsBack` | shared/wiki/editor.py:155-258 | after any run of edits with any text, parsing the dump gives exactly the edited page |
| `EditRuns.TextReadsBack` | shared/wiki/parser.py:66-110 | for every text that parses and does not end in an unterminated header, dumping and parsing after any run of edits gives the edited page |
| `EditRuns.HeaderTailBreaks` | shared/wiki/parser.py:22 | on a page that ends in such a line, the first section an edit adds makes it a header, and the page no longer reads back |
| `EditRuns.RunSections` | shared/wiki/editor.py:110-135 | after any run the sections are the old ones with schema sections added, in schema order if they were |
| `EditRuns.RunAppends` | shared/wiki/editor.py:191-234 | over any run an append section's fenced text before is a prefix of its fenced text after |
| `EditRuns.RunShared` | shared/wiki/editor.py:191-208 | over any run, confirmed proposals included, what a shared or human section says without its final newlines stays first in it, in whole lines |
| `EditRuns.HumanKept` | shared/wiki/editor.py:91-98 | over any run without a confirmed proposal a human section keeps its text, but for a final newline |
| `EditRuns.SetFencedLens` | shared/wiki/editor.py:171-188 | reading gives the neutralised text without edge newlines, the second write wins, rewriting what is read and every other section change nothing |
| `EditRuns.FencedTextNewline` | shared/wiki/editor.py:171-180 | a final newline added to a body never changes what its fence shows |
| `Items.BlockIdRecovered` | shared/wiki/items.py:16-20 | a formatted line carries its block id, for any text and fields, also once neutralised |
| `Items.ItemRoundTrip` | shared/wiki/items.py:37-68 | parsing a formatted safe item gives the item back |
| `FieldReads.RoundTripIff` | shared/wiki/items.py:37-68 | for safe fields and any text, parsing gives the item back exactly when its box is as it reads and no part of the text reads as fields only |
| `FieldReads.OverLands` | shared/wiki/items.py:15-21 | a field the text opens ends in the text, or with the first written field that holds a link |
| `FieldReads.ReadsAs` | shared/wiki/items.py:37-51 | for safe fields and any text: the box read is the written one or the one the text starts with; the fields read are those the text spells and then those it does not swallow, the last value of a key winning |
| `FieldReads.WrittenIs` | shared/wiki/editor.py:68-76 | writing an item neutralises its text and its values and nothing else of its line |
| `FieldReads.WrittenFieldIff` | shared/wiki/items.py:37-68 | a field of a written item is read back, neutral, exactly when the text does not swallow it, or spells it itself |
| `FieldReads.OwnerSwallowed` | shared/wiki/items.py:15-21 | a text that opens a link in a field it leaves open, whose item is read back without its owner |
| `Items.FieldsRoundTrip` | shared/wiki/items.py:15-21 | rendered fields are fields, and scanning gives them back |
| `Items.ValueLenWiki` | shared/wiki/items.py:15 | a value of text and wikilinks is matched whole, up to its closing bracket |
| `Items.TextLenSafe` | shared/wiki/items.py:16-20 | the lazy match does not cut text that opens no field |
| `ItemText.ItemsBySplit` | shared/wiki/items.py:54-60 | the items of a body are those before its fence, in it and after it |
| `ItemEdits.PickNewLines` | shared/wiki/editor.py:220-233 | the loop picks the items whose id and text are new |
| `ItemEdits.AppendItemsTwiceIff` | shared/wiki/editor.py:215-234 | whatever the items and wherever the markers stand: appending again adds nothing exactly when each id or text is among those the grown body shows |
| `ItemEdits.GrownItems` | shared/wiki/editor.py:191-204 | what a body shows once text is appended: the text on lines of its own, or its first line joined to the opening marker's when that marker does not end its line and the fence shows nothing |
| `ItemEdits.AppendItemsTwice` | shared/wiki/editor.py:215-218 | appending the same items a second time leaves the page unchanged |
| `ItemEdits.FieldsSwallowed` | shared/wiki/items.py:37-51 | text that ends in fields reads back shorter: the items outside that condition |
| `ItemEdits.GluedItemIsLost` | shared/wiki/editor.py:191-204 | behind a marker without its own line the first item written is not found again |
| `ItemEdits.ReadableReads` | shared/wiki/editor.py:215-234 | an item written as it is reads back whole |
| `Upserts.UpsertLines` | shared/wiki/editor.py:243-257 | the two loops compute the replaced lines and the missing ones |
| `Upserts.OtherLinesKept` | shared/wiki/editor.py:237-242 | a line that holds no incoming item is kept verbatim, in place |
| `Upserts.IdOfNeutral` | shared/wiki/editor.py:68-76 | neutralising never changes whether a line is an item, nor which |
| `Upserts.ParseTrimmed` | shared/wiki/editor.py:251 | trailing blanks make no difference to the item on a line |
| `UpsertMeans.OutLinesAre` | shared/wiki/editor.py:243-257 | the first line of each incoming id becomes the merge with the last incoming item of that id, every other line stays, and the items on no line follow, in order |
| `UpsertMeans.UpsertShows` | shared/wiki/editor.py:237-258 | the fence then shows exactly those lines, neutralised, if its first opening marker was closed or absent |
| `UpsertTwice.UpsertAgainIff` | shared/wiki/editor.py:237-258 | for any items with ids and any merge that keeps ids, texts of several lines included: a second call changes nothing exactly when the first opening marker is closed or absent and, in what the first call wrote, every line first of its id is rewritten to itself and every id is on a line |
| `UpsertTwice.UpsertTwiceIff` | shared/wiki/editor.py:237-258 | for items of one line, told before the first call: exactly when each first line of an id, replaced or added, settles under the last item of that id |
| `UpsertTwice.IncomingWins` | shared/wiki/editor.py:237-242 | with the default merge: exactly when no id is added first with one line and last with another |
| `CleanItems.CleanReads` | shared/wiki/editor.py:68-76 | clean items are written as they are and read back whole |
| `CleanItems.SwallowedTwiceChanges` | shared/wiki/editor.py:215-234 | two new items of one text that spells fields: the first call appends one of them and the second call the other |
| `CleanItems.SwallowedHappens` | shared/wiki/editor.py:215-234 | such an item |
| `Transfer.MergeMeans` | agents/project_agent/agent.py:47-54 | a tick, an owner and a due date survive, everything else is the incoming item's |
| `Transfer.MergeAgain` | agents/project_agent/agent.py:47-54 | merging the same item again changes nothing |
| `MergeSettles.MergeSettlesIff` | agents/project_agent/agent.py:47-54 | merging a task into its own line again leaves the line exactly when its text forms no ticked box, and the owner and the due date are each not swallowed, or spelled with the same value, or neither read back nor other than the thread gives |
| `MergeSettles.TasksSettleIff` | agents/project_agent/agent.py:65-72 | tasks of different ids all settle exactly when each line merged or added stays so |
| `MergeSettles.OwnerIsLost` | agents/project_agent/agent.py:47-54 | a thread's text that takes the owner set on the page |
| `MergeSettles.OwnerGoesSecond` | agents/project_agent/agent.py:47-54 | the same text: the first application writes the owner and the second deletes it, so they do not settle |
| `MergeSettles.SecondWins` | shared/wiki/editor.py:246-257 | two new tasks of one id: both are added, and the next call writes the second into the first line |
| `ThreadTransfer.GroupByKind` | agents/project_agent/agent.py:119-121 | items are grouped by kind, in order of first appearance |
| `ThreadTransfer.ApplyThreadItems` | agents/project_agent/agent.py:107-127 | the loops fold the handlers over the kinds; what each section then shows, by its name, is in `ThreadSections` |
| `ThreadSections.DecisionsLand` | agents/project_agent/agent.py:75-80 | on a page with Decisions: exactly the decisions of the thread whose id and text neither the section nor an earlier one picked has are at the end of its fence, in order, each on a line with its text, `by` the system, its sources and its id; that line reads as an item of the id, and as the whole item if it is clean |
| `ThreadSections.ResourcesLand` | agents/project_agent/agent.py:83-88 | the same of its resources in Resources, with their sources |
| `ThreadSections.QuestionsLand` | agents/project_agent/agent.py:91-96 | the same of its questions in the Log, as open questions |
| `ThreadSections.TasksLand` | agents/project_agent/agent.py:65-72 | a thread's task is in Open tasks of a project or Logistics of an event: on a line of its own if the page had none of its id, and otherwise merged, with the page's tick, owner and due date; a task the thread does not have stays |
| `ThreadSections.OthersUntouched` | agents/project_agent/agent.py:107-127 | a section for which the thread has no item of the kind, by the sections' names, stays byte for byte |
| `ThreadSections.FailsIff` | agents/project_agent/agent.py:57-96 | a thread cannot be applied exactly when it has a decision, resource or question and the page no section for it |
| `ThreadSections.SourcesAre` | shared/wiki/items.py:31-34 | the sources are the pieces between the commas of `src`, trimmed, the blank ones left out |
| `ThreadTransfer.HandleTwiceIff` | agents/project_agent/agent.py:65-96 | a handler's second call with the same items changes nothing exactly when they are repeatable: tasks settle in a closed or absent fence, ids or texts appended are among those the grown section shows |
| `ThreadTransfer.HandleRewrites` | agents/project_agent/agent.py:57-96 | a handler that succeeds rewrites only the section of its kind, which was there already; which section that is, by its name, is in `ThreadSections` |
| `ThreadTransfer.ApplyThreadTwiceIff` | agents/project_agent/agent.py:107-132 | applying any thread again leaves the page unchanged exactly when each kind of its items is repeatable on the page before |
| `ThreadTransfer.CleanIsRepeatable` | agents/project_agent/agent.py:65-96 | clean tasks of different ids, on lines with clean owners and dates, and appended items whose texts agree, are repeatable |
| `TaskRuns.ApplyTextTwiceIff` | agents/project_agent/agent.py:107-132 | applying a thread again to the text that was written, parsed anew, changes no byte exactly when the thread is repeatable |
| `TaskRuns.ThreadLine` | agents/project_agent/agent.py:107-132 | after a transfer of any thread each task is on exactly the line told from its line before and the thread's tasks: merged, neutralised, added or, behind an open fence, as it was |
| `TaskRuns.RunReadsBack` | agents/project_agent/agent.py:107-175 | after any number of transfers and rewritten Status texts the dumped page parses to the page |
| `TaskRuns.TicksStick` | agents/project_agent/agent.py:47-175 | through any run of transfers of any threads and of Status texts, on any initiative page, no task disappears and no ticked task is unticked |
| `TaskRuns.KeptIff` | agents/project_agent/agent.py:47-54 | an owner or due date set on the page is read back after a merge exactly when the thread's text does not swallow it, or spells it itself |
| `TaskRuns.FieldsStickIff` | agents/project_agent/agent.py:47-175 | through any run an owner or due date of the page is there all along exactly when at each merge the thread's text does not swallow it, or spells it itself |
| `TaskRuns.CleanSticks` | agents/project_agent/agent.py:47-175 | over any run a task whose merges are clean keeps tick, owner and due date |
| `Concatenation.Concatenate` | agents/wa_agent/ingestion.py:124-145 | the loop joins each message to the run before it or starts one |
| `Concatenation.JoinedMeans` | agents/wa_agent/ingestion.py:124-145 | a message begins a new one exactly if it is of another sender, replies, or comes later than the window after the one before; each joined message has id, sender, time and reply of its first, the texts on lines of their own, and all raw ids |
| `Concatenation.JoinedKeeps` | agents/wa_agent/ingestion.py:124-145 | no raw id is lost, repeated or reordered |
| `Concatenation.RepliesStand` | agents/wa_agent/ingestion.py:131-136 | a reply stays a message of its own |
| `Concatenation.ConcatenatedIsGood` | agents/wa_agent/ingestion.py:124-145 | from distinct raw ids it makes a batch where every raw id has one place |
| `Chunking.ChunkMessages` | agents/wa_agent/assign.py:317-339 | the chunks concatenate to the messages, each fits or is a single message, none could take the first message of the next, and no other such cut has fewer |
| `Placement.Placement.constructor` | agents/wa_agent/assign.py:406-416 | a placement starts empty and valid |
| `Placement.Placement.PlaceOne` | agents/wa_agent/assign.py:421-426 | one turn of the stack loop: bucket, raw ids, and the followers handed back |
| `Placement.Placement.Put` | agents/wa_agent/assign.py:418-426 | a message and everything waiting for it are placed under the key, and nothing else moves |
| `Placement.Placement.RouteReplies` | agents/wa_agent/assign.py:436-455 | every message is placed, waits for its target, or is asked about - exactly one; of those that reply to nobody in the batch, the placed are with the stored thread they reply to |
| `Placement.Placement.Finish` | agents/wa_agent/assign.py:428-434 | every bucket keeps its messages and is in batch order |
| `Placement.PutTurn` | agents/wa_agent/assign.py:418-426 | a turn of the stack loop keeps everything and brings the end nearer |
| `Placement.TargetMeans` | agents/wa_agent/assign.py:399-416 | a message waits for exactly the other message of the batch that holds the raw id it replies to, if there is one |
| `Placement.PlacedIffFree` | agents/wa_agent/assign.py:399-455 | once nobody is left to ask about, the placed messages are exactly those in no reply cycle |
| `Placement.BackwardIsFree` | agents/wa_agent/assign.py:442-447 | where replies only point backwards there are no cycles |
| `Placement.CycleHappens` | agents/wa_agent/assign.py:445-447 | two messages that reply to each other are in a cycle |
| `Assignment.Validate` | agents/wa_agent/assign.py:347-396 | no problems are found exactly when the answer maps each asked message once to a thread that exists and declares its threads properly |
| `Assignment.UsableLeavesNone` | agents/wa_agent/assign.py:553-571 | after an answer without problems every message of the chunk gets a thread |
| `Assignment.AskWithRetries` | agents/wa_agent/assign.py:603-640 | the last answer given is used, asking stops at the first clean one, and never after the third attempt |
| `Batches.NoneLost` | agents/wa_agent/assign.py:564-571 | no message of a chunk with a clean answer is counted unassigned |
| `Batches.GoesIs` | agents/wa_agent/assign.py:545-571 | the key a message is put under is that of the thread its last pick names: a known thread itself, `new-thread:` and the number for one minted before or declared with a title, and chatter for any other and for none |
| `Batches.UnthreadedIs` | agents/wa_agent/assign.py:545-571 | a message counts as unassigned exactly when no pick sends it to such a thread |
| `Batches.PutChunk` | agents/wa_agent/assign.py:558-575 | each message is placed under the key its answer leads to (`Batches.GoesIs`) or in chatter, and the threads used are exactly those an answer sends a message to; what was placed stays, and the rest still to ask about is untouched |
| `Batches.FoldNewThreads` | agents/wa_agent/assign.py:577-589 | each key holds what it held or the declaration of a used thread of that key; later numbers start above the declared ones |
| `Batches.OneChunk` | agents/wa_agent/assign.py:541-595 | one round keeps the placement valid, makes progress, and leaves only good bucket keys |
| `Batches.AssignBatch` | agents/wa_agent/assign.py:458-595 | whatever is answered: each message is in at most one bucket, exactly those in no cycle in one, in order, with their targets, under keys that exist; a message that replies to nobody in the batch is with the stored thread it replies to, or asked about once, in a chunk that keeps its budget; asked, it is in the bucket of the thread its last pick names, if that is known, was minted, or is declared well-formed with a title, and else in chatter; the unassigned are exactly those no such pick places; declared threads are the last titled ones of their name |
| `HandOver.RouteAsked` | agents/wa_agent/assign_jev.py:127-135 | the router places what it is sure of where it chose; exactly the rest is held |
| `HandOver.HandedFree` | agents/wa_agent/assign_jev.py:137-147 | everything handed over can be placed by the structured assigner |
| `HandOver.StrandedIsDropped` | agents/wa_agent/assign_jev.py:127-145 | the messages left in nobody's hands are those in a cycle and those whose replies lead by way of another reply to a message left to the worker |
| `HandOver.DropHappens` | agents/wa_agent/assign_jev.py:138-145 | a question nobody places, a reply to it and a reply to that: the last is lost |
| `HandOver.ShallowDropsNothing` | agents/wa_agent/assign_jev.py:140-145 | where no reply is itself replied to nothing is dropped, whatever the router says |
| `HandOver.AssignWithRouter` | agents/wa_agent/assign_jev.py:87-160 | a message is in no bucket exactly when it is dropped, told from the batch, the stored threads and the choices; every other is in one, in order, with its target, under a key that exists. A message that replies to nobody in the batch is with its stored thread, or where the router chose, if the choice exists and its confidence reaches the threshold, or else asked about and put where its answer says |
| `TokenBudget.PromptCosts` | agents/wa_agent/assign.py:212-232 | a prompt costs at most its overhead and its lines, with newlines, roundings and the count's digits |
| `TokenBudget.PromptWithinTotal` | agents/wa_agent/assign.py:530-537 | when the context keeps its share and the chunk its budget, the first prompt keeps the total |
| `TokenBudget.DropFair` | agents/wa_agent/assign.py:235-249 | the thread dropped is the oldest stale one, and the oldest active one once no stale one is left; what is still shown keeps its order and every thread minted in the batch |
| `TokenBudget.Squeeze` | agents/wa_agent/assign.py:498-521 | squeezing stops at the first fit, or when titles alone of one thread or of minted threads are left; what is shown is told from what there was by dropping the oldest stale threads, and active ones only after all of those |
| `TokenBudget.BatchPromptsFit` | agents/wa_agent/assign.py:498-541 | in a batch whose chunks get what squeezing leaves, each round's first prompt keeps the total, unless the smallest context takes more than its share or one message alone more than its chunk may |
| `Occ.NextKeepsInv` | shared/inbox/interface.py:231-246 | every step of every writer or person keeps the page the replay of the log |
| `Occ.EveryRunIsAReplay` | shared/inbox/interface.py:231-246 | in every interleaving a write that returned was applied exactly once, to the page current at its commit, and any other not at all |
| `Occ.ReplayKeeps` | shared/inbox/interface.py:231-246 | what every change and every edit keeps holds of every reachable page |
| `InboxLines.LineRoundTrip` | shared/inbox/interface.py:144-185 | a line of any text reads back from the page as its item: the text on one line, without brackets and neutral, and every value that is not empty |
| `InboxLines.PlainIs` | shared/inbox/interface.py:135-137 | item text is trimmed, on one line, without brackets |
| `InboxPage.PlainKept` | shared/inbox/interface.py:135-137 | text that already is so is kept |
| `InboxPage.PlainTwice` | shared/inbox/interface.py:135-137 | text the page shows, neutral, is shown the same again |
| `InboxPage.EmptyChannelClashes` | shared/inbox/interface.py:144-148 | with an empty name for a channel, two subjects are one once read |
| `Inbox.PostOneMeans` | shared/inbox/interface.py:256-269 | a post changes the first item of its subject, which then has the post's text, triggers if either did, has the post's link if it gives one and the earlier `since`, and is otherwise as it was; or it adds an item with everything it says at the end |
| `InboxPosts.PostsMean` | shared/inbox/interface.py:250-271 | several posts: the first pending item of each subject takes the last text about it, triggers if any did, has the last link given and the first `since`; the others stay; queued, in order, are exactly the posts without a thread and the first of each subject nothing pending is about |
| `InboxPosts.LastPostShows` | shared/inbox/interface.py:250-271 | the last post of a thread, kind and channel is the text its item shows |
| `Inbox.AckSplits` | shared/inbox/interface.py:279-282 | the items finished are exactly those acknowledged and the items pending exactly the others, both in the order they had |
| `InboxDone.DoneLineReads` | shared/inbox/interface.py:144-161 | the line of a finished item reads as the item ticked, with its id, text, kind and the time it was done |
| `InboxDone.AckShows` | shared/inbox/interface.py:231-284 | acknowledging adds such a line for each item taken off the list, in order, below those there; of all of them the page shows the last fifty |
| `InboxDone.TypedIsRequest` | shared/inbox/interface.py:164-171 | a line a person types, with or without a box, is a request of that text |
| `Inbox.ChangeKeepsOneEach` | shared/inbox/interface.py:188-193 | every change keeps at most one pending item per kind, channel and thread |
| `InboxPage.FilledReads` | shared/inbox/interface.py:231-240 | a filled page shows exactly the items given and keeps the notes byte for byte |
| `InboxPage.CommitKeeps` | shared/inbox/interface.py:231-246 | a committed change leaves a page in order that shows the changed list and the same notes |
| `InboxPage.InboxStaysInOrder` | shared/inbox/interface.py:231-284 | with posts of any text, in any interleaving the page is always in order, so at most one item is pending per subject, and its notes are byte for byte those of the text people last gave it |
| `InboxPage.NewInboxOk` | shared/inbox/interface.py:210-219 | a new inbox is in order and has nothing pending |
| `PagedRead.TakesNext` | shared/wiki/lapis_client.py:346-356 | a reply's lines continue the page where the last one ended |
| `PagedRead.Read` | shared/wiki/lapis_client.py:337-358 | the content is the whole page, at the revision returned, as of the last call made; reading ends once writing stops |
| `Vault.LocalDir.Create` | shared/wiki/lapis_client.py:156-164 | a page is created if there is none, and an existing one is never touched |
| `Vault.LocalDir.Write` | shared/wiki/lapis_client.py:166-176 | a page is replaced only at the revision it was read at; a stale one leaves a note with both texts, and no revision is refused |
| `Vault.LocalDir.Delete` | shared/wiki/lapis_client.py:188-191 | the page is gone and every other stays |
| `Slugs.SlugifyIsSlug` | shared/wiki/templates.py:17-20 | every slug is 1 to 80 letters, digits and single inner dashes |
| `Slugs.SlugKept` | shared/wiki/templates.py:17-20 | a slug is its own slug |
| `Slugs.SlugifyIdempotent` | shared/wiki/templates.py:17-20 | slugifying twice is slugifying once |
| `Slugs.SlugOfTitle` | shared/wiki/templates.py:17-20 | the slug of any title: its runs of letters and digits in lower case joined with dashes, cut at 80 characters and at a dash left at the end; `untitled` if it has none |
| `ThreadStore.ThreadStore.constructor` | shared/wiki/threads.py:138-142 | a new store is coherent |
| `ThreadStore.LoadMeans` | shared/wiki/threads.py:144-158 | a loaded thread is the page of its name in the directory that reads as a thread, with its facts, content and revision |
| `ThreadStore.ThreadStore.LoadDir` | shared/wiki/threads.py:146-158 | the loop loads every thread page of the directory |
| `ThreadStore.ThreadStore.Live` | shared/wiki/threads.py:160-163 | the live cache is what a fresh load returns |
| `ThreadStore.ThreadStore.Archive` | shared/wiki/threads.py:165-168 | the archive cache is what a fresh load returns |
| `ThreadStore.ThreadStore.Get` | shared/wiki/threads.py:194-196 | a thread is found wherever the vault has it |
| `ThreadStore.ThreadStore.Create` | shared/wiki/threads.py:211-245 | the search ends; the id is the base if no thread and no page has it, and otherwise the base with the first number from 2 on that none has; the caches stay exact |
| `ThreadStore.ThreadStore.WriteThread` | shared/wiki/threads.py:247-253 | a write from the cache never conflicts and keeps the cache exact |
| `ThreadStore.ThreadStore.Revise` | shared/wiki/threads.py:255-274 | only the thread's page changes; a stale thread is reported as revived and is active afterwards, with the new last message |
| `ThreadStore.ThreadStore.MarkStale` | shared/wiki/threads.py:276-286 | exactly the active threads that are due turn stale |
| `ThreadStore.ThreadStore.ArchiveOne` | shared/wiki/threads.py:294-313 | an ended thread is moved exactly if its target is free or identical |
| `ThreadStore.ThreadStore.ArchiveEnded` | shared/wiki/threads.py:288-314 | exactly the movable ended threads are moved, every other page stays, and every vault on the way is one a stop may leave |
| `ThreadStore.MoveAllArchives` | shared/wiki/threads.py:288-314 | moved are exactly the threads in state `ended` whose page in the archive is missing or the same; they are gone from where they were and in the archive as dumped, and no other page changes |
| `ThreadStore.CandidatesDiffer` | shared/wiki/threads.py:219-222 | no id is tried twice |
| `ThreadStore.StoppedArchiveIsSafe` | shared/wiki/threads.py:288-314 | wherever archiving stops every ended thread is at its source or its target with its content, and no other page changes or appears |
| `ThreadStore.StoppedArchiveResumes` | shared/wiki/threads.py:288-314 | archiving again from any vault a stop leaves ends where the run would have ended |
| `ThreadStore.Relocate` | shared/wiki/threads.py:353-384 | pages with a free target are moved, the paths returned are exactly the sources whose target existed, and every vault on the way is one a stop may leave |
| `ThreadStore.StoppedRelocationIsSafe` | shared/wiki/threads.py:353-384 | wherever relocating stops every page is at its source or, edited, at its target, and no target is overwritten |
| `ThreadStore.StoppedRelocationResumes` | shared/wiki/threads.py:373-384 | after a stop between two pages, relocating again ends where the run would have ended and reports the same sources |
| `ThreadStore.StoppedRelocationReports` | shared/wiki/threads.py:379-383 | after a stop between create and delete, relocating again finishes the others and reports that page, which stays in both places |
| `Scheduler.RunWithRetries` | shared/scheduler/scheduler.py:142-188 | rows are attempts 1 to k, failures but possibly the last; the hook fires once iff all fail; the waits double |
| `Rendering.RenderItems` | agents/wa_agent/assign.py:714-758 | the loop over taken ids and lines renders the rows the specification gives, joined by newlines |
| `Rendering.RowsAre` | agents/wa_agent/assign.py:729-758 | written, in order, are exactly the items with text and a message that is known, each with the id told from those given before |
| `Rendering.RowMeans` | agents/wa_agent/assign.py:733-757 | a row has its kind, a box ticked for a decision or a task done, the person named as owner or, of a question, as the asker, if the page may name them, and a date |
| `Rendering.IdMeans` | agents/wa_agent/assign.py:705-748 | an item keeps the id it echoes if an existing item has it, or that of the last existing item of its text, unless given out already; otherwise it gets the first four, six or eight digits of its digest that are free, or twelve |
| `Rendering.CleanTextMeans` | agents/wa_agent/assign.py:730-731 | the text is the words given with single spaces, but for dashes, bullets and spaces at the edges |
| `Rendering.CleanRowReadsBack` | agents/wa_agent/assign.py:757 | a clean row reads back whole from its line |
| `Rendering.RenderedIdsDistinct` | agents/wa_agent/assign.py:743-748 | no two rows share a block id exactly when the last resort is never given out twice |
| `Rendering.SameItemUpToFour` | agents/wa_agent/assign.py:705-711 | on a page without items, n copies of one new item have distinct ids exactly when n is at most four |
| `Rendering.RenderedReadsBack` | agents/wa_agent/assign.py:714-758 | parsing what was rendered gives back exactly the ids given, in order, whatever the items' text |
| `Rendering.SourcesReadBack` | agents/wa_agent/assign.py:732-741 | the sources read back from a row are the item's own known messages, each once, and at least one |
| `NextBatch.SameNextBatchIff` | agents/wa_agent/revise.py:156-166 | items named again without ids, after linking, writing and reading the page, keep their ids exactly if the last item the page shows of each text is its own row, or the same id is minted again |
| `NextBatch.PlainNextBatchIff` | agents/wa_agent/assign.py:724-748 | where linking leaves the text alone: exactly if each row's text is read back, and by no later row |
| `NextBatch.SpelledTextIsNew` | agents/wa_agent/assign.py:727-745 | an item whose text spells a field gets a new id in the next batch |
| `NextBatch.NamedTextIsNew` | agents/wa_agent/revise.py:166 | an item whose text names a member, and is stored as the link, gets a new id in the next batch |
| `Names.ApplyMemberWikilinks` | shared/wiki/names.py:17-46 | shielding, the lookup table, replacing and expanding; what is then written, from the pairs given, is `NamesGiven.NamesLinked` |
| `NamesGiven.NamesLinked` | shared/wiki/names.py:17-46 | with no placeholder character and no alias that is the number of a link: the text is written piece by piece, links as they are and, elsewhere, each alias that stands free as a link to the title given for it - the longest that matches and, of one length, the earliest given |
| `NamesGiven.FormsAt` | shared/wiki/names.py:20-25 | the forms are exactly the pairs with both parts non-blank, trimmed, longest alias first and otherwise in the order given |
| `Names.LookedUpIsWritten` | shared/wiki/names.py:34-43 | looking a match up by its lower case gives the title of the alternative that matched |
| `Names.LongestWins` | shared/wiki/names.py:18-25 | of the aliases that match at one place, a longest one is linked |
| `Names.AppliedIffNotNumbered` | shared/wiki/names.py:27-46 | the passes are one walk that copies links whole and links free aliases, exactly when no alias is a placeholder's number |
| `NamesTwice.LinksStay` | shared/wiki/names.py:5-6 | every wikilink of the text is a wikilink of the result, whole and in order |
| `NamesTwice.WalkTwice` | shared/wiki/names.py:17-46 | with edges of one kind a second walk changes nothing |
| `NamesTwice.AppliedTwice` | shared/wiki/names.py:17-46 | the function succeeds, keeps the links there, and changes nothing the second time |
| `NamesTwice.SettlesIffEdged` | shared/wiki/names.py:37-40 | one alias is settled by one pass on every text exactly when both its edges are word characters or neither is |
| `NamesTwice.AppliedSettlesIff` | shared/wiki/names.py:17-46 | so is the function with its placeholders, on every text without placeholder characters, if the alias is no number |
| `NamesTwice.LinkedOneByOne` | shared/wiki/names.py:3-5 | an alias like `Title (jid)` written twice in a row is linked once a pass |
| `Exclusion.AtMostOneBody` | shared/scheduler/scheduler.py:87-141 | over every interleaving at most one body runs under a key, and a lock is held exactly while one does |
| `Exclusion.FirstComeFirstServed` | shared/scheduler/scheduler.py:116-141 | calls let in on a key start once each and in order; the rest are those still waiting |
| `Exclusion.Drains` | shared/scheduler/scheduler.py:116-141 | from any reachable state two steps of the key for each waiter start everyone waiting |
| `Exclusion.OtherKeys` | shared/scheduler/scheduler.py:87-90 | what happens on one key leaves the locks of the others alone |
| `Exclusion.TryRunIff` | shared/scheduler/scheduler.py:124-140 | a try is refused exactly while a body runs, and queues exactly when a release has woken a waiter |
| `Exclusion.TryRunQueues` | shared/scheduler/scheduler.py:129-131 | a run in which a try queues behind a job, against the documentation |

## Left out

- Model calls, prompt wording, HTTP and MCP transport, the database, WhatsApp sending, observability and the web application.
- YAML and the page type schemas: a loader from the raw block to the page type stands for them, and a rendered value for `yaml_value` of anything but text.
- Unicode word characters, case folding, and line breaks other than the newline.
- `new_page_sections` with given content; the skeletons it writes are those `_with_section` inserts, and the inbox page is built from them.
- Cancelling a job that waits for a lock; the lock itself is `asyncio.Lock` as its documentation describes it, fair and unlocked by a release.
- NamesTwice.AppliedTwice: asks that no alias is a number at all and that the edges of all aliases are of one kind; exact conditions are proved for one pass (`Names.AppliedIffNotNumbered`) and for one alias (`NamesTwice.AppliedSettlesIff`).
- `due_jobs`, `run_after_event` and the triggers.
- The order in which threads, directory listings and ended threads are visited; each is handled independently of the others.
- `LapisClient.list`, `search`, and the server's own three-way merge; writers follow the store contract.
- The counts an `ApplyResult` reports, beyond that counting fails without the section.
- An item acknowledged after a later post was merged into it goes with that post; nothing is claimed of such posts.
- UpsertTwice.UpsertTwiceIff: is about items and merges of one line, as those read from a page are; for others `UpsertTwice.UpsertAgainIff` tells it from what the first call wrote.
- MergeSettles.MergeSettlesIff: is for values of text and wikilinks; for others the condition is `Settles` itself, as in `UpsertTwice.UpsertTwiceIff`.
- ItemEdits.AppendItemsTwice: needs both fence markers on lines of their own, as the editor writes them, and items that take one line; the exact condition without these is `ItemEdits.AppendItemsTwiceIff`.
- Items.ItemRoundTrip: holds for items whose text opens no field; the exact condition on the text is `FieldReads.RoundTripIff`. Both are for values of text and wikilinks.
- TaskRuns.FieldsStickIff: asks for values of text and wikilinks at each merge, and that the task's line is at first as the editor writes it.
- InboxLines.LineRoundTrip: is about ids, names and links of plain text without markers; the text is any.
- Which pages a second relocation lists is that of the first; a source already gone is skipped.
- InboxPage.InboxStaysInOrder: posts name their channel or have none (`InboxPage.EmptyChannelClashes`); people's edits are taken to leave the page in order; one that breaks it is repaired by nobody.
- Batches.AssignBatch: existing slugs are taken not to read as `new-N`; they begin with a date.
- NamesGiven.NamesLinked: is for texts and pairs without placeholder characters and aliases that are no number of a link in the text; where one is, `Names.AppliedIffNotNumbered` says the passes are not the walk.
- SharedText.LinesGoInside: asks that the first opening marker is closed or absent, as does UpsertMeans.UpsertShows; behind an open one `Fence.OrphanFence` says what is shown.
- InboxDone.DoneLineReads: is about ids, names and links of plain text, like the line of a pending item.
- InboxDone.TypedIsRequest: is about a line that does not read as an item and, without a box, does not start with one.
- PagedRead.Read: writing is taken to stop at some call, without which the source's loop need not end either.
- ThreadStore.ThreadStore.Create: the vault is a directory whose revision is a function of content, and nobody else writes during one call.

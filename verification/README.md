# batch0: a verified model of the `lib/` algorithms

A Dafny model of the algorithms batch0 keeps in `lib/`, with proofs of what their comments promise. Every module follows one
source file, or one part of a long one. `dafny verify dfyconfig.toml` checks the whole project.

- **Chat markup** (`ChatFormat*.dfy`, `ChatMentions.dfy`, `ChatMentionCodec.dfy`, `ChatRebase.dfy`, `ChatPostSplit.dfy`).
  A line of a message is indexed by lazily built tables (next backtick, free characters, marker runs, closers, next
  non-space, next URL stop). The tables agree with a plain rescan, so the parser that uses them equals a left-to-right
  reference parser; its nodes tile the source, and its steps over all nesting are linear. And they are the range's one
  reading, said of positions alone: every kind of markup wherever it starts and closes, text only where none starts.
  Mentions decode, encode back, and follow edits. Long posts are cut into messages without losing a character that shows.
- **Draft autosave** (`DraftRules.dfy`, `DraftProtocol.dfy`, `DraftLoneTab.dfy`, `DraftLoneTabRuns.dfy`). The pure rules, the
  two database functions, the form's tab and the submit action, as one step system: any number of tabs, every answer lost,
  late or repeated, every page as old as it likes. No run loses draft text its writer did not know of, and a submit goes on
  without asking exactly when it may. A tab alone with its
  draft is told of a conflict exactly when the newest version was there before the tab and not on its page, or is work that
  one of a few named events made it forget; each of those events, and an old page, has a run that ends in one.
- **One list, once** (`ChatView.dfy`, `ChatSend.dfy`, `ChatHelp.dfy`, `ChatQuestions.dfy`). Merging pages, live events and
  bubbles; sending once over a unique key; one help ticket per thread by compare-and-set; questions behind an optimistic lock.
- **Time** (`EasternTime.dfy`, `CourseWeeks.dfy`, `CallLifecycle.dfy`). New York wall time across daylight saving, course-week
  windows that a recompute leaves alone, statuses and phases that only move forward.
- **Safety loops and selection** (`ChatHousekeeping.dfy`, `ChatAccess.dfy`, `Attention.dfy`, `ApplyFlow.dfy`). The sweep of
  unsent uploads against any answers at all, which takes nothing it must not and, when all is answered, all it may; who a report is kept from, over whole histories; the attention list; the
  application's screens against what the server asks for.

`Text.dfy`, `Options.dfy` and `Sorting.dfy` hold what they share: JavaScript strings as UTF-16 code units, a missing value,
and a stable sort.

Code that updates variables or objects is modelled by methods, loops and classes, each proved equal to a specification
function or to a property; the properties are then proved of those functions. Protocols are step systems: a function gives
the state after a step, and a theorem speaks of every run.

Not modelled, and taken as parameters: which letters are word characters (`Alphabet`), how a link is normalised
(`Normalizer`, assumed idempotent where a lemma says so), the zone's offset at each instant (`Zone`), the phone, email and
link patterns of the application form (`Rules`), and every answer of storage, the database and the clock in the sweep.

### Where the code and its comments part

- A comment (`lib/assignment-drafts.ts:278-288`) says every unanswered save is remembered, and the form re-reads the draft so
  that its own work is not taken for another device's. The form forgets more than that: the text of a save that may still
  land, when it is done with a submit at the version that save named (`components/assignments/submit-form.tsx:487-489`,
  `:198-204`) or when fifty other saves went unanswered; and the text of a submit that is stored or still to come, when it is
  told that the submit is done by a version older than the clear, reads an older submission of the same text as that one,
  is refused it after it was stored, or loses the answer to a second one of other text (`:455`). `DraftLoneTab.ForgetsSave`
  and `DraftLoneTab.ForgetsSubmit` name these events. And a tab that Back or Forward opens on an old page, and in which the
  student types before its first read is answered, is told of a conflict with the draft that was there
  (`DraftLoneTabRuns.OldPageConflicts`). A fresh read of a lone tab with edits is a conflict exactly when the newest version
  is past the tab's and either was there before the tab, and is nothing it shows, lists or waits for, or came later and was
  forgotten so and not sent again since: `DraftLoneTab.LoneTabConflicts`; for a tab opened on the draft as it stands only
  what it forgot counts: `DraftLoneTab.FreshTabConflicts`. `DraftLoneTabRuns` has a run for each event.
- `courseWeekWindow` (`lib/assignments.ts:161-167`) says work is never due after the cohort's last day. In a zone that skips
  no time after eleven at night, as New York's does not, that holds exactly when the week starts by that day:
  `CourseWeeks.DueByTheLastDay`, and `CourseWeeks.DueAfterTheLastDay` for a week that doesn't. In a zone that does,
  work asked for at a skipped time can be due an hour into the next day: `CourseWeeks.LateSkipIsDueTheNextDay`.
- `splitPostBody` (`lib/chat-post-split.ts:121-122`) says every cut takes at least a quarter of a message. It does exactly
  when an opening fence that is moved on stands at least a quarter of a message in, and when what a reopened block loses at
  the front, less its new opening fence, is as much (`ChatPostSplit.TakesQuarter`, in the contract of
  `ChatPostSplit.CutOnce`). The second can only fail below 22 characters a message (`ChatPostSplit.QuarterExactly`), the first
  at any length: `ChatPostSplit.LongOpenerTakesLess` has a text for each, and `ChatPostSplit.ShortBreakTakesLess` one for the
  second. Every cut takes something, so the fallback below the comment is never reached.
- Another comment there (`lib/chat-post-split.ts:111-113`) says a code block a break lands in is closed and reopened, so that
  both parts still render as code. Each does to its end exactly when the code just before the cut is no closing fence by
  itself (nor a cut opener code by itself), and the code just after it is none: `ChatPostSplit.HeadHolds` and `TailHolds`, in
  the contract of `ChatPostSplit.CutOnce`. `ChatPostSplit.FenceBeforeTheBreak` and `ChatPostSplit.FenceAfterTheBreak` are
  blocks that stop being code early.
- `requestThreadHelp` (`lib/chat-help.ts:30-33`) says the loser of a race takes its ticket back down. Deleting it is best
  effort: an ended call leaves a ticket exactly when taking one back failed or the call died holding it
  (`ChatHelp.LoserLeavesNothing`, `ChatHelp.LeftGrows`, and a run in `ChatHelp.TicketIsLeft`). And a call told that linking
  failed takes its ticket back even when it is linked, live, and another call has been answered with it:
  `ChatHelp.ReplacedOnlyWhenClosed` says a link is lost exactly so, and `ChatHelp.LiveTicketIsUnlinked` is a run of it.

## Model

| member | source | states |
|---|---|---|
| `ChatFormatLine.Line.Tick` | lib/chat-format.ts:252-258 | the table holds, for every position, the next backtick at or after it |
| `ChatFormatLine.Line.FreeTable` | lib/chat-format.ts:259-279 | the table marks exactly the characters a left-to-right scan finds outside code spans and escapes |
| `ChatFormatLine.Line.RunEnd` | lib/chat-format.ts:280-288 | for every position, the end of the run of equal free characters it is in |
| `ChatFormatLine.Line.RunStart` | lib/chat-format.ts:289-296 | for every position, the start of that run |
| `ChatFormatLine.Line.Pair` | lib/chat-format.ts:297-306 | for every position, the first free doubled marker at or after it |
| `ChatFormatLine.Line.Italic` | lib/chat-format.ts:307-331 | for every position, the first single marker at or after it that can close emphasis, doubled ones skipped |
| `ChatFormatLine.Line.Solid` | lib/chat-format.ts:332-339 | for every position, the next character that is not white space |
| `ChatFormatLine.Line.UrlStops` | lib/chat-format.ts:340-347 | for every position, the next character that ends a URL |
| `ChatFormatClosers.PairClose` | lib/chat-format.ts:482-488 | for any range, the table answer is the index a direct scan of that range finds, runs cut by the range's end counted as the range sees them |
| `ChatFormatClosers.ItalicClose` | lib/chat-format.ts:499-512 | for a range that ends at the line's end or a marker, the table answer is the index a direct scan of that range finds |
| `ChatFormatClosers.CutAgrees` | lib/chat-format.ts:499-512 | the whole line's first closer, corrected for the run the range's end cuts, is the range's own first closer |
| `ChatFormatClosers.ScanItalicFinds` | lib/chat-format.ts:490-512 | the direct scan finds the first marker that closes before the range's end, and only such a one |
| `ChatFormatClosers.ClosersAreFree` | lib/chat-format.ts:482-512 | a closer is always the marker itself, inside the range, outside code spans and escapes |
| `ChatFormatInline.TrimUrlEnd` | lib/chat-format.ts:536-556 | counting parens once gives what trimming one character at a time and recounting gives |
| `ChatFormatInline.FindLinkEnd` | lib/chat-format.ts:519-530 | the table-based link end is the one found by scanning |
| `ChatFormatInline.Inline` | lib/chat-format.ts:373-474 | the table-driven parser gives the reference parser's nodes and spoilers, in exactly as many steps as the reference counts |
| `ChatFormatInline.ParsingIsLinear` | lib/chat-format.ts:368-474 | steps summed over all nesting are at most the levels left times the length of the range |
| `ChatFormatMarks.ReadingIsParse` | lib/chat-format.ts:373-474 | a list of nodes is the parser's for a range if and only if it reads the range: code from a backtick to the next with something between, tokens, links and @everyone at word starts, below the depth limit a doubled marker to the pair that closes it, a spoiler that runs into the cut, a single marker to the first that closes it, each with a reading of its inside; and text, unescaped, only where none of these starts or a run is too long to be a link |
| `ChatFormatMarks.StartMeans` | lib/chat-format.ts:387-469 | what the parser takes at a position is what starts there, and it takes none for text |
| `ChatFormatMarks.PairMeans` | lib/chat-format.ts:476-488 | a doubled marker closes at one place at most: the last pair, before the range's end, of the first run of free pairs after it, with more than space between |
| `ChatFormatMarks.SingleMeans` | lib/chat-format.ts:490-512 | a single marker closes at one place at most: the first after it that can |
| `ChatFormatMarks.LinkMeans` | lib/chat-format.ts:514-556 | a link is all of its run up to the punctuation and unopened parens that drop off its end; a run over the limit is none |
| `ChatFormatMarks.HidesWhenOpen` | lib/chat-format.ts:452-457 | the parser says a spoiler was opened exactly when the last node is one that runs into the cut |
| `ChatFormatLossless.ParseTiles` | lib/chat-format.ts:368-474 | the nodes of any range tile it: with markers put back they are its text, up to dropped escape backslashes and the case of ids |
| `ChatFormatLossless.ParseLine` | lib/chat-format.ts:352-359 | parsing a line gives the reference nodes, which tile the line and are its one reading, and reports a hidden spoiler exactly when the last of them is a spoiler that runs into the cut |
| `ChatFormatLossless.PlainParses` | lib/chat-format.ts:373-474 | a line with nothing special in it comes back as one text node |
| `ChatFormatCases.DoubledWraps` | lib/chat-format.ts:445-451 | with plain text before, inside and after, and not only space inside, a doubled star is one bold node around that text, a doubled tilde one strike node, a doubled bar one spoiler |
| `ChatFormatCases.SingleWraps` | lib/chat-format.ts:459-466 | likewise a single star or underscore that hugs no space and, for the underscore, no word: one italic node |
| `ChatFormatCases.OpenSpoiler` | lib/chat-format.ts:452-457 | in a line cut short, a doubled bar with no other after it is a spoiler to the end, and hides the rest |
| `ChatFormatCases.CodeSpan` | lib/chat-format.ts:396-403 | anything without a backtick between two backticks is one code node |
| `ChatFormatCases.Tokens` | lib/chat-format.ts:405-414 | a token is one mention or channel, its id in lower case |
| `ChatFormatCases.Links` | lib/chat-format.ts:416-432 | a link at a word start that ends where a URL stops, on nothing that drops off, is one link node |
| `ChatFormatCases.Everyones` | lib/chat-format.ts:434-442 | @everyone and @here as words of their own are one node |
| `ChatMentions.JoinSplit` | lib/chat-format.ts:79-81 | joining the lines of a text gives the text |
| `ChatMentions.ChunkLines` | lib/chat-format.ts:88-114 | the loop over lines finds the same code blocks as looking for each block's close from its opener |
| `ChatMentions.MapTokens` | lib/chat-format.ts:696-729 | the body is its segments rendered with the swap, tokens in code untouched, and each hit is where its replacement starts |
| `ChatMentions.SegsTileBody` | lib/chat-format.ts:691-729 | the segments put together are the body with its line endings normalised |
| `ChatMentionCodec.DecodeMentions` | lib/chat-format.ts:882-892 | the text shows each named mention as "@Name" and picks it where it stands; everything else is unchanged |
| `ChatMentionCodec.EncodeMentions` | lib/chat-format.ts:770-819 | what is replaced are disjoint whole names of picks, settled in turn: placed picks at their spots, the later winning; then each that lost its spot, the nearest free name; then names without a position, the last pick of each, longest first, every free one; picks in place are all taken, and nothing else, exactly when none is glued |
| `ChatMentionCodec.TakesExactly` | lib/chat-format.ts:770-819 | for picks in place, encoding takes exactly them if and only if none touches a word character |
| `ChatMentionCodec.SpliceHits` | lib/chat-format.ts:815-819 | splicing tokens over the decoded names gives the body rendered with tokens |
| `ChatMentionCodec.LooseOfMeans` | lib/chat-format.ts:805-806 | of the picks without a position exactly the last of each name is kept |
| `ChatMentionCodec.RoundTrip` | lib/chat-format.ts:770-892 | decoding then encoding takes exactly the decoded picks if and only if none is glued, and then gives the body back but for line endings and letter case; and all of it but line endings if and only if the named ids were in lower case |
| `ChatRebase.FindEdit` | lib/chat-format.ts:839-860 | the edit explains the change, shares the most at the end the caret allows, and then the most at the start |
| `ChatRebase.RebaseMentions` | lib/chat-format.ts:839-873 | every pick is kept, shifted or dropped as the edit found says; an unchanged text keeps all |
| `ChatRebase.RebaseKeeps` | lib/chat-format.ts:831-873 | after any edit, each pick kept still has its "@Name" at its start, picks that were disjoint stay so, and none is invented |
| `ChatRebase.KeepsUntouched` | lib/chat-format.ts:831-873 | with the caret after the typed text, a pick wholly before or after what changed is kept |
| `ChatRebase.Session` | lib/chat-format.ts:831-873 | over any sequence of edits with any caret hints, kept picks stand over their names and stay disjoint |
| `ChatRebase.CutBody` | lib/chat-format.ts:676-689 | never longer than asked, short bodies unchanged, and the cut goes through no token and no surrogate pair |
| `ChatPostSplit.Fences` | lib/chat-post-split.ts:29-54 | the loop finds exactly the code fences of the chunk rule |
| `ChatPostSplit.FencesAreGood` | lib/chat-post-split.ts:29-54 | every fence's bounds are those of its opening and closing lines in the text, and its reopener fits |
| `ChatPostSplit.ChooseCut` | lib/chat-post-split.ts:61-91 | the cut is at the best kind of break there is in the window, the last of its kind that needs no fence, else the last inside one, else hard and not through a character |
| `ChatPostSplit.CutOnce` | lib/chat-post-split.ts:61-105 | for a cap of at least 16 the head is not empty and fits, the tail is strictly shorter than the text, only white space and fence marks were dropped or added, and no character is cut in two; a quarter of the cap is taken if and only if no opener is moved on from before it and no reopened block eats the difference; a block the cut lands in is the first of the tail, or is code to the end of the head and from the start of the tail, up to a part of the cut line that is a fence itself |
| `ChatPostSplit.QuarterExactly` | lib/chat-post-split.ts:119-122 | for a cap of 20, or of 22 and more, a cut takes a quarter exactly when no opener is moved on from before it |
| `ChatPostSplit.LongOpenerTakesLess` | lib/chat-post-split.ts:96-99 | for every cap, a text whose first cut moves its opener on and takes 2 characters |
| `ChatPostSplit.ShortBreakTakesLess` | lib/chat-post-split.ts:103-104 | a text whose first cut reopens its block and takes 3 of 16 |
| `ChatPostSplit.HeadIsBlock` | lib/chat-post-split.ts:100-102 | the lines of a closed head are the text's up to the cut, and the block in it is code to its end if and only if the cut line's first part neither closes it nor is code by itself |
| `ChatPostSplit.TailIsBlock` | lib/chat-post-split.ts:103-104 | the lines of a reopened tail are the text's from the cut, and its block is code up to its old end if and only if the cut line's last part does not close it |
| `ChatPostSplit.FenceAfterTheBreak` | lib/chat-post-split.ts:103-104 | a block whose reopened rest is closed at once |
| `ChatPostSplit.FenceBeforeTheBreak` | lib/chat-post-split.ts:100-102 | a block that is closed before the fence meant to close it |
| `ChatPostSplit.SplitPostBody` | lib/chat-post-split.ts:115-133 | every part is nonempty and within the cap, and is cut as above off what the ones before it left, or is all of that; what shows in the body, bar backticks, is a subsequence of what shows in the parts; a body that fits is one part |
| `ChatPostSplit.SolidOfTrimmed` | lib/chat-post-split.ts:115-117 | trimming and normalising line endings drop nothing but white space |
| `DraftProtocol.StepKeeps` | components/assignments/submit-form.tsx:146-513 | every step of every tab, request and submit keeps the invariant: row and log agree, and every version a tab or request names is one it knew |
| `DraftProtocol.SaveRow` | supabase/migrations/0105_assignment_drafts.sql:163-213 | a save writes exactly when the version it names is the newest, and is answered "saved" only with a version that holds its text |
| `DraftProtocol.ClearRow` | supabase/migrations/0105_assignment_drafts.sql:240-275 | a clear empties the row exactly when it holds a draft no newer than it may clear |
| `DraftProtocol.StartKnown` | lib/assignment-drafts.ts:241-273 | what a form opens with accounts for the draft it was opened on: shown, empty, or overtaken by a submission |
| `DraftProtocol.TakeFits` | lib/assignment-drafts.ts:297-372 | whatever an old read tells a tab, taking it leaves the tab knowing the version it then names |
| `DraftProtocol.EveryRunIsHarmless` | lib/assignment-drafts.ts:241-446 | in every run no save that is written and no unforced submit that clears loses draft text its sender had not held by then, unless a submission it could know of had overtaken it, or the draft says what is handed in; no other step writes the row. A submit is told "stale" exactly when it is not forced, autosave is on, the draft it read is past the version it names, and neither that draft nor, for a cleared one, the submission beside it says what it hands in; else it goes on, to clear up to the newer of the two. What it hands in goes after all that was handed in before, and no other step hands anything in |
| `DraftProtocol.EveryFilingWasLetThrough` | app/dashboard/assignments/actions.ts:105-148 | in every run, whatever is handed in says what its tab sent and a check of it had nothing to ask; and a submit is only told "stale" by a check that had |
| `DraftProtocol.ForcedOnlyWhenAsked` | components/assignments/submit-form.tsx:425-513 | a submit is forced only from a tab that was told of a conflict, or on the student's word after a "stale" answer |
| `DraftProtocol.StaleSubmitAsks` | components/assignments/submit-form.tsx:425-513 | a submit told "stale" goes again unforced, once, when the newer draft or submission is the tab's own; else forced, if the student says so, unless it was; else the tab stops |
| `DraftProtocol.StaleSaveStops` | lib/assignment-drafts.ts:374-404 | a save told "stale" stops its tab exactly when the read is a conflict; otherwise the tab takes what the read says |
| `DraftProtocol.TypedTextStays` | components/assignments/submit-form.tsx:146-513 | no step but typing changes the text in a tab that holds text it has not saved |
| `DraftProtocol.OpensWith` | lib/assignment-drafts.ts:241-273 | a form opens with the draft that was neither cleared nor overtaken, else with what was handed in, and says so when the draft is not what was handed in |
| `DraftProtocol.LaterDraftSurvives` | lib/assignment-drafts.ts:416-446 | in every run a draft newer than the version a submit accounts for survives its clear, forced or not, and a draft that is not is cleared |
| `DraftProtocol.VersionsOnlyRise` | lib/assignment-drafts.ts:5-11 | over every run the version never falls, and one number never stands for two rows |
| `DraftProtocol.AtMostOneLands` | lib/assignment-drafts.ts:278-290 | of all saves that named one version, at most one was ever written, as the next entry |
| `DraftLoneTab.ReadsAsRemembered` | lib/assignment-drafts.ts:297-372 | an idle tab whose newer versions are its own, but for those before it, is told of a conflict, or given other work to adopt, exactly when the newest was forgotten or never seen; else it learns "current", "landed" or "submitted" |
| `DraftLoneTab.StepOwns` | components/assignments/submit-form.tsx:146-513 | every step of a lone run keeps this: a save or submit of the tab that may show past its version is in its memory, or was forgotten by a named event and not brought back; and never both |
| `DraftLoneTab.LoneTabConflicts` | lib/assignment-drafts.ts:278-372 | however old the page a lone tab was opened on, however long it works, whatever answers it loses and however late its requests are run, a read as things stand is a conflict if and only if the tab has edits and the newest version, past its own, was there before it and is nothing it shows, lists or waits for, or came later and is a save of text not on screen, or a clear, that a named event of the run made it forget |
| `DraftLoneTab.FreshTabConflicts` | lib/assignment-drafts.ts:278-372 | opened on the draft as it stands, only what it forgot makes a conflict |
| `DraftLoneTab.LoneTabNeverConflicts` | lib/assignment-drafts.ts:278-372 | while no named event happens, the read is "current", "landed" or "submitted" for a tab opened on the draft as it stood, or one that has caught up with it, or once anything was written since |
| `DraftLoneTabRuns.OldPageConflicts` | components/assignments/submit-form.tsx:342-373 | a tab alone on an old page, typed in before its first read is answered, forgets nothing and is told of a conflict |
| `DraftLoneTabRuns.SecondSubmitForgets` | components/assignments/submit-form.tsx:445-459 | a lone run in which a second unanswered submit makes the first read as a conflict |
| `DraftLoneTabRuns.LateSaveIsForgotten` | components/assignments/submit-form.tsx:487-490 | a lone run in which an answered submit drops a save that lands later |
| `DraftLoneTabRuns.LateSaveIsForgottenByReading` | components/assignments/submit-form.tsx:198-203 | the same, when the submit is read to be done |
| `DraftLoneTabRuns.OverflowForgets` | lib/assignment-drafts.ts:291-295 | a lone run of 51 unanswered saves, the second of which lands |
| `DraftLoneTabRuns.UnheardClearIsForgotten` | app/dashboard/assignments/actions.ts:151-168 | a lone run in which the clear's own answer is lost, so that the submit answers with an old version |
| `DraftLoneTabRuns.RefusedSubmitIsForgotten` | components/assignments/submit-form.tsx:461-464 | a lone run in which a submit fails after it stored and cleared |
| `DraftLoneTabRuns.ReadTooSoonIsForgotten` | lib/assignment-drafts.ts:346-358 | a lone run in which an older submission of the same text is taken for the one still on its way |
| `ChatView.SettledBubbles` | lib/chat-view.ts:135-151 | exactly the unsent or failed bubbles whose author and client id a server message in the list has |
| `ChatView.EarlierFirst` | lib/chat-view.ts:103-108 | what was sent stands before what is being sent; then by time, the stamp's text, and the id |
| `ChatView.MergeMessages` | lib/chat-view.ts:173-197 | the same list when nothing changed; else, in order and with unique ids, every id's copy as the arrivals left it, less the settled bubbles |
| `ChatView.OneMerge` | lib/chat-view.ts:173-189 | a merge has only one result: insertion order never shows |
| `ChatView.MergeIsTidy` | lib/chat-view.ts:104-108 | merging keeps ids unique, messages in order, and no bubble beside its server copy |
| `ChatView.AbsorbTakesNewest` | lib/chat-view.ts:191-197 | each id ends with one of its copies, none of which was edited later, and no id is lost |
| `ChatView.RemergeIsSame` | lib/chat-view.ts:161-197 | merging a page with unique ids a second time returns the very same list |
| `ChatView.SameMessagesMerge` | lib/chat-view.ts:161-197 | under the same conditions as the next row, pages that bring the same messages, split and repeated in any way, give one list |
| `ChatView.MergeOrderIrrelevant` | lib/chat-view.ts:161-197 | any number of server pages, merged in any order, give one list, bubbles included: when the id and edit stamp determine a message, a server message keeps its author and client id, and no page uses a bubble's id |
| `ChatView.ReconcilePage` | lib/chat-view.ts:235-254 | the page is merged into exactly the messages that are local, in the page, newer than the snapshot, or before an incomplete page's oldest |
| `ChatView.ReconcileKeepsServerMessages` | lib/chat-view.ts:225-254 | for a newest suffix of the server's rows, no message the server still has is dropped |
| `ChatView.ReconcileDropsDeletedMessages` | lib/chat-view.ts:225-254 | a message inside the window that the server no longer had at the snapshot is dropped |
| `ChatView.ReconcileKeepsBubbles` | lib/chat-view.ts:225-254 | an unsent or failed bubble stays if and only if no message of the page, not deleted here, is the one it sent |
| `ChatSend.StepKeeps` | lib/chat-send.ts:71-121 | every query of every send and retry keeps one row per key and every answer true; rows stay |
| `ChatSend.FindSentFinds` | lib/chat-send.ts:71-87 | the lookup finds the sender's row for the id exactly when there is one |
| `ChatSend.EverySuccessNamesOneRow` | lib/chat-send.ts:92-121 | under every interleaving, all successes for one sender and client id name the one row with that key |
| `ChatSend.OneInserts` | lib/chat-send.ts:92-121 | at most one request for a sender and client id is told it inserted the message |
| `ChatSend.RaceFindsTheRow` | lib/chat-send.ts:106-115 | a request refused by the unique key finds the row it lost to |
| `ChatSend.LostAnswerIsFound` | app/chat/actions.ts:586-599 | a request whose insert committed with its answer lost is told of its own row |
| `ChatSend.BubbleGoes` | lib/chat-view.ts:127-151 | once a merged list holds the message from the server, its bubble is not in it |
| `ChatHelp.StepMoves` | lib/chat-help.ts:85-124 | every step of every call keeps each ticket accounted for, and moves the link only to its own ticket where the linked one may be replaced |
| `ChatHelp.ReplacedOnlyWhenClosed` | lib/chat-help.ts:108-121 | under every interleaving a linked ticket is replaced only when closed, by the call's own; and it is unlinked if and only if its own call, told falsely that linking failed, takes it back |
| `ChatHelp.LoserLeavesNothing` | lib/chat-help.ts:113-123 | beside the ticket it linked, an ended call leaves exactly those it failed to take back; so it leaves none if and only if there is no such ticket |
| `ChatHelp.TicketIsLeft` | lib/chat-help.ts:120-123 | a run in which the loser's ticket stays, open and linked to nothing |
| `ChatHelp.LiveTicketIsUnlinked` | lib/chat-help.ts:113-118 | a run in which a live request another call was answered with is deleted |
| `ChatHelp.OneLiveRequest` | lib/chat-help.ts:9-33 | of the tickets calls report having created, only the linked one can be other than closed |
| `ChatHelp.CompletedCallNamesALinkedTicket` | lib/chat-help.ts:85-124 | the ticket a completed call names was the thread's linked one at some moment while the call ran |
| `ChatHelp.AnswersAreTrue` | lib/chat-help.ts:85-124 | under every interleaving a call answers "linked" only where it loaded the ticket it had read as the thread's, open; "reopened" only where its own step turned that resolved or waiting ticket into an open one; "created" only where it made the ticket, open, and then linked it |
| `ChatHelp.CompletedCallNamesAnOpenTicket` | lib/chat-help.ts:85-124 | the ticket a completed call names was open at some moment while the call ran |
| `ChatHelp.GivesUp` | lib/chat-help.ts:72-124 | a call fails only when a query of it does, or when its third pass finds things moved under it |
| `ChatQuestions.TransitionsMove` | lib/chat-threads-rules.ts:130-160 | a transition always changes the state, and an accepted answer means answered |
| `ChatQuestions.TransitionsLead` | lib/chat-threads-rules.ts:130-160 | asking and reopening lead to an open question, accepting and marking to an answered one, with the answer accepted or none, and unmarking to none; and each is refused exactly where it does not apply |
| `ChatQuestions.ChangesAreOneAtATime` | lib/chat-threads.ts:232-262 | the log runs without a gap; each call told it changed the question wrote one line, the transition it asked for from the state just before |
| `ChatQuestions.AcceptedAnswerIsLive` | lib/chat-threads.ts:232-262 | however calls and deletions interleave, an accepted answer is a live reply of an answered question |
| `ChatQuestions.SeenTwiceCountedOnce` | lib/chat-threads-rules.ts:163-174 | a reply that has arrived, or one older, is never counted again |
| `ChatQuestions.InOrderEachCounted` | lib/chat-threads-rules.ts:163-174 | replies that arrive in order are each counted |
| `ChatQuestions.NeverOvercounts` | lib/chat-threads-rules.ts:163-174 | however replies arrive and repeat, the count rises by no more than there are |
| `EasternTime.ToUtc` | lib/assignments.ts:91-105 | the loop's result is the first instant that shows the wall time asked for; for a skipped one, the instant five hours on, which shows an hour later |
| `EasternTime.UtcIsRight` | lib/assignments.ts:86-105 | three corrections are enough for every wall time, in a zone four or five hours behind with one change a day at most |
| `EasternTime.DatesOnlyRise` | lib/assignments.ts:107-111 | the calendar day never goes back, as long as clocks fall back after one in the morning |
| `EasternTime.StatusIs` | lib/assignments.ts:226-243 | when work has each of its nine statuses: handed in by its review and its late flag, else by the opening, the due time and its day, and when the student joined |
| `EasternTime.UnsubmittedOnlyMovesOn` | lib/assignments.ts:226-243 | work not handed in only moves upcoming, open, due today, missing; and is excused exactly when it was due before the student joined and has opened |
| `CourseWeeks.WindowIsStable` | lib/assignments.ts:161-187 | computing the window again from the offset it stored gives the same window |
| `CourseWeeks.WindowMeans` | lib/assignments.ts:161-187 | there is a window exactly for one of 52 weeks, an offset of 0 to 13 days and a time of day whose instant is after the opening; it opens at midnight of the week's first day, and is due at that time that many days on, or on the cohort's last day if that is sooner and not before the week |
| `CourseWeeks.OpensOnTheFirstDay` | lib/assignments.ts:161-187 | the week opens on its first day, at midnight, or at one when midnight is skipped |
| `CourseWeeks.OpensBeforeDue` | lib/assignments.ts:161-187 | where midnight is not skipped, only work due at the very opening has times that leave it without a window |
| `CourseWeeks.DueByTheLastDay` | lib/assignments.ts:161-187 | the day stored is by the cohort's last day if and only if the week starts by it, and work is due on it at the time asked for, or an hour later when clocks skip it; where they skip none after eleven at night, the due instant's day is that day, and by the last day if and only if the week starts by it |
| `CourseWeeks.DueAfterTheLastDay` | lib/assignments.ts:161-187 | a week that starts after the cohort ended has work due after that too |
| `CourseWeeks.LateSkipIsDueTheNextDay` | lib/assignments.ts:161-187 | in a zone that skips half past eleven at night, work of a week that starts in time is due the day after the last |
| `CourseWeeks.PlacedStays` | lib/assignments-server.ts:600-623 | a row the course has placed is where the course puts it |
| `CourseWeeks.PlacedMeans` | lib/assignments-server.ts:600-623 | a placed row has its week, the days used, and the opening and due instants its week means; a row without a window is left as it was |
| `CourseWeeks.SecondRecomputeMovesNothing` | lib/assignments-server.ts:552-634 | a second recompute moves no row the first has placed |
| `CourseWeeks.Tables.Recompute` | lib/assignments-server.ts:552-645 | every row asked for that may move and does not fail is placed, every other is where it was, an unnamed row with work handed in and not excused among them; as many are reported moved as differ, and as many kept as were held back; submissions untouched unless rows were named, and a submission of a row that moved late exactly when it came after the row's due time |
| `CourseWeeks.Tables.RestampLate` | lib/assignments-server.ts:648-679 | a submission of a moved row is late exactly when it was handed in after the row's due time; all others are unchanged |
| `CallLifecycle.PhaseOnlyMovesForward` | lib/call-lifecycle.ts:105-144 | with its status fixed, a call's phase only moves forward in time, at the door and in the lists |
| `CallLifecycle.PhaseIs` | lib/call-lifecycle.ts:80-125 | when a call is in each of its eight phases: by its status when it is not booked, else by the opening for that side, the start and three hours past the end, and before the opening by whether it was accepted |
| `CallLifecycle.ListsFollowTheDoor` | lib/call-lifecycle.ts:126-144 | lists and door differ exactly between half an hour after the end and the hard close, and the staff's room is never behind the student's |
| `CallLifecycle.DeclineOrComplete` | lib/call-lifecycle.ts:174-213 | declining and completing are complementary for a booked call, and cancelling ends with the lists' grace |
| `CallLifecycle.CompletesItself` | lib/call-lifecycle.ts:219-249 | a call is completed by itself exactly past its hard close when accepted, or invited and not an old invite that expired unanswered |
| `CallLifecycle.SweepMissesNothing` | lib/call-lifecycle.ts:233-261 | a call of legal length in the lookback that should be completed is in the range the sweep reads |
| `CallLifecycle.RangeIsTight` | lib/call-lifecycle.ts:251-261 | a shortest call starting at the range's end is one instant from complete |
| `CallLifecycle.SplitCalls` | lib/call-lifecycle.ts:272-285 | every call is in exactly one list, what can still be cancelled soonest first and the rest newest first |
| `ChatHousekeeping.ChunkByPathLength` | lib/support-housekeeping.ts:214-233 | the groups are the files in order, each within one lookup's limits and ended only where the next file does not fit |
| `ChatHousekeeping.EveryItemVisited` | lib/support-housekeeping.ts:250-267 | while the list holds still, every item is visited within ⌈n / size⌉ days of any day, at whatever time of each the sweep runs |
| `ChatHousekeeping.TriageChatFiles` | lib/chat-housekeeping.ts:82-91 | the candidates are, in order, exactly the uploads past the window; the files that are no uploads, and the uploads no date can be read of, are counted; and every file once |
| `ChatHousekeeping.SelectChatOrphans` | lib/chat-housekeeping.ts:98-107 | a path is chosen, once, exactly when it is an upload, not in use, and the first file listed at it is past the window; in the order first listed |
| `ChatHousekeeping.ListAll` | lib/chat-housekeeping.ts:346-369 | the entries returned are every name of the pages it read, each once and as first listed, never more than there is room for; each page goes on where a full one ended; and it stops only at a short page, at the room, out of time, or at a page that can't be read |
| `ChatHousekeeping.TakePage` | lib/chat-housekeeping.ts:360-364 | of a page no longer than asked for, every name is kept, as first listed, and what was kept stays |
| `ChatHousekeeping.ChannelFolders` | lib/chat-housekeeping.ts:204-225 | the channels are all of the folders the top's pages list, sorted; with every page answered in time the top is read to its end, or as far as it is ever read |
| `ChatHousekeeping.WalkAll` | lib/chat-housekeeping.ts:227-272 | the candidates are exactly what the listings so far show; when all is answered in time and the objects allowed are not used up, every channel of the window and every uploader's folder listed in one is listed |
| `ChatHousekeeping.AskAll` | lib/chat-housekeeping.ts:274-291 | what is checked was answered about; when all is answered in time it is every candidate |
| `ChatHousekeeping.RemoveBatch` | lib/chat-housekeeping.ts:318-338 | the batch is asked about again, whole; when that is answered, one removal is asked for of exactly its uploads, first listed as old, that the answer does not name, if there are any, and as many count as removed as storage says of them; only a failed read and a failed removal skip any |
| `ChatHousekeeping.SweepUnsentChatFiles` | lib/chat-housekeeping.ts:145-341 | whatever storage and the database answer, each path removed is an upload, was listed as old, and was absent from two successful reads, the second right before its batch; no more distinct paths go than the limit; a run halts exactly when rows look lost, and then removes nothing. When every call is answered in time, each of the first orphans of what was listed, up to the limit, is asked about again, and the paths removed are exactly those of them a second read does not name; and unless it used up its objects it listed all of the day's window. What it reports removed is what storage said, and its errors are the calls that failed |
| `ChatAccess.ReportPartyIds` | lib/chat-access.ts:136-162 | the parties are exactly the reported sender and, in a DM or group, members, posters and earlier reports' parties, each once |
| `ChatAccess.FilesTheParties` | lib/chat-access.ts:136-162 | what is filed for a room is the history's set of parties |
| `ChatAccess.PartyNeverReadsThroughReports` | lib/chat-access.ts:84-134 | whoever was in a DM or group or had posted when some report was filed never reads it through reports again, whatever joins, leaves, posts and reports follow |
| `ChatAccess.LaterReportsNameMore` | lib/chat-access.ts:136-162 | a later report on a DM or group names everyone an earlier one does |
| `ChatAccess.WhoReads` | lib/chat-access.ts:60-100 | exactly who reads a conversation: members; of a text channel the staff and its audience; of a DM or group staff, once there is a report on it, whom no report on it names |
| `ChatAccess.UnreportedIsPrivate` | lib/chat-access.ts:60-100 | whatever joins, leaves and posts happen, a DM or group nobody has reported is read by its members alone |
| `ChatAccess.WhoSeesAReport` | lib/chat-access.ts:102-134 | exactly who is shown a report on a DM or group: staff whom no report on it names and who are not in it now |
| `ChatAccess.TextChannelReportsStandAlone` | lib/chat-access.ts:102-134 | who sees a text channel's report depends on no other report |
| `ChatAccess.ReportRouting` | lib/chat-access.ts:164-181 | exactly the moderators the report is open to hear of it, bar the reporter; it goes outside exactly when there are none |
| `ChatAccess.DmKeyIsThePair` | lib/chat-access.ts:329-351 | the key does not depend on who clicked first or on letter case, and each of the two finds the other in it |
| `ChatAccess.DmKeyTellsPairsApart` | lib/chat-access.ts:329-340 | two pairs share a key only when they are the same two people |
| `Attention.PickAttention` | lib/attention.ts:160-184 | as many rows as asked for or as there are, in order; each source shows its most pressing; a row that is not its source's first precedes all left out; with room, every source appears, and without, only firsts, the most pressing |
| `Attention.PressingFirst` | lib/attention.ts:148-158 | overdue before due before waiting; then what has waited longest; then the key |
| `Attention.FirstsMean` | lib/attention.ts:169-170 | the first row kept of each source is its most pressing, one for each |
| `ApplyFlow.BuildScreens` | lib/apply-flow.ts:218-278 | the pushes give the screens of the specification, from the welcome to the review, and a question is checked on some screen exactly when it is asked |
| `ApplyFlow.EveryQuestionHasAScreen` | lib/apply-flow.ts:148-278 | a question is checked on some screen exactly when it is visible; the parent's email exactly when it is asked for |
| `ApplyFlow.EveryCustomHasAScreen` | lib/apply-flow.ts:250-274 | each custom and scholarship question that is shown has its screen, in order, the first of the scholarship's with the explainer |
| `ApplyFlow.CohortIsPicked` | lib/apply-flow.ts:218-225 | the cohort is picked on a screen exactly when there is a choice |
| `ApplyFlow.ValidateAll` | lib/apply-flow.ts:424-439 | the errors are all the screens', and the index is that of the first invalid screen, or -1 when there is none |
| `ApplyFlow.RequiredBuiltinErrors` | lib/apply-flow.ts:450-465 | exactly the visible questions an admin required, not core, that are blank |
| `ApplyFlow.PassingFormIsComplete` | lib/apply-flow.ts:424-487 | a form that passes every screen, posted as the flow posts it, leaves no required question blank, no core one, and no minor's parent email |
| `ApplyFlow.ResumeIndex` | lib/apply-flow.ts:510-527 | on the screens of the flow, every screen before the index is valid, and it stops short of an answered screen only at one that is not; on any list exactly when the first is valid |

## Left out

- The rest of `lib/chat-format.ts`: assembling lines into quotes and blocks (`parse`, `trimBreaks`), `plainText`, `clip`, emoji and the mention query. `CutBody` takes whether a cut-open spoiler needs closing as a parameter.
- ChatRebase.CutBody: does not say that the head hides everything the full message hides, because a code span cut open changes the parse.
- ChatMentionCodec.RoundTrip: composes two functions of the source, which never calls them together; what it states is about each in turn.
- ChatRebase.Session: folds `rebaseMentions` over a list of edits; the form does that one keystroke at a time.
- Which node a word, an email-like text or a link becomes is the source's; Unicode word classes, the URL parser and link hrefs are parameters or left out.
- DraftLoneTab.LoneTabConflicts: speaks of reads of the draft and submission as they stand together, which two parallel queries do not promise; the tab's earlier reads may lag, but never behind the version it holds (`Recent`). A lone run has no save, submission or clear of another tab in it and runs each request once (`Lone`); `DraftLoneTabRuns` has a run for each of these that ends in a conflict without it.
- DraftProtocol.EveryRunIsHarmless: tabs with autosave off or failed are left out, as they save nothing and their submits clear nothing; so are retry timers and the status line.
- Access checks of a save, rate limits, `checkDraft` and `validateSubmission`: a save or submit may be refused at any time.
- A row of drafts or messages deleted for good; every table here keeps its rows, as the migrations promise.
- ChatSend.EverySuccessNamesOneRow: the readiness probe, and sends before the client id column exists, are left out.
- `layoutMessages`, `typingLine` and the other display helpers of `lib/chat-view.ts`.
- ChatView.RemergeIsSame: that an unchanged message keeps its object is stated on values, where equal messages are one.
- ChatView.MergeMessages: timestamps are ones `Date.parse` reads; with unreadable ones `byTime` is no order.
- Notes on help tickets, references, labels, bell recipients and follow state.
- `buildMatrix`, `teamCompletion`, form normalisation and labels of `lib/assignments.ts`; the date and time patterns.
- CourseWeeks.Tables.Recompute: an update of a late flag is taken to work; a failed read, which changes nothing, is left out.
- ChatHousekeeping.SweepUnsentChatFiles: the deadline also bounds how many pages of one folder are read; without one, storage that never stops answering full pages would never let the source's loop end. Notes in the report are left out, and of its counts the contract pins what was removed, found, judged, failed and the total; how many were examined, skipped or opened is only what the loops add up.
- Posting, pinning, muting, safeguarding and directory rules of `lib/chat-access.ts`.
- `collectAttention` and the mappers from each source; Attention.PickAttention compares wait times and keys as numbers.
- ApplyFlow.PassingFormIsComplete: an answer's error text, the phone, email and link patterns and custom answers are parameters; drafts, prompts and server errors are left out.

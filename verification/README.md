# Verification of hubbub

A Dafny model of hubbub's delivery engine, of the editor that changes its configuration files without losing comments,
and of three algorithms beside them: the confirmation diff, the delivery-log reader and the rate limiter. `dafny verify
dfyconfig.toml` checks all of it.

## What is modelled

**The outbox.** A channel's spool directory is shared by its worker, by whoever enqueues, and by the engine's sweeps.
`machine.dfy` is a state machine over that directory with every unlink, write, listing and load as a step of its own that
may fail, and time as an integer that never runs back. Proved over all its runs:

- `settlement.dfy`, `race.dfy`: with any number of workers and sweeps a message is on disk, or unlinked and owned by one
  settler, or settled once (one outcome handed over or one log line), in every state of a run with reliable unlinks *if
  and only if* each rewrite in the run finds its file on disk. The window between the worker's cancellation check and its
  rewrite breaks that guard; `race.dfy` plays the run in which one message is settled twice.
- `sole.dfy`: one worker with concurrent enqueuers under arbitrary faults, where the guard is a theorem.
- `deadline.dfy`, `attempts.dfy`: the flat TTL, and the bound on sends of one message even if every rewrite fails.
- `capacity.dfy`: the spool bound, which holds exactly when admissions that could not count or list the directory find room,
  and what eviction picks. A failed count admits over the cap; that run is given.
- `worker.dfy`: the worker as code, a class whose methods change the fields and the directory statement by statement while
  other goroutines interleave. Each method extends a run of the machine, so the theorems above hold of it. Failed
  listings, loads, unlinks and writes and the adapter's verdict are arguments, so each method's result is exact.
- `names.dfy`, `filenames.dfy`: spool file names, their order and their decoders.

**The handoff.** `registry.dfy` has the registry's mutable waiter map and buffered mailboxes, and the handler's dispatch
loop, with settlers resolving at every point between its steps.

**Reconciling.** `reconcile.dfy` is the state machine of one SetChannels caller and any number of Enqueue calls;
`engine.dfy` has the engine's methods one call at a time: what has left the spools is what was settled, each message once.

**The TOML editor.** `text.dfy`, `quotes.dfy`, `headers.dfy` and `lexer.dfy` build the line scanner; its key lemma is that
scanning is compositional at neutral points. `tables.dfy`, `edits.dfy`, `assigns.dfy`, `setkey.dfy` and `blocks.dfy` give
spans and the laws of each edit, `extents.dfy` what each edit leaves where it was, said of the lines themselves,
`endings.dfy` when one set overwrites another in a file, `written.dfy` what the dashboard itself writes. `masking.dfy` and
`maskround.dfy` have the mask/unmask pair, `secrets.dfy` what they hide and restore by name and value, and `saving.dfy` the
whole save of a settings form; `maskstrings.dfy` and `redaction.dfy` the redaction of one displayed line.

**Diff, log and limiter.** `diff.dfy`; `deliveries.dfy`, `reading.dfy` (each row by the fields of its lines),
`orderfree.dfy`, `paging.dfy` and `windows.dfy`; `ratelimit.dfy`.

Where the code and its comments differ the model follows the code:

- `tomlString` leaves U+007F unescaped, which TOML does not allow in a basic string; every other text decodes back.
- A table header with a bare part after a quoted one, `["a".b]`, is legal TOML but is not taken for a header.
- `Recent` stops growing its window when the cut falls exactly on a line boundary, although the file goes on before it; a
  delivery followed by 2 MiB of blank lines is not found.
- File names order by request id unless the suffix comes between an id and a longer one that begins with it (its dot sorts
  after a dash). Ids that NewRequestID makes never begin one another.
- A second `SetKeyInBlock` does not overwrite the first where the first has tipped which line ending dominates the file: only
  an old value of several lines, in a file that mixes line endings, can do that.
- `MaskStrings` hides the rest of a line from the opening of a multi-line string on, its closing delimiter included.
- A body that ends in a blank line and comments is read back without them, because they count as detached.
- `count` failing makes `enqueue` skip eviction, so the spool can exceed its cap.

## Model

| member | source | states |
|---|---|---|
| Settlement.ExactlyOnce | internal/outbox/worker.go:359-402 | in every run with reliable unlinks, each message is in exactly one of: on disk, owned by one settler, settled once, throughout, iff every rewrite finds its file |
| Settlement.ConservedStep | internal/outbox/engine.go:199-331 | no single step of worker, enqueuer, reaper or purge loses or duplicates a message while rewrites are guarded |
| Settlement.UnguardedBreaks | internal/outbox/worker.go:330-341 | a rewrite of a file that is gone puts its message in two places at once |
| Race.SettledTwice | internal/outbox/worker.go:285-341 | a run with reliable unlinks, a reaper and a retired worker that settles one message twice |
| SoleWorker.FaultTolerance | internal/outbox/worker.go:174-386 | one worker, any faults: settled at most once, settled but undeleted files are skipped by eviction, no settled message is sent, rewrites find their file, files leave only for cause |
| SoleWorker.InvStep | internal/outbox/worker.go:96-139 | every step by the worker or an enqueuer under its lock keeps the invariant of in-flight, stuck and settled messages |
| Deadline.FlatTtl | internal/outbox/worker.go:247-341 | any workers and faults: not-befores on disk and in memory stay within the deadline or first write; sends only up to it, expiry only after it |
| Deadline.OnTimeStep | internal/outbox/worker.go:330-341 | each step keeps the bound on not-befores |
| Attempts.BoundedAttempts | internal/outbox/worker.go:289-341 | one worker sends a message at most ceil(TTL/30s)+1 times even if every rewrite fails |
| Attempts.PostponedEnough | internal/outbox/worker.go:289-313 | a retry or a 429 waits at least thirty seconds, whatever Retry-After says |
| Capacity.SpoolBound | internal/outbox/worker.go:96-139 | with reliable unlinks pending files never exceed the largest of the cap, two and the initial count, iff every message written although eviction was skipped finds room |
| Capacity.EvictsOldest | internal/outbox/spool.go:203-235 | when eviction unlinks a message every other evictable one is no older, across both classes |
| Capacity.UncountedOverflows | internal/outbox/worker.go:100-136 | a run in which a failed count admits over the cap |
| Workers.Worker.Unlink | internal/outbox/spool.go:139-147 | the file is gone exactly when this caller removed it, and is reported gone only if it was not there |
| Workers.Worker.Finish | internal/outbox/worker.go:359-386 | reports the outcome exactly when it removed the file, or the message was delivered and the file would not go |
| Workers.Worker.Settle | internal/outbox/worker.go:391-402 | one more outcome reported for this message, the one given, handed over or logged |
| Workers.Worker.Evict | internal/outbox/worker.go:100-125 | a full spool loses and settles its oldest message outside in-flight and stuck, the first in queue order of several, iff there is one and counting, listing and unlinking succeed |
| Workers.Worker.Enqueue | internal/outbox/worker.go:96-139 | the exact directory afterwards, given what fails; in-flight and stuck messages keep their files and outcomes |
| Workers.OldestEvictable | internal/outbox/spool.go:214-235 | the loop finds the first name with the least enqueue time outside the skip set |
| Workers.ListSpool | internal/outbox/spool.go:151-165 | every file once, in queue order |
| Workers.Worker.PruneHold | internal/outbox/worker.go:232-245 | keeps exactly the held times of messages still listed |
| Workers.Worker.Visit | internal/outbox/worker.go:187-226 | what a scan does with one file: retried if stuck, left in place if unreadable, dropped and reported corrupt if corrupt, passed until the later of its two not-befores, taken otherwise |
| Workers.Worker.Next | internal/outbox/worker.go:174-228 | if the directory lists, picks the first readable due message in queue order, or sleeps exactly until the next one is due or a second; only what was stuck or corrupt on the way, and unlinks, goes |
| Workers.Worker.Reschedule | internal/outbox/worker.go:330-341 | held until the capped time whether or not the rewrite lands |
| Workers.Worker.Conclude | internal/outbox/worker.go:257-277 | the file goes iff it unlinks; settled once if it went or was delivered; delivered and left behind means stuck |
| Workers.Worker.Process | internal/outbox/worker.go:247-314 | expired iff past the TTL; otherwise the ending of the attempt that the verdict, the stop signal and the unlink give, reported as delivered, failed or expired; a message to be retried is held until the time a 429 gives and thirty seconds at least, or 30 s, 1, 2 or 5 min by its attempts, and never past its deadline |
| Workers.PutOffWaits | internal/outbox/worker.go:289-341 | a message put off waits at least thirty seconds or until its deadline, and never beyond it, rewrite or no rewrite |
| Workers.PutOffAt | internal/outbox/worker.go:299-341 | what the code writes for a 429 or a failure is that time, said in seconds and by the attempts already made |
| Workers.Worker.RunLoop | internal/outbox/worker.go:141-169 | any number of rounds report no message twice |
| Workers.Worker.constructor | internal/outbox/worker.go:48-66 | a fresh worker over an arbitrary directory starts a run of the machine |
| FileNames.NameDecodes | internal/outbox/spool.go:188-250 | both decoders invert fileName for every request id iff the time is not before 1970 |
| FileNames.ForeignNames | internal/outbox/spool.go:188-250 | a name without two dashes has no id and no time, and one without digits between the first two has no time |
| FileNames.NameOrder | internal/outbox/spool.go:34-40 | byte order of file names is test sends first, then time, then id with its suffix |
| FileNames.NameOrderByID | internal/outbox/spool.go:29-40 | among names of one class and time that last part is the order of the ids iff the suffix does not come between an id and a longer one that begins with it |
| FileNames.HubOrder | internal/notify/notify.go:170-182 | for ids as NewRequestID makes them, byte order is class, time, id |
| FileNames.PrefixIDOrder | internal/outbox/spool.go:39 | two ids, not of that form, whose file names sort the other way round |
| Handoff.Registry.Add | internal/outbox/registry.go:33-51 | adds a fresh mailbox with room for every waiter and overwrites none |
| Handoff.Registry.Resolve | internal/outbox/registry.go:55-66 | true exactly when a waiter was there; it is taken away and its outcome appended, with room to spare |
| Handoff.Registry.Cancel | internal/outbox/registry.go:71-77 | takes exactly this request's waiters away |
| Handoff.ResolveFreesRoom | internal/outbox/registry.go:55-66 | taking a waiter frees one place in its mailbox and touches no other |
| Handoff.Request.SettleOne | internal/outbox/worker.go:391-402 | an outcome is handed over if the handler still waits and logged if not, never both |
| Handoff.Request.EnqueueAll | internal/httpapi/server.go:303-314 | each target that is not refused has accepted; the others read why and wait no more |
| Handoff.Request.Collect | internal/httpapi/server.go:316-344 | the select loop ends with every accepted channel answered |
| Handoff.Request.Close | internal/httpapi/server.go:324-341 | after the window: drained outcomes are reported, the rest read queued and have no waiter |
| Handoff.Request.Dispatch | internal/httpapi/server.go:273-344 | one result per distinct target; exactly the enabled targets that are not refused accept, and read their settler's outcome without a log line, or queued with the settler left to log; the others read disabled, or failed with the reason |
| Handoff.StatusFor | internal/httpapi/server.go:349-381 | 200 iff all ok, 202 iff all queued, 502 iff all failed or dropped, 207 otherwise |
| Reconcile.NoStrandedBacklog | internal/outbox/engine.go:107-236 | with nothing in progress every message under a usable name belongs to a configured channel |
| Reconcile.StepCovers | internal/outbox/engine.go:338-375 | a message of a removed channel is always still to be seen by the purge or by its own caller's second look |
| Engines.Engine.SetChannels | internal/outbox/engine.go:107-149 | a channel has a worker iff its last entry is enabled and it had one or can have a spool; directories of channels with an entry are untouched, usable ones of channels without keep only what would not go, and each file that went is settled once, as removed |
| Engines.Engine.PurgeSpool | internal/outbox/engine.go:199-236 | unlinks every file that will go and settles exactly those, in queue order; an emptied directory goes too |
| Engines.Engine.PurgeOrphans | internal/outbox/engine.go:175-197 | purges every usable unconfigured directory and touches no other; what is gone is what is settled, each once |
| Engines.Engine.ExpireSpool | internal/outbox/engine.go:287-331 | unlinks exactly what is corrupt or past the TTL, can be read and will go, and settles exactly that, in queue order |
| Engines.Engine.ReapDisabled | internal/outbox/engine.go:270-282 | only channels whose last entry is disabled lose files: exactly those that are corrupt or past the TTL, can be read and will go, each settled once under its own outcome |
| Lexer.AdvanceLine | internal/tomledit/tomledit.go:97-149 | the byte loop computes the scanner state |
| Lexer.LinesCompose | internal/tomledit/tomledit.go:73-149 | the lines of a text cut after a newline are those of its parts, the second scanned from where the first ends |
| Lexer.LinesSpell | internal/tomledit/tomledit.go:73-94 | the lines spell the text |
| Lexer.Cut | internal/tomledit/tomledit.go:73-94 | the scanner is neutral where a structural line starts, so a cut there gives two texts that scan as they did |
| Quotes.SkipBasic | internal/tomledit/tomledit.go:158-170 | where a one-line basic string ends |
| Quotes.SkipLiteral | internal/tomledit/tomledit.go:174-184 | where a one-line literal string ends |
| Headers.ParseHeader | internal/tomledit/tomledit.go:207-263 | the parsing loop computes a header's id and simplicity, or refuses |
| Headers.BareHeaderClassified | internal/tomledit/tomledit.go:186-263 | a bare-id header line is classified as that simple table |
| Headers.HeadingReads | internal/tomledit/tomledit.go:186-263 | a header of bare, quoted and literal parts in single or double brackets, indented or commented, is read as the dotted id, simple iff of one part in single brackets, iff no bare part comes after a quoted one and the id is not empty |
| Headers.HeaderCloses | internal/tomledit/tomledit.go:218-230 | whatever is read as a header has a closing bracket followed by brackets, blanks and a comment only |
| Headers.KindIs | internal/tomledit/tomledit.go:186-201 | a line is blank iff it is white space, a comment iff its first ink is #, a header only if that is a bracket, a byte-order mark at the start aside |
| Blocks.HeaderOpens | internal/tomledit/tomledit.go:97-149 | a header line the dashboard writes leaves the scanner neutral, so its table can be edited |
| Tables.ScanLines | internal/tomledit/tomledit.go:73-94 | the scan loop yields the lines |
| Tables.TrimTrailing | internal/tomledit/tomledit.go:379-403 | keeps the body up to its last line that is not in a detached run of blanks and comments |
| Tables.Span | internal/tomledit/tomledit.go:306-351 | the span is the located block, or the located error |
| Tables.BodySpan | internal/tomledit/tomledit.go:361-373 | the body span lies after the header up to the same end |
| Tables.IDs | internal/tomledit/tomledit.go:278-286 | the ids of the simple headers in order |
| Tables.HasTableHeader | internal/tomledit/tomledit.go:704-711 | true iff a structural header line is scanned |
| Tables.BodyText | internal/tomledit/tomledit.go:415-421 | the text of the table's body, or its error |
| Extents.TableLocated | internal/tomledit/tomledit.go:306-403 | the block found is the first header of the id, the comments right above it unless they reach the top of the file, and the lines below up to the detached blank and comment lines before the next header; otherwise there is no such header, or it is no plain table without sub-tables |
| Extents.TableUnique | internal/tomledit/tomledit.go:306-403 | no other lines are such a block |
| Extents.EditsRefused | internal/tomledit/tomledit.go:306-351 | reading, replacing, setting and removing are refused exactly where that fails, with that error |
| Edits.ReplaceBody | internal/tomledit/tomledit.go:425-432 | the edited file, or the same refusal |
| Edits.ReplaceBodyLaws | internal/tomledit/tomledit.go:425-432 | ids unchanged, every other table's body byte-identical, the stored body read back up to detached filler |
| Extents.ReplaceKeeps | internal/tomledit/tomledit.go:425-432 | the result is the file with the text of that body, and no other, replaced by the new one in the file's line ending |
| Edits.ReadBack | internal/tomledit/tomledit.go:379-432 | a body reads back exactly as stored iff it does not end in detached filler |
| Edits.ReplaceByItself | internal/tomledit/tomledit.go:415-432 | replacing a body by itself changes nothing |
| Text.NormaliseIdempotent | internal/tomledit/tomledit.go:692-699 | normalising twice is normalising once |
| Text.NormaliseKeeps | internal/tomledit/tomledit.go:692-699 | text already in the file's line ending is kept |
| Text.NormaliseLine | internal/tomledit/tomledit.go:692-699 | a line ended by LF, CRLF or a lone CR comes out as that line and the file's line ending, and text without line ends as it is |
| SetKeys.SetKeyInBlock | internal/tomledit/tomledit.go:486-520 | the edited file, or the same refusal |
| SetKeys.SetKeyLaws | internal/tomledit/tomledit.go:486-520 | the value is at the key's old place or first; other assignments and other tables are untouched |
| Extents.SetKeyKeeps | internal/tomledit/tomledit.go:486-520 | the lines of the key's first assignment in the body become key = value, ended as they were, or such a line is put on top of a body without one; no other byte of the file changes |
| SetKeys.SetTwice | internal/tomledit/tomledit.go:486-520 | in a body, a second set overwrites the first, whatever line ending either is made with |
| Endings.SetKeyTwice | internal/tomledit/tomledit.go:486-520 | in a file, a second set overwrites the first iff the first left the dominant line ending, by the count of endings in the file and in the old value, or the key's line ends the file |
| Endings.SeldomTips | internal/tomledit/tomledit.go:670-681 | it does in every file of one line ending, and in any file where the key is absent or its value is on one line |
| Endings.MixedSetTwice | internal/tomledit/tomledit.go:486-520 | a mixed file with a value on two lines in which it does not |
| Assigns.KeyLines | internal/tomledit/tomledit.go:553-576 | the loop reports every structural assignment with its span |
| Assigns.KeyLinesAreSettings | internal/tomledit/tomledit.go:538-576 | what is reported is the list of names and values in order |
| Assigns.AssignmentReads | internal/tomledit/tomledit.go:538-590 | the key is what stands before the first equals sign without the blanks around it, unless it is empty, quoted or dotted; the value is what follows without the white space around it |
| Assigns.NoAssignment | internal/tomledit/tomledit.go:580-584 | without an equals sign nothing is assigned |
| Blocks.AppendBlock | internal/tomledit/tomledit.go:469-481 | the file with the block stored at its end |
| Extents.AppendKeeps | internal/tomledit/tomledit.go:469-481 | the file up to the white space at its end, one blank line, and the block in the file's line ending and ended by it; the block alone if the file is white space |
| Blocks.AppendIds | internal/tomledit/tomledit.go:469-481 | the block's tables follow the file's |
| Blocks.AppendThenRemove | internal/tomledit/tomledit.go:446-481 | removing a freshly appended table gives back the text up to trailing white space and one line end |
| Blocks.AppendKeepsEol | internal/tomledit/tomledit.go:469-481 | appending keeps the line ending of a consistent file |
| Blocks.RemoveBlock | internal/tomledit/tomledit.go:446-464 | the file without the block, or the same refusal |
| Extents.RemoveKeeps | internal/tomledit/tomledit.go:446-464 | what goes is one run of lines, the block and one blank line after it if there is one; every other line stays byte for byte, up to white space that comes to end the file |
| Extents.PreambleKept | internal/tomledit/tomledit.go:335-339 | comments that reach from the top of the file down to the header stay |
| Blocks.RemoveBlockLaws | internal/tomledit/tomledit.go:446-464 | exactly that id goes, and every other table keeps its assignments |
| Blocks.TableSettingsOfBody | internal/tomledit/tomledit.go:415-576 | those are the assignments of the body as it is read |
| Masking.MaskSecrets | internal/httpapi/admin.go:297-313 | the loop masks every hidden assignment and copies the rest |
| Masking.UnmaskSecrets | internal/httpapi/admin.go:391-412 | the loop restores every masked assignment, or refuses one without a value on disk |
| Secrets.MaskHides | internal/httpapi/admin.go:297-321 | after masking, each setting whose name contains one of the seven words in either case and whose value starts with a quote of either kind reads as bullets, and every other setting is as it was, in order |
| Secrets.MaskedText | internal/httpapi/admin.go:297-313 | an assignment so masked comes out as name, equals sign, bullets and a newline, and all other text byte for byte |
| Secrets.UnmaskRestores | internal/httpapi/admin.go:391-412 | refused iff bullets are left under a name with no value on disk; otherwise each setting left as bullets gets the last value its name has on disk, and every other one is as submitted, in order |
| Secrets.UnmaskedText | internal/httpapi/admin.go:391-412 | all text but the assignments left as bullets is kept byte for byte |
| Masking.LoopIsRewrite | internal/httpapi/admin.go:297-313 | copying up to each reported span and writing its replacement rewrites whole assignments |
| MaskRound.EntryWritable | internal/httpapi/admin.go:407-408 | any assignment, multi-line ones included, written back as name = value scans as that one assignment |
| MaskRound.RewriteTwice | internal/httpapi/admin.go:297-412 | two rewrites compose into one, and rewritten text is closed with the rewritten settings |
| MaskRound.MaskIdempotent | internal/httpapi/admin.go:297-313 | masking twice is masking once |
| MaskRound.MaskRoundTrip | internal/httpapi/admin.go:297-412 | unmasking the masked text rewrites only hidden assignments, and its settings are the original's iff no hidden one is overridden later |
| MaskRound.UniqueKeysRestore | internal/httpapi/admin.go:391-412 | with unique keys nothing is overridden |
| Saving.SaveSettings | internal/httpapi/admin_handlers.go:195-228 | normalising, the header check, unmasking, the line end and the replacement, one after the other |
| Saving.SaveRefused | internal/httpapi/admin_handlers.go:195-221 | refused iff the submitted text, in the file's line ending, has a structural header line, the table cannot be edited, or the unmasking refuses |
| Saving.SavedKeeps | internal/httpapi/admin_handlers.go:195-228 | an accepted save replaces the body, and no other text, by the unmasked text, ended by a newline unless it is white space or has one |
| Saving.UntouchedSave | internal/httpapi/admin_handlers.go:190-244 | a settings form sent back as shown is accepted, leaves ids and other tables alone, and leaves the table's settings as they were iff no hidden one is overridden later |
| MaskStrings.MaskLine | internal/tomledit/tomledit.go:614-661 | the scan copies everything but the values it offers |
| MaskStrings.IdentityMask | internal/tomledit/tomledit.go:592-661 | a mask that hands every value back leaves every line as it is |
| MaskStrings.OnlyValuesChange | internal/tomledit/tomledit.go:592-661 | masks that agree on the offered values show a line alike |
| Redaction.OffersInside | internal/tomledit/tomledit.go:614-661 | every value offered is the inside of a string that opens outside strings and comments, to its closing quote or the end of the line |
| Redaction.OffersAll | internal/tomledit/tomledit.go:614-661 | and every string that opens outside strings and comments is offered, from right behind its opening |
| Redaction.StringsMasked | internal/tomledit/tomledit.go:614-661 | such a string is shown as what the mask makes of its inside under the name of the line |
| Redaction.CommentLinesShown | internal/tomledit/tomledit.go:614-617 | a blank line or a comment is shown as it is |
| Redaction.CommentsShown | internal/tomledit/tomledit.go:632-635 | no comment is ever offered |
| Redaction.OutsideIsNone | internal/tomledit/tomledit.go:97-149 | where the redaction stands outside strings, so does the line scanner |
| Redaction.ValuesOutside | internal/tomledit/tomledit.go:618-627 | the values of an assignment begin outside strings and comments |
| Redaction.RedactionCloses | internal/tomledit/tomledit.go:614-661 | a closed line stays closed when values on it are hidden iff no multi-line string that opens on it is hidden |
| MaskStrings.ArrayOffersElements | internal/httpapi/admin.go:473-479 | a written array offers one value per element, in order, under its key, each decoding back |
| MaskStrings.TomlStringArrayOf | internal/httpapi/admin.go:473-479 | the bracketed list of quoted elements |
| Quotes.TomlString | internal/httpapi/admin.go:446-471 | the escaping loop |
| Quotes.QuoteDecodes | internal/httpapi/admin.go:446-471 | a quoted string decodes back under the basic-string rules of TOML v1.0.0 iff it holds no U+007F |
| Quotes.QuoteOfDelete | internal/httpapi/admin.go:462-467 | the text that does not decode |
| Quotes.EscapedIsPrintable | internal/httpapi/admin.go:446-471 | what is written holds no control character but possibly that one |
| Quotes.EscapeAllScans | internal/tomledit/tomledit.go:158-170 | skipBasic stops right behind the closing quote of a written string |
| Written.QuoteScans | internal/httpapi/admin.go:446-471 | the line scanner passes a written string as one closed string, unless a quote follows it |
| Written.QuoteThenQuote | internal/tomledit/tomledit.go:97-149 | an empty string with a quote behind it opens a multi-line string |
| Written.QuoteIsValue | internal/httpapi/admin.go:446-471 | a written string is a closed value on one line, which can be set for any key |
| Written.ArrayIsValue | internal/httpapi/admin.go:473-479 | so is a written array |
| Written.DashboardWrites | internal/httpapi/admin_handlers.go:349-350 | the keys of a new caller, and of a new channel, are such values |
| Written.TableCreated | internal/httpapi/admin_handlers.go:146-147 | appending a new table adds its id last, with exactly its two settings, open for editing, and removing it gives back the text |
| Diffs.Table | internal/confedit/diff.go:36-49 | the filled table holds the recurrence for every pair of suffixes |
| Diffs.LineDiff | internal/confedit/diff.go:51-73 | the two-index walk and the two tails produce the diff |
| Diffs.LcsLongest | internal/confedit/diff.go:36-49 | no common subsequence is longer than the table says |
| Diffs.DiffMinimal | internal/confedit/diff.go:32-74 | the diff tells both files, keeps a longest common subsequence, and no diff of them adds and deletes less |
| Diffs.DiffFirst | internal/confedit/diff.go:51-73 | of all diffs that keep as many lines it is the one that keeps a line as soon as it can and deletes before it adds, which fixes every line |
| Diffs.ChangedIff | internal/confedit/diff.go:78-85 | a change is shown iff the line lists differ |
| Diffs.Changed | internal/confedit/diff.go:78-85 | true iff some line is not the same |
| Diffs.Counts | internal/confedit/diff.go:89-100 | how many lines are added and deleted |
| Diffs.LinesSpellFile | internal/confedit/diff.go:102-109 | the lines spell the file with bare newlines between them, whether or not one ends the last |
| Deliveries.Fold | internal/dlog/read.go:187-276 | the index-and-awaiting fold yields the declarative row of every delivery, in order of first mention |
| Reading.RequestRow | internal/dlog/read.go:179-276 | the first request line for a channel has exactly one row: its time to the millisecond, its title and priority, the outcome of the last terminal line or else its own, and when and by whom it was settled |
| Reading.TerminalRow | internal/dlog/read.go:252-269 | without a request line there is one row from the terminal lines alone, dated by the first, with the outcome of the last |
| Reading.RowsInOrder | internal/dlog/read.go:217-315 | a delivery has a row iff some line names it; rows come in the order of the first such line, and those of one line in descending order of channel |
| Deliveries.AddAsked | internal/dlog/read.go:217-251 | a request line makes a row, fills in one built from its terminal line, or is ignored when repeated |
| Deliveries.AddSettled | internal/dlog/read.go:252-269 | a terminal line settles its row or makes one |
| Deliveries.SortedChannels | internal/dlog/read.go:308-315 | the channel ids in descending order |
| OrderFree.FoldDeterminate | internal/dlog/read.go:217-221 | the lines alone fix the rows and their order, whatever order the channels of a request line are mapped in |
| OrderFree.RowsIgnoreOrder | internal/dlog/read.go:179-276 | the same lines in any order give the same rows as a multiset, with one request and one terminal line each |
| Paging.Paginate | internal/dlog/read.go:279-306 | filter backwards, stable sort, cut |
| Paging.PageLaws | internal/dlog/read.go:279-306 | newest first, truncated iff a match was cut; kept and cut rows are exactly those on the channel asked for and accepted or settled after the time asked for, to the millisecond; no cut row is newer than a kept one |
| Paging.PageOrder | internal/dlog/read.go:279-306 | rows of one millisecond are shown in the order of the file, turned round |
| Paging.SortedIsStable | internal/dlog/read.go:295-299 | the sort orders, permutes, and keeps rows of one time in order |
| Paging.StableUnique | internal/dlog/read.go:295-299 | only one list does that |
| Paging.Tail | internal/dlog/read.go:135-176 | the window's bytes, and whether it starts inside a line |
| Paging.TailLines | internal/dlog/read.go:135-185 | exactly the lines that start inside the window are read |
| Windows.Recent | internal/dlog/read.go:112-131 | the page of the window at which the growth stops, in at most three passes |
| Windows.StopsShort | internal/dlog/read.go:119-129 | too few rows are returned with file and windows to spare iff the cut at 2 or 8 MiB falls between two lines and no window up to there is full; otherwise the answer is full, of the whole file, or of 32 MiB; and a full window is not grown |
| Windows.BuriedIsMissed | internal/dlog/read.go:126-128 | a delivery followed by 2 MiB of blank lines or more is not found, whatever the limit |
| RateLimit.RateLimiter.Allow | internal/httpapi/ratelimit.go:24-53 | admitted iff fewer than cap admissions lie in the window, that is iff the cap-th last has left it; a refusal says when that one leaves it, or a second |
| RateLimit.SlidingWindow | internal/httpapi/ratelimit.go:24-53 | no interval of one window's length ever holds more than cap admissions |
| RateLimit.Spaced | internal/httpapi/ratelimit.go:24-53 | any cap + 1 admissions in a row take at least the window |
| RateLimit.RetryExact | internal/httpapi/ratelimit.go:44-50 | with no admission between, a call at or after now + retry is admitted and no earlier one, unless retry was raised to a second |

## Left out

- Text is a sequence of characters, not of UTF-8 bytes; every delimiter the scanner looks at is ASCII, and byte lengths in size limits are character counts.
- `secretish` lower-cases ASCII letters only, where Go lower-cases Unicode (the Kelvin sign, say).
- Line offsets in the scanner are prefix lengths of the list of lines instead of two stored fields per line.
- `Verify`, `VerifyNeighbours` and the guard on exec channels: the first two ask the external TOML parser, which is not part of this model; a save is modelled without them.
- Quoted header parts are decoded by the basic-string rules of TOML v1.0.0 in place of a call to that parser.
- `ReplaceBlock` and `Block`: slices and splices of the span modelled for the other edits.
- The edit laws ask for a target header line that ends in a newline and leaves the scanner neutral; `[[name]` with one closing bracket does not.
- Saving.UntouchedSave: for a file of bare newlines and a body that ends in one; in a CRLF file the unmasked lines are normalised once more.
- MaskRound.MaskIdempotent: asks for names without an opening brace, which no TOML key has.
- Secrets.MaskHides: the same, and Secrets.UnmaskRestores as well; the two laws about text, MaskedText and UnmaskedText, ask for nothing.
- Spool contents are decoded items; JSON, fsync, temporary names and the removal of an emptied directory under a running worker are left out, and which files are corrupt or unreadable is an argument.
- Every file in a spool has a name the hub wrote; foreign names are skipped by eviction and dropped by the scan.
- Process crashes and restarts: delivery across them is deliberately at-least-once.
- Workers.Worker.Others: enqueuers run as whole calls between the worker's steps; their finer interleaving is in the machine, where each step of either stands alone.
- Handoff.Request.Dispatch: request ids are fresh, and waiters of other requests are not disturbed; a settler settles each accepted message once.
- Reconcile.NoStrandedBacklog: listings and unlinks succeed, and no rewrite recreates a purged file.
- Engines.Engine.SetChannels: workers are a set of channel ids; adapters, the wait for retired workers and errors returned to the caller are left out.
- Wake-ups, timers, pacing, metrics and the heartbeat: they delay steps and change no state modelled here.
- Decoding a log line is a parameter of the reader; a line that does not parse, is blank or is of another kind says nothing about deliveries.
- Adapters, HTTP handlers, HTML pages, admin identity, config parsing and storage.
- `maskCallerValue`, `maskChannelSetting` and `maskDiff`: single-branch choices of a mask.

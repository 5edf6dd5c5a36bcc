# Verified model of the agent limiter, the identity protocol and their neighbours

A Dafny model of the parts of this repository whose behaviour is a matter of state, time or arithmetic rather than of
storing rows. Verify it with `dafny verify dfyconfig.toml`.

| module | models |
|---|---|
| `RateLimiter`, `RateLedger` | the agent's weighted sliding-window limiter: four pruned windows per model, atomic all-or-nothing admission, the waiting loop with its budget, provider counters |
| `RequestWindow` | the HTTP request limiter, a lazily pruned and swept map of stamps |
| `Identity`, `IdentityRace`, `IdentitySteps` | the multi-instance tenant protocol as a state machine over single database and cache accesses |
| `TtlCache`, `AuthCache`, `Accounts`, `Tenant` | the bounded TTL caches, token and profile lookups, and the tenant resolver, run alone, against the stored rows |
| `Freshness`, `Snapshots`, `Features` | the caches stamped before or after their fetch, the tenant snapshot cache and the feature switches |
| `PdfText`, `PdfPage`, `PdfFile`, `PdfViewer` | the hand-rolled PDF writer, against readers and a viewer that follow ISO 32000-1 |
| `ResetLoop` | the delete-until-fixpoint loop of the tenant reset script |
| `Rut`, `RutFormat` | the RUT check digit, normalisation, and the two dotted-RUT writers |
| `Cost`, `Budget` | whole-cent charging of a session, and the daily spend cap |
| `Phone` | phone normalisation and matching |
| `Basics`, `AsciiText` | shared vocabulary |

Time is an integer number of ticks, money is exact. Classes carry the state that the source changes in place; each
method is tied to a function of its old state, and the theorems about whole runs are about those functions. What a
limiter has forgotten is kept in ghost histories, so that its guarantee can speak about all of time.

## Where the code and its documentation part

The model follows the code. Each of these is a lemma.

- `record_response` overwrites the day's requests and the minute's tokens with what the provider reports. A report
  below what this process admitted lets the next call through the cap (`RateLimiter.SyncCanBreakTheBound`).
  `RateLimiter.SyncExact` says when a report is harmless whatever the other windows hold, and
  `RateLimiter.OverrunExact` exactly when a call then passes all four windows and the cap.
- The auth cache's notes say that the revocation hole is closed structurally. It is closed for reads, but the
  resolver and the activation check a membership and write the snapshot in two steps. A write that was pending when
  the membership went restores the tenant for good. `IdentityRace.RevocationExact` gives the exact condition, and
  `IdentityRace.RaceIsReachable` a run that meets the failing case.
- `validate_rut` documents a canonical form, but its `$` also matches before a trailing newline
  (`Rut.NewlineExample`); that is the only exception (`Rut.AcceptedIsCanonicalExactly`). No caller meets it: each
  normalises first (`backend/app/features/users/service.py:34-35`,
  `backend/app/features/visitor_invitations/service.py:401-402`, `parse_rut`), which leaves no line feed at the end
  (`Rut.NormalizedIsCanonical`).
- `set_state` drops the feature cache before it writes; a lookup between the two restores the old state for a whole
  TTL (`Freshness.ResetBeforeWriteCanHideIt`).
- A session's stored cents are said to track its real cost to within one cent. With one price and
  accounting that succeeds they do. After a switch of model the whole session is repriced: to a cheaper model the
  clipped difference undercharges (`Cost.SwitchingModelsUndercharges`), to a dearer one it overcharges
  (`Cost.SwitchingModelsOvercharges`). A failed turn that no later one makes up for is not charged
  (`Cost.FailedTurnUndercharges`).
  `Cost.WithinOneCentExactly` and `Cost.ChargedExactly` say exactly when the promise holds, and
  `Cost.ClippedExactly` when `max` clips.
- The spend cap compares a figure that grows by the exact cost of each turn, while the store grows by rounded cents
  (`Budget.SubCentTurnDrifts`). They differ by what the rows have fallen behind since the last fetch
  (`Budget.TurnExact`); a turn whose accounting failed counts only until the next one. `Budget.MisledExactly` says
  exactly when a check is misled.
- The spend query reads at most 5000 rows, in no order; those it leaves out do not count against the cap
  (`Budget.FetchExact`, `Budget.LongDaysPassTheCap`).
- The `Retry-After` header cuts the wait down to whole seconds, so a client that obeys it can be refused again
  (`RequestWindow.ObedientClientRefused`; exactly when, `RequestWindow.HeaderSuffices`).
- A carriage return in a PDF text is read back as a line feed (`PdfText.EolExact`), and cross-reference entries
  outgrow their 20 bytes when the content stream has 9999999701 bytes or more (`PdfFile.EntriesExact`,
  `PdfFile.LongTitleBreaksTheTable`).
- The one-page PDF has room for 47 lines; further ones are written below its edge (`PdfViewer.OnPageExactly`).
- The reset script explains STUCK by a foreign-key cycle. A row of a protected table that refers to a pending one has
  the same effect without one (`ResetLoop.StuckWithoutCycle`); those two are all that can stick
  (`ResetLoop.BlocksExactly`).
- `MAX_WAIT_SECONDS` is described as the bound on how long `acquire` blocks. It bounds the waits, not the slack that
  each sleep adds (`RateLimiter.CallTakesAtLeast`, `RateLimiter.LongerThanTheBudget`).
- `invalidate_snapshot` promises that a row written this turn is visible on the next one. A load in flight that read
  before the write can still be cached afterwards (`Freshness.LoadInFlightHidesTheWrite`); within one process that is
  the only exception (`Freshness.WriteThenForgetExactly`).

## Model

| member | source | states |
|---|---|---|
| RateLimiter.WaitExact | backend/app/features/agent/rate_limiter.py:83-98 | with no additions in between, there is room at an instant if and only if the wait returned has elapsed; a cost above a positive cap gets the whole span, and never has room |
| RateLimiter.PrunedKeeps | backend/app/features/agent/rate_limiter.py:70-73 | pruning changes the weight of no window that ends now or later |
| RateLimiter.RefusalExact | backend/app/features/agent/rate_limiter.py:144-161 | a call is admitted if and only if none of the four windows asks for a wait; a refusal names the window with the longest one |
| RateLimiter.AdmitKeeps | backend/app/features/agent/rate_limiter.py:144-164 | an admission with room keeps the sliding bound at every instant, past and future |
| RateLimiter.SlidingBound | backend/app/features/agent/rate_limiter.py:144-271 | in every run of interleaved callers and recorded responses, whatever was pruned, no half-open window at any instant holds more than the cap of everything ever admitted; for the two windows that headers overwrite, if no header reports less than was admitted |
| RateLimiter.NoSyncIsCovering | backend/app/features/agent/rate_limiter.py:260-271 | a run without header reports satisfies that condition, so all four bounds hold in it |
| RateLimiter.SyncExact | backend/app/features/agent/rate_limiter.py:294-306 | seen by the synced window alone, at that instant: an admission of any cost stays within the cap if and only if the reported use covers what the window already admitted |
| RateLimiter.AdmittedExactly | backend/app/features/agent/rate_limiter.py:144-164 | which calls are admitted: those with room for one request and for their tokens in all four windows |
| RateLimiter.OverrunExact | backend/app/features/agent/rate_limiter.py:144-164 | from any state, headers synced or not, and any time later: some call is admitted past a window's cap if and only if all four windows have room and, with the most tokens they have room for, the window's own history does not |
| RateLimiter.SyncCanBreakTheBound | backend/app/features/agent/rate_limiter.py:273-306 | a header that reports an unused minute lets 24000 tokens through a cap of 12000 within that minute |
| RateLimiter.BudgetHolds | backend/app/features/agent/rate_limiter.py:197-221 | under any contention the waits slept sum to at most the budget, and each takes at least one tick of it |
| RateLimiter.CallTakesAtLeast | backend/app/features/agent/rate_limiter.py:197-221 | a call takes at least its waits plus the slack of every sleep, under any contention |
| RateLimiter.AloneOverstaysExactly | backend/app/features/agent/rate_limiter.py:39-45 | an undisturbed call blocks for longer than its budget if and only if its one wait ends within the last slack of it |
| RateLimiter.LongerThanTheBudget | backend/app/features/agent/rate_limiter.py:39-45 | a call that is admitted after 65.05 seconds under the default budget of 65 |
| RateLimiter.AloneSleepsOnce | backend/app/features/agent/rate_limiter.py:197-221 | an undisturbed call that fits every cap, however late it wakes, is admitted at once, or after exactly the wait it was told, or raises without sleeping |
| RateLimiter.HopelessRaises | backend/app/features/agent/rate_limiter.py:166-221 | a call above a cap raises whatever others do, with at most one sleep per full minute of its budget: by its second check under the default budget |
| RateLimiter.RaisingLeavesNoTrace | backend/app/features/agent/rate_limiter.py:144-221 | after a raising call every later caller sees the run as if it had not been made; an admitted call is recorded once, at its last check |
| RateLimiter.SameViewStep | backend/app/features/agent/rate_limiter.py:144-271 | two states equal up to expired events answer every caller alike and stay equal up to expired events |
| RateLimiter.OrderedRun | backend/app/features/agent/rate_limiter.py:70-98 | in every run the four deques stay ordered by time with positive weights, which the exactness of the wait rests on |
| RateLimiter.Bucket.Prune | backend/app/features/agent/rate_limiter.py:70-73 | drops exactly the leading events stamped before the cutoff |
| RateLimiter.Bucket.Used | backend/app/features/agent/rate_limiter.py:75-77 | the loop computes the total weight held |
| RateLimiter.Bucket.Add | backend/app/features/agent/rate_limiter.py:79-81 | appends a stamped event unless its weight is not positive |
| RateLimiter.Bucket.TimeUntilRoom | backend/app/features/agent/rate_limiter.py:83-98 | prunes in place and returns the wait that `WaitExact` is about |
| RateLimiter.Bucket.Sync | backend/app/features/agent/rate_limiter.py:294-306 | replaces the events by one reported use, or leaves them when a counter is missing |
| RateLimiter.ModelState.FromLimits | backend/app/features/agent/rate_limiter.py:109-116 | four distinct empty buckets with the spans and caps of the model |
| RateLimiter.ModelState.ComputeWait | backend/app/features/agent/rate_limiter.py:144-164 | one critical section on the four buckets refines the atomic attempt: all record the cost or none does |
| RateLimiter.ModelState.RecordResponse | backend/app/features/agent/rate_limiter.py:245-306 | without headers, from now on both token windows hold the tokens of the reply on top of what they held, for as long as they last; with them, the day's requests and the minute's tokens hold what is reported; the other windows are untouched |
| RateLimiter.ModelState.Interfere | backend/app/features/agent/rate_limiter.py:144-271 | any sequence of other callers' critical sections, run on the buckets, is the run of the state machine |
| RateLimiter.ModelState.Acquire | backend/app/features/agent/rate_limiter.py:197-243 | the waiting loop ends, and its result, sleeps and final buckets are those of the specified run under any interference |
| RateLimiter.ResponseLeaves | backend/app/features/agent/rate_limiter.py:245-306 | the same of the state machine's step |
| RateLimiter.RaisesOverBudget | backend/app/features/agent/rate_limiter.py:166-221 | under any contention, a call raises only when the wait it was told exceeds what its sleeps left of the budget |
| RateLedger.LedgerExact | backend/app/features/agent/rate_limiter.py:70-98 | in every run, at every instant from now on, a window that no header has overwritten holds exactly what was ever admitted and ever reported within it, whatever was pruned |
| RateLedger.AdmissionFits | backend/app/features/agent/rate_limiter.py:144-164 | an admission fits the cap of such a window together with every earlier admission and every use reported without headers |
| RateLedger.DecidesAsTheLedger | backend/app/features/agent/rate_limiter.py:144-164 | in every run without counters in headers the limiter refines a ledger that forgets nothing: a call is admitted if and only if all four windows of the ledger have room, and one that could ever fit is told to wait exactly until they have |
| RateLedger.FourBounds | backend/app/features/agent/rate_limiter.py:109-164 | the four sliding bounds by name, with the cap and the span of each |
| RequestWindow.QueueDecides | backend/app/core/rate_limit.py:74-86 | after the pops a queue admits if and only if the whole history would, and its head gives the least delay after which there is room |
| RequestWindow.AtMostLimit | backend/app/core/rate_limit.py:74-86 | no window of the history at any instant holds more than the limit |
| RequestWindow.PopDecides | backend/app/core/rate_limit.py:74-84 | the popped queue has as many stamps as the log has in the window, and the wait it gives is the least |
| RequestWindow.AdmitFaithful | backend/app/core/rate_limit.py:85-86 | appending an admitted hit keeps the queue answering for its whole history |
| RequestWindow.StaleFaithful | backend/app/core/rate_limit.py:88-92 | a queue whose newest stamp has expired can be deleted without changing any later answer |
| RequestWindow.Window.Check | backend/app/core/rate_limit.py:74-86 | every decision equals that of a log that never forgets, and a refusal returns the least delay |
| RequestWindow.Window.Sweep | backend/app/core/rate_limit.py:88-92 | deletes exactly the keys whose queue has expired, and leaves the log the window answers for unchanged |
| RequestWindow.HeaderSuffices | backend/app/core/rate_limit.py:118-126 | an undisturbed client that waits the whole seconds of the `Retry-After` header is admitted if and only if its wait was at most a second or whole seconds |
| RequestWindow.HeaderIsWholeSeconds | backend/app/core/rate_limit.py:118-126 | the header is at least a second and otherwise exactly the whole seconds of the wait |
| RequestWindow.ObedientClientRefused | backend/app/core/rate_limit.py:118-126 | after one hit a minute, a client told to wait 59 of 59.5 seconds is refused again |
| PdfText.ReplacesAreOneMap | backend/scripts/seed_demo/media.py:442-444 | the three sequential replacements equal one per-character escaping |
| PdfText.BackslashMustGoFirst | backend/scripts/seed_demo/media.py:442-444 | with the backslash later the result differs from it |
| PdfText.EncodeEscapeEach | backend/scripts/seed_demo/media.py:442-459 | the Latin-1 encoding with replacement commutes with escaping |
| PdfText.LiteralRoundTrip | backend/scripts/seed_demo/media.py:442-444 | a literal-string reader stops at exactly the final parenthesis; it gives back the folded text if and only if that has no carriage return |
| PdfText.EolExact | backend/scripts/seed_demo/media.py:440-444 | reading end-of-line markers is the identity exactly on texts without a carriage return |
| PdfText.FoldedExactly | backend/scripts/seed_demo/media.py:440-459 | folding and encoding make plain dashes and quotes of the six typographic ones, keep Latin-1, and let nothing else survive |
| PdfText.ReadExact | backend/scripts/seed_demo/media.py:440-459 | a text is read back as it was if and only if it is Latin-1 without a carriage return |
| PdfPage.StreamShowsTheText | backend/scripts/seed_demo/media.py:454-459 | a reader of the operators finds the title at (72, 770) in 16 point and line i at (72, 740 - 16 i) in 11 point, both in font F1, and nothing else |
| PdfPage.BelowAt | backend/scripts/seed_demo/media.py:454-459 | where each line stands |
| PdfFile.BuildParts | backend/scripts/seed_demo/media.py:454-458 | the loop builds the parts of the content stream |
| PdfFile.WriteObjects | backend/scripts/seed_demo/media.py:470-474 | the loop writes the objects and records where each begins |
| PdfFile.WriteEntries | backend/scripts/seed_demo/media.py:476-480 | the loop writes the table of those offsets |
| PdfFile.Assemble | backend/scripts/seed_demo/media.py:470-482 | header, objects, table and trailer in order |
| PdfFile.SimplePdf | backend/scripts/seed_demo/media.py:447-482 | the file written is the one that the reader and viewer lemmas are about |
| PdfFile.Pad10Reads | backend/scripts/seed_demo/media.py:480 | a padded offset reads back, and has ten digits exactly below 10^10 |
| PdfFile.XrefFound | backend/scripts/seed_demo/media.py:476-481 | the number after `startxref` is where the table begins |
| PdfFile.TableFound | backend/scripts/seed_demo/media.py:470-481 | following `startxref` lands on `xref`, and at each recorded offset stands `i 0 obj` |
| PdfFile.EntryReads | backend/scripts/seed_demo/media.py:478-480 | the i-th 20-byte entry reads as the offset of object i when all offsets up to it fit ten digits |
| PdfFile.EntriesExact | backend/scripts/seed_demo/media.py:470-480 | all five 20-byte entries are right if and only if the content stream is shorter than 9999999701 bytes |
| PdfFile.StreamFits | backend/scripts/seed_demo/media.py:459-474 | that length is exactly what leaves the offset of the last object ten digits, its own length included |
| PdfFile.LongTitleBreaksTheTable | backend/scripts/seed_demo/media.py:447-482 | there is a title with which an entry of the table is wrong |
| PdfViewer.ContentReads | backend/scripts/seed_demo/media.py:463-466 | `/Contents` of the page leads through the table to the stream, and `/Length` is the number of bytes between the keywords |
| PdfViewer.TableReads | backend/scripts/seed_demo/media.py:476-481 | from the end of the file alone: the trailer's `/Size` is that of the table, which begins as it should, and `/Root` is found |
| PdfViewer.PageReads | backend/scripts/seed_demo/media.py:461-465 | following `/Root`, `/Pages` and `/Kids`, each through its entry, leads to dictionaries of the right types and to the one page, whose `/Parent` leads back |
| PdfViewer.ViewerShowsTheText | backend/scripts/seed_demo/media.py:447-482 | a viewer that follows the file's own pointers shows the title and every line in their places, for text of any length |
| PdfViewer.FontsFound | backend/scripts/seed_demo/media.py:464-467 | the font name of every string on the page stands for the font object, if and only if the content stream is shorter than 9999999701 bytes |
| PdfViewer.OnPageExactly | backend/scripts/seed_demo/media.py:454-465 | of the lines exactly the first 47 are within the page's `/MediaBox` |
| ResetLoop.Database.Delete | backend/scripts/reset_tenant_data.py:197-203 | a delete succeeds if and only if no other live or protected table refers to it, and otherwise changes nothing |
| ResetLoop.Pass | backend/scripts/reset_tenant_data.py:193-203 | one pass keeps every self-blocking set, and reports as blocked exactly what it left of its tables; without progress all that is left blocks itself |
| ResetLoop.DeleteAll | backend/scripts/reset_tenant_data.py:191-208 | at most as many passes as tables; what remains is the greatest self-blocking set whatever the order; stuck if and only if a protected row refers to a pending table or the pending tables have a reference cycle |
| ResetLoop.BlocksExactly | backend/scripts/reset_tenant_data.py:191-208 | no nonempty set of the tables blocks itself if and only if none is pinned by a protected reference and none of their references form a cycle |
| ResetLoop.BlockedByCycle | backend/scripts/reset_tenant_data.py:197-206 | tables that block themselves by references alone contain a cycle |
| ResetLoop.CycleBlocksItself | backend/scripts/reset_tenant_data.py:197-206 | the tables of a cycle block themselves |
| ResetLoop.StuckWithoutCycle | backend/scripts/reset_tenant_data.py:204-207 | one table that a protected one refers to is stuck with no cycle at all |
| ResetLoop.PassStep | backend/scripts/reset_tenant_data.py:196-203 | trying one more table, in either outcome, keeps the invariant of the pass |
| ResetLoop.DeleteKeepsCores | backend/scripts/reset_tenant_data.py:197-203 | a delete that succeeds removes no member of a self-blocking set |
| ResetLoop.ClearsExactly | backend/scripts/reset_tenant_data.py:191-208 | the greatest self-blocking set is empty if and only if no nonempty set blocks itself |
| ResetLoop.GreatestIsUnique | backend/scripts/reset_tenant_data.py:191-208 | there is only one, so the report does not depend on the order |
| Rut.ComputeDv | backend/app/core/rut.py:24-36 | the loop computes the check digit of a body of any length |
| Rut.DvCompletes | backend/app/core/rut.py:24-36 | a verifier is the check digit if and only if it completes the weighted sum to a multiple of eleven |
| Rut.OneDigitDetected | backend/app/core/rut.py:24-36 | replacing one digit by another always changes the check digit |
| Rut.SwapDetected | backend/app/core/rut.py:24-36 | swapping two different digits changes it if and only if their places are not a multiple of six apart |
| Rut.HyphenAndCase | backend/app/core/rut.py:15-21 | with or without hyphen, in either case, a RUT normalises to one text |
| Rut.NormalIsFixed | backend/app/core/rut.py:15-21 | a normal RUT is a fixed point of normalising |
| Rut.ParseIdempotent | backend/app/core/rut.py:50-65 | what parsing accepts is canonical, carries its own check digit, and parses to itself |
| Rut.WrongDigitRejected | backend/app/core/rut.py:39-47 | a valid RUT with one digit of its body replaced is not valid |
| Rut.AcceptedIsCanonicalExactly | backend/app/core/rut.py:39-47 | what validation accepts is canonical if and only if it does not end in a line feed |
| Rut.NewlineAccepted | backend/app/core/rut.py:39-47 | a valid RUT followed by a newline is accepted although it is not canonical |
| Rut.NewlineExample | backend/app/core/rut.py:39-47 | `11111111-1` and a newline is such a text |
| Rut.NormalizedIsCanonical | backend/app/core/rut.py:15-21 | a text that was normalised first, as every caller does, is canonical when it is accepted |
| Rut.ValidExactly | backend/app/core/rut.py:39-47 | a text is accepted if and only if it is seven or eight digits, a hyphen and a verifier that completes them, with at most a line feed after |
| Rut.SpacedNormalizes | backend/app/core/rut.py:15-21 | whatever dots and blanks are in it, a text that spells a body and a verifier normalises to them |
| Rut.ParseExactly | backend/app/core/rut.py:50-65 | a text that spells seven or eight digits and a verifier is parsed to its normal form when the verifier is right, and rejected when it is not; a missing one is no error |
| Rut.BlankIsAbsent | backend/app/core/rut.py:58-61 | a blank one is none either |
| RutFormat.Action.NormalizeRut | backend/app/features/agent/postprocess.py:91-119 | the field is rewritten in place, and nothing else is, if and only if its stripped text ends in a verifier with at least seven digits before it; it then says exactly those digits, or the last eight of more, and that verifier |
| RutFormat.RewrittenRecovers | backend/app/features/agent/postprocess.py:103-119 | the same of the text, which core normalisation reads back |
| RutFormat.RecoveredDigits | backend/app/features/agent/postprocess.py:105-110 | the digits recovered are all those before the verifier |
| RutFormat.RewrittenRoundTrip | backend/app/features/agent/postprocess.py:103-119 | core normalisation strips a rewritten field back to the last seven or eight digits and the verifier, and rewriting it again, by either program, changes nothing |
| RutFormat.WrittenNormalizes | backend/app/core/rut.py:15-21 | a dotted RUT of any length normalises to its digits and verifier |
| RutFormat.GroupingsAgree | frontend/src/lib/locale-cl.ts:7-14 | the two dot-grouping algorithms agree on digit bodies of any length |
| RutFormat.FormatFixed | frontend/src/lib/locale-cl.ts:7-14 | the front end leaves a dotted RUT alone |
| RutFormat.FormatShort | frontend/src/lib/locale-cl.ts:7-14 | a text without a body or a verifier is left alone |
| RutFormat.FormatWrites | frontend/src/lib/locale-cl.ts:7-14 | from an undotted RUT it writes the agent's form with its own digits and verifier |
| RutFormat.WriteNormalizeInverse | frontend/src/lib/locale-cl.ts:7-14 | normalising undoes dotting on every normal RUT |
| TtlCache.Simulates | backend/app/core/supabase/auth_cache.py:91-116 | over any run a bounded cache stays within its limit, and its hits are those of the unbounded map or fewer, never different |
| TtlCache.SweepIsInvisible | backend/app/core/supabase/auth_cache.py:104-116 | a put whose sweep makes room changes no answer now or later |
| TtlCache.KeepsExactly | backend/app/core/supabase/auth_cache.py:104-116 | a store keeps everything while there is room, of a full cache what has not expired if that makes room, and otherwise only itself |
| TtlCache.HitHasAStore | backend/app/core/supabase/auth_cache.py:91-116 | a hit is the last store under its key, not dropped since and not expired |
| TtlCache.HitExactly | backend/app/core/supabase/auth_cache.py:91-101 | without bound, a key is answered if and only if its last store has not been dropped or expired |
| TtlCache.NothingEvicted | backend/app/core/supabase/auth_cache.py:104-116 | until as many operations as the cache may hold entries, the bounded cache is the unbounded one |
| AuthCache.Caches.GetToken | backend/app/core/supabase/auth_cache.py:124-128 | answers a token entry exactly while it is fresh |
| AuthCache.Caches.PutToken | backend/app/core/supabase/auth_cache.py:131-143 | the new token dictionary, evicted first if full; profiles untouched |
| AuthCache.Caches.GetProfile | backend/app/core/supabase/auth_cache.py:146-157 | answers a profile exactly while it is fresh |
| AuthCache.Caches.PutProfile | backend/app/core/supabase/auth_cache.py:160-164 | the new profile dictionary, stamped at the put; tokens untouched |
| AuthCache.Caches.InvalidateProfile | backend/app/core/supabase/auth_cache.py:167-176 | drops one user's profile or all of them, and no token |
| AuthCache.Caches.InvalidateToken | backend/app/core/supabase/auth_cache.py:179-181 | drops one token and no profile |
| AuthCache.Caches.VerifyToken | backend/app/core/supabase/auth.py:35-59 | a hit skips the provider; otherwise its verdict is returned, and stored only when it is a user |
| AuthCache.Caches.GetUserProfile | backend/app/core/supabase/auth.py:62-113 | a hit is returned as it is; otherwise the profile has the stored row, and the rights and view of the first active membership in the very tenant that row points at, or the plain ones without such a membership |
| Accounts.MergedReads | backend/app/core/supabase/auth.py:90-110 | the same of the merge alone |
| AuthCache.ExpiryOnlyShortens | backend/app/core/supabase/auth.py:14-32 | the token's own expiry only brings the deadline forward, and a cached token is never fresh past it |
| AuthCache.TokenServedExactly | backend/app/core/supabase/auth_cache.py:124-143 | a token is answered exactly while neither its minute nor the time it had left is over |
| AuthCache.ProfileServedExactly | backend/app/core/supabase/auth_cache.py:146-164 | a profile is answered exactly while its 30 seconds last |
| AuthCache.TokenHit | backend/app/core/supabase/auth_cache.py:124-143 | a token hit happens only for a token put after verification, strictly before a minute has passed and strictly before its own deadline, whatever was evicted |
| Accounts.ActiveIn | backend/app/core/tenant.py:51-66 | finds the first active membership in the tenant, if and only if there is one |
| Accounts.FirstActive | backend/app/core/tenant.py:35-48 | finds the first active membership in order of creation, if and only if there is one |
| Tenant.ResolveActiveTenant | backend/app/core/tenant.py:69-130 | a header's tenant is resolved if and only if it is the snapshot's or has an active membership, and is forbidden otherwise; without a header it is the snapshot's tenant, else that of the first active membership, else forbidden; a malformed one is a bad request |
| Tenant.ResolveAnswers | backend/app/core/tenant.py:22-48 | the same of the specified resolution |
| Tenant.SlowPathSyncs | backend/app/core/tenant.py:84-130 | a tenant other than the snapshot's is resolved only with an active membership, and then the stored row is that membership's and the cached profile is gone |
| Tenant.OnlyOwnRowWritten | backend/app/core/tenant.py:69-130 | nothing but the user's own row is ever written; fast path and refusals write nothing |
| Identity.TimedRun | backend/app/core/supabase/auth_cache.py:146-176 | in every interleaving of single accesses, a put between a missed lookup and its read included, every profile in a cache or in use was read within the TTL and the gap |
| Identity.FadingRun | backend/app/core/tenant.py:69-130 | after a revocation without pending writer, in every interleaving without reinstatement nothing writes the tenant back and all that grants it was read before |
| Identity.FadingResolves | backend/app/core/tenant.py:84-130 | a request that still resolves to it does so within the TTL plus the two gaps |
| Identity.RevocationSafe | backend/app/core/tenant.py:84-130 | so no request on any instance resolves to it later |
| IdentityRace.SnapshotResolves | backend/app/core/tenant.py:84-100 | an active snapshot that grants the tenant goes on granting it after any time |
| IdentityRace.LateWriteNeverEnds | backend/app/core/tenant.py:101-130 | a pending write of the snapshot lets requests resolve to the revoked tenant after any time |
| IdentityRace.RevocationExact | backend/app/core/tenant.py:69-130 | from every reachable state with the membership gone and the snapshot repointed, the bound holds if and only if the account is inactive or no operation that saw the membership has yet to write |
| IdentityRace.RaceIsReachable | backend/app/core/tenant.py:101-130 | the failing case is reachable |
| IdentityRace.DeleteRevokes | backend/app/features/memberships/service.py:16-72 | an undisturbed membership deletion with its resync leaves the tenant revoked |
| IdentitySteps.DecidesForTheRightTenant | backend/app/core/tenant.py:84-112 | each request is for the tenant it names, else its snapshot's, else its first: at once, or on the slow path, or nowhere |
| IdentitySteps.SlowPathExact | backend/app/core/tenant.py:115-130 | an undisturbed slow path resolves its tenant and repoints the row if and only if the membership is live |
| IdentitySteps.SyncDerives | backend/app/features/memberships/service.py:16-72 | an undisturbed membership edit keeps a live snapshot, repoints a dead one to the first live membership, and deactivates the account without one |
| IdentitySteps.ActivationExact | backend/app/features/memberships/service.py:119-152 | an activation is let through for a live membership only, and repoints the row |
| IdentitySteps.PutServesExactly | backend/app/core/supabase/auth_cache.py:146-164 | a profile that was put is what requests on that instance start from, exactly until its 30 seconds are over |
| Freshness.HitsAreRecent | backend/app/features/agent/context.py:53-78 | however loads, writes and invalidations interleave, each part of a hit was in the store within the TTL, plus the read-to-put gap where the stamp is set at the put |
| Freshness.LastWriteHolds | backend/app/features/agent/context.py:81-160 | what the store holds is what the last write of the part wrote |
| Freshness.FinishedIsServed | backend/app/features/agent/context.py:53-78 | a load that finishes is served exactly until its TTL is over |
| Freshness.VisibleExactly | backend/app/features/agent/context.py:40-78 | for a stamp set before the fetch, every later hit shows the writes so far if and only if nothing that read before them is cached or on its way |
| Freshness.WriteThenForgetExactly | backend/app/features/agent/context.py:40-50 | after writing a row and then forgetting its key, every later lookup shows it if and only if no load of that key that could still be cached had read that part |
| Freshness.LoadInFlightHidesTheWrite | backend/app/features/agent/context.py:40-78 | a load that read before the write and finishes after the invalidation hides it |
| Freshness.ResetBeforeWriteCanHideIt | backend/app/core/features.py:140-168 | invalidating before the write lets a lookup in between hide the write from the next one |
| Snapshots.SnapshotCache.LoadSnapshot | backend/app/features/agent/context.py:53-78 | a hit, a miss and a forced refresh as the TTL map of `TtlCache` has them, with the stamp of the lookup |
| Snapshots.SnapshotCache.Invalidate | backend/app/features/agent/context.py:40-50 | drops one tenant's snapshot or all |
| Snapshots.SnapshotCache.EvictIfFull | backend/app/features/agent/context.py:70-76 | the in-place sweep and clear are the eviction of `TtlCache` |
| Features.Precedence | backend/app/core/features.py:109-126 | for every key of the catalog and no other, the tenant's row wins over the global row and that over the default, whatever order the rows come in |
| Features.ResolvedTells | backend/app/core/features.py:96-126 | in terms of the rows: the tenant's own setting, failing that the global one, failing that "on" without a note |
| Features.FeatureStates.ResolveStates | backend/app/core/features.py:96-130 | a fresh entry is answered, otherwise what the rows tell by that precedence, cached with the stamp of the lookup |
| Features.FeatureStates.SetState | backend/app/core/features.py:140-168 | the cache is empty, the row for that key and owner has the setting, and every other key and owner is as before |
| Cost.Session.SaveMessage | backend/app/features/agent/chat.py:406-430 | every earlier row and the message are kept; it has cents exactly when it used tokens, the model is priced and the accounting succeeds, and they bring the session's sum up to the rounded cost of all its tokens, never down |
| Cost.RowsSumToPeak | backend/app/features/agent/chat.py:369-403 | over any turns, prices and failures the stored cents sum to the running maximum of the rounded cumulative cost |
| Cost.RoundIsNearest | backend/app/features/agent/chat.py:369-403 | rounding is to the nearest cent, ties to the even one |
| Cost.OneModelIsExact | backend/app/features/agent/chat.py:369-403 | with one priced model the sum is the rounded exact cost up to the last accounted turn, so a failed turn is made up by the next success |
| Cost.HalfACent | backend/app/features/agent/pricing.py:40-57 | the session is then charged within half a cent of its exact cost and `max` clips nothing |
| Cost.LagBound | backend/app/features/agent/chat.py:369-403 | at one price, with failed turns made up for, the stored cents are at most half a cent off the sum of what each turn cost |
| Cost.ClippedExactly | backend/app/features/agent/chat.py:402-403 | after an accounted turn, at any prices before, the stored cents are the rounded cost of the session at the turn's price if and only if no more was stored before |
| Cost.SkewIsInherited | backend/app/features/agent/chat.py:397-403 | what repricing the session is off by does not depend on the turn itself, only on the use and the prices before it |
| Cost.ChargedAfter | backend/app/features/agent/chat.py:397-403 | an accounted turn leaves the session charged the larger of what was stored and its repriced cost, which is its true cost plus what the earlier price switches put it off by |
| Cost.SettledCharges | backend/app/features/agent/chat.py:406-430 | messages whose accounting fails, or that have no tokens or no price, charge nothing |
| Cost.PeakIsLargest | backend/app/features/agent/chat.py:369-403 | what a session is charged is the largest repriced cost at any of its accounted turns |
| Cost.ChargedExactly | backend/app/features/agent/chat.py:369-403 | over any session: charged the rounded sum of what each turn cost at its own price if and only if no accounted turn's repriced cost is above that and, unless it is nothing, one of them equals it |
| Cost.WithinOneCentExactly | backend/app/features/agent/chat.py:380-381 | over any session: at most a cent too much if and only if no accounted turn's repriced cost is more than a cent above the true cost; at most a cent too little if and only if the true cost is at most a cent or one of them is no more than a cent below it |
| Cost.FailedTurnUndercharges | backend/app/features/agent/chat.py:406-430 | one turn whose accounting fails leaves a session of 138 cents charged nothing |
| Cost.SwitchingModelsUndercharges | backend/app/features/agent/chat.py:369-403 | 59 cents are charged for 67 cents of use after a switch to a cheaper model |
| Cost.SwitchingModelsOvercharges | backend/app/features/agent/chat.py:369-403 | 59 cents are charged for 5 cents of use after a single token of a dearer one |
| Budget.SpendCache.SpentToday | backend/app/features/agent/budget.py:77-91 | a fresh entry of today is answered, and anything else, a seeded entry included, is fetched and stored |
| Budget.SpendCache.RecordSpend | backend/app/features/agent/budget.py:94-114 | adds to an entry of the day, which stays as fresh as it was, or seeds one that never lasts; other tenants and amounts that are not positive change nothing |
| Budget.SpendCache.CheckBudget | backend/app/features/agent/budget.py:117-134 | without a positive budget every turn goes on and nothing is touched; with one, a turn goes on if and only if the figure, a lasting entry's or else the fetched rows' sum, is below it |
| Budget.CachedFigure | backend/app/features/agent/budget.py:77-114 | a figure answered from the cache is the last total fetched for that day plus every positive amount recorded since |
| Budget.TurnExact | backend/app/features/agent/budget.py:77-134 | while one fetch holds the day, at any prices and with failed accounting: a turn goes on if and only if the stored total, plus what the rows have fallen behind the true cost since the last fetch, is below the cap; and every turn keeps the cached figure at that |
| Budget.TurnTotals | backend/app/features/agent/chat.py:242-259 | a turn that is let through moves the true cost of its session, and what is stored plus what the rows are behind, by its exact cost |
| Budget.MisledExactly | backend/app/features/agent/budget.py:117-134 | a turn that the stored total forbids goes on if and only if the rows have caught up since the last fetch by more than they are over the cap, and one that it allows is refused if and only if they have fallen behind by what is left; and the same against the true cost of the day |
| Budget.FetchedCheckIsRight | backend/app/features/agent/budget.py:77-134 | a check that fetches decides as the stored total does |
| Budget.SubCentTurnDrifts | backend/app/features/agent/chat.py:242-259 | after one turn of 0.059 cents the figure holds it and the store holds nothing |
| Budget.FigureIsClose | backend/app/features/agent/budget.py:77-114 | on a day of one price with accounting that succeeds, the figure is never more than a cent for each session off the stored total |
| Budget.DayEndsBelowCap | backend/app/features/agent/budget.py:117-134 | such a day of sequential turns ends below the cap plus one turn's cost plus one cent for each session, in what is stored and in what it truly cost |
| Budget.AnswerTells | backend/app/features/agent/budget.py:59-74 | an answer to the unordered, limited query never tells more than the day, and tells all of it if and only if every row it leaves out costs nothing |
| Budget.FetchExact | backend/app/features/agent/budget.py:59-74 | the fetch can be relied on, whichever rows it gets, if and only if the day fits in one answer or every row costs nothing |
| Budget.LongDaysPassTheCap | backend/app/features/agent/budget.py:59-74 | with one row too many, an answer may leave out the row that passed the cap, and a check on a cold cache then lets the turn through |
| Phone.DialsTheSame | backend/app/core/phone.py:22-54 | wherever `to_e164` answers, the answer is a fixed point of it and has the match key of the original spelling |
| Phone.UsualSpellings | backend/app/core/phone.py:22-39 | any line of nine digits, or of eight without the 9, dials one number with or without the country code, the exit prefix and a plus sign; only bare digits that begin with 00 dial none |
| Phone.ShortAndLong | backend/app/core/phone.py:22-39 | fewer than eight digits dial nothing, and more than nine with nothing to strip dial their last nine |
| Phone.KeyIsLastEight | backend/app/core/phone.py:42-54 | the match key is the last eight of all the digits written, or all of fewer, and none without a digit |
| Phone.SameNumberExact | backend/app/core/phone.py:42-61 | two dialable spellings match if and only if what they dial agrees after the first national digit |
| Phone.SameNumberMeans | backend/app/core/phone.py:57-61 | any two texts match if and only if both have a digit and their last eight digits agree |
| Phone.SameNumberEquivalence | backend/app/core/phone.py:42-61 | matching is an equivalence on texts with a digit |

## Left out

- The dictionary from provider and model to limiter state (`_state_for`), where a model without limits is never
  limited and unknown ones record nothing: one model's state is modelled.
- The text of provider headers: each counter is taken after parsing, as an optional integer. An empty set of headers
  counts as none, as in the source.
- Floating point: time is in integer ticks and money is exact, so rounding in the last place is not captured.
- Threads: each locked region, and `record_response`, which takes no lock, is one atomic step with its clock read
  inside; a fetch of the spend total and its store are one step too.
- SHA-256 of tokens: a token stands for its own key.
- Two routes that share one request window with different lengths or limits: `RequestWindow.Window.Check` is for a
  fixed limit of at least one and a fixed window.
- Row-level foreign keys and cascades in the reset script: a reference is between tables and stands for some row.
- Non-ASCII digits, letters and hyphens in RUTs and phone numbers; a text left empty by stripping is the error it is
  in the source.
- Other users in the identity protocol: they can only make a cache drop this user's entry, which it may at any time.
  The membership reads of a request's profile are part of `Freshness`, not of `Identity`.
- Explicit clients and schema overrides, role checks after resolution, and the values in the price and limit tables.
- The server's own limit on rows (`db-max-rows`): the query for the rows of a session has no limit and is taken to
  return them all, and the one for the day is taken to be cut at its 5000 only, though the server may cut both below.
- Concurrent turns: the rows a turn of a session reads, and the figure a check compares, are those the turns before
  it left. A change of day during a turn is left out too.
- Supabase, PostgREST, HTTP, logging, the language model and everything else of the repository that only moves data.

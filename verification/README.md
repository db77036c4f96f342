# Verified model of the Content Signal SEO plugin, monitoring and report code

A Dafny 4.11 model of the parts of the repository whose promises are about whole runs, with proofs of them.
`dafny verify dfyconfig.toml` checks everything.

- **Safe SEO operations** (`Robots`, `RobotReaders`, `SeoMeta`, `SafeOperations`, `Cleaning`, `Rollback`,
  `RollbackWitness`, `RobotWords`, `ExternalIds`, `ItemOutcome`): batches of edits over a post-meta store in which
  Yoast has a key per field and Rank Math packs both robots flags into one list. The main results are which items
  complete, for which post, and when sending the captured values back undoes a batch.
- **Local audits** (`AuditModel`, `Inspection`, `AuditSummary`, `AuditComparison`, `ErrorText`,
  `AuditStore`, `AuditInvariant`, `RuleTable`, `AuditRun`, `AuditHistory`, `AgreementWitness`, `BalanceWitness`):
  inspection, counters, the comparison with the audit before, the table of ignored findings, and histories of runs
  and rule changes over all of them.
- **Link graph** (`UrlPath`, `NormalForm`, `PercentDecoding`, `LinkGraph`, `LinkResolution`, `InDegree`,
  `PluginGraph`): the path arithmetic against RFC 3986, when its results are normal, and the inbound counts
  against the graph.
- **Rate limiter** (`RateLimit`), **paginated sync** (`Collector`, `Sync`, `SyncCoverage`, `SyncRepetition`,
  `SyncDelivery`), **change monitoring** (`Diff`, `EventKinds`, `ChangeLog`, `Traffic`, `SignalValues`,
  `Regression`, `StepDetection`, `CandidateRules`, `TrackingCandidate`),
  **version-event log** (`SystemEvents`, `ToldChanges`, `VersionLog`, `VersionRuns`), **report printers** (`ReportHeader`, `Csv`,
  `Html`).
- `Prelude`, `Text` and `Sorting` hold what they share.

Code that changes state is modelled by classes and loops, each proved against a function of the old state; the
lemmas are about those functions. Library calls are parameters: `wp_strip_all_tags`, URL validation, `esc_url_raw`
(`Env`), `wp_parse_url` (`Parser`), the engine's URL comparison, the clock, the inventory each batch sees. SHA-256
is taken to determine its input, and `HashInputsDiffer` shows the input determines external id and code. Of
`wp_strip_all_tags` it is asked that it only deletes characters (`OnlyDeletes`); cleaning need not be idempotent, and
nothing is asked of `esc_url_raw`.

## What the proofs brought to light

- A rate-limit window admits at most 2 * max(1, maxRequests) - 1 calls of a key, one fewer than the window
  arithmetic suggests, and this is tight.
- A rollback needs no exception for bare boolean words in a Rank Math list; it does for texts the cap cuts after
  a space and for stored canonicals that are not http(s).
- An audit run that a post is added to behind its offset can audit another post twice and store its findings
  twice. Counters, rule table and flags stay right, but the next run does not balance: its active findings are not
  those before plus the new minus the resolved ones.
- Restoring a finding that was not ignored relabels it from new to unchanged.
- Rules dropped from a full table leave their flags behind in the stored audit until the next run. When 500 rules
  are not older than the clock, a new rule is dropped at once.
- Two posts with one URL key (for instance with and without `www.`) leave the earlier one an orphan; every other
  count stays right.
- Escaped dot segments (`%2e%2e`) become dot segments after decoding and are not removed, and `%2525` decodes once
  more at every normalisation. `/a%20b` and even `/a%2Fb` give fixed points.
- A link target such as `?page=2` is resolved against the directory of the post instead of the post itself, so it
  is counted for another page unless the path of the post ends in a slash.
- A backslash in the directory of a post can send its relative links elsewhere.
- A row deleted behind the offset during a sync hides the row that moves past the boundary; a row inserted there
  brings a row back to be read twice. Deletions and edits never repeat one.
- A robots scalar with NUL characters inside is read differently by the collector and the endpoint.
- A site name with a bare carriage return is printed unquoted, and one with a tab or an umlaut is printed as it is;
  the grammar of RFC 4180 has neither.
- A batch size above 250 skips rows in a sync, one below 1 reads the first row again and again.
- Installed themes are stored but never told; nothing is told while disconnected, and what is missed then comes
  back only when the plugin changes again or returns to the version last told.
- An unknown HTTP status between a success and an error hides the critical event.

## Model

| member | source | states |
|---|---|---|
| `Rollback.RollbackRestoresExactly` | wordpress-plugin/includes/SafeOperationEndpoint.php:121-137 | After any batch (a post any number of times, fields mixed, null values, both plugins), sending the captured values of the completed results back in reverse order completes every item and makes every post read as before the batch, exactly when every captured canonical is acceptable and every written pair of post and plugin had restorable values; bare boolean words in the Rank Math list need no exception. Asked of the library: stripping tags only deletes characters |
| `Rollback.RollbackRestoresBatch` | wordpress-plugin/includes/SafeOperationEndpoint.php:121-137 | When what escaping makes of every canonical the batch sends reads back acceptable, it does so exactly when every written pair had restorable values |
| `Rollback.RollbackCompletes` | wordpress-plugin/includes/SafeOperationEndpoint.php:208-277 | A rollback completes every item exactly when every captured canonical is acceptable: a text that was read is never refused |
| `Rollback.RestoresExactly` | wordpress-plugin/includes/SafeOperationEndpoint.php:208-277 | One captured value sent back is accepted and read again exactly when title and description are their own cleaned form and the canonical is accepted and reads the same after escaping, whatever was written in between |
| `Rollback.UntargetedUnchanged` | wordpress-plugin/includes/SafeOperationEndpoint.php:208-277 | A post and plugin that no completed result names reads as before the batch: failed items write nothing |
| `Rollback.ItemKeepsRestorable` | wordpress-plugin/includes/SafeOperationEndpoint.php:297-361 | What an item writes can be put back later, when cleaning and escaping the values it sends once more changes nothing |
| `Rollback.RollbackKeepsOtherTokens` | wordpress-plugin/includes/SafeOperationEndpoint.php:456-477 | Neither a batch nor its rollback changes a robots token other than the four directive words, on any post |
| `Rollback.TextRestores` | wordpress-plugin/includes/SafeOperationEndpoint.php:587-610 | A text that was read is accepted and read back the same exactly when it is its own cleaned form |
| `Cleaning.CleanedTwice` | wordpress-plugin/includes/SafeOperationEndpoint.php:644-662 | Cleaning a text twice gives it back exactly when cleaning it once does |
| `Cleaning.RunBecomesSpace` | wordpress-plugin/includes/SafeOperationEndpoint.php:644-662 | Cleaning makes one space of every run of white space and keeps everything else |
| `Rollback.UrlRestores` | wordpress-plugin/includes/SafeOperationEndpoint.php:612-642 | A canonical sent back is accepted exactly when it is valid, http(s) and short enough, and, when its escaped form is trimmed and within the cap, read back the same exactly when escaping also leaves it alone |
| `Rollback.SettledWithinCap` | wordpress-plugin/includes/SafeOperationEndpoint.php:644-662 | A stored text that one cleaning settles is restorable when its cleaned form fits the cap; a longer one, no tag being left in the part the cap keeps, exactly when that part does not end in a character that trim strips |
| `Rollback.CutAfterSpaceIsLost` | wordpress-plugin/includes/SafeOperationEndpoint.php:644-662 | A text the cap cuts right after a space is never restored |
| `RollbackWitness.FtpCanonicalIsLost` | wordpress-plugin/includes/SafeOperationEndpoint.php:664-680 | At a named site with the ftp canonical "ftp://a" stored on post 7, one item that only sets noindex completes, and sending its captured values back is refused |
| `RollbackWitness.CutTitleIsLost` | wordpress-plugin/includes/SafeOperationEndpoint.php:644-662 | The same site with a stored title of 511 letters, a space and one more letter: an item that only sets noindex and its rollback both complete, and the title is not brought back |
| `RollbackWitness.DeletingTagsOnlyDeletes` | wordpress-plugin/includes/SafeOperationEndpoint.php:644-662 | What the rollback theorem asks of wp_strip_all_tags is met by a function that deletes every closed tag |
| `SafeOperations.SafeOperationEndpoint.HandleApply` | wordpress-plugin/includes/SafeOperationEndpoint.php:113-143 | The item loop gives the results and the store of applying the items in order; 0 or more than 100 items are refused and change nothing |
| `SafeOperations.SafeOperationEndpoint.ApplyItem` | wordpress-plugin/includes/SafeOperationEndpoint.php:208-277 | One item: its checks one after the other, the values read before and after it, and the store it leaves |
| `SafeOperations.SafeOperationEndpoint.CheckAfterValue` | wordpress-plugin/includes/SafeOperationEndpoint.php:297-361 | The fields of an item are checked in order, and the first one that does not fit is named |
| `SafeOperations.SafeOperationEndpoint.ResolvePlugin` | wordpress-plugin/includes/SafeOperationEndpoint.php:363-385 | The loops over the meta keys find the plugin with a stored value, Yoast first |
| `ItemOutcome.CompletesExactly` | wordpress-plugin/includes/SafeOperationEndpoint.php:208-277 | An item completes exactly when it says an item id of at most 128 characters, names a post by its type and number, holds no other fields than those supported, at least one of them, texts whose cleaned form fits 512 and 1024 characters, a blank or valid http(s) canonical of at most 2048, flags that are null or boolean, and is for a plugin |
| `ItemOutcome.ChosenPlugin` | wordpress-plugin/includes/SafeOperationEndpoint.php:363-385 | That is the plugin it names, else the first of Yoast and Rank Math with something other than blanks stored on the post |
| `ItemOutcome.TextsAsSent` | wordpress-plugin/includes/SafeOperationEndpoint.php:390-454 | After a completed item title, description and canonical read as its null or its cleaned or escaped text, and those not named as before |
| `ItemOutcome.YoastFlagsAsSent` | wordpress-plugin/includes/SafeOperationEndpoint.php:434-448 | With Yoast the robots flags read as sent, null clearing them |
| `ExternalIds.ParsesExactly` | wordpress-plugin/includes/SafeOperationEndpoint.php:282-291 | A text is read as an external id exactly when it is a type name, a colon and a positive number without leading zeros, which is the id, cut off at the largest 64-bit integer |
| `ExternalIds.ItemStaysWithItsPost` | wordpress-plugin/includes/SafeOperationEndpoint.php:208-277 | An item with the external id the collector gives a post changes the meta of no other post, none at all when it fails, and completes only when the post has that type |
| `SafeOperations.FailedAreCounted` | wordpress-plugin/includes/SafeOperationEndpoint.php:119-125 | The failed count is the number of failed results |
| `SafeOperations.SafeOperationEndpoint.WriteSeoValues` | wordpress-plugin/includes/SafeOperationEndpoint.php:417-454 | The writes for both plugins leave exactly the specified store |
| `SafeOperations.SafeOperationEndpoint.WriteRankMathRobots` | wordpress-plugin/includes/SafeOperationEndpoint.php:456-477 | The shared robots list is read, changed by the named directives and stored, or deleted when nothing is left |
| `SeoMeta.OtherPairsUnchanged` | wordpress-plugin/includes/SafeOperationEndpoint.php:417-454 | A write for one post and plugin leaves the reading of every other pair alone |
| `SeoMeta.CanonicalAfterWrite` | wordpress-plugin/includes/SafeOperationEndpoint.php:390-415 | A written canonical reads back as its sanitized self, an unnamed one keeps its reading |
| `SeoMeta.YoastFlagReadsBack` | wordpress-plugin/includes/SafeOperationEndpoint.php:417-454 | A flag written to its own Yoast key is the flag read |
| `SeoMeta.RankMathTokensAfterWrite` | wordpress-plugin/includes/SafeOperationEndpoint.php:456-477 | The tokens read after a Rank Math write are those the write computed, and what deletion leaves reads as no token |
| `SeoMeta.OtherTokensUnchanged` | wordpress-plugin/includes/SafeOperationEndpoint.php:456-494 | No write for either plugin changes the unrelated tokens of any post |
| `Robots.WrittenFlagReadsBack` | wordpress-plugin/includes/SafeOperationEndpoint.php:479-494 | A written directive reads back exactly, except when clearing it leaves one bare boolean word alone; an if-and-only-if for every list |
| `Robots.OtherFlagUnchanged` | wordpress-plugin/includes/SafeOperationEndpoint.php:479-494 | The other flag keeps its reading exactly when the write neither adds to one lone bare word nor leaves one alone |
| `Robots.WriteKeepsUnrelated` | wordpress-plugin/includes/SafeOperationEndpoint.php:479-494 | A directive write adds, drops and moves no token outside the four directive words |
| `Robots.SetDirectiveAppends` | wordpress-plugin/includes/SafeOperationEndpoint.php:479-494 | The other tokens stay in order without duplicates and at most the word of the directive is appended |
| `Robots.BothFlagsReadBack` | wordpress-plugin/includes/SafeOperationEndpoint.php:456-477 | After both directives are written both flags read as written, exactly unless both were cleared and one bare boolean word is all that is left |
| `Robots.FlagsRestored` | wordpress-plugin/includes/SafeOperationEndpoint.php:456-477 | Writing back both readings of an earlier list restores both, bare words included |
| `Robots.StoredTokensReadBack` | wordpress-plugin/includes/SafeOperationEndpoint.php:526-550 | Distinct plain words survive being stored and read again, in order |
| `Robots.CollectRobotTokens` | wordpress-plugin/includes/SafeOperationEndpoint.php:526-550 | The token loop computes the cleaned, plain, distinct tokens |
| `RobotWords.WordsSplit` | wordpress-plugin/includes/SafeOperationEndpoint.php:526-534 | A scalar falls into words at every white-space character and comma, and nowhere else |
| `RobotWords.TokensRead` | wordpress-plugin/includes/SafeOperationEndpoint.php:526-550 | The tokens are the words or list entries, trimmed and in lower case, that consist of letters, digits, underscores and hyphens |
| `Text.LowerLetters` | wordpress-plugin/includes/SafeOperationEndpoint.php:544 | Lower case changes the ASCII capitals only, each to its small letter |
| `RobotWords.NoindexRead` | wordpress-plugin/includes/SafeOperationEndpoint.php:552-582 | Noindex reads true exactly when a token says so or the only token is 1, true, yes or on; false exactly when not and a token says index or the only one is 0, 2, false, no or off |
| `RobotWords.NofollowRead` | wordpress-plugin/includes/SafeOperationEndpoint.php:552-582 | The same for nofollow and follow |
| `RobotReaders.ReadersAgree` | wordpress-plugin/includes/ContentCollector.php:508-561 | For every stored value the sync collector and the apply endpoint read the same two flags exactly when a bare boolean word that is all the endpoint keeps is all the collector has, too, and no directive word shows only once the characters around it are trimmed (the collector splits on NUL nowhere and trims it only at the ends) |
| `RobotReaders.RepeatedBareWordDiffers` | wordpress-plugin/includes/ContentCollector.php:508-561 | The scalar "1,1" is read as no flag by the collector and as noindex by the endpoint |
| `RobotReaders.NulHidesWord` | wordpress-plugin/includes/ContentCollector.php:508-561 | The scalar "noindex", NUL, ",follow" is read as no noindex flag by the collector and as noindex by the endpoint |
| `RobotReaders.DistinctPlainWordsAgree` | wordpress-plugin/includes/ContentCollector.php:508-561 | Every stored value whose collector tokens are distinct plain words is the same token list to both |
| `AuditHistory.FromTheStart` | wordpress-plugin/includes/AdminPage.php:193-208 | From no audit and any stored rules, every sequence of queuing, runs, failures and rule changes keeps the counters those of the items and the table valid, whatever inventories the runs see; flags and table agree at the end of every sequence that adds no rule to a full table |
| `AuditHistory.RunIsAllowed` | wordpress-plugin/includes/LocalAuditRunner.php:81-108 | A run in which no post comes back to a later batch reads no post twice |
| `AuditHistory.GrowingRunIsAllowed` | wordpress-plugin/includes/LocalAuditRunner.php:81-108 | So does one in which posts are only edited or appended |
| `AuditHistory.ShrinkingRunIsAllowed` | wordpress-plugin/includes/LocalAuditRunner.php:81-108 | And one in which posts are only edited or taken away |
| `AuditHistory.HistoryKeeps` | wordpress-plugin/includes/LocalAuditStore.php:41-154 | Counters, labels and rule table are coherent in every state any history reaches, whatever inventories its runs see |
| `AuditHistory.ToggleAgreement` | wordpress-plugin/includes/LocalAuditRunner.php:227-242 | A rule change keeps flags and table in agreement exactly when no rule it drops from the table is about a finding of the stored audit, in which findings may repeat |
| `AgreementWitness.LosesAgreement` | wordpress-plugin/includes/LocalAuditSettings.php:45-61 | A newer rule added to a full table in agreement keeps the agreement exactly when the oldest rule is about no finding of the stored audit |
| `AgreementWitness.AgreementIsLost` | wordpress-plugin/includes/LocalAuditSettings.php:45-61 | A coherent state in agreement with 500 rules, the oldest about a stored finding, loses agreement by one more rule |
| `AuditHistory.HistoryAgrees` | wordpress-plugin/includes/LocalAuditSettings.php:45-61 | Flags and table agree throughout every history that stays within the table, whatever its runs read |
| `AuditHistory.RunAgrees` | wordpress-plugin/includes/LocalAuditRunner.php:227-242 | After a run exactly the findings with a rule are flagged, whatever was stored before |
| `AuditHistory.RunBalance` | wordpress-plugin/includes/LocalAuditStore.php:63-87 | For every run in every state: active findings after are those before plus new minus resolved exactly when as many fingerprints repeat among those active before as among those of them that are active again |
| `AuditHistory.ReadOnceBalance` | wordpress-plugin/includes/LocalAuditStore.php:63-87 | For a run that reads no post twice: exactly when no two findings active before have the same fingerprint |
| `AuditHistory.HistoryKeepsPrintsOnce` | wordpress-plugin/includes/LocalAuditRunner.php:79-118 | As long as no run reads a post twice, no two stored findings have the same fingerprint, through every queuing, run, failure and rule change |
| `AuditHistory.HistoryBalances` | wordpress-plugin/includes/LocalAuditStore.php:63-87 | Every run of such a history balances |
| `BalanceWitness.RepeatedPostUnbalances` | wordpress-plugin/includes/LocalAuditRunner.php:81-108 | A post comes in before another one after the first batch of one: the run stores the active findings of the other twice, and no following run that reads no post twice balances |
| `AuditHistory.RunPrintsOnce` | wordpress-plugin/includes/LocalAuditRunner.php:79-118 | When the posts a run reads have different ids, all its findings have different fingerprints, derived from the ids, the inspection and the link graph |
| `AuditInvariant.CompleteKeeps` | wordpress-plugin/includes/LocalAuditStore.php:63-87 | Completing gives a coherent audit, whatever was stored before, keeps all fingerprints, and counts new plus unchanged as the issues |
| `AuditInvariant.CompletedBalance` | wordpress-plugin/includes/LocalAuditStore.php:63-87 | The stored active findings balance exactly when as many fingerprints repeat among those before as among those of them met again; for items without repeats exactly when there were none before |
| `AuditInvariant.StartKeepsBaseline` | wordpress-plugin/includes/LocalAuditStore.php:41-57 | Queuing changes neither the findings nor the counters that stay as the baseline |
| `AuditInvariant.MarkKeeps` | wordpress-plugin/includes/LocalAuditStore.php:107-154 | Ignoring and restoring any fingerprint keeps the audit coherent |
| `AuditInvariant.MarkedPrints` | wordpress-plugin/includes/LocalAuditStore.php:107-154 | Ignoring and restoring change no fingerprint |
| `AuditInvariant.CountersAgree` | wordpress-plugin/includes/LocalAuditStore.php:107-154 | In a coherent audit new plus unchanged are the issues, affected plus complete the URLs, issues plus ignored all findings, and the severities add up to the issues |
| `AuditInvariant.IgnoreIsIdempotent` | wordpress-plugin/includes/LocalAuditStore.php:107-154 | Ignoring a fingerprint twice is ignoring it once, in any audit |
| `AuditInvariant.IgnoreThenRestore` | wordpress-plugin/includes/LocalAuditStore.php:107-154 | In a coherent audit, fingerprints repeated or not, ignoring and then restoring gives items, summary and changes back exactly when all matching findings were active |
| `AuditInvariant.RestoreAlone` | wordpress-plugin/includes/LocalAuditStore.php:132-138 | Restoring changes nothing exactly when all matching findings are active and unchanged: an active new finding is relabelled |
| `AgreementWitness.RestoringRelabels` | wordpress-plugin/includes/LocalAuditStore.php:132-138 | A coherent audit with one new finding: restoring that finding makes it unchanged |
| `AuditComparison.BalanceExactly` | wordpress-plugin/includes/LocalAuditStore.php:246-301 | For any two audits: active after = active before + new - resolved exactly when as many fingerprints repeat among those active before as among those of them met again |
| `AuditComparison.ComparisonBalance` | wordpress-plugin/includes/LocalAuditStore.php:246-301 | Against items without repeated active fingerprints: exactly when none repeats among the active ones before |
| `AuditComparison.NewOrUnchanged` | wordpress-plugin/includes/LocalAuditStore.php:246-301 | Every active finding is counted as new or as unchanged, for any two audits |
| `AuditComparison.CompareFindings` | wordpress-plugin/includes/LocalAuditStore.php:246-301 | The loops label every finding against the previous fingerprints and count new, unchanged and resolved ones |
| `AuditComparison.ResolvedListed` | wordpress-plugin/includes/LocalAuditStore.php:246-301 | At most 100 resolved findings are listed, all of them up to that number, each active before and not any more |
| `AuditComparison.CollectEntries` | wordpress-plugin/includes/LocalAuditStore.php:309-334 | The finding map holds the active findings by fingerprint, keys in order of first occurrence |
| `AuditComparison.MapKeysDistinct` | wordpress-plugin/includes/LocalAuditStore.php:309-334 | Its keys are the distinct fingerprints, each once |
| `AuditStore.LocalAuditStore.Start` | wordpress-plugin/includes/LocalAuditStore.php:41-57 | Start stores a queued audit with the old results |
| `AuditStore.LocalAuditStore.Complete` | wordpress-plugin/includes/LocalAuditStore.php:63-87 | Complete stores the labelled items, the counters and the changes |
| `AuditStore.LocalAuditStore.Fail` | wordpress-plugin/includes/LocalAuditStore.php:89-105 | Fail stores empty results and the sanitised message |
| `ErrorText.ErrorIsPlain` | wordpress-plugin/includes/LocalAuditStore.php:371-377 | Whatever the message, the stored text has 1 to 160 characters, all of the allowed ones, and starts with none that trim strips |
| `ErrorText.UrlsAreRedacted` | wordpress-plugin/includes/LocalAuditStore.php:371-377 | Whatever stands around a URL in the message, two messages that differ only in what follows its scheme up to the next space are stored alike: no path, query or token of a URL reaches the option |
| `ErrorText.PlainMessageStored` | wordpress-plugin/includes/LocalAuditStore.php:371-392 | Of a message of plain characters without URLs the first 160, trimmed, are stored; of a blank one a fixed text |
| `ErrorText.OnlyPlainStored` | wordpress-plugin/includes/LocalAuditStore.php:371-392 | Of any message at most 160 characters are stored, all of them plain |
| `ErrorText.UrlReplaced` | wordpress-plugin/includes/LocalAuditStore.php:371-392 | A URL is replaced up to the next space |
| `AuditStore.LocalAuditStore.SetIgnored` | wordpress-plugin/includes/LocalAuditStore.php:107-154 | The loops over items and findings mark every match in place and recount |
| `AuditStore.CountChange` | wordpress-plugin/includes/LocalAuditStore.php:353-369 | The loops count the findings with a change that are not ignored |
| `AuditSummary.Summarize` | wordpress-plugin/includes/LocalAuditEngine.php:117-160 | The nested loops compute the counts of affected, complete, active, ignored and per-severity findings |
| `AuditSummary.CountersAddUp` | wordpress-plugin/includes/LocalAuditEngine.php:117-160 | Affected plus complete is the number of URLs, issues plus ignored all findings, the severities the issues |
| `AuditModel.Inspect` | wordpress-plugin/includes/LocalAuditEngine.php:26-111 | The checks in order report the detected codes |
| `Inspection.MetadataReported` | wordpress-plugin/includes/LocalAuditEngine.php:33-70 | A published post is reported noindex when it is, without SEO title or description exactly when these are blank, and with another canonical exactly when it has one that differs |
| `Inspection.ContentReported` | wordpress-plugin/includes/LocalAuditEngine.php:72-108 | It is reported thin below 300 known words, without internal links at none known, and stale from 181 days on |
| `Inspection.SeveritiesReported` | wordpress-plugin/includes/LocalAuditEngine.php:36-107 | Noindex is critical, the other metadata codes are warnings, thin content and missing links opportunities, stale content maintenance; no finding carries a label yet |
| `AuditModel.InspectedCodesDistinct` | wordpress-plugin/includes/LocalAuditEngine.php:26-111 | Inspection reports every code at most once and never a link code |
| `AuditModel.HashInputsDiffer` | wordpress-plugin/includes/LocalAuditSettings.php:67-69 | Two hashed texts are equal exactly when the trimmed external ids and the codes are, bars in the id notwithstanding |
| `Inspection.HashedText` | wordpress-plugin/includes/LocalAuditSettings.php:67-69 | The hashed text is the trimmed external id, a bar and the name of the code |
| `AuditRun.LocalAuditRunner.Run` | wordpress-plugin/includes/LocalAuditRunner.php:79-118 | A run stores what inspecting, analysing, applying the rules and completing give, or the failure |
| `AuditRun.CollectItems` | wordpress-plugin/includes/LocalAuditRunner.php:81-108 | The batch loop inspects the published posts of all pages a run reads |
| `AuditRun.ApplyIgnoredRules` | wordpress-plugin/includes/LocalAuditRunner.php:227-242 | The loop sets every flag to whether the table has the fingerprint |
| `AuditRun.LocalAuditRunner.HandleFindingRule` | wordpress-plugin/includes/AdminPage.php:193-208 | Table and stored audit change together |
| `RuleTable.NormalizedIsTable` | wordpress-plugin/includes/LocalAuditSettings.php:82-94 | Whatever the option holds, reading it gives at most 500 well-formed rules, newest first, and leaves out none newer than one it keeps |
| `RuleTable.TableReadsBack` | wordpress-plugin/includes/LocalAuditSettings.php:82-94 | Saving a table and reading it gives it back |
| `RuleTable.ChangedIsTable` | wordpress-plugin/includes/LocalAuditSettings.php:45-61 | Every change keeps the table bounded, sorted, valid and without repeated fingerprints |
| `RuleTable.EvictsOldest` | wordpress-plugin/includes/LocalAuditSettings.php:45-61 | No change drops a rule newer than one it keeps |
| `RuleTable.WhatIsEvicted` | wordpress-plugin/includes/LocalAuditSettings.php:45-61 | A rule is dropped exactly when one is added to a full table: the oldest, or the new one itself when none is older |
| `RuleTable.ChangedKeys` | wordpress-plugin/includes/LocalAuditSettings.php:45-61 | Which fingerprints a change leaves in the table |
| `RuleTable.LocalAuditSettings.Get` | wordpress-plugin/includes/LocalAuditSettings.php:82-94 | The loop keeps the well-formed rules, which are sorted and bounded |
| `RuleTable.RuleRead` | wordpress-plugin/includes/LocalAuditSettings.php:82-94 | A digest is read with its time, or 0 when that is negative or no number; other keys are left out |
| `RuleTable.LocalAuditSettings.SetIgnored` | wordpress-plugin/includes/LocalAuditSettings.php:45-61 | The stored option after a change; a key that is no digest changes nothing |
| `LinkGraph.Analyze` | wordpress-plugin/includes/LocalLinkGraph.php:22-84 | The index, the link loops and the annotation give every post the number of posts that link to it and its link finding |
| `LinkGraph.LinkFindingsSay` | wordpress-plugin/includes/LocalLinkGraph.php:52-84 | A post without inbound links gets the orphan warning, one with a single link the weak-link opportunity, others nothing |
| `LinkGraph.AddLinks` | wordpress-plugin/includes/LocalLinkGraph.php:41-57 | The inner loop adds a post to the sources of exactly the posts its targets lead to, itself excepted |
| `LinkGraph.IndexIsLast` | wordpress-plugin/includes/LocalLinkGraph.php:26-33 | A key leads to the last post that has it |
| `InDegree.CountsAreInDegrees` | wordpress-plugin/includes/LocalLinkGraph.php:22-84 | Whatever keys collide, the count of a post is its in-degree in the graph of posts when no later post has its key and 0 otherwise, and an orphan or weak-link finding is added exactly at 0 or 1 |
| `InDegree.CountIsRight` | wordpress-plugin/includes/LocalLinkGraph.php:22-84 | The count of a post is its in-degree exactly when no later post has its key or nothing links to it |
| `PluginGraph.PluginCounts` | wordpress-plugin/includes/LocalLinkGraph.php:86-153 | The same with the URL normalisation of the plugin |
| `PluginGraph.PluginLink` | wordpress-plugin/includes/LocalLinkGraph.php:86-124 | For parsed URLs and targets that are absolute, take their scheme from the post ("//host/path") or are references: a post links to another exactly when one of its targets leads to the host (any case, with or without www), port and normalised path of the other; schemes, queries and fragments never matter |
| `PluginGraph.PluginOwner` | wordpress-plugin/includes/LocalLinkGraph.php:26-33 | A post owns its key exactly when no later post has its host, port and normalised path |
| `PluginGraph.KeyOfParts` | wordpress-plugin/includes/LocalLinkGraph.php:126-153 | A URL has no key exactly when it has no host or the host 0; without a path its key is that of the root |
| `PluginGraph.TargetsToNowhere` | wordpress-plugin/includes/LocalLinkGraph.php:86-91 | Blank targets and fragments lead nowhere |
| `PluginGraph.UnparsedHasNoKey` | wordpress-plugin/includes/LocalLinkGraph.php:86-134 | A URL that cannot be parsed has no key, nor has a target without scheme in a post whose URL has no host |
| `PluginGraph.WwwPostIsShadowed` | wordpress-plugin/includes/LocalLinkGraph.php:22-84 | Two posts at one address, with and without www, and a third that links to the first: the first is counted no link |
| `InDegree.CountsAddUpToLinks` | wordpress-plugin/includes/LocalLinkGraph.php:41-57 | All counts add up to the number of ordered pairs in which a post links to a post that owns its key, for any keys |
| `InDegree.OrderMatters` | wordpress-plugin/includes/LocalLinkGraph.php:22-84 | In another order of the same posts a post gets the same result exactly when it owns its key in both orders or in neither, or nothing links to it |
| `InDegree.OrderDoesNotMatter` | wordpress-plugin/includes/LocalLinkGraph.php:22-84 | The same posts in another order give the same analysed posts when no key that anything links to is shared |
| `InDegree.ShadowedHasNoSources` | wordpress-plugin/includes/LocalLinkGraph.php:26-33 | When a later post has its key a post has no sources, whoever links to it |
| `LinkResolution.TargetResolves` | wordpress-plugin/includes/LocalLinkGraph.php:86-124 | A reference with a path, with or without query and fragment, has the key of the URL that section 5.2.2 of RFC 3986 resolves it to, when rewriting backslashes leaves the directory of the post alone |
| `LinkResolution.QueryTargetResolves` | wordpress-plugin/includes/LocalLinkGraph.php:86-124 | A reference without a path, such as "?page=2", has the key of the URL the standard resolves it to exactly when the path of the post ends at a directory: the code merges it, the standard keeps the path |
| `PluginGraph.QueryLeavesThePost` | wordpress-plugin/includes/LocalLinkGraph.php:86-124 | In the post https://e/b the target "?page=2" is given the key of the root, not that of the post |
| `LinkResolution.SameKey` | wordpress-plugin/includes/LocalLinkGraph.php:126-153 | Two URLs have the same key exactly when hosts (any case, with or without www, names or bracketed addresses), ports and normalised paths are the same |
| `UrlPath.NormalizePath` | wordpress-plugin/includes/LocalLinkGraph.php:136-152 | The segment-stack loop computes the normalised path |
| `UrlPath.FixedPoints` | wordpress-plugin/includes/LocalLinkGraph.php:136-152 | An absolute path is a fixed point exactly when it is "/" or all its segments are kept as they are |
| `NormalForm.ResultIsFixed` | wordpress-plugin/includes/LocalLinkGraph.php:136-152 | For every path the normalised path is a fixed point exactly when the segments that survive dot removal, decoded and split again, are each non-empty, no dot segment and left alone by decoding |
| `NormalForm.ResultIsDotFree` | wordpress-plugin/includes/LocalLinkGraph.php:136-152 | For every path the normalised path has no dot segment exactly when none of those pieces is one |
| `PercentDecoding.EncodedReadsBack` | wordpress-plugin/includes/LocalLinkGraph.php:136-152 | Percent-encoded bytes are decoded to what they were, with digits in capital or small letters |
| `PercentDecoding.OthersAreNoDigits` | wordpress-plugin/includes/LocalLinkGraph.php:136-152 | Exactly the characters of the two alphabets are hexadecimal digits |
| `UrlPath.PercentFreeIsNormal` | wordpress-plugin/includes/LocalLinkGraph.php:136-152 | In particular both hold for percent-free paths |
| `UrlPath.EscapedDotsSurvive` | wordpress-plugin/includes/LocalLinkGraph.php:136-152 | An escaped dot segment survives, so the result is not a fixed point in general |
| `UrlPath.AgreesWithStandard` | wordpress-plugin/includes/LocalLinkGraph.php:136-152 | For percent-free paths without interior empty segments the result is that of remove_dot_segments (section 5.2.4 of RFC 3986), up to the trailing slash |
| `UrlPath.RemoveDotsIsSegmentwise` | wordpress-plugin/includes/LocalLinkGraph.php:136-152 | The buffer loop of the standard, steps A to E, works on whole segments of an absolute path |
| `UrlPath.MergesLikeStandard` | wordpress-plugin/includes/LocalLinkGraph.php:118-123 | A relative target is resolved against the path section 5.2.3 of RFC 3986 merges, when rewriting the backslashes of the directory leaves its normalised form alone |
| `UrlPath.AllTargetsMerge` | wordpress-plugin/includes/LocalLinkGraph.php:118-123 | That condition is exact: all targets are resolved as the standard does exactly when it holds |
| `UrlPath.PlainDirectoryMergesAlike` | wordpress-plugin/includes/LocalLinkGraph.php:118-123 | It holds when the source path ends in a slash or has no backslash before its last segment |
| `UrlPath.BackslashIsRewritten` | wordpress-plugin/includes/LocalLinkGraph.php:119-121 | A source path with a backslash in its directory for which code and standard differ |
| `RateLimit.PruningUnobservable` | apps/marketing/src/lib/rate-limit.ts:28-67 | With a nondecreasing clock every answer is that of a counter of its own key that is never pruned and sees no other key or bucket |
| `RateLimit.WindowBound` | apps/marketing/src/lib/rate-limit.ts:41-54 | No half-open interval of the window length admits more than 2 * max(1, maxRequests) - 1 calls of one key |
| `RateLimit.WindowBoundIsTight` | apps/marketing/src/lib/rate-limit.ts:41-54 | That bound is reached for every limit, below 1 or not, and every window of at least 2 ms |
| `RateLimit.ResetAdmits` | apps/marketing/src/lib/rate-limit.ts:41-47 | A call at or after the reset time of its entry is admitted |
| `RateLimit.AdmissionsAreSolo` | apps/marketing/src/lib/rate-limit.ts:28-55 | The admissions of a key are those of its own calls alone |
| `RateLimit.RateLimiter.ConsumeRateLimit` | apps/marketing/src/lib/rate-limit.ts:28-55 | One call: the answer and the changed stores |
| `RateLimit.RateLimiter.PruneRateLimitBucket` | apps/marketing/src/lib/rate-limit.ts:57-67 | The deletion loop removes exactly the expired entries, and none from fewer than 500 |
| `Sync.VisitsEveryRowOnce` | wordpress-plugin/includes/SyncScheduler.php:55-74 | With a batch size from 1 to 250 a run visits the first 50 batches of rows in id order once each, also when rows are edited in place or appended between batches |
| `Sync.BatchSizesThatWork` | wordpress-plugin/includes/SyncScheduler.php:55-74 | 1 to 250 are exactly the batch sizes with which every unchanging inventory is read from the front without gap or repetition |
| `SyncCoverage.VisitedIsCaught` | wordpress-plugin/includes/SyncScheduler.php:55-74 | However the inventory changes between batches, a row is visited exactly when some batch the run reaches is queried while the number of rows with smaller ids lies within that batch |
| `SyncCoverage.MissedExactly` | wordpress-plugin/includes/SyncScheduler.php:55-74 | A row that is there throughout is missed only when, at a boundary the run reaches, its rank drops from the next offset or beyond to before it, or the run ends before it; and exactly then, unless rows that come in before it bring it back |
| `SyncCoverage.DeletionsHideExactly` | wordpress-plugin/includes/SyncScheduler.php:55-74 | When rows are only taken away before it, a row is missed exactly when its rank drops past a boundary or it lies past the last batch |
| `SyncCoverage.DeletionHidesARow` | wordpress-plugin/includes/SyncScheduler.php:55-74 | A run over 50 batches in which one deletion makes a row that is there throughout be missed |
| `SyncRepetition.ReadAsOftenAsCaught` | wordpress-plugin/includes/SyncScheduler.php:55-74 | However the inventory changes, a row is read as often as a reached batch is queried while its rank lies within that batch |
| `SyncRepetition.ReadAtMostOnce` | wordpress-plugin/includes/SyncScheduler.php:55-74 | However the inventory changes, a run reads every row at most once exactly when no row stands within two batches it reaches |
| `SyncRepetition.NoneCaughtTwiceUnlessBack` | wordpress-plugin/includes/SyncScheduler.php:55-74 | Which holds when no row moves back behind a boundary it had passed, whatever is edited or deleted |
| `SyncRepetition.GrowingNeverComesBack` | wordpress-plugin/includes/SyncScheduler.php:55-74 | As no row does in an inventory that is edited in place or grows at the end |
| `SyncRepetition.ReadExactlyOnce` | wordpress-plugin/includes/SyncScheduler.php:55-74 | A row that is there throughout and never comes back is read exactly once, or not at all exactly when it slips past a boundary or lies past the last batch |
| `SyncRepetition.InsertionRepeatsARow` | wordpress-plugin/includes/SyncScheduler.php:55-74 | A run over 50 batches in which a row inserted before another one makes that one be read twice |
| `SyncDelivery.SentIsReached` | wordpress-plugin/includes/SyncScheduler.php:47-79 | Whatever happens to the inventory, the ids sent are a prefix of the ids of the rows with a URL that the run reads, and all of them exactly when no batch is refused; different ids go under different external ids |
| `SyncDelivery.SentOnce` | wordpress-plugin/includes/SyncScheduler.php:47-79 | Whatever is edited, deleted or added, when no row stands within two reached batches, every id and every external id is sent at most once |
| `SyncDelivery.SentIsDue` | wordpress-plugin/includes/SyncScheduler.php:47-79 | While the inventory only grows, those are the ids of the rows with a URL among the first 50 batches of rows |
| `Sync.SyncScheduler.RunSync` | wordpress-plugin/includes/SyncScheduler.php:47-79 | The loop sends the mappable rows it visits up to the first refused batch, in order and with their findings; it fails exactly when a batch it reaches is refused and records the number sent otherwise; every item sent carries exactly the findings stored for its external id |
| `Sync.AttachLocalFindings` | wordpress-plugin/includes/SyncScheduler.php:86-99 | Every item is kept and gets exactly the findings stored for its external id, and none when there are none |
| `Collector.CollectBatch` | wordpress-plugin/includes/ContentCollector.php:36-76 | A page holds the mappable rows of the bounded query and says whether it came back full |
| `Collector.ExternalIdsDiffer` | wordpress-plugin/includes/ContentCollector.php:100-119 | Posts with different ids have different external ids, whatever their types are called |
| `Diff.DiffSnapshots` | packages/monitoring/src/diff.ts:8-167 | The pushes give the events of the thirteen comparisons in order, none without a previous snapshot |
| `EventKinds.NumbersReported` | packages/monitoring/src/diff.ts:15-163 | A change from a known status under 400 to 404 is reported as such, every other change of the status as a change; the response time exactly when it more than doubles and grows by more than 500 ms |
| `EventKinds.RobotsReported` | packages/monitoring/src/diff.ts:88-108 | A robots channel that turns to contain noindex, in any case, is reported as such, every other change of one as a change |
| `EventKinds.LossesReported` | packages/monitoring/src/diff.ts:110-137 | Structured data, GA4 and GTM are reported exactly when they were there and are known to be gone |
| `EventKinds.TextsReported` | packages/monitoring/src/diff.ts:48-86 | Title, H1, description and canonical are reported exactly when they differ |
| `EventKinds.KnownTextsReported` | packages/monitoring/src/diff.ts:38-46 | Redirect target and content hash are reported exactly when both are known, not empty and different |
| `EventKinds.SeveritiesReported` | packages/monitoring/src/diff.ts:15-163 | The severity of every kind, and of a changed status by its values; an event carries the two values of its field |
| `ChangeLog.ReplayGivesLatest` | packages/monitoring/src/diff.ts:8-108 | Over any sequence of snapshots, replaying the status, title, h1, description, canonical, meta robots and header robots events from the baseline gives the latest value, and old and new values chain |
| `ChangeLog.LogAbout` | packages/monitoring/src/diff.ts:8-167 | The events about a field depend on the values of that field only |
| `ChangeLog.NoindexIsReported` | packages/monitoring/src/diff.ts:88-108 | A critical noindex event for a channel is in the log exactly when the channel turned to noindex between two snapshots |
| `ChangeLog.NoindexAtEndIsReported` | packages/monitoring/src/diff.ts:88-108 | So it is whenever the channel is noindex at the end and was not at the start |
| `ChangeLog.ErrorsAreReported` | packages/monitoring/src/diff.ts:15-36 | A critical status event is in the log exactly when a known success was followed directly by a known error |
| `ChangeLog.ErrorAtEndIsReported` | packages/monitoring/src/diff.ts:15-36 | With no unknown status it is whenever the log starts at a success and ends at an error |
| `ChangeLog.UnknownStatusHidesError` | packages/monitoring/src/diff.ts:15-36 | The log of any snapshots whose status goes 200, unknown, 500 raises no critical status event |
| `StepDetection.NoindexCandidate` | packages/monitoring/src/regression-engine.ts:44-60 | Through diff and detect, a noindex candidate is raised exactly when the meta or the header channel turned to noindex in the step |
| `StepDetection.NotFoundCandidate` | packages/monitoring/src/regression-engine.ts:62-77 | A 404 candidate is raised exactly when the status went from a known one under 400 to 404 |
| `TrackingCandidate.TrackingRaised` | packages/monitoring/src/regression-engine.ts:79-107 | Through diff and detect, a tracking candidate is raised exactly when GA4 or GTM is gone after the step; it names what is gone, cites the stored events of these losses, and its key is their ids in order |
| `CandidateRules.NoindexRaised` | packages/monitoring/src/regression-engine.ts:44-60 | The first noindex event of the input, and nothing else, is a critical candidate with its id |
| `CandidateRules.NotFoundRaised` | packages/monitoring/src/regression-engine.ts:62-77 | So is the first 404 event |
| `CandidateRules.CanonicalRaised` | packages/monitoring/src/regression-engine.ts:109-134 | The first canonical change is one exactly when clicks dropped, critical exactly when they dropped a lot |
| `CandidateRules.CorrelationRaised` | packages/monitoring/src/regression-engine.ts:155-189 | The first of the seven kinds of regressions is correlated exactly when one of the six kinds of WordPress changes is not later; the candidate names a latest such change and the regression |
| `CandidateRules.DetectedInOrder` | packages/monitoring/src/regression-engine.ts:198-207 | What is detected are the candidates of the five rules that raise one, in their order |
| `Regression.FingerprintsDistinct` | packages/monitoring/src/regression-engine.ts:195-211 | No two candidates of one call have the same fingerprint, whatever the URL id and event ids contain |
| `Regression.CandidatesCiteInput` | packages/monitoring/src/regression-engine.ts:195-207 | A candidate is that of one of the rules and cites only ids of the given events |
| `Regression.TrackingIgnoresOrder` | packages/monitoring/src/regression-engine.ts:79-107 | The tracking candidate has the same fingerprint and ids in whatever order the events come |
| `Regression.WordPressCitesLatest` | packages/monitoring/src/regression-engine.ts:155-189 | The first regression of a step is correlated exactly when a WordPress change precedes it, with a latest such change, and the candidate cites both |
| `Regression.CanonicalNeedsDrop` | packages/monitoring/src/regression-engine.ts:109-134 | A canonical change is a candidate exactly when clicks dropped, and critical exactly when the drop is high |
| `Regression.NoEventsNoCandidates` | packages/monitoring/src/regression-engine.ts:195-207 | Without events of the step nothing is reported |
| `Traffic.OrderOfPointsDoesNotMatter` | packages/monitoring/src/traffic-signal.ts:47-70 | Points with distinct dates can be given in any order |
| `Traffic.OlderPointsDoNotMatter` | packages/monitoring/src/traffic-signal.ts:47-70 | Once there are two windows, points before all others change nothing |
| `Traffic.SignalComparesLastWindows` | packages/monitoring/src/traffic-signal.ts:47-70 | The last window is compared with the one directly before it: click difference, average positions before and after, severity by thresholds; too few previous clicks give no signal |
| `SignalValues.SiteSignalTells` | packages/monitoring/src/traffic-signal.ts:47-125 | For points in date order, above the minimum of clicks: the ratio times the previous clicks is what was lost, high and medium are told by the two thresholds, and the positions are the means of the known ones before and after; the defaults are 7 days, 20 clicks, 0.25 and 0.5 |
| `SignalValues.TooFewPoints` | packages/monitoring/src/traffic-signal.ts:55-57 | Fewer points than two windows give no signal |
| `SignalValues.PageSignalTells` | packages/monitoring/src/traffic-signal.ts:79-125 | The same for page rows, positions being weighted by clicks if there are any |
| `Traffic.RatioIsAShare` | packages/monitoring/src/traffic-signal.ts:102-125 | The drop ratio is in [0, 1], positive exactly when clicks fell, 1 exactly when all were lost, and times the previous clicks the loss |
| `Traffic.LevelGrowsAsClicksFall` | packages/monitoring/src/traffic-signal.ts:102-125 | Fewer current clicks never lower the severity, for all thresholds |
| `Traffic.SiteLevelGrows` | packages/monitoring/src/traffic-signal.ts:47-70 | For daily points: after the same previous window fewer clicks in the last one never lower the severity, whatever comes before the two windows |
| `Traffic.PageLevelGrows` | packages/monitoring/src/traffic-signal.ts:79-100 | The same for page rows with one baseline |
| `Traffic.AverageIsBetween` | packages/monitoring/src/traffic-signal.ts:146-156 | The average of the known positions lies between any bounds that hold for all of them |
| `Traffic.RowAverageIsBetween` | packages/monitoring/src/traffic-signal.ts:158-170 | So does the average over page rows, weighted by clicks or not |
| `VersionLog.LogReplays` | wordpress-plugin/includes/SystemEventReporter.php:39-119 | While connected, replaying the log from the baseline gives the stored plugin versions after any interleaving of handlers |
| `VersionLog.StepReplays` | wordpress-plugin/includes/SystemEventReporter.php:365-383 | A step is followed by the log exactly when the site is connected or the step stores nothing new: an already stored version activated or upgraded to, an unknown plugin deleted |
| `VersionLog.RunReplays` | wordpress-plugin/includes/SystemEventReporter.php:39-119 | However the connection comes and goes, the log replays to the stored versions exactly when every plugin ends at the version it had after its last change while connected |
| `VersionLog.OverwrittenChangesReplay` | wordpress-plugin/includes/SystemEventReporter.php:39-119 | So it does when every change made while disconnected is overwritten by one made while connected |
| `VersionLog.ChangeTakenBack` | wordpress-plugin/includes/SystemEventReporter.php:39-119 | That is not needed: a change made and taken back while disconnected is not missed |
| `VersionRuns.CoreRunChains` | wordpress-plugin/includes/SystemEventReporter.php:182-203 | However the connection comes and goes, the core events form one chain from the version at the start to the stored one exactly when, whenever an update is told and at the end, the stored version is the one last told |
| `VersionRuns.ThemeRunReplays` | wordpress-plugin/includes/SystemEventReporter.php:255-279 | However the connection comes and goes, the theme events replay to the stored versions exactly when every theme is stored with the version its last told update gave it |
| `VersionLog.CoreEventsChain` | wordpress-plugin/includes/SystemEventReporter.php:182-203 | While connected the core events are one chain from the baseline to the stored version, each to another version than the one before |
| `VersionLog.ThemeChangeReplays` | wordpress-plugin/includes/SystemEventReporter.php:255-279 | A theme change is told exactly when it is an update to another version: installed themes go untold |
| `SystemEvents.SystemEventReporter.OnPluginsUpgraded` | wordpress-plugin/includes/SystemEventReporter.php:151-166 | The loop over upgraded plugins stores and queues one change after the other |
| `SystemEvents.SystemEventReporter.OnThemesUpgraded` | wordpress-plugin/includes/SystemEventReporter.php:168-176 | The same for themes |
| `SystemEvents.SystemEventReporter.ReportPluginChange` | wordpress-plugin/includes/SystemEventReporter.php:228-253 | A version that did not change is neither stored nor told, an installation always is |
| `SystemEvents.SystemEventReporter.ReportThemeChange` | wordpress-plugin/includes/SystemEventReporter.php:255-279 | The version is always stored, an update to another one told |
| `SystemEvents.SystemEventReporter.OnPluginDeleted` | wordpress-plugin/includes/SystemEventReporter.php:98-119 | A deletion removes the version and tells the last known one |
| `SystemEvents.SystemEventReporter.OnPluginActivated` | wordpress-plugin/includes/SystemEventReporter.php:57-76 | An activation stores the version and tells it |
| `SystemEvents.SystemEventReporter.OnPluginDeactivated` | wordpress-plugin/includes/SystemEventReporter.php:78-96 | A deactivation is told and stores nothing |
| `SystemEvents.SystemEventReporter.OnThemeSwitched` | wordpress-plugin/includes/SystemEventReporter.php:125-149 | So is a theme switch |
| `SystemEvents.SystemEventReporter.OnCoreUpdated` | wordpress-plugin/includes/SystemEventReporter.php:182-203 | A core version is stored and told only when it is not the stored one |
| `SystemEvents.SystemEventReporter.EnsureBaseline` | wordpress-plugin/includes/SystemEventReporter.php:39-55 | The baseline is taken once, while connected |
| `ToldChanges.SingleChangesTold` | wordpress-plugin/includes/SystemEventReporter.php:57-203 | While connected an activation, deactivation, deletion, theme switch and core update are told by one event each, of their kind and with the two versions |
| `ToldChanges.UpgradesTold` | wordpress-plugin/includes/SystemEventReporter.php:228-279 | An installed plugin is always told and an installed theme never, an update exactly when its version is another one than the last known |
| `ToldChanges.NothingTold` | wordpress-plugin/includes/SystemEventReporter.php:39-203 | Nothing is told while disconnected, about a baseline, a plugin not deleted, or a core release that is empty or stored already |
| `Csv.ReportReadsBack` | packages/shared/src/deliverables.ts:119-166 | A parser that takes every other character as text reads the report back as its header and cells, for all names and URLs |
| `Csv.NumbersInOrder` | packages/shared/src/deliverables.ts:119-162 | The numbers of a site stand in the order of the names in the header |
| `ReportHeader.NamesInOrder` | packages/shared/src/deliverables.ts:121-141 | The nineteen names of the header stand in this order |
| `Csv.CellsInOrder` | packages/shared/src/deliverables.ts:119-162 | Behind name and URL, each in decimal digits |
| `Csv.ReportReadsBackStrictly` | packages/shared/src/deliverables.ts:119-166 | A parser that keeps to the characters of the grammar in section 2 of RFC 4180 (with LF between records) reads the report back exactly when every name and URL consists of printable ASCII, CR and LF, and one with a CR also has a quote, comma or LF; it refuses any other report |
| `Csv.TableReadsBack` | packages/shared/src/deliverables.ts:165-183 | The same for every table with at least one cell in every row, for both parsers |
| `Csv.ParseCell` | packages/shared/src/deliverables.ts:180-183 | A printed cell is read back as its text whatever quotes, commas and line feeds it contains; the strict parser stops exactly at a cell that does not fit the grammar |
| `Csv.QuotedExactly` | packages/shared/src/deliverables.ts:180-183 | Exactly the cells with a quote, comma or line feed are printed in quotes, all others as they are |
| `Csv.ReportsDiffer` | packages/shared/src/deliverables.ts:119-166 | Different reports are different files |
| `Html.EscapeIsSubstitution` | packages/shared/src/deliverables.ts:185-192 | The five replacements one after the other are one substitution of every character |
| `Html.EscapeIsSafeAndReversible` | packages/shared/src/deliverables.ts:185-192 | Escaped text has none of the four markup characters and a decoder reads the input back |

## Left out

- HTTP, signatures, scope and JSON decoding in front of the item loop of `handleApply`; the fields of its response other than the results and counts.
- The meta API being unavailable, WordPress slashing of meta values, and failing updates.
- How tags are stripped, URLs validated, parsed and escaped; text lengths count characters.
- Label and evidence texts of findings, which the code fixes, and the evidence of a differing canonical; the counters are kept.
- The schedule of audits, and the admin page other than its rule change.
- `findingsForSync`: which findings a sync attaches is a parameter of the sync model.
- AuditRun.LocalAuditRunner.Run: the runner uses the inspection it was constructed with; the histories require it to be the engine's. Exceptions are one parameter, the message of the failure.
- AuditHistory.FromTheStart: the baseline of rules may be any option, that of audits is none.
- AuditHistory.HistoryBalances: requires a batch size of 1 to 250 and no post within two batches a run reaches; what then fails is stated by `RepeatedPostUnbalances`, and when a run balances by `RunBalance`.
- LinkResolution.TargetResolves: asks the URL parser to take the joined URL apart again into the parts it was joined from, and hosts are names or bracketed addresses.
- SyncDelivery.SentOnce: requires that no row stands within two batches the run reaches, which by `ReadAtMostOnce` is exactly when no row is read twice; what is sent without that is stated by `SentIsReached`, which rows are reached by `MissedExactly`.
- LinkGraph.Analyze: items always carry an external id, so the numeric fallback for a missing one is not modelled.
- Diff.DiffSnapshots: the title text of an event is modelled by the field it names; the html hash is not compared by the code.
- Regression.CandidatesCiteInput: summary texts are left out; times are ordered keys.
- Traffic.RatioIsAShare: clicks are counts and ratios are real numbers; floating-point rounding is not modelled.
- SystemEvents.SystemEventReporter.EnsureBaseline: a core version option that holds null counts as absent; names and titles of events are left out.
- The sorting and totals of the deliverable summary, and the page around escaped texts in the HTML report.
- Zod schemas, roles, plans, queues, databases, crawling, the SSRF guard and all user interfaces.

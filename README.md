# LinkedIn connection outreach: a verified model

The extension works in three steps.

1. The user lists a few "seed" LinkedIn profiles in the popup.
2. The background script visits each seed profile's connections page. It stores the connections it finds as *targets*. Each target records the seed profile it came from, the seed's company, the connection's name and URL, and a status.
3. Later, the background script opens each target's profile in a tab. The content script running in that tab types a message built from a template and sends it. The reply decides the target's status and whether the target leaves the queue.

All state lives in `chrome.storage.local`. It holds:

- the seed profile list;
- the target list;
- the message templates and the selected template;
- the settings record;
- the sent-message log.

The popup also edits the templates and settings, clears storage and exports the targets as CSV.

The model has one Dafny module per script plus four shared modules:

- `Strings` models the JavaScript string primitives the scripts rely on: `trim`, `split`, `join`, `indexOf`, `replace` with a string pattern, `toLowerCase` on ASCII letters, `Number` and `parseInt` on integer numerals.
- `Sequences` models `[...new Set(xs)]`, `filter` and `includes`.
- `Messages` holds the records exchanged between the scripts and kept in storage.
- `Storage` is `chrome.storage.local`: a `Store` object whose `items` map the handlers read and overwrite.
- `Background`, `ContentScript` and `Popup` model the three scripts.

Outside effects enter as parameters:

- the state of a tab or page (a seed profile page, a connections page, the reply to a send);
- the pause flag read at the top of each loop iteration (`pausedAt(i)`);
- what the page shows during a send (`SendObservations`);
- the clock (today's weekday, the current year).

Handlers that read, change and write storage are methods on `Store` with `modifies` clauses. Each of them is specified by a function of the old storage. The loops of the background script (`collectLinksHandler`, `sendMessagesHandler`, saving the targets found on one profile), the content script (`getCompanyName`, the send-button polling) and the popup (the CSV `forEach`) are `while`/`for` loops with invariants.

## Model

| member | source | states |
|---|---|---|
| Sequences.FirstIndex | js/background.js:113-117 | the index `find` returns: the first position holding `x`, with no earlier copy |
| Sequences.DedupeSpec | js/background.js:213 | `[...new Set(s)]` is duplicate-free, holds only elements of `s` and holds every element of `s` |
| Sequences.DedupeOrder | js/background.js:213 | `[...new Set(s)]` lists elements in the order of their first appearance in `s` |
| Sequences.DedupeDistinct | js/popup.js:138 | a duplicate-free list comes back from `new Set` unchanged |
| Sequences.FilterMembership | js/background.js:98 | `filter` keeps exactly the elements that pass, in both directions |
| Sequences.FilterAppend | js/background.js:98 | `filter` keeps relative order: it distributes over concatenation |
| Sequences.FilterAll | js/popup.js:134 | filtering a list whose elements all pass returns it unchanged |
| Sequences.FilterDistinct | js/background.js:98 | filtering keeps a duplicate-free list duplicate-free |
| Sequences.ExcludingMembership | js/background.js:213 | the elements of `b` not in `a`: exactly those, both directions |
| Sequences.DedupeAfterDistinct | js/background.js:213 | `new Set([...a, ...b])` with `a` duplicate-free is `a` followed by the new elements of `b`, each once, in first-appearance order |
| Strings.TrimStart | js/popup.js:133 | drops exactly the leading JavaScript whitespace: the result is a suffix and starts with a non-space |
| Strings.TrimEnd | js/popup.js:133 | drops exactly the trailing JavaScript whitespace: the result is a prefix and ends with a non-space |
| Strings.Trim | js/content-script.js:106 | `trim()` yields a trimmed text no longer than the input |
| Strings.TrimOf | js/content-script.js:106 | whitespace, a trimmed core and whitespace trims to exactly that core |
| Strings.TrimWithin | js/popup.js:134 | every character of a trimmed text comes from the input |
| Strings.TrimBlank | js/popup.js:134 | a text trims to the empty text exactly when it is all whitespace |
| Strings.TrimIdempotent | js/content-script.js:108 | trimming twice is trimming once |
| Strings.JoinSnoc | js/popup.js:277 | joining one more piece appends the separator and the piece |
| Strings.JoinFree | js/popup.js:276 | a character other than the separator that occurs in no piece does not occur in the join |
| Strings.JoinTrimmed | js/popup.js:134 | a join of trimmed, non-empty pieces is trimmed |
| Strings.Split | js/popup.js:134 | `split(sep)` gives at least one piece, none holding `sep`, and joining the pieces rebuilds the text |
| Strings.SplitJoin | js/popup.js:134 | splitting a join of separator-free pieces gives back exactly those pieces |
| Strings.IndexOf | js/content-script.js:107 | `indexOf` is -1 or an occurrence, and no occurrence comes earlier |
| Strings.TrimNoOccurrence | js/content-script.js:105-108 | trimming cannot create an occurrence of a pattern |
| Strings.ReplaceLeading | js/content-script.js:105 | `replace(p, "")` on a text starting with `p` drops that prefix |
| Strings.CutBeforeClean | js/content-script.js:107-108 | cutting a trimmed text before the first marker and trimming yields a trimmed, marker-free text |
| Strings.CutBeforeAbsent | js/content-script.js:108 | a text without the marker is kept whole |
| Strings.CutBeforeAt | js/content-script.js:107-108 | text, whitespace, marker and rest are cut back to exactly the text |
| Strings.ReplaceFirstAbsent | js/content-script.js:304-311 | `replace` with a pattern that does not occur changes nothing |
| Strings.ReplaceFirstAt | js/content-script.js:304-311 | `replace` substitutes the first occurrence of the pattern and keeps the text around it |
| Strings.AsciiLower | js/content-script.js:167 | `toLowerCase` on ASCII text keeps the length and maps each of A-Z to its lower-case letter, leaving every other character alone |
| Strings.Decimal | js/content-script.js:124 | the decimal numeral of `n` is a non-empty digit string whose value is `n` |
| Strings.ParseNumber | js/content-script.js:124 | `Number` of a blank text is 0, and a negative result comes only from a text whose first non-space character is '-' |
| Strings.ParseDecimal | js/content-script.js:124 | `Number` of a decimal numeral with whitespace around it is that number |
| Strings.ParseSigned | js/content-script.js:124 | `Number` of a signed decimal numeral with whitespace around it is the number, negated for '-' and kept for '+' |
| Strings.ParseIntDigits | js/popup.js:112 | `parseInt` of digits followed by a non-digit reads exactly the digits |
| Strings.ParseIntAllDigits | js/content-script.js:182-183 | `parseInt` of a digit string is its value |
| Strings.DigitRunOf | js/content-script.js:182 | the leading digit run of digits followed by a non-digit is those digits |
| Messages.Render | js/content-script.js:305 | a present value renders as itself |
| Messages.OrDefault | js/popup.js:96-105 | `v \|\| fallback` on a number: the value unless it is missing, NaN or 0 |
| Storage.Store.Clear | js/background.js:307 | `chrome.storage.local.clear()` empties the storage |
| Storage.PutTargets | js/background.js:67-70 | writing the target list stores exactly that list and touches no other key |
| Background.FindByUrl | js/background.js:90 | `find` by URL succeeds exactly when a target has that URL, and returns such a target from the list |
| Background.WithTarget | js/background.js:88-93 | `saveTarget` leaves the list unchanged when the URL is stored, and appends the target otherwise |
| Background.WithTargetKeepsDistinct | js/background.js:88-93 | saving keeps the stored URLs pairwise distinct |
| Background.WithoutUrls | js/background.js:96-100 | no surviving target has a removed URL |
| Background.WithoutUrl | js/background.js:96-100 | after `removeTarget(u)` no target has URL `u` |
| Background.WithoutUrlsMembership | js/background.js:98 | exactly the targets with other URLs survive a removal, both directions |
| Background.WithoutUrlsAppend | js/background.js:98 | removal keeps the survivors' relative order |
| Background.WithoutUrlsAbsent | js/background.js:98 | removing a URL no target has changes nothing |
| Background.WithoutUrlsLast | js/background.js:98 | removal decides the last target on its own URL |
| Background.WithoutUrlsTwice | js/background.js:96-100 | two removals in a row remove the union of their URLs |
| Background.WithoutUrlsKeepsDistinct | js/background.js:96-100 | removal keeps stored URLs pairwise distinct |
| Background.GetTargets | js/background.js:83-85 | `getTargets` returns the stored list (or `[]`) |
| Background.SaveTarget | js/background.js:88-93 | the new storage is the old one with the target list replaced by `WithTarget` of the old list |
| Background.RemoveTarget | js/background.js:96-100 | the new storage is the old one with the target list replaced by `WithoutUrl` of the old list |
| Background.Slice | js/background.js:117 | `slice(0, end)` is a prefix of the stated length, counting back from the end for a negative `end` |
| Background.ConnectionUrls | js/background.js:113 | `map(c => c.url)` keeps length and position |
| Background.FirstPerUrlUrls | js/background.js:113-117 | the one-pass selection keeps exactly the URLs `new Set` keeps, in the same order |
| Background.FirstPerUrlFirst | js/background.js:113-117 | each connection the one-pass selection keeps is the first with its URL (what `find` returns) |
| Background.FirstPerUrlIsDedupeByUrl | js/background.js:113-117 | the one-pass selection equals the `Set`-then-`find` expression |
| Background.DedupeByUrlSpec | js/background.js:113-117 | the dedupe is no longer than its input, has distinct URLs, covers every URL, keeps the first connection per URL, and orders by first appearance |
| Background.CollectConnections | js/background.js:105-130 | at most `maxLinks` connections (for a non-negative `maxLinks`) |
| Background.CollectConnectionsSpec | js/background.js:105-130 | distinct URLs; every result comes from the first `maxLinks` entries of a page that loaded and is not the 404 page (nothing otherwise) |
| Background.NewTargets | js/background.js:155-168 | one pending target per collected connection, in order |
| Background.ProfileTargets | js/background.js:133-179 | at most `maxLinks` targets, each pending and tagged with the seed profile URL |
| Background.ProfileTargetsDistinct | js/background.js:133-179 | one seed profile never yields two targets with the same URL |
| Background.SaveAllKeepsDistinct | js/background.js:169-171 | saving a batch one by one keeps stored URLs distinct |
| Background.SaveAllStep | js/background.js:169-171 | saving one more target is `saveTarget` after the batch |
| Background.SaveTargets | js/background.js:169-171 | the save loop leaves `SaveAll` of the old list and touches no other key |
| Background.EffectiveMaxLinks | js/background.js:187 | `message.maxLinks \|\| 2`: the given value unless it is missing or 0, and never 0 |
| Background.StopIndex | js/background.js:192-196 | the loop stops at the first index where the pause flag is set, or at the end |
| Background.StopIndexAt | js/background.js:192-196 | a loop that reaches an unpaused index where the flag is set, or the end, stops there |
| Background.CollectKeepsDistinct | js/background.js:184-205 | a whole collection run keeps stored target URLs distinct |
| Background.EstimateIsProduct | js/background.js:199 | the reported count is `maxLinks` times the number of profiles visited |
| Background.ProfilesOutsideTargets | js/background.js:73-75 | the profile list is untouched by target writes |
| Background.VisitProfile | js/background.js:133-179 | `getConnectionsLinks` saves the profile's targets and changes no other key |
| Background.VisitProfiles | js/background.js:192-200 | the loop stops at `StopIndex`, counts `Estimate`, stores `CollectedTargets` and changes no other key |
| Background.CollectLinks | js/background.js:184-205 | the count reported is `maxLinks` per profile visited from `startIndex` up to the pause (0 past the end); the targets are those collected |
| Background.NewLinks | js/background.js:211 | every new link is valid and free of commas |
| Background.MergedProfilesSpec | js/background.js:213 | existing profiles stay in front, in place; each new link they lack is appended once, in first-appearance order; the result is duplicate-free and holds every new link |
| Background.AddLinks | js/background.js:208-217 | answers "Done" and stores the merged profile list, nothing else |
| Background.FirstName | js/background.js:262 | `name.split(' ')[0]`: the prefix up to the first space |
| Background.CompanyOrDefault | js/background.js:264 | the company, or "Unknown" when it is empty |
| Background.JobTitleOrDefault | js/background.js:265 | the job title, or "Professional" when it is missing or empty |
| Background.MessageDataForSpec | js/background.js:260-268 | each field of the message data: origin name, first name, full name, company and job title with defaults, URL, template (and the origin URL, see Findings) |
| Background.ResultObjectAlwaysFails | js/background.js:279-293 | as written, a `{ result }` reply, even "Done", is marked "Failed" and never removed |
| Background.ReplyStatus | js/background.js:279-288 | "Done" gives Sent, "Skipped" gives Skipped, anything else Failed (each an if-and-only-if) |
| Background.ReplyStatusOnText | js/background.js:279-293 | on bare text replies the corrected mapping and removal match the code as written |
| Background.ReplyStatusOnResult | js/background.js:279-293 | the content script's `{ result }` now maps by its text; only "Done" and "Skipped" remove |
| Background.MarkSpec | js/background.js:242-297 | only the status changes: "Failed (Error)" after a throw, the reply's status after a reply, unchanged for a skipped target or a vanished tab |
| Background.MarkedUpTo | js/background.js:234-297 | the in-memory targets: the first `k` marked, the rest as read |
| Background.RemovedUrls | js/background.js:290-293 | only URLs of attempted targets are removed |
| Background.StoreStepOnStored | js/background.js:290-293 | an attempt on a stored target changes storage only by its removal |
| Background.StoreAfterRemovesOnly | js/background.js:229-305 | with distinct URLs, the run changes stored targets only by removing those sent or skipped; no status reaches storage (corrected: see Findings) |
| Background.SendOne | js/background.js:240-303 | one iteration: skip on missing data; otherwise mark, save, and remove when sent or skipped (corrected: see Findings) |
| Background.SendAll | js/background.js:234-304 | the loop stops at the pause, returns the marked targets and leaves `StoreAfter` in storage (corrected: see Findings) |
| Background.SendMessages | js/background.js:229-308 | the run returns the marked targets and ends with storage cleared (corrected: see Findings) |
| Background.HandleSendMessages | js/background.js:330-332 | the "send-messages" case runs the send loop with the request's `messageTemplate` field, which the popup never sets, and answers "Messages sent" |
| ContentScript.ExtractCompanyClean | js/content-script.js:104-108 | the extracted company is trimmed and never holds the skip marker |
| ContentScript.ExtractFrom | js/content-script.js:105 | removing the prefix and trimming yields the core text |
| ContentScript.ExtractCompanyPlain | js/content-script.js:104-108 | a label with the company between whitespace gives the company |
| ContentScript.ExtractCompanyCut | js/content-script.js:104-108 | a label with the company, then the skip marker and more, gives the company |
| ContentScript.GetCompanyName | js/content-script.js:101-112 | "" when no label starts with the prefix; otherwise the company from the first such label |
| ContentScript.LastPage | js/content-script.js:124 | 1 when there is no pagination indicator |
| ContentScript.LastPageReads | js/content-script.js:124 | a numeric last indicator is the page count, whatever comes before |
| ContentScript.FindWeekday | js/content-script.js:173 | `findIndex` gives the first weekday named in the heading, or -1 when none is |
| ContentScript.MonthIndex | js/content-script.js:181 | `months.indexOf`: -1 exactly for a non-month, otherwise its position |
| ContentScript.DaysBackSpec | js/content-script.js:174-175 | days back lie in 0..6, are 0 exactly for today, land on today's weekday and are the fewest that do |
| ContentScript.ClassifyOrder | js/content-script.js:167-185 | the branch priority: "today", "yesterday" (any case), a weekday, a ':' time, else a calendar date |
| ContentScript.ClassifyWeekday | js/content-script.js:171-175 | a weekday heading counts back to the first weekday it names |
| ContentScript.ClassifyCalendar | js/content-script.js:180-184 | "Mon D [YYYY]" reads as that month, day and year (the current year when missing) |
| ContentScript.CalendarOfWords | js/content-script.js:180-184 | the calendar branch splits and parses month, day and year |
| ContentScript.SplitWords | js/content-script.js:181 | `split(' ')` of two or three space-free words gives them back |
| ContentScript.OrSpace | js/content-script.js:306 | `url \|\| ' '`: never empty; a present URL is kept |
| ContentScript.Fillers | js/content-script.js:304-311 | one replacement value per placeholder |
| ContentScript.ReplaceChainAbsent | js/content-script.js:304-311 | a chain of replaces leaves a text with none of its patterns unchanged |
| ContentScript.MessageContentUnchanged | js/content-script.js:304-311 | a template with no placeholder is sent as it is |
| ContentScript.FillFirstAt | js/content-script.js:304-311 | on a template cut into pieces, one `replace` turns exactly the first piece equal to its placeholder into the value and keeps every other piece |
| ContentScript.ReplaceFirstAssembled | js/content-script.js:304-311 | `replace` of a placeholder on a template of brace-free text and placeholders fills the first copy of that placeholder, wherever the others stand |
| ContentScript.ReplaceChainAssembled | js/content-script.js:304-311 | the chain of seven `replace` calls works placeholder by placeholder, in the order written, on the cut-up template |
| ContentScript.StageStep | js/content-script.js:304-311 | after the first `j` replaces, the next one fills the first copy of the `j`-th placeholder and nothing else |
| ContentScript.ChainOnSlots | js/content-script.js:304-311 | the whole chain leaves each placeholder copy filled exactly when it is the first copy of that placeholder |
| ContentScript.MessageContentAssembled | js/content-script.js:303-311 | for any template of brace-free text and placeholders, with brace-free values, the message fills the first copy of each placeholder and leaves each later copy as written |
| ContentScript.StageDistinct | js/content-script.js:304-311 | with no placeholder written twice, every placeholder copy is filled |
| ContentScript.MessageContentDistinct | js/content-script.js:303-311 | a template with distinct placeholders gets each placeholder's value in its place, the text between kept |
| ContentScript.ChainTwice | js/content-script.js:304-311 | a placeholder written twice is filled only the first time |
| ContentScript.MessageContentOrder | js/content-script.js:304-311 | the order of the chain shows: a seed named "{profileName}" fills "{originConnectionName}", and the later `{profileName}` replace fills that inserted text, not the template's own |
| ContentScript.BuiltInAssembled | js/content-script.js:303-311 | a template of the built-in shape (text, "{profileName}", text, "{originConnectionName}", text, "{originLinkedInUrl}", text) becomes the first name, the seed's name and the URL or a space, in place |
| ContentScript.OriginUrlAlwaysBlank | js/content-script.js:304-311 | as written, every template of the built-in shape gets the first name and the seed's name, and "{originLinkedInUrl}" becomes one space |
| ContentScript.OriginUrlFilled | js/content-script.js:304-311 | with the origin URL passed along, the same templates get the seed profile URL in that place |
| ContentScript.OutcomeSpec | js/content-script.js:254-375 | "Done" exactly when the send was clicked and then found; "Skipped" exactly for a recent conversation; "Failed" otherwise |
| ContentScript.UnawaitedCheck | js/content-script.js:361 | as written every click reports "Done"; the two outcomes differ exactly when the sent message is not found |
| ContentScript.PollSendButton | js/content-script.js:339-353 | enabled exactly when one of the 40 polls saw it enabled or the button the 40th poll found is enabled when re-read after the last 500 ms wait; polling stops at the first enabled poll, or after 40 |
| ContentScript.SendMessage | js/content-script.js:254-375 | without a template, reaching the editor throws and nothing is typed; with one, `MessageContent` is typed exactly when the editor was reached and the result is `Outcome` (corrected: see Findings) |
| ContentScript.Respond | js/content-script.js:390-421 | `{ error: "Unknown request type" }` exactly for an unhandled type; `{ result }` for a send that returns; the `{ error, stack }` reply exactly for a send that throws |
| ContentScript.SendReplyStatus | js/content-script.js:404-406 | end to end as written, every send is "Failed" and stays queued; corrected, Sent/Skipped exactly for a confirmed send or a recent conversation, and only those leave |
| ContentScript.MissingTemplateThrows | js/content-script.js:303-417 | with no template, a send that reaches the editor throws, gets the `{ error, stack }` reply and is recorded "Failed" with the target kept, both as written and corrected; one that stops earlier still reports its outcome |
| Popup.TrimEach | js/popup.js:134 | `map(link => link.trim())`, position by position |
| Popup.InputLinksSpec | js/popup.js:133-134 | a blank box gives no links; each link is trimmed, non-empty and comma-free; every non-blank piece is a link |
| Popup.InputLinksOfList | js/popup.js:133-134 | links joined by commas, with whitespace around, are read back exactly |
| Popup.AddedProfilesSpec | js/popup.js:130-150 | a blank box changes nothing; otherwise the stored links stay in front and each new link is appended once, in order; the result is duplicate-free |
| Popup.AddFromInput | js/popup.js:130-150 | a blank box leaves storage alone; otherwise only the profile list changes, to the merge |
| Popup.BuiltInTextNonEmpty | js/popup.js:417-466 | every built-in template text is non-empty |
| Popup.TemplateContentSpec | js/popup.js:417-466 | there is a non-empty text exactly for "Message 1" to "Message 5" |
| Popup.DefaultTemplatesSpec | js/popup.js:483-491 | the default map has exactly those names, each with its built-in text |
| Popup.StoredOr | js/popup.js:84 | `templates?.[key] \|\| fallback`: the stored text unless missing or empty |
| Popup.SelectedTextSpec | js/popup.js:80-85 | blank exactly when nothing non-empty is stored and the name has no built-in text; a stored text wins; otherwise the built-in text |
| Popup.LoadedTextDefault | js/popup.js:86-88 | without a selection the editor shows the stored or built-in "Message 1", never blank |
| Popup.SelectTemplate | js/popup.js:399-414 | shows `SelectedText` for the pick and stores only the selection |
| Popup.SavedTemplates | js/popup.js:198-205 | the selected key holds the text; every other key is as stored |
| Popup.SavedItems | js/popup.js:207-210 | the templates and the selection are written; nothing else changes |
| Popup.SaveTemplate | js/popup.js:192-214 | the storage after a save is `SavedItems` of the old storage |
| Popup.SaveThenLoad | js/popup.js:75-90 | reopening after a save shows the saved text (or the name's default for an empty text) |
| Popup.SettingRoundTrip | js/popup.js:96-124 | a number typed comes back after save and reload, except 0 and blank, which show the default |
| Popup.SaveThenShowSettings | js/popup.js:93-124 | saving all ten fields and reopening shows the same numbers, each 0 replaced by its default (2, 3, 30, 10, 5, 60, 5, 15, 100, 50) |
| Popup.CollectRequest | js/popup.js:153-174 | no request without seed profiles; otherwise the stored profiles |
| Popup.CollectRequestSettings | js/popup.js:155-158 | the request carries the shown `maxLinks` and `retryAttempts` (2 and 3 by default), which the background keeps as sent |
| Popup.SendRequestAsWritten | js/popup.js:296-316 | the "send-messages" request has no `messageTemplate`, and carries the stored template map or the default one |
| Popup.SendRequest | js/popup.js:296-316 | corrected, the request also carries the text the editor shows for the selected template |
| Popup.SendRequestTemplate | js/popup.js:307-314 | as written, every send that reaches the editor ends in the error reply, "Failed" and still queued; corrected, the shown template is sent and the send settles to its outcome |
| Popup.ClearedItems | js/popup.js:179-183 | only the sent-message log survives, unchanged, when there was one |
| Popup.ClearKeepingSent | js/popup.js:177-189 | the storage after clearing is `ClearedItems` of the old storage |
| Popup.ClearForgets | js/popup.js:179-183 | after clearing, no profiles, targets, templates, selection or settings remain, and the editor shows "Message 1" |
| Popup.QuoteAll | js/popup.js:276 | each field wrapped in double quotes, position by position |
| Popup.CsvCells | js/popup.js:269-276 | six cells per target |
| Popup.CsvText | js/popup.js:259-278 | nothing exactly when there are no targets |
| Popup.BuildCsv | js/popup.js:251-278 | the data URL prefix followed by the CSV text, or nothing without targets (corrected: see Findings) |
| Popup.AppendRows | js/popup.js:268-278 | the `forEach` appends each target's line and a line break (corrected: see Findings) |
| Popup.RowCells | js/popup.js:269-277 | with plain cells, a line splits back into exactly its quoted cells and holds no line break |
| Popup.CsvOriginColumn | js/popup.js:275 | as written the last cell is always "undefined"; corrected it is the target's origin URL |
| Popup.RowsJoin | js/popup.js:266-278 | the header line and the rows are the line-break joined lines (corrected: see Findings) |
| Popup.CsvLines | js/popup.js:266-278 | with plain cells the file is the header, one line per target in order, and an empty tail (corrected: see Findings) |

Most modelling functions carry only a small contract of their own. The lemma rows above state what they compute:
- `Sequences.Dedupe`, `Sequences.Filter` and `Sequences.Excluding`: the `Dedupe*`, `Filter*` and `ExcludingMembership` rows.
- `Strings.ReplaceFirst`: the `ReplaceFirst*` rows.
- `Strings.CutBefore`: the `CutBefore*` rows.
- `Strings.ParseNumber` and `Strings.ParseInt`: `ParseDecimal`, `ParseSigned`, `ParseIntDigits` and `ParseIntAllDigits`.
- `Background.DedupeByUrl`: `DedupeByUrlSpec` and `FirstPerUrlIsDedupeByUrl`.
- `Background.MergedProfiles`: `MergedProfilesSpec`.
- `Background.CollectedTargets`: `CollectKeepsDistinct`.
- `Background.StoreAfter`: `StoreAfterRemovesOnly`.
- `Background.MessageDataFor`: `MessageDataForSpec`.
- `ContentScript.ExtractCompany`: the `ExtractCompany*` and `ExtractFrom` rows.
- `ContentScript.DaysBack`: `DaysBackSpec`.
- `ContentScript.Classify`: `ClassifyOrder`, `ClassifyWeekday` and `ClassifyCalendar`.
- `ContentScript.ReplaceChain` and `ContentScript.MessageContent`: `ReplaceChainAssembled`, `StageStep`, `ChainOnSlots`, the `MessageContent*` rows and `ChainTwice`.
- `ContentScript.Outcome` and `ContentScript.SendResult`: `OutcomeSpec`, `UnawaitedCheck` and `SendMessage`.
- `Popup.InputLinks`: `InputLinksSpec` and `InputLinksOfList`.
- `Popup.AddedProfiles`: `AddedProfilesSpec`.
- `Popup.TemplateContent`: `TemplateContentSpec`.
- `Popup.SelectedText`: `SelectedTextSpec` and `LoadedTextDefault`.
- `Popup.ShownSettings` and `Popup.SavedSettings`: `SettingRoundTrip` and `SaveThenShowSettings`.
- `Popup.Rows`: `AppendRows`, `RowsJoin` and `CsvLines`.

## Left out

- Waiting on the page is not modelled, because it is browser I/O and timing. This covers `waitForElm`, the mutation observers, timeouts, closing the panel, typing through `execCommand`/`InputEvent` and the periodic cleanup. What the page shows enters as `SendObservations` and the page parameters.
- The tab lifecycle and messaging are not modelled: creating, waiting for, checking and removing tabs, `chrome.runtime` messaging, and the retry of `load-connections`. Their results enter as `ConnectionsPage`, `ProfilePage` and the `attemptAt` observation.
- `wasMessageRecentlySent` does `Date` arithmetic: millisecond differences, the floating-point day count and the 90-day test. Only its verdicts enter, as `recentBefore` and `recentAfter`.
- `parseLinkedInDate` never builds a `Date`. The classifier returns the branch and its numbers, and the clock enters as today's weekday and the current year.
- `isValidUrl` depends on the platform `URL` constructor, so it is a parameter predicate.
- Concurrent handlers toggling `isPaused` are not modelled. The flag is an observation read at the top of each loop iteration.
- `String.replace` treats `$` specially in replacement text. This is not modelled: values are substituted literally, as if they held no `$`.
- `Number` and `parseInt` are modelled for integer decimal numerals, with surrounding whitespace and an optional sign.
- Strings.ParseNumber: a fraction ("2.5"), an exponent, a hexadecimal numeral and `Infinity` are NaN in the model, while `Number` reads them as numbers. The pagination indicators it reads show whole page numbers.
- ContentScript.BuiltInAssembled: the five built-in texts have this shape (js/popup.js:420-463), with brace-free text between the placeholders. The model does not prove it, because checking a long literal character by character is beyond the verifier's budget.
- ContentScript.LastPage: inherits the ParseNumber gap. A fractional or exponent indicator text would be NaN here.
- Strings.AsciiLower: `toLowerCase` also lowers non-ASCII letters (É to é), and İ becomes two characters. The model lowers A-Z only. The texts it is used on ("today", "yesterday" and weekday names) are ASCII.
- The UI is not modelled: the modal, progress bar, status and log rendering, `updateProfileLinks`, `encodeURI` and the download link. The CSV model stops at the data-URL text.
- The popup's pause/continue/stop handlers are not modelled, in either their earlier or their later declarations (js/popup.js:493-518). They only send messages.
- `loadConnectionsAjax`, `verifyMessageSent` and `getConnectionsUrlProfileNameAndCompany` scrape page data. Their replies are the abstract `PageData`.
- The background script's `chrome.runtime.onMessage` dispatcher is modelled only for "send-messages" (`Background.HandleSendMessages`), where it reads the wrong request field (see Findings). Its other cases only route requests to the modelled handlers.
- ContentScript.Respond: the `{ error, stack }` reply is modelled only for a send that throws on a missing template. The text of the error and the stack are not modelled.
- Background.GetTargets: `[...new Set(list)]` over objects read back from storage drops nothing, because each object read is distinct. The model returns the stored list.
- Background.CollectConnections: the retry count and the page timeouts are not modelled. A page that never loads is `PageUnavailable`.
- Popup.AddedProfilesSpec requires the stored profile list to be duplicate-free. That holds for every list the popup and the background script write, because both write through `new Set`.
- Popup.SaveThenLoad requires a non-empty selected name. The selector offers no empty option, and an empty stored selection is read back as no selection.
- The background script declares a `messageTemplate` storage key that nothing reads or writes, so it is not modelled. Templates live under `messageTemplates`.

## Findings

| source | as written | input that shows it | evidently intended | confidence | as-written member | corrected member |
|---|---|---|---|---|---|---|
| js/background.js:279-293 | the reply is compared with the strings "Done" and "Skipped", but the content script answers `{ result }` (js/content-script.js:405-406) | any send, e.g. one whose result is "Done" | read `msg.result`: Sent or Skipped, and remove the target | not executed | Background.ResultObjectAlwaysFails | Background.ReplyStatusOnResult |
| js/content-script.js:361 | `wasMessageRecentlySent()` is called without `await`, and the Promise it returns is always truthy | a click after which the sent message is not found | report "Failed" when the message is not found | not executed | ContentScript.UnawaitedCheck | ContentScript.OutcomeSpec |
| js/background.js:260-268 | the message data has no `originLinkedInUrl`, so "{originLinkedInUrl}" becomes a single space (js/content-script.js:306) | a template holding "{originLinkedInUrl}" | the seed profile's URL | not executed | ContentScript.OriginUrlAlwaysBlank | ContentScript.OriginUrlFilled |
| js/background.js:331 | `sendMessagesHandler(message.messageTemplate)`, but the popup's request (js/popup.js:307-314) has only `messageTemplates`, so the template is `undefined` and `data.messageTemplate.replace` throws (js/content-script.js:304) | any "send-messages" request with a queued target whose editor opens | send the text of the selected template | not executed | Popup.SendRequestTemplate | Popup.SendRequest |
| js/popup.js:275 | the CSV reads `profile.originUrl`, but a target keeps it at `connection.originUrl`, so the last column is always "undefined" | any stored target | the target's origin URL | not executed | Popup.CsvOriginColumn | Popup.BuildCsv |

`Background.StatusAsWritten`, `ContentScript.OutcomeAsWritten`, `Background.MessageDataAsWritten`, `Popup.RowAsWritten` and `Popup.SendRequestAsWritten` model the code as written. `Background.ReplyStatus`, `ContentScript.Outcome`, `Background.MessageDataFor`, `Popup.Row` and `Popup.SendRequest` are the corrected definitions. Rows marked "(corrected: see Findings)" describe the program with these corrections. The corrected definitions are the ones the rest of the model uses.

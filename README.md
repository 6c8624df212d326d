# LPM Composer core, in Dafny

This project models the logic under the markup of the LPM Composer demo, a
client-side writing app, and proves properties of it:

- **Composer.** A generated reply is split on single spaces. It is written
  into the document one word per tick, with a separator space only when one
  is needed. The text is picked by a keyword router over four templates. The
  document accepts edits only in `draft` and while nothing is being written.
  Sending a message and requesting review are guarded state updates.
- **Brand voice.** The settings are merged over defaults when loaded, and
  partial updates are merged in. The tone and length labels use thresholds at
  40 and 70. The settings page keeps its own copy, with range-bounded sliders
  and a save flag.
- **Account.** The account tier and the submitted-document list are loaded
  from storage, with a demo-data fallback. A submission appends one record,
  and a status update maps over the list by id.
- **Phrase highlighting.** This runs in the review panel and on the editor's
  workbench page over a fixed demo text. A phrase list is sorted longest-first
  in place. Each phrase is then escaped into a case-insensitive global regular
  expression, and every match is wrapped in a `<mark>` element that carries a
  comment id.
- **Projects.** A filter runs over a constant list of six projects.
- **Review hand-off.** The composer, the header's editor switch, the review
  page and the dashboard pass a document and a notification to each other
  through the keys `reviewDocument` and `reviewNotification`.

Browser storage is the `Store.Storage` class, a map from key to item. An item
is an empty string, a text that does not parse, or the parsed record. The
storage of the two contexts is a field recording what their save effects last
wrote. Timers are steps: one tick of the reveal interval is one
`Composer.ComposerPage.Tick`, and an async handler is split at its delay
(`BeginSave`/`FinishSave`, `BeginProcessing`/`FinishApprove`). Clock readings
are parameters, and navigation is a returned path. A value that a callback
captured from an earlier render is passed to it explicitly
(`Composer.PendingReply`).

The highlight round trip is stated with provenance. Every output character is
tagged as either the document's own or inserted by a pass. Two things are
proved:

- The characters of the tagged output are the highlighted string.
- The document's own characters, in order, are the document.

So removing what the passes inserted gives the document back, casing
included, even when a phrase or the document itself contains text that looks
like a tag.

## Model

| member | source | states |
|---|---|---|
| Text.ToLower | app/composer/page.tsx:48 | same length; every character is its ASCII lower-case form |
| Text.Includes | app/composer/page.tsx:48-58 | `includes`: a text holds a substring only if it is at least as long; the partner `Text.IncludesMiddle` shows any text placed between two others is held |
| Text.IncludesMiddle | app/composer/page.tsx:48-58 | a text placed between two strings is included in the result |
| Text.EndsWith | app/composer/page.tsx:69 | definition of `endsWith`: the suffix is no longer than the text and is its tail; used by `Composer.Separator` |
| Text.IsBlank | app/composer/page.tsx:110 | definition of `!s.trim()`: every character is white space; `Composer.ComposerPage.HandleSend` ignores exactly such input |
| Text.Split | app/composer/page.tsx:62 | at least one piece; no piece contains the separator |
| Text.JoinSplit | app/composer/page.tsx:62 | joining the pieces of `split(sep)` with `sep` gives the text back |
| Text.SplitWellSpaced | app/composer/page.tsx:62 | a text with no leading, trailing or doubled separator splits into non-empty pieces |
| Text.Decimal | app/contexts/AccountContext.tsx:134 | the decimal rendering of a natural number is non-empty and all digits |
| Text.DecimalInjective | app/contexts/AccountContext.tsx:134 | two numbers with the same decimal rendering are equal |
| Store.Storage.constructor | app/review/page.tsx:15 | the store starts with the given items |
| Store.Storage.SetItem | app/review/page.tsx:29-33 | `setItem` replaces the one key and keeps every other |
| Store.Storage.RemoveItem | app/review/page.tsx:36 | `removeItem` drops the one key and keeps every other |
| Composer.Route | app/composer/page.tsx:48-58 | the template group is the first whose keyword occurs in the lower-cased input: article iff "artikel"/"article"; social iff no article keyword and "social"/"campaign"; rewrite iff neither earlier group and "herschrijf"/"rewrite"; general iff no keyword at all |
| Composer.GenerateContent | app/composer/page.tsx:47-59 | every template embeds the input verbatim and is longer than it |
| Composer.RouteIgnoresCase | app/composer/page.tsx:48 | the input's casing never changes the template |
| Composer.Separator | app/composer/page.tsx:69 | the separator is "" or one space; a space only after a non-empty text not already ending in one; after any non-empty text the result ends in a space |
| Composer.Append | app/composer/page.tsx:69 | definition of one tick: the accumulated text, the separator and the word; `Composer.RevealedStep` states what it appends |
| Composer.Revealed | app/composer/page.tsx:67-70 | reference definition of the reveal: one `Append` per word from the start text; its properties are `RevealedGrows`, `RevealedStep`, `RevealedJoin` and `RevealedText` |
| Composer.Expected | app/composer/page.tsx:65-70 | definition of the finished document: the text after the start, with one space only when the start is non-empty and does not end in one; `RevealedText` proves the reveal reaches it |
| Composer.WritingPrompt | app/composer/page.tsx:141 | the text to reveal includes the input verbatim and is longer than it |
| Composer.RevealedGrows | app/composer/page.tsx:65-73 | each published value is a prefix of every later one |
| Composer.ExpectedSnoc | app/composer/page.tsx:69-70 | one more word after a text that does not end in a space is separated by exactly one space |
| Composer.RevealedJoin | app/composer/page.tsx:62-70 | revealing non-empty, space-free words gives the start text followed by the words joined by single spaces, with a separator only when the start is non-empty and does not end in a space |
| Composer.RevealedStep | app/composer/page.tsx:68-70 | one more tick appends exactly the next word, with a separator only when needed |
| Composer.RevealedText | app/composer/page.tsx:62-70 | a text with no leading, trailing or doubled spaces is revealed as itself after an empty document, after the document alone when it ends in a space, and after the document and one space otherwise |
| Composer.ComposerPage.constructor | app/composer/page.tsx:17-30 | the greeting alone, empty input and document, not writing, `draft` |
| Composer.ComposerPage.Editable | app/composer/page.tsx:341 | definition of `contentEditable`: exactly in `draft`; `OnInput` keeps an edit only when it holds |
| Composer.ComposerPage.SendEnabled | app/composer/page.tsx:261 | definition of the send button's enabling: non-blank input and nothing being written |
| Composer.ComposerPage.SetInputValue | app/composer/page.tsx:248 | the input field holds what was typed |
| Composer.ComposerPage.OnInput | app/composer/page.tsx:343-349 | an edit replaces the document only when not writing and in `draft` (`Editable` holds only in `draft`, line 341); otherwise the document is unchanged; in particular it is unchanged while the reveal interval runs, since the page invariant ties a running interval to `isAIWriting` |
| Composer.ComposerPage.HandleSend | app/composer/page.tsx:108-123 | blank or whitespace-only input changes nothing; otherwise exactly one user message with id `messages.length + 1` and the input's text is appended at the end, and the input is cleared |
| Composer.ComposerPage.Acknowledge | app/composer/page.tsx:126-136 | the acknowledgement is appended with id two past the message count captured at send time |
| Composer.ComposerPage.SimulateAIWriting | app/composer/page.tsx:43-65 | writing starts with the generated text's words, index 0 and the captured document as accumulated text |
| Composer.ComposerPage.Tick | app/composer/page.tsx:67-105 | while words remain, exactly one word is appended with a separator only when needed, and the document shows it; once they are used up, the interval is cleared and writing stops; the text only grows |
| Composer.ComposerPage.RunToCompletion | app/composer/page.tsx:67-105 | the interval always stops, after exactly one tick per remaining word plus one, with every word written and writing off |
| Composer.ComposerPage.WriteReply | app/composer/page.tsx:139-143 | the finished document is the reveal of the generated prompt text after the captured document; for a well-spaced text, exactly that text after the document and a single separator when needed |
| Composer.ComposerPage.RequestReview | app/composer/page.tsx:300-309 | only in `draft`: the status becomes in-review and `reviewDocument` holds the current content; in any other status nothing changes |
| Composer.ComposerPage.ViewInReviewPanel | app/composer/page.tsx:316-318 | navigation to /review is offered exactly while in review |
| BrandVoice.Merge | app/contexts/BrandVoiceContext.tsx:54-56 | a field present in the update is taken from it; a field changes only if the update has it |
| BrandVoice.MergeIdempotent | app/contexts/BrandVoiceContext.tsx:54-56 | applying the same update twice equals applying it once |
| BrandVoice.MergeNoChanges | app/contexts/BrandVoiceContext.tsx:54-56 | an empty update changes nothing |
| BrandVoice.MergeCombine | app/contexts/BrandVoiceContext.tsx:54-56 | two updates in a row equal one update with their fields combined, the later winning |
| BrandVoice.MergeFull | app/contexts/BrandVoiceContext.tsx:39 | a complete record replaces every field |
| BrandVoice.LoadSettings | app/contexts/BrandVoiceContext.tsx:33-45 | absent, empty or malformed stored settings leave exactly the defaults; a parsed record is merged over the defaults |
| BrandVoice.LoadSaved | app/contexts/BrandVoiceContext.tsx:38-50 | settings written by the save effect load back unchanged |
| BrandVoice.LoadKeepsMissingDefaults | app/contexts/BrandVoiceContext.tsx:35-39 | fields missing from the stored record keep their default values |
| BrandVoice.ToneLabel | app/contexts/BrandVoiceContext.tsx:59 | Formal iff at least 70, Balanced iff 40 to 69, Casual iff below 40 |
| BrandVoice.LengthLabel | app/contexts/BrandVoiceContext.tsx:60 | Long iff at least 70, Medium iff 40 to 69, Short iff below 40 |
| BrandVoice.VoiceLabel | app/contexts/BrandVoiceContext.tsx:58-62 | definition of the label: tone label, bullet, length label; `VoiceLabelReadsBack` shows both bands can be read back from it |
| BrandVoice.VoiceLabelReadsBack | app/contexts/BrandVoiceContext.tsx:58-62 | two settings have the same label iff they have the same tone band and the same length band |
| BrandVoice.DefaultVoiceLabel | app/contexts/BrandVoiceContext.tsx:19-61 | the defaults (70, 60) read "Formal • Medium" |
| BrandVoice.LabelBoundaries | app/contexts/BrandVoiceContext.tsx:59-60 | the thresholds 70 and 40 are inclusive |
| BrandVoice.BrandVoiceProvider.constructor | app/contexts/BrandVoiceContext.tsx:30 | the settings start as the defaults |
| BrandVoice.BrandVoiceProvider.Mount | app/contexts/BrandVoiceContext.tsx:33-52 | the settings become the loaded ones and are written back |
| BrandVoice.BrandVoiceProvider.UpdateSettings | app/contexts/BrandVoiceContext.tsx:47-56 | the settings become the merge of the old ones with the update, and are written back |
| BrandVoice.BrandVoiceProvider.GetVoiceLabel | app/contexts/BrandVoiceContext.tsx:58-62 | `getVoiceLabel()` is `VoiceLabel` of the current settings |
| Account.LoadTier | app/contexts/AccountContext.tsx:76-79 | "premium" and "basic" are adopted exactly; anything else keeps the tier in state |
| Account.LoadTierSaved | app/contexts/AccountContext.tsx:110-114 | a tier the save effect wrote loads back as itself |
| Account.Dummy | app/contexts/AccountContext.tsx:35-41 | a demo record awaits the editor "Saskia" and is dated no later than now |
| Account.DummyDocuments | app/contexts/AccountContext.tsx:32-71 | five records, ids doc-dummy-1 to doc-dummy-5, all submitted for editing to "Saskia", none dated after now |
| Account.LoadDocuments | app/contexts/AccountContext.tsx:81-106 | the stored list is used exactly when it parses and is non-empty; otherwise the demo list; never empty |
| Account.LoadDocumentsSaved | app/contexts/AccountContext.tsx:117-122 | a non-empty list the save effect wrote loads back unchanged |
| Account.NewSubmission | app/contexts/AccountContext.tsx:133-139 | the new record has an id starting "doc-", the given content, status submitted-for-editing and editor "Saskia" |
| Account.NewSubmissionIds | app/contexts/AccountContext.tsx:134 | two new records share an id iff they were created at the same instant |
| Account.AppendSubmission | app/contexts/AccountContext.tsx:132-141 | exactly one record more, at the end, with the content, status submitted-for-editing and editor "Saskia"; earlier entries unchanged |
| Account.WithStatus | app/contexts/AccountContext.tsx:143-149 | the by-id status update keeps the length; `WithStatusAt` states each record |
| Account.WithStatusAt | app/contexts/AccountContext.tsx:143-149 | length and order kept; a record with the id gets the status and keeps every other field; any other record is untouched |
| Account.WithStatusIdempotent | app/contexts/AccountContext.tsx:143-149 | updating twice equals updating once |
| Account.WithStatusAbsent | app/contexts/AccountContext.tsx:143-149 | an id no record carries changes nothing |
| Account.AccountProvider.constructor | app/contexts/AccountContext.tsx:28-29 | the tier starts basic, the list empty |
| Account.AccountProvider.IsPremium | app/contexts/AccountContext.tsx:151 | definition of `isPremium`: the tier is premium |
| Account.AccountProvider.Mount | app/contexts/AccountContext.tsx:74-122 | the tier and list are the loaded ones and are written back |
| Account.AccountProvider.UpgradeToPremium | app/contexts/AccountContext.tsx:124-126 | the tier is premium (`IsPremium`), is saved, and nothing else changes |
| Account.AccountProvider.DowngradeToBasic | app/contexts/AccountContext.tsx:128-130 | the tier is basic (not `IsPremium`), is saved, and nothing else changes |
| Account.AccountProvider.SubmitDocumentForEditing | app/contexts/AccountContext.tsx:132-141 | the list gains the new record at the end and is saved; the tier is untouched |
| Account.AccountProvider.UpdateDocumentStatus | app/contexts/AccountContext.tsx:143-149 | the list is the by-id status update of the old one and is saved; the tier is untouched |
| Highlight.CommentAssignment | app/components/ReviewPanel.tsx:70-75 | "digitale transformatie" and "bedrijven" carry comment-1, the other two phrases comment-2 |
| Highlight.Escape | app/components/ReviewPanel.tsx:81 | escaping never shortens a phrase |
| Highlight.LiteralOf | app/components/ReviewPanel.tsx:81 | a regular-expression source read as a literal is no longer than the source |
| Highlight.MatchesAt | app/components/ReviewPanel.tsx:82 | definition of a case-insensitive match of the phrase at one index: in range and equal character by character after ASCII folding |
| Highlight.MatchesAtLower | app/components/ReviewPanel.tsx:82 | a match at an index is the same as the lower-cased slice there equalling the lower-cased phrase |
| Highlight.MatchesAtTail | app/components/ReviewPanel.tsx:82 | a match in the text without its first character is a match one place later in the text |
| Highlight.MatchesAtShift | app/components/ReviewPanel.tsx:82 | a match at an index is a match at the front of the text from that index |
| Highlight.Occurs | app/components/ReviewPanel.tsx:82 | definition of "the phrase occurs in any casing": a match at some index |
| Highlight.OccursMiddle | app/components/ReviewPanel.tsx:82 | a phrase placed between two strings occurs in the result |
| Highlight.NoMatchBefore | app/components/ReviewPanel.tsx:82-85 | definition of "no match starts before index i" |
| Highlight.NoMatchBeforeTail | app/components/ReviewPanel.tsx:82-85 | with no match before i > 0, there is no match at the front and none before i - 1 in the rest |
| Highlight.Mark | app/components/ReviewPanel.tsx:84 | definition of one replacement: the opening tag, the matched text as it stood, and `</mark>` |
| Highlight.EscapeIsLiteral | app/components/ReviewPanel.tsx:81 | an escaped phrase is a literal pattern that stands for exactly the phrase |
| Highlight.ReplaceAll | app/components/ReviewPanel.tsx:82-85 | a global case-insensitive replace never shortens the text; `ReplaceAllFirst` states the scan of the `g` flag |
| Highlight.ReplaceAllLeftmost | app/components/ReviewPanel.tsx:82-85 | a match at the start is wrapped in the mark with its own casing between the tags |
| Highlight.ReplaceAllWrap | app/components/ReviewPanel.tsx:82-85 | a match at the front is wrapped with its own casing and the scan resumes right after it |
| Highlight.ReplaceAllSkip | app/components/ReviewPanel.tsx:82-85 | without a match at the front, the first character is copied and the scan resumes at the next one |
| Highlight.ReplaceAllCopiesPrefix | app/components/ReviewPanel.tsx:82-85 | everything before the first match is copied unchanged and the scan continues from there |
| Highlight.ReplaceAllFirst | app/components/ReviewPanel.tsx:82-85 | the `g` flag: with the first match at i, the result is the text before i, the match wrapped in the mark with its own casing, and the replace of everything after the match; applied repeatedly this wraps every non-overlapping match, left to right |
| Highlight.ReplaceAllWrapsEvery | app/components/ReviewPanel.tsx:82-85 | "abAB" with phrase "ab" has both occurrences wrapped, each keeping its casing |
| Highlight.ReplaceAllAbsent | app/components/ReviewPanel.tsx:80-86 | a text without the phrase in any casing comes back unchanged |
| Highlight.ReplaceAllPresent | app/components/ReviewPanel.tsx:80-86 | a text with the phrase comes back strictly longer |
| Highlight.ReplaceAllChanges | app/components/ReviewPanel.tsx:82-85 | one pass changes the text iff the phrase occurs in it |
| Highlight.Pass | app/components/ReviewPanel.tsx:80-85 | one phrase's pass never shortens the text |
| Highlight.ApplyAll | app/components/ReviewPanel.tsx:80-86 | the passes in turn never shorten the text |
| Highlight.ApplyAllAbsent | app/components/ReviewPanel.tsx:80-86 | a text holding none of the phrases goes through every pass unchanged |
| Highlight.ApplyAllPresent | app/components/ReviewPanel.tsx:80-86 | a text holding one of the phrases comes out strictly longer |
| Highlight.ApplyAllSameOrLonger | app/components/ReviewPanel.tsx:80-86 | the passes leave a text unchanged or strictly longer |
| Highlight.Insert | app/components/ReviewPanel.tsx:78 | inserting one phrase adds exactly one element |
| Highlight.SortByLength | app/components/ReviewPanel.tsx:78 | the sort keeps the length of the list |
| Highlight.InsertPermutes | app/components/ReviewPanel.tsx:78 | inserting adds exactly that phrase to the multiset |
| Highlight.InsertSorted | app/components/ReviewPanel.tsx:78 | inserting into a longest-first list keeps it longest-first |
| Highlight.SortByLengthCorrect | app/components/ReviewPanel.tsx:77-78 | the sort yields a non-increasing-length permutation of its input |
| Highlight.SortedHighlightWords | app/components/ReviewPanel.tsx:70-78 | the phrases sort to "moderne zakelijke wereld", "digitale transformatie", "bedrijven", "aanpassen" (stable for the two of length 9) |
| Highlight.SortedPhrases | app/components/ReviewPanel.tsx:70-78 | sorting keeps every phrase non-empty |
| Highlight.InsertAt | app/components/ReviewPanel.tsx:78 | inserting a phrase goes right after the last phrase at least as long and before every shorter one that follows |
| Highlight.Assemble | app/components/ReviewPanel.tsx:78 | a list that agrees pointwise with the sorted prefix, shifted by one after the insertion point, is that prefix with the phrase inserted |
| Highlight.InsertLast | app/components/ReviewPanel.tsx:78 | one insertion-sort step leaves the prefix equal to the insertion of the next phrase, and the rest untouched |
| Highlight.SortInPlace | app/components/ReviewPanel.tsx:78 | the in-place sort leaves the array equal to the stable longest-first sort of its old contents |
| Highlight.Highlighted | app/components/ReviewPanel.tsx:63-89 | the highlighted content is never shorter than the document; `HighlightedEmpty`, `HighlightedUnchanged` and `HighlightRoundTrip` state the rest |
| Highlight.ApplyPhrases | app/components/ReviewPanel.tsx:80-86 | the `forEach` over the escaped phrases computes the passes in array order |
| Highlight.HighlightedContent | app/components/ReviewPanel.tsx:63-89 | the method's result is `Highlighted`: "" for an empty document, otherwise the sorted passes with the `||` fallback |
| Highlight.HighlightedEmpty | app/components/ReviewPanel.tsx:64-88 | the result is "" iff the document is "" |
| Highlight.HighlightedUnchanged | app/components/ReviewPanel.tsx:67-88 | the document comes back unchanged iff it holds none of the phrases in any casing |
| Highlight.TrackedReplaceAllChars | app/components/ReviewPanel.tsx:82-85 | the provenance-tagged replace spells out the plain replace |
| Highlight.MarkGlyphs | app/components/ReviewPanel.tsx:84 | definition of one tagged replacement: inserted tag glyphs around the matched glyphs |
| Highlight.CharsMarked | app/components/ReviewPanel.tsx:84 | the characters of a tagged replacement are the plain replacement |
| Highlight.OriginalMarked | app/components/ReviewPanel.tsx:84 | a tagged replacement keeps exactly the matched glyphs as original characters |
| Highlight.TrackedReplaceAllOriginal | app/components/ReviewPanel.tsx:82-85 | the provenance-tagged replace keeps the original characters in order |
| Highlight.TrackedApplyAllCorrect | app/components/ReviewPanel.tsx:80-86 | over all passes: the tagged output spells out the plain output and keeps the original characters |
| Highlight.HighlightRoundTrip | app/components/ReviewPanel.tsx:63-89 | stripping the inserted marks from the highlighted output gives the document back |
| Redactie.DemoHoldsTransformatie | app/redactie/page.tsx:25 | the demo text holds "digitale transformatie" |
| Redactie.DemoIsHighlighted | app/redactie/page.tsx:64-86 | highlighting the demo text never gives "" and always marks something |
| Redactie.RedactiePage.constructor | app/redactie/page.tsx:22 | the success dialog starts closed |
| Redactie.RedactiePage.GetHighlightedContent | app/redactie/page.tsx:64-87 | the workbench shows `Highlighted` of the demo text, which is non-empty and differs from the bare text |
| Redactie.RedactiePage.HandleComplete | app/redactie/page.tsx:89-92 | the success dialog opens |
| Redactie.RedactiePage.HandleCloseSuccess | app/redactie/page.tsx:94-98 | the dialog closes and there is no navigation |
| Projects.SelectCorrect | app/projects/page.tsx:72 | `filter` keeps exactly the projects with the status, as a subsequence in original order, each as many times as in the input |
| Projects.Select | app/projects/page.tsx:72 | `filter` by status never lengthens the list and keeps only projects with the status |
| Projects.FilteredProjects | app/projects/page.tsx:69-72 | every project shown is one of the six projects |
| Projects.SelectNone | app/projects/page.tsx:72 | a status no project carries selects nothing |
| Projects.FilteredIsSubsequence | app/projects/page.tsx:69-72 | every filter shows a subsequence of the projects, each matching the filter |
| Projects.AllFilter | app/projects/page.tsx:69-71 | "all" shows all six projects in original order |
| Projects.PublishedFilter | app/projects/page.tsx:15-72 | "published" shows projects 2, 3 and 5, in order |
| Projects.DraftsFilter | app/projects/page.tsx:67-72 | "drafts" shows nothing, since no status equals "drafts" |
| Projects.EmptyStateOnlyForDrafts | app/projects/page.tsx:166 | the empty state shows iff the filter is "drafts" |
| Projects.IntendedDraftsFilter | app/projects/page.tsx:11 | with "drafts" selecting status "draft", it would show projects 1, 4 and 6 |
| Projects.IntendedFiltersPartition | app/projects/page.tsx:11 | with that reading, every project is shown by exactly one of "drafts" and "published" |
| SettingsPage.Clamp | app/settings/page.tsx:177-179 | a range value always lies within 0 to 100, and equals the request when that is in range |
| SettingsPage.SettingsPage.constructor | app/settings/page.tsx:10-15 | the fields start at the context's defaults (70 and 60 for the sliders), not saving |
| SettingsPage.SettingsPage.SetToneFormal | app/settings/page.tsx:176-181 | the tone slider takes the clamped value; the sliders stay within 0 to 100 |
| SettingsPage.SettingsPage.SetToneLength | app/settings/page.tsx:203-208 | the length slider takes the clamped value; the sliders stay within 0 to 100 |
| SettingsPage.SettingsPage.ToneCaption | app/settings/page.tsx:173 | "Formal" iff at least 70, "Balanced" iff 40 to 69, "Casual" iff below 40 |
| SettingsPage.SettingsPage.LengthCaption | app/settings/page.tsx:200 | "Long" iff at least 70, "Medium" iff 40 to 69, "Short" iff below 40 |
| SettingsPage.SettingsPage.SaveDisabled | app/settings/page.tsx:225 | definition of the save button's `disabled`: exactly while saving |
| SettingsPage.SettingsPage.SaveLabel | app/settings/page.tsx:225-228 | the button reads "Saving..." iff it is disabled |
| SettingsPage.SettingsPage.BeginSave | app/settings/page.tsx:17-18 | only `isSaving` changes, to true: the button is disabled and reads "Saving..." |
| SettingsPage.SettingsPage.FinishSave | app/settings/page.tsx:20-21 | only `isSaving` changes, back to false; nothing is written anywhere |
| ReviewPage.StoredContent | app/review/page.tsx:12-21 | the parse throws iff the stored text is malformed; nothing stored gives ""; a stored document gives its content, or "" when that is missing |
| ReviewPage.ShowsComposedContent | app/review/page.tsx:15-18 | content stored by the composer is exactly what the page shows |
| ReviewPage.ReviewPage.constructor | app/review/page.tsx:9-10 | empty content, not processing |
| ReviewPage.ReviewPage.ButtonsDisabled | app/review/page.tsx:133-141 | definition of both buttons' `disabled`: exactly while processing |
| ReviewPage.ReviewPage.ApproveLabel | app/review/page.tsx:145 | the approve button reads "Processing..." iff the buttons are disabled |
| ReviewPage.ReviewPage.Mount | app/review/page.tsx:12-21 | the content becomes the stored content, or stays "" when the parse throws |
| ReviewPage.ReviewPage.BeginProcessing | app/review/page.tsx:24 | processing, both buttons disabled (lines 133 and 141) |
| ReviewPage.ReviewPage.FinishApprove | app/review/page.tsx:26-39 | `reviewNotification` holds count 1 and "1 Document Reviewed", `reviewDocument` is gone, processing ends, and the page goes to /dashboard |
| ReviewPage.ReviewPage.FinishRequestChanges | app/review/page.tsx:45-55 | `reviewDocument` holds the same content marked changes-requested, `reviewNotification` is untouched, processing ends, and the page goes to /composer |
| Dashboard.Dashboard.constructor | app/dashboard/page.tsx:14-15 | no notification, dropdown closed |
| Dashboard.Dashboard.BadgeShown | app/dashboard/page.tsx:82 | definition: the badge shows exactly when a notification is held |
| Dashboard.Dashboard.DropdownShown | app/dashboard/page.tsx:92 | definition: the dropdown shows exactly when it is open and a notification is held |
| Dashboard.Dashboard.LoadEffect | app/dashboard/page.tsx:17-24 | a stored notification is taken into state and the dropdown is shown; a malformed one throws; otherwise nothing changes |
| Dashboard.Dashboard.Mount | app/dashboard/page.tsx:17-24 | after mount with a stored notification, the notification is set and the dropdown is shown |
| Dashboard.Dashboard.ToggleBell | app/dashboard/page.tsx:78 | the bell flips the dropdown and leaves the badge |
| Dashboard.Dashboard.ToggleBellAsWritten | app/dashboard/page.tsx:17-41 | with the effect re-run on the flag change, it throws iff the stored text is malformed; whenever the notification is stored, the state holds that stored value and the dropdown is open after the bell |
| Dashboard.Dashboard.Dismiss | app/dashboard/page.tsx:43-46 | the dropdown closes and the key is removed; the notification and its badge stay |
| Dashboard.BellCannotClose | app/dashboard/page.tsx:17-41 | mount with a stored notification, then the bell as written: the dropdown is still shown |
| Dashboard.BellCloses | app/dashboard/page.tsx:78 | mount with a stored notification, then the bell as intended: the dropdown is closed |
| GlobalHeader.EditorToggleVisibility | app/components/GlobalHeader.tsx:14 | the switch is hidden on /login and /review and shown on the other pages |
| GlobalHeader.ShowEditorToggle | app/components/GlobalHeader.tsx:14 | definition of `showEditorToggle`: the path is neither /login nor /review |
| GlobalHeader.GlobalHeader.constructor | app/components/GlobalHeader.tsx:11 | editor mode starts off |
| GlobalHeader.GlobalHeader.Toggle | app/components/GlobalHeader.tsx:16-25 | the mode flips; it navigates to /review iff switching on while `reviewDocument` holds a non-empty string; switching off never navigates |
| HandOff.ApproveHandOff | app/review/page.tsx:12-40 | a composed document sent for review is shown unchanged on the review page; approving it leaves no document and a dashboard holding the one-document notification |
| HandOff.ChangesHandOff | app/review/page.tsx:42-56 | requesting changes stores the composer's text back unchanged and leaves no notification |

## Left out

- Timers, delays, caret, selection and scroll handling in the composer: each interval tick is one method call, and each delayed callback is a separate method.
- Two reveals at once: a second `simulateAIWriting` started before the first finished would run two intervals over the same document. The model keeps one reveal at a time.
- Text.ToLower, Highlight.MatchesAt, Composer.Route: case-insensitive matching and `toLowerCase` fold ASCII letters only. Non-ASCII case mappings are not modelled.
- JSON values that are not records of the expected shape, such as `null`, arrays or strings, or records with extra or mistyped fields. A stored item is the empty string, a malformed text, or a well-formed record.
- The transient writes of React's effect order. On mount the save effects first write the initial state and then the loaded one. The model records only the final write.
- Exceptions on the review and dashboard pages are returned as a `thrown` flag. The unguarded `JSON.parse` rejects a malformed text there, and nothing else happens in that effect.
- `Date.now()`, ISO timestamps and locale time formatting are parameters (`Instant`, strings). Submission ids are `"doc-"` plus the given number, and their uniqueness is not claimed.
- Redactie: the exact number of marks in the highlighted demo text and the capital B of "Bedrijven" are not evaluated on the literal text. The round trip proves the casing of every original character for any text, and `Redactie.DemoIsHighlighted` proves that something is marked.
- HTML safety: the highlighted string goes into the page without escaping, and the model makes no claim about the markup it yields.
- The dashboard's click-outside listener and all other DOM work, rendering and routing. Navigation is a returned path.
- Highlight.ReplaceAll: it requires a non-empty phrase. An empty pattern would match at every position, and the four phrases are fixed and non-empty.
- SettingsPage.Clamp: a range input also rounds to its step of 1. Slider values are integers here, so that rounding is not modelled.
- The text fields of the settings page and the context (core values, forbidden words, target audience) are carried as plain strings. No validation exists in the source.
- Presentational files: the demo guide, editor avatar, sidebar, layout wrapper, login page, home page, root layout and tailwind configuration.

## Findings

| source | as written | input that shows it | evidently intended | confidence | as-written member | corrected member |
|---|---|---|---|---|---|---|
| app/dashboard/page.tsx:17-41 | The effect that loads `reviewNotification` depends on `showNotification`. It re-runs after every change of the flag and reopens the dropdown while the key is stored. | `reviewNotification` stored, page mounted (dropdown open), bell clicked: the dropdown stays open. The click-outside handler is undone the same way. | The bell (line 78) and a click outside close the dropdown. Only the loading runs on mount. | medium, not executed | Dashboard.BellCannotClose | Dashboard.BellCloses |
| app/projects/page.tsx:67-72 | The filter compares `p.status === filter`, and the drafts filter's value is "drafts". | Filter "drafts": no project matches, and the empty state shows although projects 1, 4 and 6 are drafts. | "drafts" selects the projects with status "draft". | high, not executed | Projects.DraftsFilter | Projects.IntendedDraftsFilter |

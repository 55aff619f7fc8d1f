# PitchCraft core, modelled in Dafny

PitchCraft is a Next.js front end over a hosted database and auth service. A
few pure transforms and small state machines sit inside its React
components. This project lifts them out as pure Dafny functions over
immutable records. Every remote call (session lookup, select, insert,
upsert) becomes a parameter that stands for its answer.

| module | file | what it models |
|---|---|---|
| `Wrappers` | wrappers.dfy | `Option` (absent/`null`) and `Result` |
| `Seqs` | seqs.dfy | filtering, prefixes, first-occurrence de-duplication with a cap, joining |
| `Text` | text.dfy | JavaScript white space, `trim`, ASCII `toLowerCase`, `split` on a run of separators, `split(/\n{2,}/)` |
| `Admin` | admin.dfy | the admin e-mail gate, the hashtag normaliser, the ordered add-startup validation, the insert payload, the form reset |
| `Listing` | listing.dfy | `fetchStartups` as a query descriptor (page range and the three search modes), an in-memory reference semantics for that query, `totalPages`, the search/fetch/response state and what the main area shows |
| `Pagination` | pagination.dfy | `pageWindow`, the first/last links with their ellipses, the Previous/Next/page-click guards |
| `StartupCard` | startup_card.dfy | the int32-wrapping tag hash behind `badgeColorFor`, and the collapsed or expanded card |
| `ExperienceCard` | experience_card.dfy | `updateProject`, the work-experience textarea and its `onChange` |
| `Onboarding` | onboarding.dfy | `validateStep`, the Next/Previous step machine, the shallow `onChange` merges, the `userData` insert payload, the outcome dialog |
| `Dashboard` | dashboard.dfy | `load` with its row-to-form defaults, the `handleToggle` edit/save machine, its upsert payload |
| `StartupDetail` | startup_detail.dfy | `displayLinkedIn`, tag labels and their cap, extended-description paragraphs, tip lines |

The model follows the code wherever the code and the product description
differ:

- A lone `#` hashtag token is kept as the empty tag `""`. The filter on
  empty tokens runs before the `#` is stripped (`Admin.LoneHashGivesEmptyTag`).
- Hashtag normalisation strips only one `#`, so it is not idempotent: `##x`
  gives `#x`, and normalising that again gives `x`
  (`Admin.NormalizeStripsOneHashOnly`).
- `fetchStartups` has no stale-response guard. A response is applied
  whatever request it answers, so an older answer that arrives last wins
  (`Listing.StaleResponseOverwritesNewer`).
- A tag search lower-cases only the query. Tags are compared as stored, so
  a tag stored as `AI` is not found by `#ai`. The reference semantics
  checks exact membership of the lower-cased remainder.
- After a failed fetch the old rows stay in the page state. The main area
  shows the error message instead of them (`Listing.FailedFetchHidesRows`).
  While the next fetch is loading, those old rows are shown again.
- The admin gate compares the lower-cased session e-mail with the configured
  admin e-mail using `!==`. With no session and no configured e-mail,
  `undefined !== undefined` is false, so the page admits
  (`Admin.AdminAccess`). A configured e-mail holding an upper-case letter
  admits nobody (`Admin.UpperCaseAdminEmailAdmitsNobody`).
- Onboarding writes its profile with `insert`, not `upsert`. Only the
  dashboard upserts.

## Model

| member | source | states |
|---|---|---|
| Admin.AdminAccess | src/app/admin/page.tsx:82-88 | With an admin e-mail configured, access is granted exactly when a session e-mail exists and its lower-cased form equals it. With a session e-mail but no configured e-mail, access is refused. Without a session e-mail, access is granted exactly when no admin e-mail is configured, so with neither present the page admits, since `undefined !== undefined` is false. |
| Admin.UpperCaseAdminEmailAdmitsNobody | src/app/admin/page.tsx:83-84 | Only the session side is lower-cased, so a configured admin e-mail holding an upper-case letter admits no session at all. |
| Admin.StripHash | src/app/admin/page.tsx:133 | A token starting with `#` equals `#` followed by the result. Any other token is returned unchanged, so at most one `#` goes. |
| Admin.StripHashKeepsOnly | src/app/admin/page.tsx:133 | Stripping the `#` adds no character: a character class absent from the token is absent from the result. |
| Admin.TokensFromEmpty | src/app/admin/page.tsx:131-132 | Trimming and then dropping empty strings leaves no token exactly when every split piece is blank. |
| Admin.TokensFromKeepsOnly | src/app/admin/page.tsx:131-133 | Trimming, filtering and stripping introduce no character: a class absent from every piece is absent from every token. |
| Admin.TagTokens | src/app/admin/page.tsx:129-133 | No candidate tag contains white space or a comma. |
| Admin.TagTokensAreStrippedPieces | src/app/admin/page.tsx:129-133 | The candidate tags are, in order, the non-empty pieces between runs of white space and commas, each with one leading `#` stripped. Trimming changes no piece. |
| Admin.TokensFromUnspaced | src/app/admin/page.tsx:131-133 | On pieces without white space, trimming, dropping empty pieces and stripping one `#` keeps the non-empty pieces in order, each stripped. |
| Admin.TagTokensOfJoin | src/app/admin/page.tsx:129-133 | Words without separators, joined by one space or comma, come back as exactly those words, each with one `#` stripped. |
| Admin.NormalizeHashtags | src/app/admin/page.tsx:127-135 | At most 20 tags, no duplicates, each one a token of the input. The list is below 20 only when every token is kept. Tags appear in the order of their first occurrence in the input. Any token that first occurs before a kept tag is kept too, so the list is the first 20 distinct tokens. |
| Admin.NormalizedTagsHaveNoSeparator | src/app/admin/page.tsx:130-135 | No normalised tag contains white space or a comma. |
| Admin.NoTokensIffOnlySeparators | src/app/admin/page.tsx:129-133 | The input yields no token exactly when it consists only of white space and commas. |
| Admin.NormalizeEmptyIffOnlySeparators | src/app/admin/page.tsx:127-138 | The normalised list is empty exactly when the input holds nothing but white space and commas, e.g. `", ,"`. |
| Admin.SingleTokenInput | src/app/admin/page.tsx:129-135 | Input without white space or commas normalises to exactly one tag: the input with at most one leading `#` removed. |
| Admin.LoneHashGivesEmptyTag | src/app/admin/page.tsx:130-133 | The input `#` normalises to the single empty tag `""`. |
| Admin.NormalizeStripsOneHashOnly | src/app/admin/page.tsx:133 | `##x` normalises to `#x`, and normalising that output again gives `x`. |
| Admin.TrimOrNull | src/app/admin/page.tsx:147-151 | Null exactly when the value is blank. Otherwise the result is the trimmed value: non-empty, with no white space at either end, and a substring of the value. |
| Admin.ValidateAddStartup | src/app/admin/page.tsx:114-152 | The checks run in a fixed order: company, then short description, then hashtags. Each fails on a blank value with its own message. Non-blank hashtags made only of separators fail with "Provide at least one valid hashtag.". Success comes exactly when none of these apply. On success the name and description are the trimmed company and short description, the tags are the normalised hashtags (1 to 20, distinct), and each optional column is its trimmed field, or null when that is blank. |
| Admin.InsertErrorMessage | src/app/admin/page.tsx:153-179 | A rejected insert shows the store's message. A thrown error shows its own message, or "Unexpected error while adding startup." when it has none. |
| Admin.HandleAddStartup | src/app/admin/page.tsx:109-183 | A row is sent exactly when validation succeeds, and the row is the validated payload. A validation failure only sets its message. A successful insert clears all eight fields and reports success. A rejected or thrown insert keeps the fields, shows the store's or the fallback message, and ends submitting. |
| Listing.PageRange | src/app/homepage/page.tsx:331-332 | Each page covers nine offsets. Its first offset is a multiple of nine, and is non-negative exactly for pages from 1 on. |
| Listing.ConsecutivePagesAdjacent | src/app/homepage/page.tsx:331-332 | Page p ends at the offset just before the first offset of page p+1. |
| Listing.PageRangesPartitionOffsets | src/app/homepage/page.tsx:331-332 | Every non-negative offset lies on exactly one page, offset/9 + 1, so ranges of distinct pages are disjoint. |
| Listing.LaterPageStartsAfter | src/app/homepage/page.tsx:331-332 | A later page starts after an earlier page ends. |
| Listing.TagOfHashQuery | src/app/homepage/page.tsx:343 | The tag is the lower-cased text after the `#`, one character shorter than the text, with no upper-case letter. |
| Listing.SearchFilter | src/app/homepage/page.tsx:340-354 | A blank query means no filter. A trimmed query `#` plus at least one character means a tag filter on the lower-cased remainder; a lone `#` means no filter. Any other non-blank query means the pattern `%`+trimmed query+`%` on name or description. |
| Listing.BuildQuery | src/app/homepage/page.tsx:330-354 | The range covers offsets (page-1)*9 through page*9-1. The filter is the search mode of the text, and there is none exactly when the text is blank or trims to a lone `#`. |
| Listing.HashQueryFiltersOnTag | src/app/homepage/page.tsx:342-346 | A query that trims to `#tag` filters on the lower-cased tag. |
| Listing.PlainQueryFiltersOnText | src/app/homepage/page.tsx:347-353 | A query that trims to a text not starting with `#` filters on the pattern `%text%`. |
| Listing.TextSearchIsSubstring | src/app/homepage/page.tsx:347-353 | Under the reference semantics of `ilike`, a plain search matches a row exactly when the trimmed query occurs, ignoring case, in its name or its description. |
| Listing.TagSearchDiffersFromTextSearch | src/app/homepage/page.tsx:340-354 | `#word` and `word` select different rows. A row whose description contains the word but whose tags lack it matches the text search and not the tag search. |
| Listing.MatchingRows | src/app/homepage/page.tsx:334-354 | The reference result: exactly the table rows that satisfy the filter, keeping the newest-first order of the table. |
| Listing.Window | src/app/homepage/page.tsx:338 | The range read returns the rows at the offsets of the range, in order. It holds the range's size in rows, or fewer when the rows run out, and nothing when the range starts past the end. |
| Listing.Execute | src/app/homepage/page.tsx:334-356 | A page is the window of the range over the matching rows, so it holds at most nine rows, all satisfying the filter. The exact count is the number of all matching rows. |
| Listing.PageShowsItsMatches | src/app/homepage/page.tsx:331-338 | Page n shows the matching rows from offset 9(n-1) up to offset 9n, cut at the last matching row. |
| Listing.PagesReadInOrder | src/app/homepage/page.tsx:331-338 | Pages 1..n read one after another are exactly the first 9n rows of the result, cut at its end. |
| Listing.DistinctPagesShareNoRow | src/app/homepage/page.tsx:331-338 | Over a newest-first table, two different pages of the same query never show the same startup id. |
| Listing.TotalPages | src/app/homepage/page.tsx:382-385 | At least one page. A count of 0 gives one page, and a positive count gives the least n with count <= 9n, i.e. ceil(count/9). |
| Listing.AllPagesCoverAllRows | src/app/homepage/page.tsx:382-385 | Reading pages 1..totalPages yields every matching row, in order. |
| Listing.SubmitSearch | src/app/homepage/page.tsx:377-380 | Committing a search copies the typed text into the committed query, returns to page 1, and changes nothing else. |
| Listing.StartFetch | src/app/homepage/page.tsx:328-354 | Starting a fetch changes only the status, to loading, so the rows of the last answer stay. The query is built for the current page and the committed text, not the text being typed. |
| Listing.ApplyResponse | src/app/homepage/page.tsx:356-366 | A response changes only the rows, the count and the status. An error sets the error status and keeps the rows and count. Data replaces the rows and sets success, and a missing count reads as 0. |
| Listing.AnswerIsShown | src/app/homepage/page.tsx:364-366 | After a successful answer, the main area shows its rows, or the "no startups" note when it has none. |
| Listing.StaleResponseOverwritesNewer | src/app/homepage/page.tsx:328-369 | With a fetch pending, a search is committed and fetched again. If the older answer arrives last, the page ends with the older rows. |
| Listing.Render | src/app/homepage/page.tsx:408-414 | The skeleton shows exactly while loading with no rows. The error message shows exactly on error. Otherwise the rows show, or "no startups" when there are none. |
| Listing.FailedFetchHidesRows | src/app/homepage/page.tsx:358-362 | After a failed fetch the error message is shown. A later loading state with old rows shows those rows again. |
| Pagination.PageWindow | src/app/homepage/page.tsx:388-394 | A page is in the window exactly when it lies in [1, total] and within two of the current page. The window ascends by one and holds at most five pages. |
| Pagination.WindowAroundCurrent | src/app/homepage/page.tsx:388-394 | For 1 <= current <= total the window holds the current page and runs from max(1, current-2) to min(total, current+2). |
| Pagination.Links | src/app/homepage/page.tsx:462-476 | One link per window page, in window order, each active exactly when it is the current page. |
| Pagination.PageItems | src/app/homepage/page.tsx:442-497 | An empty window gives an empty bar. Otherwise the bar holds the window's links plus at most four boundary items: two links and two ellipses. |
| Pagination.BarEnds | src/app/homepage/page.tsx:442-497 | The bar starts with a link to page 1 and ends with a link to the last page, each active only when it is the current page. |
| Pagination.BoundaryMarkers | src/app/homepage/page.tsx:442-497 | The page-1 link precedes the window exactly when the window starts after 1, with an ellipsis exactly when it starts after 2. Symmetrically, the last-page link follows the window when it ends before total, with an ellipsis when it ends before total-1. |
| Pagination.EllipsisMarksAGap | src/app/homepage/page.tsx:455-483 | Every ellipsis stands between two links whose pages differ by more than one. |
| Pagination.AdjacentLinksAreConsecutive | src/app/homepage/page.tsx:442-497 | Two links side by side in the bar are consecutive pages. |
| Pagination.LinkPagesIncrease | src/app/homepage/page.tsx:442-497 | The page numbers emitted along the bar are strictly increasing. |
| Pagination.OnlyCurrentPageActive | src/app/homepage/page.tsx:462-476 | A link is marked active exactly when it is the current page. |
| Pagination.MiddlePageOfTen | src/app/homepage/page.tsx:442-497 | On page 5 of 10 the bar reads 1, …, 3, 4, 5, 6, 7, …, 10. |
| Pagination.Navigate | src/app/homepage/page.tsx:434-505 | While loading, every control is inert. Otherwise Previous goes to the page before when there is one, Next goes to the page after when there is one, the first- and last-page links go to 1 and total, and a page link goes to its page, so clicking the current page changes nothing. From an in-range page, every control (a window page for page clicks) keeps the page in [1, total]. |
| Pagination.ClickingARenderedLinkStaysInRange | src/app/homepage/page.tsx:442-497 | Every link the bar renders points to a page in [1, total]. |
| Pagination.NextReachesEveryPage | src/app/homepage/page.tsx:501-504 | From page 1, n clicks on Next reach page 1+n for every n < total. |
| StartupCard.ToInt32 | src/app/homepage/page.tsx:64 | The bitwise-or with 0 gives a signed 32-bit value congruent to x modulo 2^32. |
| StartupCard.HashIsTruncatedPolynomial | src/app/homepage/page.tsx:62-65 | Truncating to int32 at every step gives the unbounded polynomial hash sum c_i * 31^(n-1-i), truncated once at the end. |
| StartupCard.BadgeHash | src/app/homepage/page.tsx:62-65 | The hash loop returns the truncated polynomial hash of the tag, a signed 32-bit value. |
| StartupCard.BadgeIndex | src/app/homepage/page.tsx:66 | `Math.abs(hash) % 6` always lies in [0, 6), also for the hash -2^31. |
| StartupCard.BadgeColorFor | src/app/homepage/page.tsx:53-67 | The colour is a function of the tag alone and is one of the six palette entries. |
| StartupCard.SingleCharacterTagColour | src/app/homepage/page.tsx:53-67 | A one-character tag takes palette entry (character code mod 6). |
| StartupCard.CardFor | src/app/homepage/page.tsx:200-249 | The toggle is shown exactly when the description is longer than 100 characters, and the ellipsis exactly when such a card is collapsed. The text shown is a prefix of the description. It is the whole description exactly when expanded or short, and a collapsed long card shows exactly its first 100 characters. The first four tags are shown, each in its badge colour. |
| StartupCard.CollapsedCardFitsLimit | src/app/homepage/page.tsx:227-230 | A collapsed card, ellipsis included, reads at most 101 characters. |
| ExperienceCard.PatchProject | src/app/useronboarding/work-experience-card.tsx:33 | Patched fields take the patch's value and unpatched fields are kept. |
| ExperienceCard.UpdateProject | src/app/useronboarding/work-experience-card.tsx:28-35 | The patch carries both slots: the indexed one patched, the other unchanged. It carries no work-experience key. |
| ExperienceCard.EditWorkExperience | src/app/useronboarding/work-experience-card.tsx:52 | Typing replaces the whole list with a one-entry list holding the typed text, so entries after the first are dropped. The patch does not touch the projects. |
| ExperienceCard.TextareaValue | src/app/useronboarding/work-experience-card.tsx:51 | The textarea shows the first entry, or `""` when the list is empty. |
| Onboarding.MergePersonal | src/app/useronboarding/page.tsx:213-215 | Each key the patch holds takes the patch's value, and every other key keeps its old value. |
| Onboarding.MergeExperience | src/app/useronboarding/page.tsx:221-223 | The same shallow merge for the work-experience card: the list and the project pair are replaced only when patched. |
| Onboarding.MergeSkills | src/app/useronboarding/page.tsx:229 | The same shallow merge for the skills card. |
| Onboarding.PersonalMergeIsShallow | src/app/useronboarding/page.tsx:213-215 | A personal-data patch changes exactly the patched keys. Applying it twice equals applying it once, and the empty patch is the identity. |
| Onboarding.ExperienceMergeIsShallow | src/app/useronboarding/page.tsx:221-223 | The same for a work-experience patch. |
| Onboarding.SkillsMergeIsShallow | src/app/useronboarding/page.tsx:229 | The same for a skills patch. |
| Onboarding.UpdateProjectChangesOnlyItsSlot | src/app/useronboarding/work-experience-card.tsx:28-34 | Editing a project through the card changes only that project's patched fields. The other slot and the work experience are unchanged, and two projects remain. |
| Onboarding.TextareaShowsWhatWasTyped | src/app/useronboarding/work-experience-card.tsx:51-52 | After typing, the list is the single typed entry, the textarea shows it, and the projects are unchanged. |
| Onboarding.ValidStep | src/app/useronboarding/page.tsx:91-104 | Step 0 is valid exactly when name and e-mail are non-blank. Step 1 is valid exactly when the first work-experience entry exists and is non-blank. Step 2 is valid exactly when skills are non-blank. |
| Onboarding.Previous | src/app/useronboarding/page.tsx:107-110 | The step decreases by one and stays at 0 from 0. The direction becomes backward and nothing else changes. |
| Onboarding.Next | src/app/useronboarding/page.tsx:113-122 | An invalid step changes nothing. Steps 0 and 1 advance by one, moving forward. A valid step 2 sends the payload and applies the outcome, and a payload is sent exactly then. |
| Onboarding.WorkExperienceText | src/app/useronboarding/page.tsx:132-135 | Null exactly when every entry is blank. Otherwise the result is the non-blank entries, in order, joined with a blank line. |
| Onboarding.SingleEntryWorkExperience | src/app/useronboarding/page.tsx:132-135 | With the card's single textarea, the text is the entry itself, or null when it is blank. |
| Onboarding.WorkExperienceSplitsBack | src/app/useronboarding/page.tsx:132-135 | When the entries are paragraphs, splitting the stored text on blank lines gives back exactly the non-blank entries. |
| Text.OrNull | src/app/useronboarding/page.tsx:138-147 | The fallback to null with `or` is absent exactly when the value is the empty string, so a whitespace-only value is kept; otherwise it carries the value. The dashboard's fallback to `undefined` on project fields is the same map, with absent meaning a key left out. |
| Onboarding.PayloadOf | src/app/useronboarding/page.tsx:137-149 | Name, e-mail, education, hobbies, skills and achievements become null only when exactly empty. `additional_data` is always kept. The projects are taken positionally from slots 0 and 1. |
| Onboarding.EmptyAndWhitespaceMapping | src/app/useronboarding/page.tsx:138-148 | An empty `skills` is sent as null and a whitespace-only `hobbies` is kept. An empty `additional_data` is sent as `""`. |
| Onboarding.SaveErrorMessage | src/app/useronboarding/page.tsx:165-177 | The message is never empty: the error's own non-empty message, or the fallback text. |
| Onboarding.AfterSubmit | src/app/useronboarding/page.tsx:151-183 | Loading always ends. Success sets the success message and dialog. Failure sets the error message and dialog. Nothing else changes. |
| Onboarding.Apply | src/app/useronboarding/page.tsx:210-231 | An edit of the card on screen merges its patch into that card's data. An edit of a card the step does not render changes nothing. Next and Previous act as above. |
| Onboarding.PassedStepsStayValid | src/app/useronboarding/page.tsx:113-122 | No event invalidates a step already passed: whenever the step is beyond 0 (beyond 1), steps 0 (and 1) are valid. |
| Onboarding.RunKeepsPassedStepsValid | src/app/useronboarding/page.tsx:113-122 | The same holds for any sequence of events. |
| Onboarding.SubmittedPayloadIsComplete | src/app/useronboarding/page.tsx:113-149 | Whatever happened before, a payload sent from the initial form carries a name, an e-mail, a work-experience text and skills. |
| Dashboard.FormFromRow | src/app/dashboard/page.tsx:101-114 | Each text field shows the stored value, or `""` when it is missing. Each project title and description shows the stored value, or `""` when it or its project is missing. The e-mail falls back from the row to the session, then to `""`. |
| Dashboard.Load | src/app/dashboard/page.tsx:75-120 | Without a user, redirect. An error other than PGRST116 shows its message, ends loading and keeps the form. Otherwise a row fills the form, and no row only sets the e-mail from the session. Nothing else changes. |
| Dashboard.NotFoundIsNotAnError | src/app/dashboard/page.tsx:95-100 | A PGRST116 error loads exactly like an answer without an error. |
| Dashboard.PayloadOf | src/app/dashboard/page.tsx:136-154 | The id is the user id. The text fields are sent as they are, and empty project titles and descriptions are left out. |
| Dashboard.HandleToggle | src/app/dashboard/page.tsx:127-170 | While saving, nothing happens. From viewing, it enters editing and sends nothing. While editing with no user id, nothing happens. Otherwise it sends the form's payload and saving ends. Success leaves editing and records the time. A failure stays in editing with the error shown, and a thrown upsert stays in editing with no error. |
| Dashboard.EditThenSave | src/app/dashboard/page.tsx:127-170 | From viewing, two clicks with a successful save: the first only enters editing, the second writes the form once and leaves editing. |
| Dashboard.SaveThenLoadRoundTrip | src/app/dashboard/page.tsx:136-154 | Upserting the form and loading the stored row gives back the same form. |
| StartupDetail.SchemeLength | src/components/startup-detail-card.tsx:37 | 8 exactly for a leading `https://`, 7 exactly for a leading `http://`, and 0 otherwise. |
| StartupDetail.DisplayLinkedIn | src/components/startup-detail-card.tsx:35-38 | `""` for a missing or empty link. Otherwise the link is the result with one `https://` or `http://` in front, or the result itself when it has no such prefix. |
| StartupDetail.OneSchemeRemoved | src/components/startup-detail-card.tsx:37 | Only one scheme is removed. Whatever follows it is kept verbatim, even a second scheme. |
| StartupDetail.TagLabel | src/components/startup-detail-card.tsx:80 | Every label starts with `#`. It is the tag itself exactly when the tag starts with `#`, and `#`+tag otherwise. |
| StartupDetail.TagLabelIdempotent | src/components/startup-detail-card.tsx:80 | Labelling a label changes nothing. |
| StartupDetail.TagBlock | src/components/startup-detail-card.tsx:72-84 | The block is omitted exactly when there are no tags. Otherwise it holds the labels of the first min(12, n) tags, in order. |
| StartupDetail.Paragraphs | src/components/startup-detail-card.tsx:87-93 | Nothing for a missing or empty text. Otherwise no paragraph contains a blank line, and a text without one is a single paragraph. |
| StartupDetail.ParagraphsOfJoinedText | src/components/startup-detail-card.tsx:89 | Paragraphs joined with a blank line are shown as exactly those paragraphs. |
| StartupDetail.Tips | src/components/startup-detail-card.tsx:101-109 | "Information unavailable." exactly for missing or empty tips. Otherwise there is one line per newline-separated piece, and each line is that piece trimmed, so it is free of newlines and of white space at its ends. |
| StartupDetail.TrimAll | src/components/startup-detail-card.tsx:104 | Each line is the trim of the piece at the same position. |
| StartupDetail.TipsOfJoinedLines | src/components/startup-detail-card.tsx:101-105 | Non-empty, trimmed lines without newlines, written one per row, are shown as exactly those lines. |
| StartupDetail.TipPiecesLoseOnlyNewlines | src/components/startup-detail-card.tsx:103 | Before trimming, the pieces read back to back are the tips without their newlines. |
| StartupDetail.SingleLineTips | src/components/startup-detail-card.tsx:101-105 | Tips without a newline are a single line: the trimmed text. |
| Text.Trim | src/app/admin/page.tsx:114-124 | The result occurs in the input at the end of its leading white space. Only white space comes before and after it, and it has no white space at either end, so it is the input with exactly its leading and trailing white space removed. It is empty exactly when the input is blank. |
| Text.ToLower | src/app/admin/page.tsx:84 | Lower-casing keeps the length of the text. |
| Text.ToLowerMapsAsciiLetters | src/app/admin/page.tsx:84 | Each ASCII upper-case letter becomes its lower-case letter, and every other character is kept. |
| Text.ToLowerIdempotent | src/app/homepage/page.tsx:343 | Lower-casing a lower-cased text changes nothing. |
| Text.TrimIsSubstring | src/app/admin/page.tsx:144-151 | The trimmed text is a substring of the input. |
| Text.TrimKeepsOnly | src/app/admin/page.tsx:131 | Trimming adds no character: a class absent from the input is absent from the result. |
| Text.LowerHasNoUpper | src/app/homepage/page.tsx:343 | A lower-cased text holds no ASCII upper-case letter. |
| Text.SplitOnRuns | src/app/admin/page.tsx:130 | Splitting on runs of separators gives at least one piece, and no piece holds a separator. Only the first and last pieces can be empty, and the first is empty exactly when the text is empty or starts with a separator. |
| Text.SplitOnRunsPrefix | src/app/admin/page.tsx:130 | Text without a separator in front of another text becomes part of that text's first piece. |
| Text.SplitOnRunsUndoesJoin | src/app/admin/page.tsx:130 | Non-empty pieces without separators, joined by one separator, split back into exactly those pieces. |
| Text.SplitOnRunsUnseparated | src/app/admin/page.tsx:130 | A text without separators splits into itself. |
| Text.SplitOnRunsConcat | src/components/startup-detail-card.tsx:103 | The pieces read back to back are the text with its separators removed. |
| Text.SplitOnRunsAllEmpty | src/app/admin/page.tsx:130 | Every piece is empty exactly when the text consists only of separators. |
| Text.SplitParagraphs | src/components/startup-detail-card.tsx:89 | No paragraph contains two consecutive newlines. There is a single paragraph exactly when the text has none, and then it is the text. |
| Text.SplitParagraphsUndoesJoin | src/components/startup-detail-card.tsx:89 | Splitting paragraphs joined by one blank line gives back the paragraphs. |
| Seqs.TakeDistinct | src/app/admin/page.tsx:127-135 | The first n distinct values in first-occurrence order: no duplicates, each from the input, and every input value kept when fewer than n result. Every value first occurring before a kept one is kept too. |
| Seqs.Dedup | src/app/admin/page.tsx:127-134 | Exactly the values of the input, each once, in the order of their first occurrence. |

## Left out

- The hosted database and auth service. Query execution is replaced by the in-memory reference semantics in `Listing.Execute`. `ilike` is read as a case-insensitive substring test, with `%` and `_` inside the query and a `,` inside the `or(...)` string all taken literally. Session lookups, selects, inserts and upserts are parameters standing for their answers.
- Async plumbing. The `active` flags, `onAuthStateChange` subscriptions, `setTimeout` redirects and dialog auto-close, `router` calls (except as a redirect flag), clipboard writes and copied-state timers are not modelled. Each handler is one atomic step from its answer to the next state.
- The login page, the animated background (floating point), the landing sections, the layout, the test page, the root redirect, the personal-info and skills cards, and the animation variants are presentational. They are not part of this model.
- Text.IsSpace: the white-space set of JavaScript `\s` and `trim` is fixed as the listed code points. Characters are UTF-16 code units below 65536, with no surrogate pairs.
- Text.ToLower: lowercases ASCII `A`-`Z` only. Full Unicode case mapping is not modelled.
- Onboarding.PayloadOf: the `?? null` fallback on the two projects is not modelled. The project pair always has both slots, so it never applies.
- Onboarding.SaveErrorMessage: an error value whose message is not a string is not modelled, and neither is the `String(...)` of it. A thrown string is not modelled either, so a thrown `""`, which would show an empty message, is outside the model. The error message is an optional string.
- Dashboard: editing the twelve form fields is not modelled beyond the form record itself. Each field's `onChange` only replaces that field.
- Dashboard.StoredRow: the store is assumed to read back each text column exactly as upserted, and to read back keys left out of the JSON project column as missing. The store's own behaviour is not part of this model, and `Dashboard.SaveThenLoadRoundTrip` rests on this assumption.
- Dashboard.HandleToggle: `savedAt` records the `now` parameter in place of `new Date()`.
- StartupCard.BadgeHash: a tag is hashed over its characters as UTF-16 code units below 65536. A tag holding an emoji or another character outside that range hashes differently from `charCodeAt` over its surrogate pair.
- Listing.Execute: the table's row order is a parameter. `NewestFirst` states the `order("id", {ascending: false})` promise as a precondition of the lemmas that need it.

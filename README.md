# Feedback Center — a Dafny model

Feedback Center is a single-page feedback app. A visitor fills in a form:
name, email, category, subject, message and a one-to-five star rating. The
form validates the draft and, if it is acceptable, turns it into a feedback
record. The app puts each new record at the front of its list and persists
that list. The list view filters the records by a search term, a category and
a status, and shows counts per status and the mean rating. The header shows
the total, the number of distinct email addresses, the mean rating and the
number of records from the last 24 hours. A record's status can be changed
from the list.

The model has six modules:

- `Options` (`options.dfy`): the optional value used for "nothing submitted".
- `FeedbackTypes` (`feedback.dfy`): the record, its category and status, the rating sum and the mean rating.
- `Text` (`text.dfy`): the string built-ins the code relies on: `trim`, `toLowerCase` and `includes`, and the white-space class `\s`.
- `Form` (`feedback_form.dfy`): the form component.
  - The validator is a function from a draft to an error map, and it is related field by field to a plain statement of what a valid draft is.
  - The email check is proved equal to a direct reading of the pattern `^[^\s@]+@[^\s@]+\.[^\s@]+$`.
  - The component itself is the class `FeedbackForm`, whose fields are the draft, the error map and the success flag.
- `List` (`feedback_list.dfy`): the filtered view and the statistics of the list component, as functions and lemmas.
- `App` (`app.dfy`): the application shell.
  - The class `FeedbackStore` owns the list and logs every list handed to storage in the ghost field `saves`.
  - The status update and the header statistics are functions.
  - `SubmitForm` connects the form's submit to the shell's prepend.

The code compares the untrimmed `message.length` with ten (`src/components/FeedbackForm.tsx:42`). The model does the same: it counts UTF-16 code units, as JavaScript's `length` does, so a short word padded with spaces passes (`Form.PaddedMessagePasses`), and so do five emoji (`Form.EmojiMessagePasses`).

## Model

| member | source | states |
|---|---|---|
| FeedbackTypes.RatingSum | src/App.tsx:33 | the `reduce` sum of the ratings (no contract; see `FeedbackTypes.RatingSumBounds`) |
| FeedbackTypes.AverageOf | src/components/FeedbackList.tsx:32-34 | the mean rating, sum over count, 0 for an empty list (no contract; see `FeedbackTypes.AverageInRange`) |
| FeedbackTypes.RatingSumBounds | src/App.tsx:33 | when every rating is between 1 and 5, the rating sum lies between the count and five times the count |
| FeedbackTypes.AverageInRange | src/App.tsx:32-34 | the mean of an empty list is 0; the mean of a non-empty list of 1–5 ratings lies between 1 and 5 |
| Text.Trim | src/components/FeedbackForm.tsx:26 | `s.trim()`: drops the leading and then the trailing white space (no contract; its meaning is `Text.BlankIffAllWhitespace`) |
| Text.IsBlank | src/components/FeedbackForm.tsx:26 | `!s.trim()`: the trimmed text is empty (no contract; its meaning is `Text.BlankIffAllWhitespace`) |
| Text.BlankIffAllWhitespace | src/components/FeedbackForm.tsx:26 | `!s.trim()` holds exactly when every character of `s` is ECMAScript white space |
| Text.ToLower | src/components/FeedbackList.tsx:17-19 | lower-casing keeps the length, leaves no upper-case letter, turns each upper-case letter into the same letter in lower case, and keeps every other character in place |
| Text.ToLowerIdempotent | src/components/FeedbackList.tsx:17-19 | lower-casing twice is lower-casing once |
| Text.Utf16Length | src/components/FeedbackForm.tsx:42 | `s.length`: the number of UTF-16 code units, two for each character beyond the Basic Multilingual Plane (no contract; see the three lemmas below) |
| Text.Utf16LengthBounds | src/components/FeedbackForm.tsx:42 | the code-unit length lies between the character count and twice it |
| Text.Utf16LengthOfBmp | src/components/FeedbackForm.tsx:42 | a text of Basic Multilingual Plane characters has one code unit per character |
| Text.Utf16LengthOfAstral | src/components/FeedbackForm.tsx:42 | a text of characters beyond that plane has two code units per character |
| Text.Contains | src/components/FeedbackList.tsx:17-19 | `hay.includes(needle)`: the needle is a prefix of the text or of one of its tails (no contract; its meaning is `Text.ContainsIffOccurs`) |
| Text.ContainsIffOccurs | src/components/FeedbackList.tsx:17-19 | `includes` is true exactly when the needle occurs at some position of the haystack |
| Text.EmptyFoundEverywhere | src/components/FeedbackList.tsx:17-19 | the empty search term is found in every text |
| Form.IndexOf | src/components/FeedbackForm.tsx:32 | the position found is the first `@` of the address, or its length when there is none |
| Form.IsValidEmail | src/components/FeedbackForm.tsx:32 | the email test: a first `@` that is neither first nor last, no white space and no other `@`, and a `.` at least two places after the `@` and before the last character (no contract; its meaning is `Form.EmailCheckMatchesPattern`) |
| Form.EmailCheckMatchesPattern | src/components/FeedbackForm.tsx:32 | the email check accepts exactly the strings the pattern matches: one or more non-space non-`@` characters, `@`, one or more such characters, `.`, one or more such characters |
| Form.ShortAddressAccepted | src/components/FeedbackForm.tsx:32 | `a@b.com` passes the email check |
| Form.MalformedAddressesRejected | src/components/FeedbackForm.tsx:32 | `abc` and `a@b` fail the email check |
| Form.PaddedAddressRejected | src/components/FeedbackForm.tsx:32 | the check runs on the untrimmed text, so an address with a leading space fails |
| Form.FieldError | src/components/FeedbackForm.tsx:26-48 | the message one field's `if` chain records, if any (no contract; its meaning is `Form.FieldRules`) |
| Form.FormErrors | src/components/FeedbackForm.tsx:24-48 | the error map: the five checks' outcomes recorded in turn (no contract; see `Form.FormErrorsAt`) |
| Form.FormErrorsAt | src/components/FeedbackForm.tsx:23-52 | a field is a key of the error map exactly when its own check fails, and it maps to that check's message |
| Form.FieldRules | src/components/FeedbackForm.tsx:26-48 | name and subject fail exactly when all white space; a blank email is "required", a non-blank one fails exactly when the pattern does not match, and then it is "invalid"; a blank message is "required", a non-blank one fails exactly when its untrimmed length in UTF-16 code units is under 10, and then it is "too short"; the rating fails exactly when it is 0 |
| Form.NoErrorsIffValid | src/components/FeedbackForm.tsx:50-51 | the validator accepts (empty error map) exactly when name, subject and message are not blank, the email matches the pattern, the message has at least 10 UTF-16 code units and a rating is set |
| Form.EmptyDraftFailsEveryCheck | src/components/FeedbackForm.tsx:23-52 | the checks are independent: the initial draft fails all five at once, and the category never has an error |
| Form.PaddedMessageTrimsToWord | src/components/FeedbackForm.tsx:40 | the padded message `"  short   "` trims to `"short"` |
| Form.PaddedMessagePasses | src/components/FeedbackForm.tsx:40-44 | that padded message, which trims to 5 characters but is 10 long, is accepted |
| Form.EmojiMessagePasses | src/components/FeedbackForm.tsx:40-44 | five emoji are five characters but ten UTF-16 code units, and are accepted |
| Form.NewRecord | src/components/FeedbackForm.tsx:64-69 | the record built from a draft: the draft's fields, the given id and time, status new (no contract; `Form.FeedbackForm.HandleSubmit` states what is submitted) |
| Form.FeedbackForm.constructor | src/components/FeedbackForm.tsx:11-21 | the form starts with empty texts, category general, rating 0, no errors and no banner |
| Form.FeedbackForm.ValidateForm | src/components/FeedbackForm.tsx:23-52 | the stored error map is the validator's map for the current draft, and the result is true exactly when that map is empty |
| Form.FeedbackForm.HandleSubmit | src/components/FeedbackForm.tsx:54-86 | a record is produced exactly when the draft is valid; an invalid draft changes only the error map; a valid one yields a record with the draft's fields, the given id and time, status new and a 1–5 rating, then resets the draft, clears the errors and raises the banner |
| Form.FeedbackForm.HandleRatingClick | src/components/FeedbackForm.tsx:88-93 | only the rating of the draft changes; a pending rating message is blanked, and nothing else in the error map changes |
| Form.FeedbackForm.HandleNameChange | src/components/FeedbackForm.tsx:130 | only the name of the draft changes |
| Form.FeedbackForm.HandleEmailChange | src/components/FeedbackForm.tsx:152 | only the email of the draft changes |
| Form.FeedbackForm.HandleCategoryChange | src/components/FeedbackForm.tsx:174 | only the category of the draft changes |
| Form.FeedbackForm.HandleSubjectChange | src/components/FeedbackForm.tsx:193 | only the subject of the draft changes |
| Form.FeedbackForm.HandleMessageChange | src/components/FeedbackForm.tsx:215 | only the message of the draft changes |
| List.MatchesSearch | src/components/FeedbackList.tsx:17-19 | the lower-cased term occurs in the lower-cased subject, message or name (no contract; see `List.SearchIgnoresCase` and `List.EmailNotSearched`) |
| List.Keep | src/components/FeedbackList.tsx:17-24 | the filter callback: search, category and status all match (no contract; see `List.FilterKeepsExactlyMatching`) |
| List.FilterFeedback | src/components/FeedbackList.tsx:16-25 | the view is no longer than the list and every record in it passes the search, category and status tests |
| List.FilterIsSubsequence | src/components/FeedbackList.tsx:16-25 | the view keeps the list's relative order |
| List.FilterKeepsExactlyMatching | src/components/FeedbackList.tsx:16-25 | a record appears in the view as often as in the list if it passes the three tests, and not at all otherwise |
| List.FilterIdempotent | src/components/FeedbackList.tsx:16-25 | filtering the view again with the same criteria changes nothing |
| List.NoCriteriaKeepsAll | src/components/FeedbackList.tsx:12-25 | with an empty search and both selects on "all", the view is the whole list |
| List.SearchIgnoresCase | src/components/FeedbackList.tsx:17-19 | a search term and its lower-cased form keep the same records |
| List.EmailNotSearched | src/components/FeedbackList.tsx:17-19 | the email address never affects whether a record is kept |
| List.CountStatus | src/components/FeedbackList.tsx:29-31 | a status count never exceeds the number of records |
| List.CountStatusIsFilterLength | src/components/FeedbackList.tsx:29-31 | a status count is the length of the view filtered by that status alone |
| List.StatusCountsPartition | src/components/FeedbackList.tsx:28-31 | the new, in-progress and resolved counts add up to the total |
| List.GetStats | src/components/FeedbackList.tsx:27-37 | the total is the list length and the three status counts add up to it; the average is 0 for an empty list and between 1 and 5 when all ratings are |
| List.AverageOfSampleRatings | src/components/FeedbackList.tsx:32-34 | ratings 2, 4 and 5 average to 11/3 |
| App.WithStatus | src/App.tsx:23 | the `map` callback: the record with the id takes the new status, the others are returned as they are (no contract; see `App.UpdateStatus`) |
| App.UpdateStatus | src/App.tsx:22-24 | the new list has the same records in the same order; only statuses differ, and a record takes the new status exactly when its id matches |
| App.UpdateStatusUnknownId | src/App.tsx:22-24 | a status change for an id no record carries leaves the list unchanged |
| App.UpdateStatusLastWins | src/App.tsx:22-24 | of two status changes to the same id, the later one wins |
| App.UpdateStatusIdempotent | src/App.tsx:22-24 | applying the same status change twice equals applying it once |
| App.UniqueIdChangesOneRecord | src/App.tsx:22-24 | with unique ids, a status change rewrites exactly the one record with that id |
| App.UpdateStatusKeepsIdsUnique | src/App.tsx:22-24 | a status change keeps the ids unique |
| App.SubmitKeepsIdsUnique | src/App.tsx:16 | prepending a record whose id is fresh keeps the ids unique |
| App.PrependKeepsRatingsInRange | src/App.tsx:16 | prepending a 1–5 rated record to a list of 1–5 ratings keeps all ratings in 1–5 |
| App.Emails | src/App.tsx:31 | there are no more distinct addresses than records, and none exactly when the list is empty |
| App.EmailsMembership | src/App.tsx:31 | an address is in the set exactly when some record carries it |
| App.IsRecent | src/App.tsx:36 | less than 24 hours before the clock reading, or after it (no contract; see `App.RecentWindowEdges`) |
| App.RecentCount | src/App.tsx:35-37 | the recent count never exceeds the number of records |
| App.RecentCountFallsOverTime | src/App.tsx:35-37 | at a later time the recent count can only be equal or smaller |
| App.RecentWindowEdges | src/App.tsx:36 | the window is strict: a record exactly 24 hours old is not counted, one a millisecond younger is, and so is one from the future |
| App.GetHeaderStats | src/App.tsx:29-40 | the total is the list length; unique users never exceed it and are 0 exactly when it is 0; the recent count never exceeds it; the average is 0 for an empty list and between 1 and 5 when all ratings are |
| App.UniqueUsersExample | src/App.tsx:31 | three records with two distinct addresses count two unique users |
| App.StatusBlindStats | src/App.tsx:29-40 | lists that differ only in statuses have the same addresses, rating sum, recent count and rating range |
| App.StatusChangeKeepsHeaderStats | src/App.tsx:21-40 | a status change never changes the header |
| App.HeaderStatsAfterSubmit | src/App.tsx:15-40 | a submission adds one to the total, one to the unique users when its address is new, and one to the recent count when it is recent |
| App.HeaderAgreesWithList | src/App.tsx:29-34 | the header and the list view show the same total and the same exact average; both are modelled by the one definition `AverageOf`, so this holds by construction |
| App.FeedbackStore.constructor | src/App.tsx:9-13 | the shell starts from the list storage loaded, and nothing has been saved yet |
| App.FeedbackStore.HandleSubmitFeedback | src/App.tsx:15-19 | the new record is put in front of the list, and the new list is the one saved |
| App.FeedbackStore.HandleStatusChange | src/App.tsx:21-27 | the list becomes its status update, and the new list is the one saved |
| App.SubmitForm | src/App.tsx:108 | the list grows by the submitted record exactly when the draft was valid, and it is then saved; the form is then reset, its errors cleared and its banner raised; an invalid draft leaves the list, the storage, the draft and the banner untouched and stores the validator's errors; ratings stay within 1–5 |
| App.FeedbackStore.HandleSubmitFeedbackFrom | src/App.tsx:15-19 | the `handleSubmitFeedback` of an earlier render: the record is put in front of the list that render saw, and that list is saved |
| App.StaleSubmitAfterStatusChange | src/components/FeedbackForm.tsx:62-71 | a status change made during the submit delay is lost: the list and the last save are the new record in front of the list as it was at the click |
| App.StaleSubmitLosesStatusChange | src/components/FeedbackForm.tsx:62-71 | for one record whose status is changed during the delay, the record behind the new one keeps its old status instead of the new one |
| App.StatusChangeThenSubmit | src/App.tsx:15-27 | prepending to the current list keeps the status change: the list is the new record in front of the updated list, and both lists are saved in turn |
| App.SubmitKeepsStatusChange | src/App.tsx:15-27 | behind the new record, the updated list is intact and every record with the id carries the new status |

## Left out

- Storage is not part of this model (`loadFeedback`, `saveFeedback`, `generateId` in `src/utils/storage.ts`). The loaded list is the store constructor's parameter. Each list handed to `saveFeedback` is appended to the ghost log `saves`. JSON encoding and decoding are not modelled.
- `generateId()` and `new Date()` are the parameters `id` and `now` of `HandleSubmit`. The header's clock reading is the parameter `now` of `GetHeaderStats`. Timestamps are integer milliseconds, so a timestamp that fails to parse (`NaN`) is not represented.
- The 1000 ms simulated delay and the `isSubmitting` flag are not modelled, and neither is the 3000 ms timer that hides the success banner. `showSuccess` is set on success and never reset.
- Averages are exact rationals, not IEEE doubles. The list view's `toFixed(1)` rounding to a one-decimal string is not modelled.
- Text.ToLower: it lowers only the ASCII letters `A`–`Z`, whereas `toLowerCase` follows the full Unicode case mapping.
- `src/components/FeedbackItem.tsx` is not part of this model. Its status selector is represented only by the `HandleStatusChange` it calls.
- App.SubmitForm: runs the form's submit and the prepend as one step. In the source, `handleSubmit` awaits 1000 ms (`src/components/FeedbackForm.tsx:62`) and then calls the `onSubmit` of the click's render (line 71), so the prepend applies to the list as it was at the click. The model shows the consequence only separately, under "Findings".
- App.RecentCount: reads the clock once, as the parameter `now`. The source calls `new Date()` once per record inside the filter (`src/App.tsx:36`), so a count taken across a millisecond boundary may use two readings.
- JSX rendering, React's batching of state updates and re-renders are not modelled. Apart from the case under "Findings", each handler acts on the state as it is when the handler is called.
- Form.FeedbackForm.HandleRatingClick: requires a rating of 1 to 5, because its only callers are the five star buttons (`src/components/FeedbackForm.tsx:234-238`).
- Form.FeedbackForm.HandleCategoryChange: takes one of the four categories. The source casts the select's string with `as any`, and the select offers only those four.
- Select values other than "all" and the listed categories and statuses are not represented in `List.Criteria`.

## Findings

| source | as written | input that shows it | evidently intended | confidence | as-written member | corrected member |
|---|---|---|---|---|---|---|
| src/components/FeedbackForm.tsx:62-71 | after the 1000 ms delay, the submit calls the `onSubmit` captured at the click, and it prepends to the `feedback` of that render (src/App.tsx:16) | a list with one new record x; press Submit, and within the second mark x resolved; the list and storage end with x new again behind the new record | the new record is prepended to the list as it is when the delay ends, and x stays resolved | medium, not executed | App.StaleSubmitLosesStatusChange | App.StatusChangeThenSubmit |

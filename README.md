# Feedback board — a Dafny model

The feedback board is a small anonymous feedback site. A Django back end
stores feedback rows `{id, title, content, created_at, is_reviewed,
reviewed_at}` and serves a public endpoint. Anyone may list the reviewed rows
or post new feedback through it; only id, title, content and created_at are
shown. Two admin actions bulk-mark rows reviewed or unreviewed, and two
management commands empty the table or reseed it with 65 sample rows.
Settings come from environment variables as comma-separated lists and
`"true"` flags. A Next.js front end has these parts:

- a feedback form that validates locally and maps server field errors to
  messages;
- a home page that tracks one submission;
- a card that displays a row's review state;
- an admin page guarded by authentication;
- an API layer that builds the admin query string, fetches a CSRF token
  for every request whose method is not spelled "get" or "GET", and unwraps
  submission errors.

The model follows the program's own structure, one Dafny module per source
file:

| module | file |
|---|---|
| `Settings` | `settings.py` |
| `Records` | the feedback table as a class `FeedbackStore` holding a sequence of rows and the next id |
| `Admin` | `admin.py` |
| `Views` | `views.py` |
| `Serializers` | `serializers.py` |
| `ClearFeedback` | `clear_feedback.py` |
| `PopulateFeedback` | `populate_feedback.py` |
| `FeedbackForm` | `FeedbackForm.tsx` |
| `Api` | `api.ts` |
| `HomePage` | `app/page.tsx` |
| `FeedbackCard` | `FeedbackCard.tsx` |
| `AdminPage` | `app/admin/page.tsx` |

`Text` holds string helpers shared by several modules:

- the two `strip`/`trim` flavours;
- ASCII lower-casing;
- `split` and `join`;
- decimal rendering of numbers.

`Wrappers` holds `Option` and `Result`.

Code that changes state step by step is modelled as classes and methods with
`modifies` clauses:

- the store and its bulk update loop;
- the two commands;
- the form and the home page handlers, split at their `await`;
- the request interceptor.

The store's methods and the two admin actions state their new state as a
function of the old one (`WithReview`, `Reviewed`, `Unreviewed`), and the
properties of the update are proved as lemmas about that function. The
commands, the interceptor and the page handlers state their outcome and new
state case by case in their own postconditions. The admin query builder
appends to a local sequence in order and returns it. Pure code is modelled as
functions and lemmas: the settings, the serializer projection and validation,
the error mapping, the card and the admin guard.

The admin page has no moderation list, search or statistics in its code: it
shows a placeholder with literal `0` counters. The server views behind the
`admin/feedback/` routes are not among the files. The model follows the
code: it models the placeholder and the client request shapes, and it does
not invent the missing parts.

## Model

| member | source | states |
|---|---|---|
| Text.Trim | backend/feedback_board/settings.py:13 | The stripped text is empty exactly when the input is all whitespace, otherwise it neither starts nor ends with whitespace, and it is never longer than the input. |
| Text.TrimIsSlice | backend/feedback_board/settings.py:13 | The stripped text is a contiguous piece of the input with only whitespace cut from both ends. |
| Text.TrimKeeps | backend/feedback_board/settings.py:13 | A character that is not whitespace occurs in the stripped text exactly when it occurs in the input. |
| Text.TrimIdempotent | frontend/components/FeedbackForm.tsx:52-57 | Trimming twice gives the same text as trimming once. |
| Text.Lower | backend/feedback_board/settings.py:9 | The lower-cased text has the input's length and lowers each character in place. |
| Text.Split | backend/feedback_board/settings.py:13 | Splitting gives at least one segment. |
| Text.SplitSegmentsFree | backend/feedback_board/settings.py:13 | No segment holds the separator. |
| Text.SplitKeepsChars | backend/feedback_board/settings.py:13 | Every character of every segment occurs in the input. |
| Text.JoinSplit | backend/feedback_board/settings.py:13 | Joining the comma-split segments with "," gives the input back. |
| Text.SplitJoin | backend/feedback_board/settings.py:13 | Splitting at "," a non-empty list of comma-free parts joined by "," gives back exactly that list. |
| Text.SplitConcat | backend/feedback_board/settings.py:13 | Splitting two texts joined by one separator gives the segments of the first followed by those of the second. |
| Settings.FlatMapAppend | backend/feedback_board/settings.py:13 | Mapping each element of a concatenation to a list and concatenating the results gives the results for the first half followed by those for the second. |
| Settings.NonBlankMembers | backend/feedback_board/settings.py:13 | An entry is kept exactly when it is the non-empty stripped form of some part, so every entry is non-empty and already stripped, and there are no more entries than parts. |
| Settings.NonBlankAppend | backend/feedback_board/settings.py:13 | Filtering two lists one after the other gives the filtered first list followed by the filtered second, so order and repeats are kept. |
| Settings.NonBlankSingle | backend/feedback_board/settings.py:13 | A single part contributes its stripped form, or nothing when that is empty. |
| Settings.CommaList | backend/feedback_board/settings.py:13 | No entry is empty, holds a comma or starts or ends with whitespace, and the entries are exactly the non-blank stripped comma segments. |
| Settings.CommaListConcat | backend/feedback_board/settings.py:13 | The list of two texts joined by a comma is the list of the first followed by the list of the second, so entries keep input order and repeats. |
| Settings.CommaListOfSegment | backend/feedback_board/settings.py:13 | A comma-free text gives a list holding its stripped form, or the empty list when it is blank. |
| Settings.BlankCommaList | backend/feedback_board/settings.py:13 | A text of only commas and whitespace, the empty text included, gives the empty list. |
| Settings.CommaListRejoin | backend/feedback_board/settings.py:13 | Joining a parsed list with "," and parsing again gives the same list. |
| Settings.CommaListOfPair | backend/feedback_board/settings.py:12-13 | Two clean entries joined by one comma parse to exactly those two entries in that order. |
| Settings.DefaultHostsList | backend/feedback_board/settings.py:12-13 | The default host text parses to the list "localhost", "127.0.0.1". |
| Settings.DefaultOriginsList | backend/feedback_board/settings.py:74-75 | The default origin text parses to the two origins on port 3000. |
| Settings.Flag | backend/feedback_board/settings.py:9 | An absent variable reads as false. |
| Settings.FlagIsCaseInsensitiveTrue | backend/feedback_board/settings.py:9 | A flag is on exactly when its value is "true" in any mix of case with nothing around it. |
| Settings.FlagExamples | backend/feedback_board/settings.py:87-88 | The values "TRUE" and "True" turn a flag on, while "1", "yes", " true" and an absent value leave it off. |
| Settings.Load | backend/feedback_board/settings.py:9-88 | Each of the six settings is its own variable parsed, or its default parsed when the variable is absent. |
| Settings.DefaultsWithEmptyEnvironment | backend/feedback_board/settings.py:74-88 | With no variables set, debug and both secure-cookie flags are off and the three lists are the two-entry defaults. |
| Records.WithReview | backend/feedback/admin.py:15 | The update keeps every row in place with its id, title, content and creation time, gives each selected row the new flag and time, and leaves every other row as it was. |
| Records.CountSelected | backend/feedback/admin.py:15 | The number of updated rows is at most the number of rows. |
| Records.CountSelectedZero | backend/feedback/admin.py:15 | The number of updated rows is zero exactly when no row is selected. |
| Records.CountSelectedStep | backend/feedback/admin.py:15 | One more row adds one to the count exactly when its id is selected. |
| Records.MatchedWithNewId | backend/feedback/admin.py:15 | An id not yet in the table adds one matched id when it is selected, and none otherwise. |
| Records.RowwiseReview | backend/feedback/admin.py:15 | Updating every row on its own by the selection gives the bulk update. |
| Records.CountSelectedIsMatchedIds | backend/feedback/admin.py:15 | With distinct ascending ids, the update count is the number of selected ids present in the table. |
| Records.FeedbackStore.Save | backend/feedback/management/commands/populate_feedback.py:34 | A save appends one row with the next id and no review time, and advances the id counter. |
| Records.FeedbackStore.DeleteAll | backend/feedback/management/commands/clear_feedback.py:25-26 | The table becomes empty and the returned count is the number of rows before. |
| Records.FeedbackStore.Update | backend/feedback/admin.py:15 | The loop leaves exactly the rows of `WithReview` and returns the number of selected rows. |
| Admin.MarkAsReviewed | backend/feedback/admin.py:14-16 | Selected rows become reviewed at one `now`, and the message reports their count as "N feedback(s) marked as reviewed.". |
| Admin.MarkAsUnreviewed | backend/feedback/admin.py:18-20 | Selected rows become unreviewed with no review time, and the message reports their count. |
| Admin.ReviewedRows | backend/feedback/admin.py:15 | A selected row gets `is_reviewed = true` and `reviewed_at = now` with its other fields kept, and an unselected row is unchanged. |
| Admin.UnreviewedRows | backend/feedback/admin.py:19 | A selected row gets `is_reviewed = false` and no `reviewed_at` with its other fields kept, and an unselected row is unchanged. |
| Admin.OneTimestampPerAction | backend/feedback/admin.py:15 | All rows touched by one action share one review time. |
| Admin.ActionsKeepReviewConsistency | backend/feedback/admin.py:15-19 | After either action every selected row is unreviewed exactly when it has no review time, so a consistent table stays consistent. |
| Admin.UnreviewIdempotent | backend/feedback/admin.py:19 | Marking rows unreviewed twice gives the same table as marking them once. |
| Admin.ReviewAgainMovesOnlyTimestamp | backend/feedback/admin.py:15 | Marking rows reviewed again equals marking them once at the later time, so only `reviewed_at` moves. |
| Admin.UpdatedCountIsSelection | backend/feedback/admin.py:15-16 | The reported count is the number of selected ids present in the table and never exceeds the selection. |
| Serializers.WritableFields | backend/feedback/serializers.py:7-8 | Only title and content are writable. |
| Serializers.Represent | backend/feedback/serializers.py:7 | The output holds exactly the keys id, title, content and created_at in that order, with the row's id, title, content and creation time as their values. |
| Serializers.RepresentHidesReview | backend/feedback/serializers.py:7 | Rows that differ only in review state are represented identically. |
| Serializers.TextValue | backend/feedback/serializers.py:7 | A text is refused as blank exactly when it is all whitespace, refused for a NUL character exactly when it is not blank but holds one, and otherwise accepted in stripped form. |
| Serializers.CharField | backend/feedback/serializers.py:7 | A missing field is "required", null is "may not be null", a string or whole number is judged by its text, and a boolean, array or object is "Not a valid string.". A timestamp value occurs only in responses; the contract gives it the same message. |
| Serializers.WholeNumberAccepted | backend/feedback/serializers.py:7 | A whole number is always accepted as its decimal text. |
| Serializers.Validate | backend/feedback/serializers.py:7-8 | A body is valid exactly when title and content both are, and otherwise the errors list exactly the failing fields, title before content, each with its message. |
| Serializers.ValidateIgnoresReadOnly | backend/feedback/serializers.py:8 | Adding, changing or removing id, created_at, is_reviewed or any other non-writable key does not change the outcome. |
| Views.PublicQueryset | backend/feedback/views.py:9-10 | The listing holds exactly the reviewed rows and nothing else. |
| Views.PublicQuerysetStep | backend/feedback/views.py:10 | One more table row adds that row to the listing when it is reviewed, and nothing otherwise. |
| Views.PublicQuerysetKeepsOrder | backend/feedback/views.py:10 | The listing keeps table order. |
| Views.PublicQuerysetOfReviewed | backend/feedback/views.py:10 | A listing of reviewed rows passes the filter unchanged, because no further filter exists. |
| Views.PublicQuerysetIdempotent | backend/feedback/views.py:10 | Filtering twice gives the same listing as filtering once. |
| Views.ListFeedback | backend/feedback/views.py:7-10 | The listing needs no authorisation, changes nothing and answers with the public representation of each reviewed row in order. |
| Views.CreateFeedback | backend/feedback/views.py:15-16 | A valid body appends exactly one unreviewed row built from title and content and answers with its representation, advancing the next id by one, while an invalid one changes nothing and answers with the field errors. |
| ClearFeedback.Confirmed | backend/feedback/management/commands/clear_feedback.py:15-20 | Deletion proceeds with --no-input, and otherwise exactly for an answer that is "yes" in any mix of case with nothing around it. |
| ClearFeedback.ConfirmationExamples | backend/feedback/management/commands/clear_feedback.py:15-20 | The answer "YES" is accepted, "y", " yes" and "" are not, and --no-input accepts anything. |
| ClearFeedback.Handle | backend/feedback/management/commands/clear_feedback.py:14-31 | The command cancels with the table unchanged exactly when unconfirmed, raises the prefixed error with the table unchanged when the delete fails, and otherwise empties the table and reports the number of rows before. |
| PopulateFeedback.ItemContent | backend/feedback/management/commands/populate_feedback.py:24-27 | Item i's content starts with "This is the detailed content for feedback item number i.". |
| PopulateFeedback.ItemTitlesDistinct | backend/feedback/management/commands/populate_feedback.py:23 | Different items have different titles. |
| PopulateFeedback.BuildItems | backend/feedback/management/commands/populate_feedback.py:15-30 | Exactly 65 items are built, item k having the title and content of number k+1 and the k-th picked flag. |
| PopulateFeedback.SaveAll | backend/feedback/management/commands/populate_feedback.py:32-35 | Each item is appended in order with the next id, the save time and no review time, earlier rows stay, and the count is the number of items. |
| PopulateFeedback.Handle | backend/feedback/management/commands/populate_feedback.py:9-37 | The old rows are replaced by exactly 65 rows saved in order, row k being item k+1 with its title, content and picked flag, and the report gives the count 65 with the three messages. |
| FeedbackForm.Display | frontend/components/FeedbackForm.tsx:26-37 | A single message shows as itself, an empty list as the empty text, a list of one message as that message, and a longer list as its first message, ", " and the rest shown the same way. |
| FeedbackForm.Stringify | frontend/components/FeedbackForm.tsx:43 | A single message, an empty list and a list of one message convert to text as `Display` shows them, and a longer list is its first message, "," with no space and the rest converted the same way. |
| FeedbackForm.DisplayAndStringifyDiffer | frontend/components/FeedbackForm.tsx:27-43 | Field messages join a list with ", " while the fallback general message joins it with ",". |
| FeedbackForm.DisplayAddsSpaces | frontend/components/FeedbackForm.tsx:27-43 | For a non-empty list, the displayed text is longer than the converted text by one space per separator. |
| FeedbackForm.StringifySplits | frontend/components/FeedbackForm.tsx:43 | A non-empty list of comma-free messages is recovered by splitting its converted text at the commas. |
| FeedbackForm.Get | frontend/components/FeedbackForm.tsx:26 | A key's value is present exactly when an entry has that key, and it is the value of the first such entry. |
| FeedbackForm.FieldMessage | frontend/components/FeedbackForm.tsx:26-37 | A field message exists exactly when the entry is present and truthy, and it is that entry's displayed text. |
| FeedbackForm.FirstOtherKey | frontend/components/FeedbackForm.tsx:39-41 | The result is the position of the first key other than title, content and non_field_errors, in key order, or none when there is no such key. |
| FeedbackForm.MapApiErrors | frontend/components/FeedbackForm.tsx:22-47 | Absent or empty server errors show nothing, title and content come from their own entries, and the general message comes from non_field_errors or else from the first other key's value. |
| FeedbackForm.TitleErrorFromServer | frontend/components/FeedbackForm.tsx:26-29 | A title error shows exactly for a truthy title entry and reads that entry. |
| FeedbackForm.GeneralMissing | frontend/components/FeedbackForm.tsx:34-44 | No general message shows exactly when non_field_errors is missing or falsy and no other key exists. |
| FeedbackForm.LocalErrors | frontend/components/FeedbackForm.tsx:51-57 | The local check shows "Title is required." exactly for a blank title and "Content is required." exactly for blank content, and never a general message. |
| FeedbackForm.Form.constructor | frontend/components/FeedbackForm.tsx:14-24 | A new form has empty fields and shows the mapped server errors. |
| FeedbackForm.Form.Edit | frontend/components/FeedbackForm.tsx:101-129 | Typing sets the two fields. |
| FeedbackForm.Form.ReceiveApiErrors | frontend/components/FeedbackForm.tsx:22-47 | A new server-error prop replaces the shown errors wholesale. |
| FeedbackForm.Form.BeginSubmit | frontend/components/FeedbackForm.tsx:49-67 | With a blank field only the local errors show and nothing is sent, and otherwise the errors clear and the trimmed fields are sent. |
| FeedbackForm.Form.SettleSubmit | frontend/components/FeedbackForm.tsx:66-75 | Success empties both fields, while failure keeps them and shows the failure message only when no server-error prop is set. |
| FeedbackForm.Form.HandleSubmit | frontend/components/FeedbackForm.tsx:49-76 | The whole handler sends the trimmed fields only when both are non-blank, then clears the fields if the callback resolves, and if it rejects keeps them and shows the failure message only when no server-error prop is set. |
| Api.NeedsCsrfToken | frontend/lib/api.ts:16 | Only "get" and "GET" go without a token: every other method needs one, including mixed-case spellings such as "Get". |
| Api.NeedsCsrfTokenExamples | frontend/lib/api.ts:16 | The methods "get" and "GET" skip the token while "post", "patch" and "Get" fetch one. |
| Api.Intercept | frontend/lib/api.ts:15-30 | A token is fetched exactly when the method needs one, `X-CSRFToken` is set only to a non-empty fetched token, the other headers are unchanged and the request always proceeds. |
| Api.ReviewedValue | frontend/lib/api.ts:87-96 | The is_reviewed pair is left out for undefined, null or "all", is "true" exactly for `true` or "true", and is "false" for any other value. |
| Api.ReviewedValueExamples | frontend/lib/api.ts:94 | The values "false", "TRUE", "", "ALL" and `false` all send "false". |
| Api.AdminListQuery | frontend/lib/api.ts:76-100 | The keys come in the order page, search, is_reviewed, each at most once, with page only when given and non-zero, search only when non-empty and unaltered, and an empty query exactly when none applies. |
| Api.PublicFeedbackPath | frontend/lib/api.ts:33-36 | The path is the prefix followed by the given page in decimal, or by 1 when no page is given. |
| Api.PublicFeedbackPathReadsBack | frontend/lib/api.ts:33-36 | Reading the page number back from the path gives the requested page, or 1 when none was given. |
| Api.UpdateFeedback | frontend/lib/api.ts:104-110 | The body holds is_reviewed only and the path lies under /admin/feedback/. |
| Api.RoutePk | backend/feedback/urls.py:8 | A path matches the update route only when it is the prefix, decimal digits and a closing slash, and then the id is the value of those digits. |
| Api.RoutePkOfPath | backend/feedback/urls.py:8 | The prefix, a text and a closing slash match the route exactly when the text is all digits, and then give their value. |
| Api.UpdateFeedbackRoutesToId | frontend/lib/api.ts:104-110 | The update path of a non-negative id reaches that id's route, a negative id matches no route, and the PATCH method is one for which the interceptor requests a token. |
| Api.SubmitFeedback | frontend/lib/api.ts:40-53 | Success passes the created row through, and a failure rethrows the server's body when there is a truthy one, or else the original error. |
| HomePage.BannerOf | frontend/app/page.tsx:50-60 | The success banner shows whenever success is set, and the error banner only when error is set and success is not. |
| HomePage.Page.constructor | frontend/app/page.tsx:9-11 | A new page is not submitting and has no messages. |
| HomePage.Page.BeginSubmitFeedback | frontend/app/page.tsx:17-19 | Starting a submission sets submitting and clears both messages. |
| HomePage.Page.SettleSubmitFeedback | frontend/app/page.tsx:22-32 | Success sets the thank-you text, failure sets the failure text, and submitting ends either way. |
| HomePage.Page.HandleSubmitFeedback | frontend/app/page.tsx:13-33 | The handler always resolves and ends not submitting, showing only the thank-you banner on success and only the error banner on failure. |
| HomePage.Page.ExpireSuccess | frontend/app/page.tsx:26 | The timer clears the success text. |
| HomePage.SubmitThroughForm | frontend/app/page.tsx:21-32 | The form clears its fields after any sent submission, failed or not, because the handler never rejects. |
| FeedbackCard.BorderOf | frontend/components/FeedbackCard.tsx:17-21 | The border is green exactly for an undefined or true flag and yellow exactly for false. |
| FeedbackCard.Checked | frontend/components/FeedbackCard.tsx:31 | The box is checked exactly for a true flag, so undefined is unchecked. |
| FeedbackCard.Toggle | frontend/components/FeedbackCard.tsx:32-34 | With a callback the change asks for the id and the opposite of the checked state, so undefined asks for true, and without one nothing happens. |
| FeedbackCard.StatusText | frontend/components/FeedbackCard.tsx:46-48 | A status line shows exactly for a defined flag, reading "Reviewed" for true and "Pending" for false. |
| FeedbackCard.View | frontend/components/FeedbackCard.tsx:10-50 | The checkbox exists exactly for an admin and shows the checked state. |
| FeedbackCard.AdminCardAgrees | frontend/components/FeedbackCard.tsx:17-48 | For an admin the checkbox, border and status agree, and the requested flag shows flipped once saved. |
| FeedbackCard.ReviewFlag | frontend/components/FeedbackCard.tsx:18 | The flag is present exactly when the last is_reviewed entry of the record holds a boolean, and it is that boolean. |
| FeedbackCard.PublicRecordCard | frontend/components/FeedbackCard.tsx:17-48 | A public record carries no flag, so its card is green with no status line. |
| AdminPage.Render | frontend/app/admin/page.tsx:19-68 | The page shows the spinner exactly while loading, nothing exactly when signed out, and the panel with all counters 0 exactly when signed in. |
| AdminPage.Redirect | frontend/app/admin/page.tsx:13-17 | The page redirects to /login exactly when not loading and signed out. |
| AdminPage.GuardCases | frontend/app/admin/page.tsx:13-68 | The redirect comes exactly with the empty render and never with the spinner or the panel. |

## Left out

- Network transport: axios, the token GET and the HTTP calls are not modelled. Their outcomes are inputs: `TokenFetch`, the `Result` of a POST and the `onSubmit` outcome.
- Api.Intercept: axios lower-cases `config.method` before request interceptors run, so in practice only "get" skips the token; the model keeps the method as an arbitrary string and checks both spellings, as the code does.
- Percent-encoding: the query string's serialisation (`URLSearchParams.toString()`, the WHATWG URL Standard's application/x-www-form-urlencoded serializer) is left out. The query is an ordered list of pairs.
- Framework internals: the Django ORM, DRF generic views, routing and `dj_database_url` are not modelled. `update`, `delete`, `filter` and `save` are modelled by their effect on the row sequence.
- models.py is not part of this model. Its assumed defaults are:
  - new rows are unreviewed with no review time;
  - ids increase and are never reused;
  - `title` and `content` are DRF `CharField`s with default options.

  The missing-field, null, blank and NUL-character messages in `Serializers` follow DRF's defaults.
- Serializers.CharField: length limits (`max_length` of the model fields) are not modelled, since models.py is not part of this model.
- Serializers.CharField: JSON numbers with a fraction or an exponent are not modelled; `Json` has whole numbers only, and Python's `str()` of a float is not modelled.
- Serializers.CharField: DRF's refusal of surrogate characters is not modelled, because a Dafny `char` is a Unicode scalar value and cannot hold a surrogate.
- Views.PublicQueryset: the listing is in table order, taken to be id order. models.py is not part of this model, and without a `Meta.ordering` the database does not promise any order for an unordered query.
- PopulateFeedback.Handle: seeded rows drawn as reviewed are saved with `reviewed_at` empty, as the code passes no review time, so they do not satisfy `Records.ReviewConsistent`. Whether the model's `save()` fills it in is not known, since models.py is not part of this model.
- Text.IntToDecimal: it stands for JavaScript's `Number.prototype.toString` only for integers below 10^21 in magnitude that are exactly representable. Exponent notation from 10^21 upwards and the loss of precision above 2^53 are not modelled.
- FeedbackCard.ReviewFlag: a non-boolean `is_reviewed` value (for example `null`) is read as undefined. The card's handling of such values is not modelled, because the server sends booleans.
- The admin server views `AdminFeedbackListView` and `AdminFeedbackUpdateView` named in `urls.py` are not part of this model. Only their route's id parsing is modelled, in `Api.RoutePk`.
- `wait_for_db.py`, `Navigation.tsx`, all markup, CSS and console output are left out: they are I/O or rendering.
- `authApi` (login, logout, auth check) and the auth context are left out. The admin guard takes the two auth flags as inputs.
- `SECRET_KEY` and its fallback are not modelled; they are an opaque constant.
- Times: each action takes `now` as a parameter. The model gives every row saved by one command the same creation time, although the database stamps each save separately.
- Randomness: `random.choice` is an arbitrary choice. The model returns the picks and does not model their distribution.
- Timers: the 5 s success timer is the explicit event `HomePage.Page.ExpireSuccess`. Because each timer clears `success` whatever it holds, an earlier submission's timer can clear a later success message early.
- Concurrency: typing or a prop change while `handleSubmit` awaits is not modelled. The handler is two phases with nothing in between.
- Object key order: `Object.keys(apiErrors)` is taken as the given order of the entries, and its keys are taken to be distinct.
- Text.Lower: only ASCII letters are lowered, where Python's `lower()` covers Unicode. This does not change the comparisons with "true" and "yes": the only non-ASCII characters that lower-case to ASCII letters are U+0130 (to "i̇", two characters) and U+212A (KELVIN SIGN, to "k"), and neither letter occurs in those words.
- Api.AdminListQuery: page is an integer. JavaScript's `NaN` (falsy, so dropped) and fractional pages are not modelled.
- Reading the confirmation answer can fail at end of input; that error is not modelled.
- Server errors that are an empty array count as truthy in JavaScript. `FeedbackForm.MapApiErrors` therefore sets an empty title or content message for them, as the code does.

# Feedback collection app: a verified model of its logic

The application is a one-page feedback form with an admin listing. Visitors give
a name, an email, a 1–5 star rating, a list of improvement options and an
optional free-text suggestion. Records are created through a server action,
listed newest first, and a status dot shows whether the last database ping
succeeded. This project models the parts of it that carry logic:

- `Actions` (`actions.dfy`) models `src/lib/actions.ts`. `submitFeedback` runs
  its three checks in a fixed order: required fields, rating range, then the
  email pattern `^[^\s@]+@[^\s@]+\.[^\s@]+$`. It builds the normalised record
  and makes a single `create` on a `FeedbackStore` object, which holds the
  persisted records as a `seq`. `getFeedbacks` returns the records newest first
  or the fetch error. `healthCheck` returns the ping outcome, stamped with the
  time.
- `FeedbackForm` (`feedback_form.dfy`) models the form state of
  `src/components/global/Feedback-form.tsx`: the rating, the selection list and
  the "Other" text, plus the rendering rules for filled stars, checkbox ids and
  the "Other" text area.
- `HealthStatus` (`health_status.dfy`) models the three-state indicator of
  `src/components/ui/health-status.tsx` and its colour and label maps.
- `BaseUrl`, `Robots` and `Sitemap` (`base_url.dfy`, `robots.dfy`,
  `sitemap.dfy`) model `src/app/robots.ts` and `src/app/sitemap.ts`: the base
  URL fallback, the single trailing-slash strip, the robots rules and
  the two sitemap entries.
- `Text`, `Seqs` and `Optional` are shared helpers.
  - `Text` covers ECMAScript whitespace, `trim`, ASCII lower-casing, `[a-zA-Z0-9]` and the first index of a character.
  - `Seqs` covers order-preserving filtering, subsequences and insertion sort by a numeric key, largest first.
  - `Optional` covers JavaScript's absent values.

Things outside the code are parameters:

- the store's reply to `create` (the id and creation time it assigns, or an
  exception);
- whether `revalidatePath` throws;
- whether a query throws;
- the clock;
- the value of `NEXT_PUBLIC_BASE_URL`.

Some consequences of the code that a reader might not expect:

- The required-field check tests the untrimmed name, so a whitespace-only
  name passes and is stored as `""` (`Actions.WhitespaceNameStoredEmpty`).
- The pattern runs on the raw address before trimming, so
  `"Jane@Example.COM "` is rejected, not normalised
  (`Actions.TrailingSpaceEmailRejected`). For an accepted address the trim is
  a no-op (`Actions.ValidEmailIsTrimmed`).
- The improvements are a list: checking appends, so a repeated check stores
  a duplicate, and unchecking removes every copy.
- If `revalidatePath` throws after a successful `create`, the record stays
  stored but the response is the generic failure (`Actions.SubmitFeedback`).
- The robots rule `/admin/` (a path prefix) does not cover `/admin`, the admin
  URL that the sitemap lists (`Robots.AdminPageNotDisallowed`).

## Model

| member | source | states |
|---|---|---|
| `Text.IsWhitespace` | src/lib/actions.ts:32-47 | the ECMAScript WhiteSpace and LineTerminator code points (tab to carriage return, space, U+00A0, U+1680, U+2000–U+200A, U+2028, U+2029, U+202F, U+205F, U+3000, U+FEFF): what `\s` matches in the email pattern and what `trim` strips |
| `Text.TrimStart` | src/lib/actions.ts:43 | the result is the suffix of the input left after a whitespace-only prefix, and it does not start with whitespace |
| `Text.TrimEnd` | src/lib/actions.ts:43 | the result is the prefix of the input left before a whitespace-only suffix, and it does not end with whitespace |
| `Text.Trim` | src/lib/actions.ts:43-47 | `trim` is no longer than its input, and neither end of the result is whitespace |
| `Text.TrimIsInfix` | src/lib/actions.ts:43-47 | the trimmed text is a contiguous piece of the input with only whitespace on either side |
| `Text.TrimNoWhitespace` | src/lib/actions.ts:44 | a string without whitespace is its own trim |
| `Text.TrimEmptyIff` | src/lib/actions.ts:47 | the trim is empty exactly when the input is whitespace only |
| `Text.TrimFixedIff` | src/lib/actions.ts:43 | trim leaves a string unchanged exactly when neither of its ends is whitespace |
| `Text.TrimIdempotent` | src/lib/actions.ts:43 | trimming twice equals trimming once |
| `Text.IsAsciiAlnum` | src/components/global/Feedback-form.tsx:101 | the class `[a-zA-Z0-9]` kept by the checkbox id |
| `Text.ToLowerAscii` | src/lib/actions.ts:44 | lower-casing keeps the length, leaves no upper-case ASCII letter, shifts each A–Z by 32 and keeps every other character |
| `Text.ToLowerAsciiIdentityIff` | src/lib/actions.ts:44 | lower-casing is the identity exactly on strings without upper-case letters, and it is idempotent |
| `Seqs.Filter` | src/components/global/Feedback-form.tsx:31 | every kept element satisfies the condition and comes from the input; every input element that satisfies it is kept |
| `Seqs.FilterIsSubsequence` | src/components/global/Feedback-form.tsx:31 | filtering keeps the input order (the result is a subsequence) |
| `Seqs.FilterCount` | src/components/global/Feedback-form.tsx:31 | filtering keeps each kept value as many times as it occurs, and drops every other value |
| `Seqs.FilterAppend` | src/components/global/Feedback-form.tsx:29-31 | filtering distributes over concatenation |
| `Seqs.FilterIdempotent` | src/components/global/Feedback-form.tsx:31 | filtering twice equals filtering once |
| `Text.IndexOf` | src/lib/actions.ts:32 | the position of the first occurrence of a character, or the length when it is absent |
| `Actions.ErrorMessage` | src/lib/actions.ts:17-37 | the message of each validation error: "Name, email, and rating are required fields.", "Rating must be between 1 and 5.", "Please enter a valid email address." |
| `Actions.IsEmailChar` | src/lib/actions.ts:32 | the class `[^\s@]`: any character that is neither whitespace nor `@` |
| `Actions.MatchesEmailRegex` | src/lib/actions.ts:32 | the regular expression read as a string property: a non-empty run of non-whitespace, non-`@` characters, an `@`, another such run, a `.`, and a third such run up to the end |
| `Actions.IsValidEmail` | src/lib/actions.ts:32-33 | the address test as a computation: the first `@` splits the address into a non-empty local part and a domain, neither holding `@` or whitespace, and the domain has a `.` with a character on each side |
| `Actions.IsValidEmailIffRegex` | src/lib/actions.ts:32-33 | the `@`/local part/domain/inner-dot check accepts exactly the strings the regular expression matches (both directions) |
| `Actions.ValidEmailIsTrimmed` | src/lib/actions.ts:32-44 | an accepted address has no whitespace, so the trim at line 44 is a no-op |
| `Actions.LowerKeepsEmailValid` | src/lib/actions.ts:44 | the lower-cased form of an accepted address is still accepted |
| `Actions.FirstFailedCheck` | src/lib/actions.ts:17-38 | the three checks in source order: empty name, empty email or zero rating gives the required-fields error; else a rating outside 1..5 gives the range error; else a rejected address gives the email error; else no error |
| `Actions.PassedChecks` | src/lib/actions.ts:17-38 | passing validation means the name and email are non-empty, the rating is 1..5 and the email is accepted |
| `Actions.RequiredFieldsCheckedFirst` | src/lib/actions.ts:17-22 | the "required fields" error is returned exactly for an empty name, an empty email or a zero rating; rating 0 never yields the range error |
| `Actions.RatingRangeChecked` | src/lib/actions.ts:24-29 | with the required fields present, the range error is returned exactly for a rating below 1 or above 5 |
| `Actions.ValidationIff` | src/lib/actions.ts:17-38 | a submission passes exactly when the name is non-empty, the rating is in 1..5 and the email matches the regular expression |
| `Actions.TrailingSpaceEmailRejected` | src/lib/actions.ts:32-38 | an email ending in whitespace gets the "valid email" error, because the pattern sees the raw value |
| `Actions.NormalizeSuggestion` | src/lib/actions.ts:47 | `otherSuggestion?.trim()`, or null when that is empty: absent stays absent, a text whose trim is empty becomes absent, any other text becomes its trim |
| `Actions.Normalize` | src/lib/actions.ts:41-48 | the record data given to `create`: trimmed name, trimmed then lower-cased email, rating and improvements as given, normalised suggestion |
| `Actions.SubmitResponse` | src/lib/actions.ts:14-66 | the value `submitFeedback` returns: the first failed check's message, else the generic retry message when `create` or `revalidatePath` throws, else the thank-you message with the store's id |
| `Actions.NormalizedFields` | src/lib/actions.ts:41-49 | for an accepted submission the created email is the lower-cased input, the name is the trimmed input, and rating and improvements pass through unchanged |
| `Actions.SuggestionNormalized` | src/lib/actions.ts:47 | the stored suggestion is null exactly when the input is absent or whitespace only; otherwise it is the non-empty trimmed text |
| `Actions.WhitespaceNameStoredEmpty` | src/lib/actions.ts:17-43 | a whitespace-only name passes validation and is stored as the empty string |
| `Actions.LoweredEmailIsStored` | src/lib/actions.ts:44 | lower-casing an accepted address gives an accepted address with no upper-case letter |
| `Actions.NormalizedSuggestionIsStored` | src/lib/actions.ts:47 | a normalised suggestion is absent, or non-empty with no whitespace at either end |
| `Actions.NormalizeWellFormed` | src/lib/actions.ts:41-49 | every record built from an accepted submission has rating 1..5, an accepted lower-case email, a trimmed name and a non-blank trimmed or absent suggestion |
| `Actions.SubmitResponseCases` | src/lib/actions.ts:17-65 | success exactly when validation passes, `create` returns and revalidation does not throw, carrying the store's id; otherwise the first check's error or the generic retry message, with no success fields |
| `Actions.AppendWellFormed` | src/lib/actions.ts:41 | appending a well-formed record to a well-formed record list keeps it well-formed |
| `Seqs.InsertByKeyDesc` | src/lib/actions.ts:70-74 | inserting into a list ordered by key, largest first, keeps it ordered and adds exactly that element |
| `Seqs.SortByKeyDesc` | src/lib/actions.ts:70-74 | the result is ordered by key, largest first, and is a permutation of the input |
| `Actions.SortNewestFirst` | src/lib/actions.ts:70-74 | the result is ordered by `createdAt` descending and is a permutation of the records |
| `Actions.FeedbackStore.Create` | src/lib/actions.ts:41-49 | `create` of a well-formed record appends exactly one record carrying the given fields, id and time, and keeps every stored record well-formed |
| `Actions.FeedbackStore.FindManyNewestFirst` | src/lib/actions.ts:70-74 | `findMany` returns the store's records, newest first |
| `Actions.SubmitFeedback` | src/lib/actions.ts:14-66 | the response is the one described above; the store gains the single normalised record exactly when validation passes and `create` returns, and is otherwise unchanged; stored records stay well-formed |
| `Actions.GetFeedbacks` | src/lib/actions.ts:68-81 | success exactly when the query does not throw, with the store's records newest first; otherwise "Failed to fetch feedbacks." |
| `Actions.HealthCheck` | src/lib/actions.ts:83-101 | success exactly when the ping does not throw, with the healthy or failed message; both paths carry the current time |
| `FeedbackForm.Without` | src/components/global/Feedback-form.tsx:31 | `prev.filter((item) => item !== option)`: the selection with every entry equal to the option dropped |
| `FeedbackForm.CheckboxId` | src/components/global/Feedback-form.tsx:101 | `option.replace(/[^a-zA-Z0-9]/g, "")`: the option text with every character outside `[a-zA-Z0-9]` dropped |
| `FeedbackForm.IsStarFilled` | src/components/global/Feedback-form.tsx:73 | star `star` is drawn filled exactly when `star <= rating` |
| `FeedbackForm.FilledStars` | src/components/global/Feedback-form.tsx:69-73 | the stars 1..5, in rendering order, that are drawn filled for a rating |
| `FeedbackForm.FormState.IsOtherSelected` | src/components/global/Feedback-form.tsx:38 | `isOtherSelected`: the "Other" option occurs in the selection, which is when the text area is rendered |
| `FeedbackForm.FormState.IsChecked` | src/components/global/Feedback-form.tsx:102 | the box of an option is checked exactly when the option occurs in the selection |
| `FeedbackForm.UncheckRemovesEveryOccurrence` | src/components/global/Feedback-form.tsx:30-31 | unchecking removes every occurrence of the option and keeps every other entry with its multiplicity and in its original order |
| `FeedbackForm.CheckThenUncheck` | src/components/global/Feedback-form.tsx:28-31 | checking then unchecking an option gives the same selection as unchecking alone |
| `FeedbackForm.UncheckIdempotent` | src/components/global/Feedback-form.tsx:31 | unchecking twice equals unchecking once |
| `FeedbackForm.CheckboxIdCharacters` | src/components/global/Feedback-form.tsx:101 | a checkbox id holds only `[a-zA-Z0-9]`, is an order-preserving subsequence of the option text and keeps every alphanumeric character of it |
| `Seqs.FilterPrefix` | src/components/global/Feedback-form.tsx:69-73 | filtering by a condition that holds exactly on a prefix keeps that prefix |
| `FeedbackForm.FilledStarsArePrefix` | src/components/global/Feedback-form.tsx:69-73 | for a rating 0..5, the filled stars (`star <= rating`) are exactly the first `rating` stars, so none are filled at rating 0 |
| `FeedbackForm.FormState.constructor` | src/components/global/Feedback-form.tsx:13-15 | the form starts with rating 0, no selection and empty "Other" text |
| `FeedbackForm.FormState.HandleCheckboxChange` | src/components/global/Feedback-form.tsx:27-38 | checking appends the option; unchecking filters it out; unchecking "Other" clears the text and nothing else touches it; the option's box afterwards shows `checked`, other boxes are unchanged, and "Other" text still exists only while "Other" is checked |
| `FeedbackForm.FormState.ClickStar` | src/components/global/Feedback-form.tsx:69-75 | clicking star k sets the rating to k, fills exactly the first k stars and leaves the rest of the form alone |
| `FeedbackForm.FormState.EditOtherText` | src/components/global/Feedback-form.tsx:110-117 | the text area, available only while "Other" is checked, replaces the "Other" text and nothing else, keeping the form's invariant |
| `HealthStatus.StatusAfter` | src/components/ui/health-status.tsx:19-24 | a returned result sets `healthy` when it reports success and `error` otherwise; a thrown call sets `error` |
| `HealthStatus.Step` | src/components/ui/health-status.tsx:17-26 | one completed check: the status from its outcome and the stamp from its completion time |
| `HealthStatus.Replay` | src/components/ui/health-status.tsx:13-26 | the indicator state after a sequence of completed checks, starting from `checking` with no stamp |
| `HealthStatus.StatusColor` | src/components/ui/health-status.tsx:37-46 | `getStatusColor`: green for `healthy`, red for `error`, yellow otherwise |
| `HealthStatus.StatusText` | src/components/ui/health-status.tsx:48-57 | `getStatusText`: "Database Connected", "Database Error", "Checking..." |
| `HealthStatus.ReplayAfterChecks` | src/components/ui/health-status.tsx:13-26 | the state is `checking` exactly when no check has completed; afterwards the stamp is the last completion's time and the status comes from its outcome |
| `HealthStatus.StatusFollowsPing` | src/components/ui/health-status.tsx:19-24 | a returned result gives `healthy` exactly when the ping succeeded; a thrown call gives `error`; no completion gives `checking` |
| `HealthStatus.StatusDisplayInjective` | src/components/ui/health-status.tsx:37-57 | the colour and label maps are total and tell the three states apart |
| `HealthStatus.HealthIndicator.constructor` | src/components/ui/health-status.tsx:13-14 | the indicator starts `checking` with no last-check stamp |
| `HealthStatus.HealthIndicator.CheckHealth` | src/components/ui/health-status.tsx:17-26 | a completed check sets the status from its outcome and always sets the stamp; the status is never `checking` afterwards |
| `BaseUrl.EndsWith` | src/app/robots.ts:5 | `String.prototype.endsWith`: the suffix is no longer than the string and equals its last characters |
| `BaseUrl.ResolveBaseUrl` | src/app/robots.ts:4 | an absent or empty configured URL falls back to `http://localhost:3000`; any other value is used as is; the result is never empty |
| `BaseUrl.CleanBaseUrl` | src/app/robots.ts:5 | the result is a prefix of the input at most one character shorter: with a trailing `/` exactly that `/` is dropped, otherwise nothing |
| `BaseUrl.SiteBase` | src/app/robots.ts:4-5 | the configured URL with its fallback applied, then one trailing `/` stripped |
| `BaseUrl.DefaultIsClean` | src/app/sitemap.ts:4-7 | with no URL configured the cleaned base is the default URL itself |
| `BaseUrl.CleanedEndsWithSlashIff` | src/app/sitemap.ts:7 | the cleaned base still ends with `/` exactly when the URL ended with `//` |
| `BaseUrl.OnlyOneSlashRemoved` | src/app/sitemap.ts:7 | `x//` becomes `x/`, so cleaning is not idempotent |
| `Robots.Robots` | src/app/robots.ts:3-22 | `robots()`: the two crawler rules and the sitemap URL built from the cleaned base |
| `Robots.RobotsRules` | src/app/robots.ts:8-19 | exactly two rules, `*` then `Googlebot`, both allowing `/` and disallowing `/admin/`, `/api/`, `/_next/`, `/static/` |
| `Robots.SitemapLocation` | src/app/robots.ts:20 | the sitemap field is the cleaned base followed by `/sitemap.xml`, which is `http://localhost:3000/sitemap.xml` when no URL is configured |
| `BaseUrl.JoinDoubleSlashIff` | src/app/robots.ts:5-20 | a path joined to the cleaned base follows a doubled slash exactly when the URL ended with `//` (so the sitemap URL has `//sitemap.xml` exactly then) |
| `Robots.AdminPageNotDisallowed` | src/app/robots.ts:12 | under prefix matching, neither rule disallows the path `/admin` |
| `Sitemap.Sitemap` | src/app/sitemap.ts:3-23 | `sitemap()`: the home entry (daily, priority 1) and the `/admin` entry (weekly, priority 0.3), both stamped with the time given |
| `Sitemap.SitemapEntries` | src/app/sitemap.ts:9-22 | two entries in order: the cleaned base changing `daily`, then the base plus `/admin` changing `weekly` with a lower priority |
| `Sitemap.RobotsPointsBelowHome` | src/app/sitemap.ts:9-11 | the robots sitemap URL is the sitemap's first URL followed by `/sitemap.xml` |

## Left out

- Rendering, layout and styling in every component: these are UI, not logic.
- `src/hooks/useHealthCheck.ts`, `src/app/layout.tsx`, `src/app/page-new.tsx` and `src/app/admin/page.tsx` are not part of this model. They hold timers, notifications, static metadata and a view.
- The timer (`setInterval` every two minutes, `clearInterval` on unmount) is not modelled. A run of the indicator is given by the checks in the order they complete, so checks that overlap are covered, but the schedule is not.
- The Prisma calls (`create`, `findMany`, `$queryRaw`) are not modelled beyond their contracts. They succeed or throw as a parameter says, and the store's id generation and clock are parameters too. `revalidatePath` is modelled only by whether it throws.
- `console.error` logging is left out: it is output only.
- Clock values are plain integers. ISO-string formatting of the `healthCheck` timestamp is left out.
- The form's submit wiring, the in-flight guard and the reset on success are not in this code: the name and email inputs are unbound and the button has no handler.
- Ratings are integers, so the model does not cover what JavaScript does with a fractional or NaN rating.
- Strings are sequences of Unicode scalar values, not UTF-16 code units. Every character the pattern and `trim` test lies in the Basic Multilingual Plane, so this does not change any result.
- Text.ToLowerAscii: lower-cases only A–Z. JavaScript's `toLowerCase` also maps non-ASCII letters, and that mapping is not modelled.
- Actions.SortNewestFirst: the order of records with equal `createdAt` is the database's choice, so the model states only the order and the permutation.
- Sitemap.SitemapEntries: priorities are the exact reals 1 and 0.3 rather than floating-point values.
- Sitemap.Sitemap: both entries share one clock reading `now`, whereas the code calls `new Date()` once per entry (src/app/sitemap.ts:12 and :18), and the two readings can differ.
- The labels of the seven improvement options are display data; only the "Other" label, which controls the text area, is part of the model.

# ai-jobchain-connect backend: résumé analysis, job matching and request handling in Dafny

This project models the logic core of the ai-jobchain-connect Django backend:

- **Résumé processor** (`ResumeProcessor`): choose a reader by file extension, flatten the pages or paragraphs to lower-case text, recognise skills from a fixed keyword taxonomy, and infer years of experience from the first of four patterns that matches.
- **Match scorer** (`calculate_job_match`) and the **post-save fan-out** (`job_created_handler`) that messages every job seeker who scores above 60 against a new job.
- **Profile completion** (`calculate_completion`, `perform_update`) and the **résumé upload** view.
- **Job endpoints**: the job summary (`JobDataSerializer.to_dict`), `list_jobs`, `get_job`, and `create_job` with its request defaults and the post-save handler the insert fires.
- **Firebase authentication**: reading the bearer token from the `Authorization` header, splitting the display name, and the user lookup, which fails as written (see Findings).

Everything is pure. Stores (profiles, employers, users, jobs) are maps or sequences. Each external service is a function parameter: the PDF/DOCX readers, token verification, the database insert, and the money and date formatters.

Modules:

- `Wrappers`: `Option` and `Result`.
- `Strings`: Python's ASCII `lower`, `title`, `in`, `endswith`, `split(' ')`, `split()`, `' '.join` and `str(int)`.
- `StringOrder`: Python's default `str` ordering and `sorted(set(...))`.
- `Choices`: the enumerated model fields.
- `ExperiencePatterns`: the four experience regexes, written out as scanners with `re.findall` semantics.
- `ResumeParser`
- `Profiles`
- `ResumeUpload`
- `Jobs`: the job summary, the listing and the lookup.
- `JobCreation`: `create_job`.
- `MatchScorer`
- `FanOut`
- `FirebaseAuth`

Skill output is sorted by code point, because `_extract_skills` uses the default `list.sort()` on the title-cased names, and the model follows the code. A case-insensitive (alphabetical) sort would give a different order only where a name has punctuation or a digit at the place where the other has a letter, because every name is title-cased.

## Model

| member | source | states |
|---|---|---|
| Choices.ParseLevel | backend/apps/users/models.py:20-25 | a string parses to a level exactly when it is that level's stored code, so parsing inverts `Level.Code` |
| ResumeParser.FormatOf | backend/services/resume_parser.py:78-87 | the PDF reader is chosen iff the lower-cased name ends in `.pdf`; the DOCX reader iff it does not but ends in `.doc` or `.docx` |
| ResumeParser.FormatIgnoresCase | backend/services/resume_parser.py:80 | a file name and its lower-cased form select the same reader |
| ResumeParser.ExtractText | backend/services/resume_parser.py:78-109 | a PDF or DOCX read gives the lower-cased pieces each followed by a newline; a reader's error becomes "Failed to extract text from PDF: " (or DOCX) followed by the error; any other extension fails with the unsupported-format error |
| ResumeParser.SplitJoinPieces | backend/services/resume_parser.py:92-96 | the text before lower-casing is the pieces each followed by a newline: splitting at newlines gives the pieces back (plus the empty tail) when no piece holds a newline |
| ResumeParser.JoinPiecesLength | backend/services/resume_parser.py:103-107 | the joined text is as long as all pieces together plus one newline per piece |
| ResumeParser.ProcessedTextLength | backend/services/resume_parser.py:72 | the reported `text_length` is the sum of the page (or paragraph) lengths plus their number |
| ResumeParser.ProcessResume | backend/services/resume_parser.py:51-76 | processing fails iff extraction fails, and every failure (unsupported format included) is reported as "Failed to process resume: " followed by the cause; on success the skills, experience and length are those of the extracted text |
| ResumeParser.KeywordsLowerCase | backend/services/resume_parser.py:13-42 | every keyword of the taxonomy is written in lower case |
| ResumeParser.ExtractSkills | backend/services/resume_parser.py:111-124 | the output is strictly increasing (so free of duplicates), and a name is in it iff it is the title-cased form of a keyword occurring in the text |
| ResumeParser.SkillsFor | backend/services/resume_parser.py:113-124 | for any taxonomy, the output is strictly increasing and a name is in it iff it is the title-cased form of a taxonomy keyword occurring in the text |
| ResumeParser.ReportedIffPresent | backend/services/resume_parser.py:116-118 | for a lower-case taxonomy, a keyword's title-cased name is reported exactly when that keyword is a substring of the text |
| ResumeParser.KeywordReportedIffPresent | backend/services/resume_parser.py:116-118 | a keyword's title-cased name is reported exactly when that keyword is a substring of the text |
| ResumeParser.JavaScriptYieldsJava | backend/services/resume_parser.py:15-16 | matching is by substring, so any text mentioning `javascript` also reports `Java` |
| ResumeParser.LetterRYieldsR | backend/services/resume_parser.py:16 | any text containing the letter `r` reports the skill `R` |
| ResumeParser.SkillsMonotone | backend/services/resume_parser.py:116-118 | every skill found in a part of the text is found in the whole text, whatever the taxonomy |
| ResumeParser.SkillCategories | backend/services/resume_parser.py:155-182 | there are six categories and every categorised skill is one the extractor scans for |
| StringOrder.SortedDistinct | backend/services/resume_parser.py:121-122 | `sorted(set(xs))` is strictly increasing and holds exactly the elements of `xs` |
| StringOrder.StrictlySortedUnique | backend/services/resume_parser.py:121-122 | two strictly increasing lists with the same elements are equal, so the result does not depend on the order `set` iterates in |
| StringOrder.LessTotal | backend/services/resume_parser.py:122 | Python's string order relates any two distinct strings |
| StringOrder.LessTransitive | backend/services/resume_parser.py:122 | Python's string order is transitive |
| Strings.TitleInjective | backend/services/resume_parser.py:118 | title-casing two lower-case keywords gives the same name only if the keywords are equal |
| Strings.LowerOfTitle | backend/services/resume_parser.py:118 | title-casing only changes case: lower-casing the title-cased form gives the lower-cased original |
| ExperiencePatterns.NumberAndUnitEnd | backend/services/resume_parser.py:45-48 | the number-and-unit part all four patterns share (a digit run, optional whitespace, then `year`, `years`, `yr` or `yrs`) starts with a digit and takes at least three characters |
| ExperiencePatterns.UnitEndAt | backend/services/resume_parser.py:45-48 | each unit spelling `years`, `year`, `yrs` or `yr`, in any ASCII case, is taken in full when no `s` follows it |
| ExperiencePatterns.NumberAndUnitEndAt | backend/services/resume_parser.py:45-48 | a digit run, any whitespace and any unit spelling, in any ASCII case and not followed by an `s`, are taken in full, and the number read is the value of the digit run |
| ExperiencePatterns.YearsOfExperienceAt | backend/services/resume_parser.py:45 | a match of the first pattern starts with a digit, ends with the word `experience`, and captures the digit run it starts with |
| ExperiencePatterns.YearsOfExperienceOf | backend/services/resume_parser.py:45 | text of the first pattern's shape is matched in full and captures its number. The shape is digits, whitespace, a unit, whitespace, an optional `of` with its whitespace, then `experience`; any whitespace runs, any unit spelling and any ASCII case are allowed |
| ExperiencePatterns.ExperienceColonAt | backend/services/resume_parser.py:46 | a match of the second pattern starts with `experience:` and captures the digit run that follows the colon and its whitespace |
| ExperiencePatterns.ExperienceColonOf | backend/services/resume_parser.py:46 | `experience:` in any ASCII case, whitespace, digits, whitespace and a unit not followed by `s` are matched in full, capturing the digits' value |
| ExperiencePatterns.YearsInFieldAt | backend/services/resume_parser.py:47 | a match of the third pattern starts with a digit, ends with the word `field`, and captures the digit run it starts with |
| ExperiencePatterns.YearsInFieldOf | backend/services/resume_parser.py:47 | digits, whitespace, a unit, whitespace, `in`, whitespace, an optional `the` with its whitespace, then `field`, in any ASCII case, are matched in full, capturing the digits' value |
| ExperiencePatterns.WorkedForAt | backend/services/resume_parser.py:48 | a match of the fourth pattern starts with `worked` and captures a whole digit run (no digit before it) later in the match |
| ExperiencePatterns.WorkedForOf | backend/services/resume_parser.py:48 | `worked`, whitespace, an optional `for` with its whitespace, digits, whitespace and a unit not followed by `s`, in any ASCII case, are matched in full, capturing the digits' value |
| ExperiencePatterns.FindAllEmptyIff | backend/services/resume_parser.py:136-137 | `findall` returns nothing exactly when the pattern matches at no position of the text |
| ExperiencePatterns.FindAllFront | backend/services/resume_parser.py:136 | a match at the very start of the text gives the first number `findall` reports |
| ExperiencePatterns.FindAllSound | backend/services/resume_parser.py:136-138 | every number `findall` reports was captured by a match at some position of the text |
| ExperiencePatterns.FindAllReadsDigits | backend/services/resume_parser.py:136-138 | when every match captures a digit run of the text it matched, every number `findall` reports is the value of a digit run of the whole text |
| ExperiencePatterns.YearsOfExperienceReadsDigits | backend/services/resume_parser.py:136-138 | every number the first pattern reports is the value of a digit run of the text |
| ExperiencePatterns.ExperienceColonReadsDigits | backend/services/resume_parser.py:136-138 | every number the second pattern reports is the value of a digit run of the text |
| ExperiencePatterns.YearsInFieldReadsDigits | backend/services/resume_parser.py:136-138 | every number the third pattern reports is the value of a digit run of the text |
| ExperiencePatterns.WorkedForReadsDigits | backend/services/resume_parser.py:136-138 | every number the fourth pattern reports is the value of a digit run of the text |
| ResumeParser.Bucket | backend/services/resume_parser.py:143-150 | a level is at or below the chosen level iff the years reach that level's threshold (0, 3, 6, 10) |
| ResumeParser.BucketBands | backend/services/resume_parser.py:143-150 | 10 or more years is expert, 6 to 9 senior, 3 to 5 mid, fewer entry |
| ResumeParser.BucketMonotone | backend/services/resume_parser.py:143-150 | more years never give a lower level |
| ResumeParser.MaxOf | backend/services/resume_parser.py:138 | the maximum is one of the numbers and no number exceeds it |
| ResumeParser.ExtractExperience | backend/services/resume_parser.py:126-153 | the level is the bucket of the total; at most one message is recorded; none is recorded iff no pattern matches, and then the total is 0 |
| ResumeParser.FirstMatchWins | backend/services/resume_parser.py:135-151 | when pattern i is the first with matches, the total is the maximum of its numbers and its message is the only one |
| ResumeParser.LaterPatternsIgnored | backend/services/resume_parser.py:151 | when some pattern in a list matches, whatever patterns follow that list do not change the result |
| ResumeParser.LeadingYearsOfExperienceDecides | backend/services/resume_parser.py:135-151 | text that opens with `<n> years of experience` (any spacing, unit spelling and ASCII case) is settled by the first pattern: the total is the largest number it reports and at least n, whatever `worked for` phrases follow |
| ResumeParser.NoMatchDefaults | backend/services/resume_parser.py:128-132 | with no match the result is 0 years, entry level, no message |
| Profiles.CalculateCompletion | backend/apps/users/views.py:30-41 | a profile is complete iff at least 6 of the 7 required fields are truthy |
| Profiles.CompletionIgnoresOtherFields | backend/apps/users/views.py:69-80 | completion depends only on the truthiness of the seven required fields; both view classes use this one definition |
| Profiles.FalsyFieldsNotCounted | backend/apps/users/views.py:38 | an empty title, an unset level and zero years leave at most 4 fields counted and the profile incomplete |
| Profiles.CountTrueMonotone | backend/apps/users/views.py:38 | making more fields truthy never lowers the count |
| Profiles.CompletionMonotone | backend/apps/users/views.py:38-41 | filling in more required fields never turns a complete profile incomplete |
| Profiles.BlankProfile | backend/apps/users/views.py:97 | the profile `get_or_create` makes has no completed field |
| Profiles.PerformUpdate | backend/apps/users/views.py:24-28 | after an update the account's completion flag is set iff at least 6 required fields of the saved profile are truthy; the account is otherwise unchanged |
| Profiles.PerformUpdateIdempotent | backend/apps/users/views.py:63-67 | repeating an update with the same saved profile changes nothing more |
| ResumeUpload.ProfileOf | backend/apps/users/views.py:97 | `get_or_create` yields the stored profile, or a blank one for a user without a profile |
| ResumeUpload.Upload | backend/apps/users/views.py:86-110 | no file (or an unnamed one) gives 400 and leaves the store alone; a processing failure gives 500 with the message and leaves the store alone; 200 iff a file is present and processed; other users' profiles never change |
| ResumeUpload.UploadStoresWhatItEchoes | backend/apps/users/views.py:97-107 | after a 200 the stored skills and experience are the processor's output and exactly what the response echoes; the stored profile differs from the previous one only in résumé, skills and experience |
| ResumeUpload.UploadKeepsCompletion | backend/apps/users/views.py:97-101 | an upload never changes the seven fields completion is computed from |
| Jobs.CompanyName | backend/apps/jobs/views.py:17 | the company is the employer's company name, or "Unknown Company" for a job without an employer |
| Jobs.SalaryRange | backend/apps/jobs/views.py:19 | the salary range is "$min - $max" when both bounds are set and non-zero, otherwise "Not specified" |
| Jobs.TruncateDescription | backend/apps/jobs/views.py:22 | a description of at most 200 characters is unchanged; a longer one becomes exactly 203 characters, its first 200 followed by "..." |
| Jobs.TruncateIdempotent | backend/apps/jobs/views.py:22 | truncating an already truncated description changes nothing |
| Jobs.ToDict | backend/apps/jobs/views.py:12-26 | the summary carries the job's id, title, location, job type, required experience and remote flag, the company and salary fallbacks, the truncated description, the formatted creation time and the status |
| Jobs.StatusActiveIff | backend/apps/jobs/views.py:25 | the status reads "active" iff the job is active |
| Jobs.ActiveJobs | backend/apps/jobs/views.py:78 | a job is kept iff it is stored and active, and nothing is added |
| Jobs.SortNewestFirst | backend/apps/jobs/views.py:78 | the result is ordered by creation time, newest first, and is a permutation of the input |
| Jobs.InsertByDateStable | backend/apps/jobs/views.py:78 | inserting a job keeps the relative order of the jobs created at each instant, the new job going before those created at the same instant |
| Jobs.SortNewestFirstStable | backend/apps/jobs/views.py:78 | the sort is stable: the jobs created at any one instant come out in their stored relative order |
| Jobs.ListedJobs | backend/apps/jobs/views.py:78 | the listed jobs are ordered newest first and are exactly the stored active jobs |
| Jobs.ListedJobsCount | backend/apps/jobs/views.py:78 | each active job is listed as many times as it is stored, and no inactive job is listed |
| Jobs.ListJobs | backend/apps/jobs/views.py:73-88 | one summary per listed job, in the listing order, each with status "active" |
| Jobs.FindJob | backend/apps/jobs/views.py:95 | the lookup returns a stored job with the id, and returns none iff no stored job has the id |
| Jobs.FindJobUnique | backend/apps/jobs/views.py:95 | with unique ids the lookup returns exactly the job holding the id |
| Jobs.GetJob | backend/apps/jobs/views.py:90-105 | 200 iff some job has the id, and then the body is that job's summary; otherwise 400 with the not-found message |
| JobCreation.JobFieldsFor | backend/apps/jobs/views.py:46-58 | absent keys default to job type "full_time", experience "mid", 0 minimum years and not remote; an absent or empty deadline becomes none; title, description, location, salaries and every present value pass through |
| JobCreation.CreateWith | backend/apps/jobs/views.py:46-71 | the row is saved iff the insert succeeds, and then holds the request's values and defaults, the model defaults (no extracted skills, active) and the database's id and timestamp; 201 with its summary iff the post-save handler does not raise; a handler exception gives 400 with the row already saved |
| JobCreation.CreateJob | backend/apps/jobs/views.py:28-71 | a user without an employer profile always gets 400 with the invalid-field error and nothing saved; a row is saved iff the employer exists and the insert succeeds; 201 iff it is saved and `job_created_handler` over the stored profiles does not fail, and then the summary carries the request's title, location, truncated description, job type, experience and remote flag, the employer's company, the new id and date, and status "active"; every other outcome is 400 with an error |
| JobCreation.NewEmployerAlwaysRejected | backend/apps/jobs/views.py:34-43 | even when every insert would succeed, a first-time poster is rejected |
| JobCreation.NoDeadlineAlwaysRejected | backend/apps/jobs/views.py:57 | with a database that enforces the NOT NULL `expires_at` column, a request with no or an empty deadline gets 400 and nothing is saved |
| JobCreation.SavedButRejected | backend/apps/jobs/views.py:46-71 | when the first stored profile's level differs from the new job's, the row is saved yet the poster gets 400 with Python's TypeError message |
| JobCreation.DefaultEmployer | backend/apps/jobs/views.py:34-43 | the profile the defaults describe takes the company name (or "Unknown Company"), website and description from the request |
| JobCreation.CreateJobIntended | backend/apps/jobs/views.py:34-43 | with the defaults mapped to the model's field names and the corrected scorer, the user always has an employer profile afterwards, existing ones unchanged, and 201 iff the insert succeeds |
| JobCreation.IntendedAgreesForExistingEmployer | backend/apps/jobs/views.py:34-66 | for an existing employer, whenever the written creation answers 201 or saves nothing, the intended creation gives the same response |
| JobCreation.IntendedAcceptsNewEmployer | backend/apps/jobs/views.py:34-66 | under the intended creation a first-time poster gets 201 when the insert succeeds, with the requested company name |
| MatchScorer.FromProfile | backend/apps/users/models.py:19-66 | a stored profile has no location or job-type preference for the scorer to read |
| MatchScorer.LocationPoints | backend/apps/jobs/signals.py:48-52 | 30 points iff both locations are non-empty and the lower-cased preference occurs in, or equals, the lower-cased job location; otherwise 0 |
| MatchScorer.LocationEqualityRedundant | backend/apps/jobs/signals.py:48-52 | the location points are 30 iff the substring test alone holds, so the equality branch adds nothing |
| MatchScorer.SkillPoints | backend/apps/jobs/signals.py:55-60 | 0 when either skill list is empty; otherwise the floor of 40 times the share of the job's distinct lower-cased skills the seeker has, so at most 40, and 40 when the seeker has them all |
| MatchScorer.OneOfThreeSkills | backend/apps/jobs/signals.py:55-60 | a seeker with one of a job's three skills earns 13 points |
| MatchScorer.SkillPointsMonotone | backend/apps/jobs/signals.py:55-60 | a seeker with more skills never earns fewer skill points |
| MatchScorer.ExperiencePoints | backend/apps/jobs/signals.py:63-67 | the experience test succeeds iff a level is missing or the levels are equal, giving 20 for equal levels and 0 for a missing one; unequal levels fail with Python's TypeError message |
| MatchScorer.JobTypePoints | backend/apps/jobs/signals.py:70-72 | 10 points iff the preferred job type is set, the job's is non-empty and they are equal; otherwise 0 |
| MatchScorer.Score | backend/apps/jobs/signals.py:40-74 | a computed score lies in [0, 100]; the computation fails exactly when the experience test fails |
| MatchScorer.CapNeverBinds | backend/apps/jobs/signals.py:74 | the weights add up to 100, so the cap never changes a score |
| MatchScorer.AdjacentLevelsFail | backend/apps/jobs/signals.py:66 | a mid-level seeker against a senior job makes scoring fail instead of earning 15 |
| MatchScorer.ExperiencePointsIntended | backend/apps/jobs/signals.py:63-67 | with levels compared by rank: 20 iff the levels are equal, 15 iff they are one step apart |
| MatchScorer.ScoreIntended | backend/apps/jobs/signals.py:40-74 | the corrected scorer always returns a score in [0, 100] |
| MatchScorer.IntendedAgreesWhereDefined | backend/apps/jobs/signals.py:40-74 | wherever the written scorer returns a score, the corrected one returns the same score |
| MatchScorer.NeighbouringLevelsScore | backend/apps/jobs/signals.py:66-67 | levels one step apart earn 15 under the corrected rule, in either direction |
| MatchScorer.ProfileScoreAtMostSixty | backend/apps/jobs/signals.py:48-72 | a stored profile scores at most 60 under either scorer, because its location and job-type points are always 0 |
| FanOut.Payload | backend/apps/jobs/signals.py:26-35 | the message's job data has the same id, title, company, location, salary range, job type, date and truncated description as the job summary |
| FanOut.Notify | backend/apps/jobs/signals.py:15-38 | at most one message per seeker; every message is a `job_update` with a score above 60 and the job's data |
| FanOut.NotifyOne | backend/apps/jobs/signals.py:17-23 | a seeker gets a message iff the score is computed and above 60; it goes to the group "user_" + id; a failed score is the loop's failure |
| FanOut.NotifyAppend | backend/apps/jobs/signals.py:15 | seekers are handled in order: a failure stops the loop, otherwise the messages for a list are those for its first part followed by those for the rest |
| FanOut.FailureStopsLaterSeekers | backend/apps/jobs/signals.py:15-17 | once a seeker's score fails, only the messages for earlier seekers have been sent |
| FanOut.JobCreatedHandler | backend/apps/jobs/signals.py:8-38 | nothing is sent when a job is only updated, and every message sent scores in (60, 100] |
| FanOut.NotifiedScoresBounded | backend/apps/jobs/signals.py:20-36 | every score the loop sends is at most 100 |
| FanOut.ProfilesNeverNotified | backend/apps/jobs/signals.py:12-20 | scoring stored profiles never passes 60, so none of them is messaged |
| FanOut.HandlerNeverSends | backend/apps/jobs/signals.py:8-38 | the handler as written sends no message at all |
| FanOut.JobCreatedHandlerIntended | backend/apps/jobs/signals.py:8-38 | with the corrected scorer, the handler never fails |
| FanOut.NeverFails | backend/apps/jobs/signals.py:15-17 | with the corrected scorer, the loop reaches every seeker |
| FirebaseAuth.BearerToken | backend/utils/firebase_auth.py:61-66 | a token is found iff `split(' ')` has a second element and it is non-empty; the token never holds a space |
| FirebaseAuth.BearerTokenOf | backend/utils/firebase_auth.py:61 | any first word, one space and a token yield that token: the scheme is not checked |
| FirebaseAuth.NoSpaceNoToken | backend/utils/firebase_auth.py:61-63 | a header without a space yields no token |
| FirebaseAuth.DoubleSpaceNoToken | backend/utils/firebase_auth.py:65-66 | two spaces after the scheme leave an empty token, which counts as none |
| FirebaseAuth.SplitName | backend/utils/firebase_auth.py:80-81 | an empty name gives empty names; a name without words fails with IndexError; otherwise the first name is the first word, and the last name is the remaining words joined by single spaces, empty when there are fewer than two words |
| FirebaseAuth.SplitNameOfWords | backend/utils/firebase_auth.py:80-81 | words joined by single spaces split back into the first word and the rest joined by single spaces |
| FirebaseAuth.LastNameWords | backend/utils/firebase_auth.py:81 | splitting the last name again gives every word of the name but the first |
| FirebaseAuth.Authenticate | backend/utils/firebase_auth.py:53-92 | as written: no header, no token or an empty token is anonymous, and nothing else is; any request with a token fails with "Invalid Firebase token", since `User.objects` raises for the swapped-out `auth.User` |
| FirebaseAuth.AuthenticateIntended | backend/utils/firebase_auth.py:53-92 | with the lookup on the active user model: no header, no token or an empty token is anonymous, and nothing else is; with a token, authentication fails ("Invalid Firebase token") iff verification fails, the claims carry no uid, or the name does not split; a signed-in user is the one whose uid the verified token carries; a new user gets the claimed email and split name and is the only change to the store |
| FirebaseAuth.KnownUserUnchanged | backend/utils/firebase_auth.py:76-83 | with the lookup on the active user model, a known uid signs in as the stored user and the store is unchanged |
| FirebaseAuth.SwappedUserModelRejects | backend/utils/firebase_auth.py:76-92 | the code as written gives the intended outcome, except that every sign-in the intended code grants becomes "Invalid Firebase token" |
| FirebaseAuth.VerifiedTokenRejected | backend/utils/firebase_auth.py:70-92 | a verified token for a new uid "u" named "Ann Lee": the intended code creates and signs in the user Ann Lee, the code as written refuses |
| FirebaseAuth.AuthenticateHeader | backend/utils/firebase_auth.py:94-95 | the challenge is exactly `Bearer realm="api"`, a bearer header whose token reads `realm="api"` |

## Left out

- PyPDF2 and python-docx: each reader's result is given with the file, as its list of page or paragraph texts or its error message.
- Python's `re` engine: each of the four patterns is written out by hand. Case-insensitive matching covers ASCII letters only. `\d` means ASCII digits. `\s` means Python's whitespace set, the characters `str.isspace` accepts, non-ASCII spaces included.
- Unicode case mapping: `lower` and `title` act on ASCII letters only.
- MatchScorer.SkillPoints: the float quotient in `int(k / n * 40)` is modelled as the exact floor `40 * k / n`. A rounding error in the float could give one point less.
- Thousands formatting of salaries and `isoformat()` of timestamps are opaque formatter functions.
- Firebase initialisation, `verify_id_token`, and the `print` logging are left out. Verification is a function parameter.
- FirebaseAuth.AuthenticateIntended: a null `email` claim is stored as the empty string.
- Django ORM errors other than the invalid-default-field error of `create_job` are left out. The job insert is a function parameter that returns the new row's id and creation time, or the database's error.
- JobCreation.CreateJob: the database is taken to refuse any row with a NULL `title`, `description`, `location` or `expires_at`, as the NOT NULL columns demand; the wording of its error is the insert's.
- JobCreation.JobRequest: request values arrive typed: text as strings, minimum years and salaries as integers, the remote flag as a boolean. A form post that sends a salary as the string "50000" saves the row and runs the handler, after which the summary's `f"{x:,}"` raises ValueError and the view answers 400; that path is not modelled. Salaries are whole units, so a `DecimalField` value with cents such as 0.50 is not represented.
- JobCreation.CreateJob: the post-save handler is modelled over the stored seeker profiles; what the Channels layer does with its messages is not.
- Listing errors are left out, including the `except` of `list_jobs`, which can only catch database failures.
- Profile-save failures in the résumé upload are left out.
- Jobs.SortNewestFirst: SQL leaves the order of jobs created at the same instant unspecified. The model picks one order: such jobs keep their stored relative order.
- The résumé's storage path (`upload_to='resumes/'`) is left out. The stored résumé is the uploaded file's name.
- Validation of profile choice fields by the serializer is left out. The saved profile is the input of `perform_update`.
- Job ids are strings. The UUID object the fan-out payload carries is the same id, rendered with `str()`.
- The Channels layer is left out: messages are the list of `group_send` calls, and their delivery is not modelled.
- The remaining code is framework wiring or environment scripts and is not modelled:
  - the serializers and URL configuration;
  - the WebSocket consumer and routing;
  - the skill and application models;
  - the setup and upload scripts.

## Findings

| source | as written | input that shows it | evidently intended | confidence | as-written member | corrected member |
|---|---|---|---|---|---|---|
| backend/apps/jobs/signals.py:66 | `abs(seeker.experience_level - job.experience_required) <= 1` subtracts one level string from another, which raises `TypeError` whenever the two levels differ | seeker level "mid", job requiring "senior" | levels compared by their rank (entry < mid < senior < expert), with 15 points for neighbouring levels; as written, `create_job` also answers 400 after saving such a job (JobCreation.SavedButRejected) | not executed | MatchScorer.AdjacentLevelsFail | MatchScorer.ScoreIntended |
| backend/apps/jobs/views.py:34-43 | the `get_or_create` defaults name `website` and `description`, which are not fields of `EmployerProfile` (`company_website`, `company_description`); Django rejects such defaults whenever it has to create | any user who has no employer profile yet posts a job | the defaults stored under the model's own field names, so a first-time poster gets an employer profile | not executed | JobCreation.NewEmployerAlwaysRejected | JobCreation.IntendedAcceptsNewEmployer |
| backend/utils/firebase_auth.py:76 | the lookup uses `User.objects`, with `User` imported from `django.contrib.auth.models` at line 4. The project's user model is `users.CustomUser`: the profiles point at it and the views set its `is_profile_complete`, and Django refuses two unswapped user models whose reverse accessors clash. That swaps `auth.User` out, so the attribute access raises AttributeError and the `except` at lines 89-92 reports "Invalid Firebase token" | header `Bearer t`, where `t` verifies with uid "u" and name "Ann Lee" | the lookup on the active user model (`get_user_model().objects.get_or_create`), which signs the user in and creates them on first use | not executed | FirebaseAuth.VerifiedTokenRejected | FirebaseAuth.AuthenticateIntended |

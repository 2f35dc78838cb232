# code-assessment services, modelled in Dafny

This project models three Java services of the code-assessment back end.

- **ProjectService**: an analysis batch is submitted, fanned in and persisted, then ranked on read.
  - Each submitted repository URL goes through a URL check, a clone and an analysis, and any stage may drop it.
  - The surviving reports are gathered in submission order.
  - If none survive, the batch fails.
  - Otherwise the analysis, its stamped reports, and any submitted constraints and preferences are persisted.
  - A read re-ranks the stored reports with the stored preferences and sorts them stably, highest rank first.
- **UserService**: the field validators, `validateUser`, `registerUser`, `updateProfile`, `updateEmail` and `updatePassword`.
- **PasswordResetService**: the life of a reset token, from creation through validation to its consumption by a reset.

The clock, hashing, password encoding, the password policy, the GitHub URL check, cloning, analysis and `rankTree` are all parameters. With those fixed, every operation is a pure function.

Repositories are immutable values:
- a map of users with a serial counter;
- a map of reset tokens keyed by token hash;
- a log of sent emails;
- for analyses, the ordered list of persistence writes.

A read of an analysis sees the rows that those writes created, in write order.

An operation that may throw after it has written something returns `Effect(state, result)`. The state it reached survives the error, because `updateProfile` and `processProject` are not atomic.

Modules:
- `Errors`: exceptions as values, and `FirstFailure` for chains of validators.
- `Text`: ASCII `isBlank` and the `[a-zA-Z]*` pattern.
- `Quality`: the 18 attribute tags, the quality tree, preferences and constraints.
- `Users`: the users table.
- `UserValidation`: the validators.
- `UserService`: registration and the three account updates.
- `PasswordReset`: the reset-token lifecycle.
- `AnalysisPipeline`: clone, analyse and fan-in.
- `Ranking`: re-rank and stable sort.
- `ProjectService`: submit and read.

## Model

| member | source | states |
|---|---|---|
| Errors.FirstFailure | src/main/java/gr/aegean/service/UserService.java:116-125 | A chain of validators passes iff every one passes. Otherwise its error is that of a failing validator with every earlier one passing. |
| Text.MatchesLetters | src/main/java/gr/aegean/service/UserService.java:132-134 | `matches("^[a-zA-Z]*$")` holds iff every character is an ASCII letter. The empty string matches. |
| Users.FindUserByEmail | src/main/java/gr/aegean/service/PasswordResetService.java:33-34 | A found user is a row with that email. In a well-formed table a user is found iff the email is taken. With unique emails, it is the only row with that email. |
| Users.UpdatePasswordRow | src/main/java/gr/aegean/service/UserService.java:107-109 | Only the password of `userId` changes, to the given encoding. Other rows, the key set and the serial counter are unchanged. An unknown id changes nothing. |
| UserValidation.ValidateFirstname | src/main/java/gr/aegean/service/UserService.java:127-135 | Passes iff the length is at most 30 and every character is an ASCII letter. The length is checked first, and each failure has its own message. |
| UserValidation.ValidateLastname | src/main/java/gr/aegean/service/UserService.java:137-145 | Same as the first name, with the last-name messages. |
| UserValidation.ValidateUsername | src/main/java/gr/aegean/service/UserService.java:147-151 | Passes iff the length is at most 30. Otherwise it fails with the too-many-characters message. |
| UserValidation.ValidateEmail | src/main/java/gr/aegean/service/UserService.java:153-161 | Passes iff the length is at most 50 and the address contains '@'. Too long is reported before a missing '@'. |
| UserValidation.ValidateBio | src/main/java/gr/aegean/service/UserService.java:163-167 | Passes iff the length is at most 150, with the bio message otherwise. |
| UserValidation.ValidateLocation | src/main/java/gr/aegean/service/UserService.java:169-173 | Passes iff the length is at most 50, with the location message otherwise. |
| UserValidation.ValidateCompany | src/main/java/gr/aegean/service/UserService.java:175-179 | Passes iff the length is at most 50, with the company message otherwise. |
| UserValidation.ValidateUser | src/main/java/gr/aegean/service/UserService.java:116-125 | Passes iff every field rule holds, including the password policy. Otherwise the error is that of the first failing field, in the order firstname, lastname, username, email, password, bio, location, company. |
| UserService.RegisterUser | src/main/java/gr/aegean/service/UserService.java:28-38 | A taken email fails with "Email already in use", checked before the username. A taken username fails with the duplicate-username message. Either failure leaves the table unchanged. Otherwise exactly one row is added under a fresh id, which is returned, and table well-formedness is preserved. |
| UserService.RegisterPreservesUniqueLogins | src/main/java/gr/aegean/service/UserService.java:28-38 | Registration keeps emails and usernames pairwise distinct. |
| UserService.ProfileFieldOrderIsComplete | src/main/java/gr/aegean/service/UserService.java:40-79 | The update visits every profile field, each exactly once. |
| UserService.UpdateProfile | src/main/java/gr/aegean/service/UserService.java:40-79 | Whatever happens, other users' rows, the key set and the counter are kept. The user's id, email and password are kept. An unknown id changes nothing. |
| UserService.UpdateProfileSuccess | src/main/java/gr/aegean/service/UserService.java:40-79 | After an update that does not throw, each field holds the supplied value if it was non-null and not blank, and its old value otherwise. |
| UserService.UpdateProfileFailure | src/main/java/gr/aegean/service/UserService.java:40-79 | After a throw at some field, the fields before it hold their new values, it and the later ones keep their old values, and the error is the one that field's own block raises. |
| UserService.UpdateProfileIsNotAtomic | src/main/java/gr/aegean/service/UserService.java:41-60 | A valid first name sent with no last name and a taken username is written, yet the call throws the duplicate-username exception. |
| UserService.UpdateProfilePreservesUniqueLogins | src/main/java/gr/aegean/service/UserService.java:53-60 | Profile updates keep emails and usernames pairwise distinct, because a username is written only after checking that no row holds it. |
| UserService.UpdateEmail | src/main/java/gr/aegean/service/UserService.java:81-97 | The table never changes. The checks run in order: unknown id, then wrong password, then taken email, then email format, and each failure returns that check's own error. A malformed address returns `validateEmail`'s message. It succeeds iff all of them pass. |
| UserService.UpdatePassword | src/main/java/gr/aegean/service/UserService.java:99-114 | An unknown id gives not-found, and a wrong old password gives "Old password is incorrect", both leaving the table unchanged. It succeeds iff the old password matches and the policy accepts the new one. A rejected new password returns the policy's own error. On success only the stored password changes, to the encoding of the new one. |
| UserService.PasswordChangeTakesEffect | src/main/java/gr/aegean/service/UserService.java:99-114 | If the encoder's `matches` accepts what `encode` produced, the new password passes the password checks of a later `updatePassword` and `updateEmail`. |
| PasswordReset.ValidatePasswordResetRequest | src/main/java/gr/aegean/service/PasswordResetService.java:103-107 | Passes iff the email is non-null and non-empty, with "The Email field is required." otherwise. |
| PasswordReset.CreatePasswordResetToken | src/main/java/gr/aegean/service/PasswordResetService.java:30-49 | The reply depends only on whether the email is present, not on whether it belongs to a user. A missing email, or one that belongs to no user, changes nothing. A known email stores exactly one token under the hash, with that user's id and expiry now plus two hours, and appends one link email carrying the raw token. |
| PasswordReset.ValidatePasswordResetToken | src/main/java/gr/aegean/service/PasswordResetService.java:51-65 | Passes iff the token is non-null, non-empty and stored, and `now` is not after its expiry. A null, empty or unknown token gives the invalid message. A stored but expired token gives the expired message. |
| PasswordReset.SendConfirmationEmail | src/main/java/gr/aegean/service/PasswordResetService.java:87-92 | Appends one confirmation to the user's address with their username, or nothing if the user is gone. The tables are unchanged. |
| PasswordReset.ResetPassword | src/main/java/gr/aegean/service/PasswordResetService.java:67-85 | Succeeds iff the token validates and the policy accepts the new password. Any failure changes nothing. A bad token returns the token validation's error, and a rejected password returns the policy's own error. On success the token is deleted and the user's password becomes the encoding of the new one. Exactly one confirmation is appended, to the user's address with their username, or nothing if the user is gone. |
| PasswordReset.CreatedTokenValidUntilExpiry | src/main/java/gr/aegean/service/PasswordResetService.java:36-61 | A token created at time t for a known email validates at t' iff t' is at most t plus two hours. |
| PasswordReset.ResetTokenIsSingleUse | src/main/java/gr/aegean/service/PasswordResetService.java:77-80 | After a successful reset, the same token is rejected as invalid at any time. |
| PasswordReset.RequestThenResetChangesPassword | src/main/java/gr/aegean/service/PasswordResetService.java:30-92 | Request then reset within two hours: the user's password becomes the encoding of the new one, and exactly two emails are sent, the link and then the confirmation. |
| AnalysisPipeline.CloneProject | src/main/java/gr/aegean/service/analysis/ProjectService.java:128-148 | A clone path is returned iff the URL passes the check and the clone does not throw. |
| AnalysisPipeline.CloneAndAnalyzeProject | src/main/java/gr/aegean/service/analysis/ProjectService.java:150-154 | A rejected URL or a failed clone yields no report. Otherwise the outcome is exactly the analysis of the clone. |
| AnalysisPipeline.RejectedUrlIsNeverCloned | src/main/java/gr/aegean/service/analysis/ProjectService.java:128-131 | A rejected URL yields no report whatever the clone and analysis oracles do, so neither is consulted. |
| AnalysisPipeline.Present | src/main/java/gr/aegean/service/analysis/ProjectService.java:83-87 | Keeps exactly the present outcomes. It is empty iff every outcome is empty. |
| AnalysisPipeline.PresentIsOrderedSubsequence | src/main/java/gr/aegean/service/analysis/ProjectService.java:83-87 | The j-th kept report is the value at the j-th position holding one. |
| AnalysisPipeline.CollectReports | src/main/java/gr/aegean/service/analysis/ProjectService.java:73-87 | The batch is empty iff no URL passes all three stages, and every report comes from some URL. |
| AnalysisPipeline.CollectReportsInSubmissionOrder | src/main/java/gr/aegean/service/analysis/ProjectService.java:73-87 | The reports are exactly the outcomes of the URLs that pass all three stages, one per such URL, in submission order. |
| Ranking.Rerank | src/main/java/gr/aegean/service/analysis/ProjectService.java:116 | Every report gets rank `rankTree(tree, preferences)`, and nothing else about it changes. |
| Ranking.SortByRankDescending | src/main/java/gr/aegean/service/analysis/ProjectService.java:118 | The result is a permutation of the input whose ranks never increase. |
| Ranking.SortIsStable | src/main/java/gr/aegean/service/analysis/ProjectService.java:118 | Reports of equal rank keep their input order. |
| Ranking.RankReports | src/main/java/gr/aegean/service/analysis/ProjectService.java:114-119 | The result is a permutation of the re-ranked reports, in non-increasing rank order, each rank equal to `rankTree(tree, preferences)`. |
| Ranking.RankReportsIsStableSort | src/main/java/gr/aegean/service/analysis/ProjectService.java:114-119 | Among equal ranks, the read keeps the order the reports were loaded in. |
| ProjectService.ReportWrites | src/main/java/gr/aegean/service/analysis/ProjectService.java:199-204 | One report save per report, in list order, each stamped with the analysis id. |
| ProjectService.ConstraintWrites | src/main/java/gr/aegean/service/analysis/ProjectService.java:181-188 | Constraints are saved iff they are non-null and non-empty. |
| ProjectService.PreferenceWrites | src/main/java/gr/aegean/service/analysis/ProjectService.java:190-197 | Preferences are saved iff they are non-null and non-empty. |
| ProjectService.SaveAnalysisProcess | src/main/java/gr/aegean/service/analysis/ProjectService.java:168-175 | Earlier writes stay as they were. The analysis is saved first under the next id, then the stamped reports, then the submitted constraints and preferences. The id is returned, and the counter advances by one. |
| ProjectService.SavedBatchReadsBack | src/main/java/gr/aegean/service/analysis/ProjectService.java:168-204 | Under a fresh id, a saved batch reads back as exactly one analysis with its stamped reports in order and the submitted constraints and preferences. Every stored id stays below the counter. |
| ProjectService.ProcessProject | src/main/java/gr/aegean/service/analysis/ProjectService.java:65-108 | A failed `mkdir` gives the server error with no change. The call succeeds iff the folder is made, some URL passes all three stages and the delete succeeds. If no URL passes, the call fails with the "at least one repository" message, nothing is persisted and the folder stays. Whenever a URL passes and the folder was made, the earlier writes are kept and exactly the batch is appended under the next id: the analysis, every surviving report stamped with that id in order, then the submitted constraints and preferences. A failed delete gives the server error after that batch was persisted, with the folder left behind. On success the new id is returned and the folder is gone. |
| ProjectService.FindAnalysisResultByAnalysisId | src/main/java/gr/aegean/service/analysis/ProjectService.java:110-126 | The result is a one-element list. Its element is a permutation of the stored reports, re-ranked with the stored preferences, in non-increasing rank order. |
| ProjectService.ResultIgnoresConstraints | src/main/java/gr/aegean/service/analysis/ProjectService.java:110-119 | Removing every stored constraint does not change what a read returns. |
| ProjectService.SubmitThenRead | src/main/java/gr/aegean/service/analysis/ProjectService.java:65-126 | After a successful submission, its id reads back exactly one analysis, the surviving reports stamped in submission order, and the submitted lists. The read returns those reports re-ranked by the submitted preferences. |

## Behaviour of the code worth noting

- **Constraints are persisted but never read.** `findAnalysisResultByAnalysisId` never loads constraints, and `rankTree` receives only the tree and the preferences. No constraint affects a read (`ResultIgnoresConstraints`).
- **The request folder can be left behind.** On the all-failed path the code throws before `deleteProjectDirectory` is reached, so the request folder is never deleted (`ProcessProject`).
- **Reports keep submission order.** The futures are read in the order the URLs were submitted, so the collected reports keep that order (`CollectReportsInSubmissionOrder`).
- **Persistence is a sequence of separate saves.** The analysis, the reports, the constraints and the preferences are each saved on their own. A failed delete after persistence reports a server error although the analysis is stored (`ProcessProject`).
- **The result is a one-element list.** `new AnalysisResult(List.of(reportDTOS))` wraps the report list inside a one-element list, and the model keeps that shape.

## Left out

- Unchecked exceptions from collaborators are not modelled. Cloning fails only with `GitAPIException` (ProjectService.java:143), and analysis yields a report or none. In the source, any other exception in one URL's task makes `allOf` complete exceptionally. The whole batch then fails with nothing persisted and the folder left behind, even when other URLs succeeded, so the "succeeds iff some URL passes all three stages" promise holds only under this abstraction. Persistence calls that throw part-way are not modelled either. Nor is how errors reach the caller: the no-usable-repository error and the failed delete arrive wrapped in `CompletionException` from `join()`, while the `mkdir` failure is thrown directly.
- Concurrency: the per-URL tasks, the executor and the `allOf`/`join` barrier are modelled as a sequential map, since the result list is read in futures order. There are no timeouts, because the code has none.
- The file system beyond the request folder: per-clone folder names are an oracle (`projectDirectory`), and `UUID.randomUUID` becomes the caller-supplied folder name. `mkdir` and `deleteDirectory` failures are flags.
- JGit, `GitHubService`, `AnalysisService.analyzeProject` and `RankingService.rankTree` are uninterpreted function parameters, and the quality tree is never interpreted.
- `AnalysisReportDTOMapper` is not modelled: a read returns the reports themselves.
- `AuthService.getIdFromSubject` and the HTTP layer are out of scope: the user id is a parameter.
- BCrypt, `StringUtils.hashToken`, `PasswordValidation.validatePassword` and the SecureRandom/Base64url token generator (section 5 of RFC 4648) are parameters. The generated token is an argument, and nothing is assumed about hash collisions: a token whose hash is already stored replaces that row.
- `EmailService` is a log of the messages asked for; delivery is not modelled.
- The clock is an integer count of seconds; `LocalDateTime` calendar arithmetic is not modelled.
- Unicode: `isBlank` and `[a-zA-Z]` are modelled on ASCII. `String.length` counts UTF-16 code units, but a Dafny `char` is a whole Unicode scalar value, so a character outside the Basic Multilingual Plane counts once here and twice in the source. For example, a first name of 16 emoji is too long in the source, but the model rejects it with the letters-only message.
- `rank` is a mathematical real; Java `double` rounding, NaN and -0.0 are not modelled.
- The order in which the database returns rows is taken to be the order in which they were written.
- The database's generated analysis id is taken to be a serial counter, and so is the user id.
- Null fields of a `User` passed to `validateUser` or `registerUser` are not modelled: the source would throw `NullPointerException`.
- UserService.UpdateEmail: the not-found error carries the user id rather than the rendered message text.
- Users.FindUserByEmail: it scans ids below the serial counter, so its "found iff taken" promise is stated only for tables whose rows all sit below the counter.

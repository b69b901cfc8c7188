# Deploy server and page script: a Dafny model

This project models the decision logic of a small static-site deployment setup.

The deploy server (`deploy_server.py`) is a Flask service. `POST /deploy` requires the API key. The key comes from an `Authorization: Bearer …` header, or else from the JSON body's `api_key` field. An authorised request runs a fixed pipeline:
1. check that the publish (GitHub Pages) repository exists;
2. run the Jekyll build;
3. rsync the build output into the repository;
4. run `git add`, `git commit` and `git push` there.

The pipeline stops at the first failure and names the failing step. A commit that fails with "nothing to commit" counts as success. A JSON status record keeps the deploy count, the last status and the last message. `GET /status` returns that record. `GET /api-key` hands out the key only to the loopback address.

The page script (`js/common.js`) holds four small state machines:
- the hero-title typing animation;
- the search comparator;
- the search-input classification;
- the "Load more" pagination button.

Every external command is an abstract `Outcome`: an exit code with its stdout and stderr, a timeout, or some other exception. The pipeline is then a pure function of those outcomes (`DeployServer.RunPipeline`). The request handler is a pure function of the request, the outcomes and the prior status file (`DeployServer.HandleDeploy`). The server object (`DeployServer.DeployService`) updates its status file in place, as the source does. The typing animation, the search box and the pager are classes whose methods update their fields step by step, as the closures in the script do. Most methods are tied to a specification function, and the properties are proved about those functions. `Search.SearchBox.OnTimer` and `LoadMore.Pager.Loaded` state their effects on the fields directly.

Modules: `Wrappers` (Option), `Strings` (substring search, `startswith`, `split('/page')[0]`, `split('|')`, `trim`, the decimal rendering of integers), `DeployServer`, `TypeAnimation`, `Search` and `LoadMore`.

Two behaviours of the code worth noting:
- **Step failures do not touch the status file.** A missing repository or a non-zero exit returns 500 from inside the `try` without calling `save_deploy_status` (`deploy_server.py:129-241`). Only the success branch (line 251) and the two `except` handlers (lines 262-292) write the file (`DeployServer.StepFailureKeepsStatus`).
- **Only three commands have timeouts.** The build, rsync and push run under timeouts of 120, 60 and 30 seconds. `git add` and `git commit` have none (`DeployServer.TimeoutSource`).

## Model

| member | source | states |
|---|---|---|
| `DeployServer.HasBearerHeader` | deploy_server.py:80 | Definition: an `Authorization` header is present and starts with `Bearer `. |
| `DeployServer.ProvidedKey` | deploy_server.py:79-84 | With a `Bearer ` header, the provided key is what follows the prefix: the header is the prefix plus the key. Without one, it is the JSON body's `api_key`, or nothing when there is no JSON body. |
| `DeployServer.Authorized` | deploy_server.py:86 | A request passes the decorator exactly when the provided key is present, non-empty and equal to the stored key. |
| `DeployServer.HeaderOverBody` | deploy_server.py:79-84 | With a `Bearer ` header, the provided key is the header minus its first 7 characters. The JSON body then has no effect. |
| `DeployServer.AuthorizedIff` | deploy_server.py:79-93 | A request is authorised exactly when the key is non-empty and either the header is exactly `"Bearer " + key`, or there is no Bearer header and the body's `api_key` is the key. |
| `DeployServer.AuthGate` | deploy_server.py:86-93 | `/deploy` answers 401 exactly for unauthorised requests. Those requests leave the status file unchanged. |
| `DeployServer.DefaultStatus` | deploy_server.py:106-111 | The default record has no last deploy, count 0, status `none` and the "not deployed yet" message. |
| `DeployServer.ReadStatus` | deploy_server.py:97-111 | Reading the status gives the stored record, or the default one when the file is missing or unreadable. |
| `DeployServer.LastStatus.Name` | deploy_server.py:109-285 | Definition: the `last_status` strings `none`, `success` and `failed`. |
| `DeployServer.Command.Name` | deploy_server.py:152-241 | Definition: the `step` names `jekyll_build`, `rsync`, `git_add`, `git_commit` and `git_push`. |
| `DeployServer.Command.FailurePrefix` | deploy_server.py:149-235 | Definition: each command's error-message prefix, which the command's stderr follows. |
| `DeployServer.Command.Timeout` | deploy_server.py:140-232 | Definition: 120 s for the build, 60 s for rsync, 30 s for push, and none for `git add` and `git commit`. |
| `DeployServer.Passes` | deploy_server.py:148-241 | A command lets the pipeline go on only if it exited. Exit code 0 always passes. For every command but `git commit`, passing is exactly exit code 0. |
| `DeployServer.Failure.StageName` | deploy_server.py:130-291 | Definition: the `step` field of an error response: `repo_check`, the command's step name, `timeout` or `unknown`. |
| `DeployServer.Failure.Message` | deploy_server.py:130-291 | Definition: the `message` field of an error response, which is also what the `except` handlers store as `last_message`. |
| `DeployServer.Stop` | deploy_server.py:148-241 | A command that stops the pipeline gives a timeout exactly when it timed out, and another exception exactly when it raised. It returns early from the `try` exactly when it exited, under its own step name with its failure prefix. An exception's message carries the error prefix. |
| `DeployServer.RunCommands` | deploy_server.py:138-241 | The commands started are a prefix of the list. The run publishes exactly when every command passes, and then all of them were started. When the run stops, the last command started did not pass, every earlier one passed, and the verdict is the last command's failure. |
| `DeployServer.FirstFailureStops` | deploy_server.py:148-241 | The first command that does not pass is the last one started, and its failure is the verdict. |
| `DeployServer.RunPipeline` | deploy_server.py:127-243 | The commands started are a prefix of the five. A missing repository starts none and ends with `repo_check` and the repository path. A stopped run with commands started stops at one that did not pass. |
| `DeployServer.MissingRepository` | deploy_server.py:129-136 | A missing publish repository stops the deploy at `repo_check` before any command runs. |
| `DeployServer.ShortCircuit` | deploy_server.py:148-241 | When command k is the first that does not pass, exactly commands 0..k were started. A non-zero exit is reported under the command's step name with its stderr. A timeout is reported as `timeout`, another exception as `unknown`. |
| `DeployServer.PublishedIff` | deploy_server.py:138-243 | The deploy publishes exactly when the repository exists and all five commands pass. All five were then started. |
| `DeployServer.CommitRule` | deploy_server.py:212-223 | A non-zero commit whose stdout contains "nothing to commit" still reaches `git push`. Any other non-zero commit stops at `git_commit` with its stderr, and no push runs. |
| `DeployServer.NothingToCommitPushes` | deploy_server.py:212-214 | After a passing build, sync and add, a commit whose stdout contains "nothing to commit" lets the pipeline reach `git push`. |
| `DeployServer.CommitFailureStops` | deploy_server.py:213-223 | Any other non-zero commit stops the pipeline after the first four commands, with step `git_commit` and the commit's stderr. |
| `DeployServer.TimeoutSource` | deploy_server.py:140-232 | When only timed commands can time out, a `timeout` verdict means the build, the rsync or the push timed out. |
| `DeployServer.RecordSuccess` | deploy_server.py:246-251 | After a successful deploy the count is the previous count plus 1. The status is `success`, with the success message and the new timestamp. |
| `DeployServer.RecordFailure` | deploy_server.py:266-270 | After a timeout or an exception the status is `failed` with the error message. The count and the last-deploy time stay as they were. |
| `DeployServer.DoneMessage` | deploy_server.py:257 | Definition: the success message naming the total deploy count in decimal. |
| `DeployServer.HandleDeploy` | deploy_server.py:74-292 | `/deploy` answers 200, 401 or 500. It answers 200 exactly when the request is authorised and the pipeline publishes. The status file changes only for an authorised request, and then it is present. |
| `DeployServer.SuccessUpdate` | deploy_server.py:245-260 | An authorised, published deploy answers 200. It stores exactly `RecordSuccess` of the prior record: count + 1, status `success`, the success message and `last_deploy` set to now. The response reports that count and the timestamp. |
| `DeployServer.ExceptionUpdate` | deploy_server.py:262-292 | A timeout or an exception answers 500 with step `timeout` or `unknown`. It stores exactly `RecordFailure` of the prior record: `failed` with the response's message, with the count and `last_deploy` kept. |
| `DeployServer.StepFailureKeepsStatus` | deploy_server.py:129-241 | A missing repository or a non-zero exit answers 500 with the step name and message. The status file is left unchanged. |
| `DeployServer.CountTracksSuccesses` | deploy_server.py:245-251 | After any sequence of deploy requests, the count has grown by exactly the number of requests that were authorised and published. |
| `DeployServer.ApiKeyRoute` | deploy_server.py:300-306 | `/api-key` answers 403 exactly when the caller is not `127.0.0.1`. A loopback caller gets the key. |
| `DeployServer.ApiKeyIgnoresHeaders` | deploy_server.py:303-304 | Headers and body never change the `/api-key` answer. A non-loopback caller never gets the key. |
| `DeployServer.DeployService.constructor` | deploy_server.py:72 | The server holds the key loaded at start-up and the current status file. |
| `DeployServer.DeployService.Deploy` | deploy_server.py:121-292 | The response and the new status file are those of `HandleDeploy`. The count goes up by one exactly on a 200 answer and is unchanged otherwise. |
| `DeployServer.DeployService.Status` | deploy_server.py:294-298 | `/status` answers 200 with the stored record, or with the default one, and changes nothing. |
| `DeployServer.DeployService.ApiKey` | deploy_server.py:300-306 | The key goes only to the loopback address. Any other caller gets 403. |
| `Strings.StartsWith` | deploy_server.py:80 | Definition: Python's `startswith`, as a prefix of equal characters. |
| `Strings.Contains` | deploy_server.py:214 | Definition: there is a position where the substring occurs. This is Python's `in`, and `indexOf(...) !== -1` in the page script (js/common.js lines 231-232). |
| `Strings.IndexOf` | js/common.js:231-232 | `indexOf` gives -1 exactly when the substring does not occur. Otherwise it gives the first position where it occurs. |
| `Strings.ContainsIff` | deploy_server.py:214 | Python's substring test `in` holds exactly when there is a position where the substring occurs. |
| `Strings.PrefixBefore` | js/common.js:268 | `split('/page')[0]` is a prefix of the URL and no `/page` of the URL starts inside it. Either it is the whole URL, or `/page` follows it. |
| `Strings.Split` | js/common.js:75 | Splitting on the bar character gives at least one piece, and no piece contains the separator. |
| `Strings.JoinSplit` | js/common.js:75 | Joining the pieces of a split with the separator gives back the original string. |
| `Strings.SplitJoin` | js/common.js:75 | Splitting a join of separator-free pieces gives back the pieces. |
| `Strings.IsSpace` | js/common.js:191 | Definition: the characters `trim()` strips, which are ECMAScript's white space and line terminators. |
| `Strings.Trim` | js/common.js:191 | `trim()` gives a slice of the input with only white space outside it. The slice neither starts nor ends with white space. |
| `Strings.TrimIdempotent` | js/common.js:191 | Trimming twice is the same as trimming once. |
| `Strings.TrimEmptyIff` | js/common.js:191-196 | The trimmed value is empty exactly when the input holds only white space. |
| `Strings.TrimOfPadded` | js/common.js:191 | Adding white space around a trimmed string and trimming again gives that string back. |
| `Strings.NatToString` | deploy_server.py:257 | The decimal rendering of a count is non-empty, made of digits only, and has no leading zero. |
| `Strings.ParseNatToString` | js/common.js:268 | Reading a rendered number back gives the number. |
| `Strings.NatToStringInjective` | js/common.js:268 | Different page numbers render as different decimal strings. |
| `TypeAnimation.Prefix` | js/common.js:112 | `substring(0, k)` clamps `k` into the text's bounds. |
| `TypeAnimation.Advance` | js/common.js:88-129 | One call keeps `textIndex` in range. A paused call only clears `isPaused`. `charIndex` moves by at most one. A text change goes to the next index cyclically, with `charIndex` 0 and not deleting. The machine never restarts once stopped, and it stops only with one text, showing that text. |
| `TypeAnimation.Next` | js/common.js:88-129 | The page's call, with the `===` end test: it keeps `textIndex` in range, and when it stops the machine there is one text, and `charIndex` equals that text's length. |
| `TypeAnimation.Iterate` | js/common.js:88-132 | Definition: `k` further calls of the `setTimeout` chain, which ends once no next call is scheduled. The index stays in range. |
| `TypeAnimation.Inv` | js/common.js:80-124 | An invariant of the reachable states (some unreachable states satisfy it too): `textIndex` in range, the shown text is the current text's first `charIndex` characters, a pause happens only at the end of a text before deleting, deleting happens only with several texts, and only the single-text machine stops, with its text shown. |
| `TypeAnimation.StartInv` | js/common.js:80-86 | The initial state (index 0, nothing shown, neither deleting nor paused) satisfies the invariant. |
| `TypeAnimation.NextPreservesInv` | js/common.js:88-129 | Each call keeps the invariant, so `textIndex` stays in [0, texts.length). |
| `TypeAnimation.TypingStep` | js/common.js:111-113 | A typing call shows the first `charIndex + 1` characters and increments `charIndex`. |
| `TypeAnimation.DeletingStep` | js/common.js:97-107 | A deleting call decrements `charIndex`. At 0, deleting ends and `textIndex` becomes `(textIndex + 1) % texts.length`, with nothing shown. |
| `TypeAnimation.PauseBeforeDeleting` | js/common.js:89-119 | With several texts, typing the last character sets both `isPaused` and `isDeleting`. The next call only clears `isPaused`. |
| `TypeAnimation.SingleTextStops` | js/common.js:115-124 | With one text the machine never deletes. Typing the last character stops it with the whole text shown. |
| `TypeAnimation.Cycle` | js/common.js:88-129 | With several texts, a non-empty text is typed, paused on and deleted. After exactly 2·length + 1 calls the next text starts. |
| `TypeAnimation.SingleTextRun` | js/common.js:111-124 | A single non-empty text is fully shown after as many calls as the text has characters, and nothing changes after that. |
| `TypeAnimation.EmptyTextNeverEnds` | js/common.js:111-115 | As written, an empty text is typed forever. `charIndex` only grows, and the same text stays current. |
| `TypeAnimation.EmptyTextExample` | js/common.js:75-115 | For the attribute made of `a`, two bars and `b`, the empty middle text becomes current after 3 calls and stays current on every later call. |
| `TypeAnimation.EmptyTextCorrected` | js/common.js:115 | With the end test `>=`, an empty text is left after 3 calls. |
| `TypeAnimation.CorrectedCycle` | js/common.js:88-129 | With the end test `>=`, every text, empty or not, gives way to the next one after a bounded number of calls. |
| `TypeAnimation.TypeWriter.constructor` | js/common.js:75-86 | The texts are the pieces of the attribute between bar characters, and they join back to it. The state is the initial one. |
| `TypeAnimation.TypeWriter.Step` | js/common.js:88-129 | One `typeText` call moves the fields to `Next` of the old state and keeps the reachability invariant. |
| `Search.EffectiveQuery` | js/common.js:229 | The query is `a.query` if non-empty, else `b.query` if non-empty, else `''`. |
| `Search.Truthy` | js/common.js:229 | Definition: a JavaScript string value is truthy when it is present and non-empty. |
| `Search.TitleMatches` | js/common.js:231-232 | Definition: the title contains the query, which is `indexOf(query) !== -1`. |
| `Search.Compare` | js/common.js:225-239 | Gives -1 when only `a`'s title contains the query, and 1 when only `b`'s does. Otherwise it gives `b.date - a.date`. |
| `Search.Before` | js/common.js:231-238 | The order the comparator is meant to give for a fixed query: an entry whose title matches goes before one whose title does not; otherwise the newer goes first. |
| `Search.BeforeIsStrictOrder` | js/common.js:231-238 | The intended order (title match first, then newer first) is irreflexive, asymmetric and transitive. |
| `Search.CompareFollowsBefore` | js/common.js:231-238 | The comparator is negative exactly when `a` comes before `b` in the intended order, and positive exactly when `b` comes before `a`. |
| `Search.CompareAntisymmetric` | js/common.js:229-238 | When both entries carry the same query, swapping them negates the result. |
| `Search.EmptyQueryMatches` | js/common.js:231 | `indexOf('')` finds the empty query in every title. |
| `Search.NoQueryDateOrder` | js/common.js:229-238 | When neither entry carries a query, the order is by date alone. |
| `Search.DifferentQueriesDisagree` | js/common.js:229-235 | Entries that carry different queries can each be put first in both argument orders. |
| `Search.Classify` | js/common.js:191-212 | An all-white-space value clears the results. A trimmed length of 1 shows the hint. A trimmed length of 2 or more schedules a search for the trimmed value. |
| `Search.ScheduledQueryIsTrimmed` | js/common.js:191 | A scheduled query is a slice of the input with no white space at either end. |
| `Search.ClassifyIgnoresPadding` | js/common.js:191-212 | White space around the typed text never changes the listener's decision. |
| `Search.SearchBox.constructor` | js/common.js:169 | The box starts with nothing shown and no search pending. |
| `Search.SearchBox.OnInput` | js/common.js:190-213 | The listener cancels the pending timer. Then it shows nothing, the hint, or the loading state, and only in the last case leaves a search pending for the trimmed query. |
| `Search.SearchBox.OnTimer` | js/common.js:210-212 | When the timer fires, the pending query is searched and nothing is left pending. |
| `Search.LastInputWins` | js/common.js:193-212 | For two inputs in a row, only the second one's query, if any, is searched. |
| `LoadMore.NextPageUrl` | js/common.js:268 | The built URL starts with the base before the URL's first `/page` followed by `/page/`, ends with `/`, and its own first `/page` is the appended one. |
| `LoadMore.FirstMarkerAfterBase` | js/common.js:268 | In a built URL, the first `/page` is the appended one. |
| `LoadMore.BaseIsStable` | js/common.js:268 | Building from a built URL keeps the base, so applying the builder twice is the same as building once with the later page number. |
| `LoadMore.PageReadBack` | js/common.js:268 | The built URL is the base, then `/page/`, then the page number in decimal, then `/`. The number reads back exactly. |
| `LoadMore.DistinctPagesDistinctUrls` | js/common.js:268 | Two page numbers give the same URL exactly when they are equal. |
| `LoadMore.Pager.constructor` | js/common.js:263-267 | The pager starts from the template's URL, page number and page count, and the section is shown. |
| `LoadMore.Pager.Click` | js/common.js:265-268 | A click requests the base before the first `/page`, followed by `/page/<n>/`. |
| `LoadMore.Pager.Loaded` | js/common.js:284-288 | After a load the page number goes up by one. The section is hidden exactly when the page number exceeds the number of pages, and once hidden it stays hidden. |

## Findings

| source | as written | input that shows it | evidently intended | confidence | as-written member | corrected member |
|---|---|---|---|---|---|---|
| js/common.js:115 | `charIndex === currentText.length` ends a text only when typing lands exactly on its length | A `data-type-text` of `a`, two bars and `b`, or one ending in a bar, gives an empty text. Typing it raises `charIndex` to 1, 2, … and never equals 0, so the animation stays on the empty text forever and never shows `b`. For an attribute ending in a bar, the first text is never shown again | end a text once `charIndex >= currentText.length` | not executed; high | `TypeAnimation.EmptyTextExample` (with `TypeAnimation.EmptyTextNeverEnds`) | `TypeAnimation.CorrectedCycle` (with `TypeAnimation.EmptyTextCorrected`) |

`TypeAnimation.Advance` takes the end test as a parameter: `ExactLength` is the page's comparison and `AtLeastLength` the corrected one. For non-empty texts the two agree, so `TypeAnimation.Cycle` holds for both. `TypeAnimation.TypeWriter.Step` keeps the page's comparison because it models the page.

## Left out

- Flask routing, CORS, JSON serialisation and the `/health` route. `/health` returns a fixed payload with the current time and version `1.0.0`.
- Logging, and the server's start-up logs and `app.run`.
- `load_or_create_api_key`: the key file, `secrets.token_urlsafe` and `chmod` are I/O and randomness. The key is a constructor parameter of `DeployService`.
- Writes to the status file: the model assumes a write succeeds. The source logs and ignores a failed write.
- A status file that parses but lacks `deploy_count`: in the source this raises inside the success branch and ends in the `unknown` handler. The model assumes a well-formed record or none at all.
- `DeployServer.ProvidedKey`: an absent JSON body (`json == None`) stands for a JSON body of `null`, or for Flask versions before 2.1, which gave `None` for a request that is not JSON. Requests that current Flask rejects while the decorator reads `request.json` are not modelled. These are a content type that is not JSON (400 from Flask 2.1, 415 from 2.3) and a JSON content type with an empty or malformed body (400). Such a request gets that error instead of 401. So `DeployServer.AuthGate`'s "401 exactly when not authorised" covers only requests whose JSON body parses, or that send none under the older behaviour.
- Request bodies that are not JSON objects. The decorator tests `if request.json` before calling `.get` (line 84). A falsy body (`[]`, `""`, `0`, `false`) takes the no-body branch and gets 401, as `json == None` does in the model. A truthy body that is not an object (a non-empty list or string, a non-zero number, `true`) makes `.get` raise outside the handler's `try`, and that case is not modelled. A non-string `api_key` is always rejected, exactly as an absent one is, so it is modelled as absent.
- The commands' arguments (the rsync excludes, the commit message with its timestamp, `origin main`) and the tools themselves. Only the outcomes matter to the logic.
- Wall-clock timeouts. A `TimedOut` outcome may stand on any command. `Environment.Admissible` says which commands can really time out.
- Concurrent deploy requests. The source has no locking, and the model treats requests one at a time.
- Typing animation: the delays and `setTimeout` scheduling (a running flag stands for "another call is scheduled"), the cursor element, the missing-element early return and the `parseInt` speed attributes. JavaScript strings count UTF-16 code units; here a character is one unit.
- Search: `toLowerCase` (titles and queries are taken as lower-cased), `Date` parsing (dates are integers; NaN is not modelled), the search library's own matching and rendering, the focus and blur placeholder text, and the clearing of results when the search box opens. `query.length` counts UTF-16 units in JavaScript and characters here.
- Load more: the AJAX request, the appended posts, LazyLoad, the button's label text, and clicks made while a request is in flight. The template's page number is taken to be a non-negative integer.
- Menu open and close, the glitch logo, `fitVids`, the image-zoom attributes and the scroll-to-top button. These are DOM and library calls with no decision logic.

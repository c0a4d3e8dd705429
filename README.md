# Gmail spam killer — decision logic in Dafny

This project models the deterministic layer of the Gmail spam killer: the
code that sits between the calls to Gmail, the language model and the web.
It covers both command-line scripts, the first version
(`gmail_spam_killer.py`) and the current one (`gmail_spam_killer_backup.py`),
and the web application (`app.py`). The model covers:

- **Body extraction.** The current filter walks the MIME part tree and gathers
  a `text/plain` stream and a `text/html` stream. It prefers plain text,
  normalises the result (`clean_text`) and replaces short bodies with a fixed
  sentinel (modules `BodyExtractor` and `Normalize`). The first version uses
  its own rule: the first plain part wins, otherwise the last HTML part, and
  a single-part HTML message gives nothing (module `Legacy`).
- **Message records.** Header lookup with defaults, the body cut to 1000
  characters, and the `INBOX` filter (module `Mail`).
- **Classification.** The prompt template with at most ten numbered spam
  examples, `str.format`, and the parsing of the verdict with its error
  fallback (module `Classifier`).
- **Unsubscribe links.** Regex matches lose their trailing punctuation.
  Anchors are kept by keyword, and only when the href starts with `http`.
  The result has set semantics (module `LinkMiner`).
- **Unsubscribe attempts.** The per-link GET, then the form search,
  form-data collection and submission, and the success counter. Only the
  first three links are used (module `Unsubscribe`).
- **Batch reassembly.** Inbox emails keep their positions. Tasks complete in
  any order, results are stored by position (a failed task is dropped), and
  the map is drained in ascending position (modules `Batch` and
  `SpamFilter`).
- **The web application.** The global `scan_status` as a class
  (`start_scan` guard and reset, progress, completion), the subject and body
  previews, the ordered scan results and the archive endpoint's message
  (module `WebApp`).

Collaborators appear as parameters:

- Base64url decoding is `decode: string -> Option<string>`.
- The BeautifulSoup HTML-to-text conversion is `htmlToText`.
- The chat completion is `complete: string -> Completion`.
- The regex matches in a body are `matchesOf`.
- The anchors of an email's raw HTML are `anchorsOf`.
- The HTTP GET plus the page parse is `get`, and the form submission is
  `submit`.
- `urljoin` is reference resolution as in section 5.2 of RFC 3986.
- The completion order of `as_completed` is a permutation `order`.
- The user's answers and the archive call's outcome are also parameters.

`app.py` imports `gmail_spam_killer` but calls four methods that only the
current filter defines: `_analyze_email_batch`, `get_raw_email_html`,
`find_unsubscribe_links` and `attempt_unsubscribe`. `WebApp` takes their
behaviour from the current filter. What the import actually does to a scan
is `WebApp.ScanStatus.RunScanAsImported`, recorded under Findings.

## Where the code and the design differ

The model follows the code:

- The GET of an unsubscribe link must return exactly 200, not any 2xx status.
- A link whose page has matching forms that were all refused, or that raised,
  still counts as a success. The `if not form_submitted` fallback counts it.
  So a link counts exactly when its GET returned 200, whatever the forms did
  (`Unsubscribe.CountIgnoresForms`).
- After a refused or failed submission, later matching forms on the same page
  are tried. The first accepted one ends the search.
- The reason of a verdict is the stripped response, not the verbatim one.
- Up to ten spam examples reach the prompt (a code comment says five).
- Links from the text scan start with `http` only up to letter case, because
  the patterns are matched with `re.IGNORECASE`. Anchors' hrefs start with
  `http` exactly.

## Model

| member | source | states |
|---|---|---|
| Mail.HeaderValue | gmail_spam_killer.py:106-108 | the value of the first header whose name is exactly the one asked for, and the default when no header has that name (`'No Subject'`, `'Unknown Sender'`); the current filter does the same at gmail_spam_killer_backup.py:126-128 |
| Mail.ToEmail | gmail_spam_killer.py:113-119 | the stored record keeps `id` and `labelIds` unchanged, takes subject and sender from the header lookup, and keeps a prefix of the body of at most 1000 characters, the whole body when it is that short |
| Mail.Collect | gmail_spam_killer_backup.py:117-139 | one record per message, in order, exactly when every message was fetched and its body extracted without raising |
| Mail.GetRecentEmails | gmail_spam_killer_backup.py:101-145 | the loop returns the records of `Collect`, and the empty list when the listing or any message raised |
| BodyExtractor.ExtractTextFromParts | gmail_spam_killer_backup.py:156-180 | the `+=` loop returns exactly the plain and HTML streams of the part list |
| BodyExtractor.StreamIsGather | gmail_spam_killer_backup.py:156-180 | a stream is the in-order concatenation of the decoded data of the leaves of its MIME type that carry data, each followed by a newline; a part with `parts` is walked into and its own data ignored |
| BodyExtractor.StreamEmptyIff | gmail_spam_killer_backup.py:161-178 | a stream is empty exactly when no leaf of its type carries data |
| BodyExtractor.FinalText | gmail_spam_killer_backup.py:239-245 | the chosen text is always normalised; with plain text it is the cleaned plain text; with only HTML it is the cleaned conversion of the HTML; with neither stream it is empty |
| BodyExtractor.Finalize | gmail_spam_killer_backup.py:248-251 | the result has at least 20 characters: a shorter text becomes exactly the sentinel, a longer one is kept |
| BodyExtractor.Body | gmail_spam_killer_backup.py:147-251 | `extract_email_body` returns at least 20 characters, and either the sentinel or normalised text |
| BodyExtractor.ExtractEmailBody | gmail_spam_killer_backup.py:222-251 | the imperative extraction (multipart walk, single-part case, preference, sentinel) returns `Body` |
| BodyExtractor.PlainTextDecides | gmail_spam_killer_backup.py:239-245 | once there is plain text, neither the HTML stream nor the HTML converter changes the result |
| BodyExtractor.MultipartChoice | gmail_spam_killer_backup.py:226-245 | in a multipart message HTML is used exactly when no `text/plain` leaf carries data; otherwise the body is the cleaned plain stream |
| Normalize.CollapseWhitespaceShape | gmail_spam_killer_backup.py:209 | after `\s+` becomes one space there are no two adjacent whitespace characters, all whitespace is a blank, and the text starts with whitespace exactly when the input did |
| Normalize.ReplaceUrlsShape | gmail_spam_killer_backup.py:212 | replacing URLs with `[URL]` keeps that whitespace shape |
| Normalize.ReplaceEncodedShape | gmail_spam_killer_backup.py:215 | replacing runs of 50 or more encoded characters (plus up to two `=`) with `[ENCODED_CONTENT]` keeps that whitespace shape |
| Normalize.CollapsePeriodsShape | gmail_spam_killer_backup.py:218 | collapsing period runs keeps that whitespace shape |
| Normalize.CollapsePeriodsDots | gmail_spam_killer_backup.py:218 | after `[.]{3,}` becomes `...` no run of four periods remains |
| Normalize.CleanTextNormalized | gmail_spam_killer_backup.py:203-220 | `clean_text("")` is `""`, and every output has no leading or trailing whitespace, no two adjacent whitespace characters, only blanks as whitespace, and no run of four or more periods |
| Normalize.CleanTextWhitespaceIdempotent | gmail_spam_killer_backup.py:203-220 | collapsing whitespace and stripping again leave the output of `clean_text` unchanged |
| Text.StripRemovesOnlySpaces | gmail_spam_killer_backup.py:220 | `strip()` removes only whitespace, from either end |
| Legacy.ExtractEmailBody | gmail_spam_killer.py:127-145 | the loop with its `break` returns `LegacyBody`, `None` standing for the exception a failed decode raises |
| Legacy.LegacyBody | gmail_spam_killer.py:140-145 | a single-part payload that is not `text/plain` (a lone `text/html` one included) gives `""` |
| Legacy.FirstPlainWins | gmail_spam_killer.py:131-136 | the body is the decode of the first top-level `text/plain` part, whatever follows it |
| Legacy.LastHtmlWins | gmail_spam_killer.py:131-139 | without a `text/plain` part the body is the decode of the last `text/html` part |
| Legacy.NoHtmlKeepsBody | gmail_spam_killer.py:129-139 | with neither kind of part the body stays `""` |
| Legacy.ScanFailsIff | gmail_spam_killer.py:131-139 | the extractor raises exactly when a plain or HTML part it reaches, at or before the first plain part, fails to decode |
| Legacy.ArchiveRequestBody | gmail_spam_killer.py:215-219 | the request always removes `INBOX`, and adds the label exactly when its id is set and non-empty |
| Legacy.CountSpam | gmail_spam_killer.py:254-266 | the spam count never exceeds the number of INBOX emails |
| Legacy.RunSpamFilter | gmail_spam_killer.py:251-280 | emails without `INBOX` are skipped; `processed_count` is the number of INBOX emails, `spam_count` the number of spam verdicts among them (never more), and only confirmed spam is archived, none in a dry run |
| Classifier.ParseVerdict | gmail_spam_killer_backup.py:262-275 | the verdict is true iff the stripped reply starts with `SPAM`; the reason is the stripped reply; a failed call gives exactly `(False, "Error occurred")`; the first version does the same at gmail_spam_killer.py:174-179 |
| Classifier.SpamVerdictReason | gmail_spam_killer_backup.py:270-271 | a spam verdict's reason begins with `SPAM` and has no surrounding whitespace |
| Classifier.NotSpamIsNotSpam | gmail_spam_killer_backup.py:270-271 | a reply starting with `NOT_SPAM` is not spam |
| Classifier.LeadingWhitespaceIgnored | gmail_spam_killer_backup.py:270 | whitespace before the reply changes nothing |
| Classifier.MakeExample | gmail_spam_killer_backup.py:502-513 | an example keeps at most 100 characters of subject and sender and 1000 of the body, as prefixes, and whole values that are that short |
| Classifier.BuildExamplesText | gmail_spam_killer_backup.py:534-542 | the examples section is empty without examples, and otherwise the intro followed by the blocks of the first ten examples |
| Classifier.AppendBlocks | gmail_spam_killer_backup.py:538-542 | the `+=` loop appends one block per example, numbered from 1, in order |
| Classifier.AtMostTenExamples | gmail_spam_killer_backup.py:538 | examples after the tenth never reach the prompt |
| Classifier.ExamplesTextEmptyIff | gmail_spam_killer_backup.py:535-542 | the examples section is empty exactly when there are no examples |
| Classifier.CorrectedTemplateFormats | gmail_spam_killer_backup.py:544-560 | with escaped examples the template always formats, to the examples verbatim followed by the email's subject, sender and body |
| Classifier.TemplateFormatsWithoutBraces | gmail_spam_killer_backup.py:544-560 | as written, the template formats as intended when the examples hold no brace |
| Classifier.BraceInExampleRaises | gmail_spam_killer_backup.py:256-260 | as written, an example whose subject is a plain-name replacement field other than `subject`, `sender` or `body` makes `format` raise |
| Classifier.AsWrittenRaises | gmail_spam_killer_backup.py:253-260 | as written, one spam example with subject `{x}` makes `is_spam` raise for every email |
| Classifier.AsWrittenWithoutBraces | gmail_spam_killer_backup.py:253-275 | as written, `is_spam` sends the intended prompt and parses the reply when no example holds a brace |
| Classifier.IsSpam | gmail_spam_killer_backup.py:253-275 | with the corrected template `is_spam` always returns, and its verdict is the parse of the reply to the intended prompt |
| LinkMiner.StripTrailing | gmail_spam_killer_backup.py:294 | exactly the longest run of `> ) ] . , ; " ' \n` at the end is removed, and nothing else |
| LinkMiner.StripTrailingIdempotent | gmail_spam_killer_backup.py:294 | stripping twice is stripping once |
| LinkMiner.StripKeepsScheme | gmail_spam_killer_backup.py:283-294 | stripping never reaches the `http` of a match |
| LinkMiner.AddTextLinks | gmail_spam_killer_backup.py:290-295 | the first loop adds the stripped form of every match |
| LinkMiner.AddAnchor | gmail_spam_killer_backup.py:303-314 | an anchor's href is added iff it starts with `http` and its lower-cased text holds `unsubscribe`, `opt out`, `remove` or `stop`, or its lower-cased href holds `unsubscribe`, `opt-out`, `optout` or `remove` |
| LinkMiner.AddAnchorLinks | gmail_spam_killer_backup.py:298-316 | the second loop adds the hrefs of exactly the qualifying anchors |
| LinkMiner.ListOf | gmail_spam_killer_backup.py:318 | `list(set)` lists every element once |
| LinkMiner.FindUnsubscribeLinks | gmail_spam_killer_backup.py:277-318 | the result holds each link of the text scan and the anchor scan exactly once |
| LinkMiner.LinksOf | gmail_spam_killer_backup.py:665-666 | the links of an email come from its stored body and the anchors of its raw HTML |
| LinkMiner.LinksStartWithHttp | gmail_spam_killer_backup.py:283-314 | every link starts with `http` (the anchors' exactly, the text scan's up to case) |
| LinkMiner.TextLinksClean | gmail_spam_killer_backup.py:294 | no link from the text scan ends with one of the stripped characters |
| LinkMiner.AnchorLinksIff | gmail_spam_killer_backup.py:303-314 | an href is among the anchor links iff some anchor with that href qualifies |
| Unsubscribe.CollectFormData | gmail_spam_killer_backup.py:353-360 | the loop fills the dictionary `FormData` describes |
| Unsubscribe.FormDataKeys | gmail_spam_killer_backup.py:359-360 | a name is in the form data iff some input with that non-empty name has a lower-cased type other than `submit`, `button`, `reset` |
| Unsubscribe.FormDataLastWins | gmail_spam_killer_backup.py:355-360 | a name's value is that of the last such input with it, `''` when it has no value |
| Unsubscribe.Target | gmail_spam_killer_backup.py:344-350 | the form goes to `urljoin(url, action)` when the action is non-empty, and to `url` otherwise |
| Unsubscribe.SubmissionsShape | gmail_spam_killer_backup.py:339-379 | every submission is the request of a matching form (POST iff the lower-cased method is `post`), and every one but the last was refused |
| Unsubscribe.StopsAtAccepted | gmail_spam_killer_backup.py:372-376 | once a matching form is accepted (200 or 302), no later form is submitted |
| Unsubscribe.SubmitForms | gmail_spam_killer_backup.py:336-379 | the form loop makes exactly those submissions, and `form_submitted` is set iff the last one was accepted |
| Unsubscribe.AttemptUnsubscribe | gmail_spam_killer_backup.py:320-394 | only the first three links are used; the count is the number of them whose GET returned exactly 200, so at most `min(3, len(urls))` |
| Unsubscribe.CountIgnoresForms | gmail_spam_killer_backup.py:331-385 | each link adds one exactly when its GET returned 200, whatever its forms did |
| Unsubscribe.OnlyFirstThree | gmail_spam_killer_backup.py:324 | links after the third never affect the count |
| Batch.InboxEmails | gmail_spam_killer_backup.py:604 | each inbox email keeps its original position, every inbox email appears, and positions strictly increase |
| Batch.CollectResults | gmail_spam_killer_backup.py:614-639 | for any completion order the progress count reaches the number of tasks, the map holds each returned task's result under its position, and the spam count is the number of spam verdicts |
| Batch.EntriesByPosition | gmail_spam_killer_backup.py:620-635 | a position is in the map iff its email is in the inbox and its task returned |
| Batch.SpamAmongResults | gmail_spam_killer_backup.py:614-639 | spam verdicts ≤ stored results ≤ tasks |
| Batch.SortedKeys | gmail_spam_killer_backup.py:650 | `sorted(keys)` lists every key once in ascending order, and is the one ascending listing of the set |
| Batch.AscendingUnique | gmail_spam_killer_backup.py:650 | the drain order depends only on the set of stored positions |
| SpamFilter.Handle | gmail_spam_killer_backup.py:659-695 | clean results are only reported; in a dry run spam has its links looked up; otherwise confirmed spam has its links tried (only when there are some) and is archived |
| SpamFilter.ReviewKeys | gmail_spam_killer_backup.py:650-695 | one report per key, in the order of the keys, each handled as `Handle` says |
| SpamFilter.Review | gmail_spam_killer_backup.py:649-695 | every stored result is reported once, in ascending position, and handled as above |
| SpamFilter.ReportsAscending | gmail_spam_killer_backup.py:650 | the reports come in strictly ascending original position |
| SpamFilter.RunSpamFilter | gmail_spam_killer_backup.py:597-695 | `processed` is the number of inbox emails; the spam count is the number of returned tasks with a spam verdict; every stored result is reported once, in ascending position, and handled as `Handle` says; spam count ≤ reports ≤ processed |
| WebApp.Preview | app.py:204-206 | a text of at most `n` characters is shown whole, a longer one as its first `n` characters plus `...` |
| WebApp.PreviewKeepsPrefix | app.py:204-206 | a preview keeps the beginning of the text |
| WebApp.MakeResult | app.py:188-211 | the result carries id, sender, verdict and reason unchanged, the 80- and 200-character previews, and for spam at most three distinct links of the email, for clean email none |
| WebApp.ResultsFor | app.py:187-211 | one result per key, in the order of the keys |
| WebApp.OrderedResults | app.py:185-211 | one result per stored entry, in ascending original position |
| WebApp.ResultLinksBounded | app.py:194-209 | every result has at most three links, and a clean one none |
| WebApp.ResultsInOriginalOrder | app.py:187-211 | the results come in strictly ascending original position |
| WebApp.EveryInboxEmailStored | gmail_spam_killer_backup.py:441-445 | with the current filter's `_analyze_email_batch` and the corrected template (`Classifier.IsSpam`), every analysis task returns, so every inbox email has its entry |
| WebApp.EveryInboxEmailShown | app.py:160-217 | with the current filter's `_analyze_email_batch` and the corrected template, the scan results hold exactly one row per inbox email |
| WebApp.ScanStatus.constructor | app.py:29-35 | the status starts idle, with no progress and no results |
| WebApp.ScanStatus.StartScan | app.py:112-125 | refused (status 400) without authentication or while scanning, leaving the status unchanged; otherwise `scanning=True`, `progress=0`, `total=0`, `results=[]` |
| WebApp.ScanStatus.ReportProgress | app.py:169-173 | each completion moves progress by exactly one, never beyond the total |
| WebApp.ScanStatus.RunScan | app.py:136-224 | the scan always ends with `scanning` false; without inbox emails (which includes a failed fetch, since `get_recent_emails` then returns `[]`) it ends with "No emails in inbox to process." and nothing else changes; if looking up the analysis method raises, the scan ends with that error, no results, no progress and the total counting the inbox emails; otherwise progress equals the total and the results are the ordered results |
| WebApp.ScanStatus.RunScanAsImported | app.py:160-224 | as written, with the imported module's class, a scan of a non-empty inbox ends with `Error during scan: 'GmailSpamKiller' object has no attribute '_analyze_email_batch'`, no results, progress 0 and the total counting the inbox emails |
| WebApp.ArchiveMessage | app.py:249-254 | the message starts with `Email archived successfully!`, adds the unsubscribe count when some attempt succeeded and `(Unsubscribe attempts failed)` when unsubscribing was asked for and none did |
| WebApp.UnsubscribeCount | app.py:244-246 | attempts are made only when asked for and links were sent; the count is at most 3 and at most the number of links |
| WebApp.ArchiveEmail | app.py:234-267 | refused (status 400) without a spam killer; a successful archive reports the message and the count; a failed one reports `Failed to archive email` with a count of 0 |

## Left out

- OAuth, token files and credential refresh (`authenticate_gmail`) are file and network I/O.
- The Gmail API calls themselves (list, get, modify, labels, `_ensure_ai_archived_label`, the fetching in `_collect_spam_examples`, and `get_raw_email_html`) are out of scope. Their results are inputs: the messages, the anchors of the raw HTML (`anchorsOf`) and the outcome of `archive_email`.
- The chat-completion call is the parameter `complete`. The model name, token limit and temperature are not modelled.
- The `requests` session (cookies, headers, redirects, timeouts) is reduced to `get` and `submit`. Each gives a status or an exception.
- BeautifulSoup is replaced by records: anchors, forms with their text, and inputs. `clean_html_to_text` is the parameter `htmlToText`. A parse error in the middle of the anchor loop, after some links were added, is not modelled: the anchors are either all given or absent.
- Base64url decoding with `errors='ignore'` is the parameter `decode`. It may fail, and then gives `""`.
- The Python regex search for the four unsubscribe patterns is not modelled. Its matches are the input `matchesOf`. The stripping and the set union are modelled.
- Threads, `ThreadPoolExecutor`, `as_completed` and `asyncio.create_task` are concurrency. Only the completion order is modelled, as a permutation. `run_scan` is a coroutine with no `await`, so once started it runs to its end on the event loop before `get_scan_status` can answer: a poller sees the state `start_scan` left or the final one, never the intermediate progress that `ReportProgress` models.
- `print`, `input`, timing and the date-based query are left out. So are the display-only slices: the first 2 links in a dry run, and the subject cut to 50 characters in the log.
- FastAPI routing, templates, `get_status`, `authenticate` and `get_results` are web glue.
- WebApp.ScanStatus.RunScan: models only an exception raised by the lookup of `_analyze_email_batch`; the fetch cannot raise, because `get_recent_emails` turns its own exceptions into `[]`. An exception raised later (while building a result, say) leaves `progress` and `total` at the values they had reached, and the model does not cover that.
- WebApp.ArchiveEmail: does not model the generic `except` that answers `Error: …`. The model uses the current filter's `attempt_unsubscribe`. With the module app.py actually imports, that attribute is missing, so a request with `unsubscribe` and links gets the `Error: …` answer and the email is not archived.
- Classifier.Format: models only replacement fields that are a plain name (letters, digits, `_`). A field with a conversion (`!r`), a format spec (`:>5`), an attribute (`.upper`) or an index (`[0]`) is read as raising, where Python would format it.
- WebApp.EveryInboxEmailStored: holds for the current filter's method with the corrected template. With the template as written, an example containing a brace makes every task raise (see Findings), and with the imported module's class no task is even submitted.
- Text.ToLower: lower-cases ASCII letters only. Python's `str.lower` also maps other letters. This affects the keyword tests only for non-ASCII text.
- Legacy.ExtractEmailBody: a part without `mimeType` is read as `""`. In the first version, `part['mimeType']` would raise `KeyError` there, which `get_recent_emails` turns into an empty list.

## Findings

| source | as written | input that shows it | evidently intended | confidence | as-written member | corrected member |
|---|---|---|---|---|---|---|
| gmail_spam_killer_backup.py:544-560 | the spam examples are pasted into the template by the f-string, and `is_spam` then calls `.format` on it outside its `try`, so a brace in any example is read as a replacement field | one spam example whose subject is `{x}`: `format` raises `KeyError` for every email; each batch task raises and its email is dropped from the results | examples shown verbatim, with their braces escaped before the template is built | high (not executed) | Classifier.AsWrittenRaises | Classifier.CorrectedTemplateFormats |
| app.py:20 | the web application imports `gmail_spam_killer`, whose class has no `_analyze_email_batch`; the attribute lookup at app.py:163 raises `AttributeError` before any task is submitted, and the outer `except` at app.py:219-224 ends the scan | any scan with at least one inbox email: it ends with `Error during scan: 'GmailSpamKiller' object has no attribute '_analyze_email_batch'`, no results, progress 0 and the total counting the inbox emails | the current filter's class, whose `_analyze_email_batch` returns a verdict for every email, so every inbox email is shown | high (not executed) | WebApp.ScanStatus.RunScanAsImported | WebApp.EveryInboxEmailShown |

/**
 * The scan and archive endpoints of the web application (app.py): the
 * global `scan_status` record that `start_scan` resets and `run_scan`
 * fills, the ordered results with their previews, and the message of the
 * archive endpoint.
 *
 * The spam-killer object, FastAPI and the background task are not modelled.
 * `authenticated` says whether the spam killer exists and has a Gmail
 * service; the fetched emails, the task outcomes, the completion order and
 * the link-mining inputs are parameters, as in `SpamFilter`.
 */
module WebApp {
  import opened Wrappers
  import opened Text
  import opened Mail
  import opened Classifier
  import opened LinkMiner
  import opened Unsubscribe
  import opened Batch

  /** An `HTTPException`. */
  datatype HttpError = HttpError(status: int, detail: string)

  datatype ScanResponse = ScanResponse(success: bool, message: string, totalEmails: int)

  /** One entry of the scan results (`EmailResult`). */
  datatype EmailResult = EmailResult(emailId: string, subject: string, sender: string, bodyPreview: string,
                                     isSpam: bool, reason: string, unsubscribeLinks: seq<string>)

  datatype ArchiveRequest = ArchiveRequest(emailId: string, unsubscribe: bool, unsubscribeLinks: seq<string>)

  datatype ArchiveResponse = ArchiveResponse(success: bool, message: string, emailId: string, unsubscribeSuccess: nat)

  const SubjectPreview := 80
  const BodyPreview := 200
  const MaxLinksShown := 3

  // ----- Previews -----

  /** `s[:n] + ('...' if len(s) > n else '')`. */
  function Preview(s: string, n: nat): (r: string)
    ensures |s| <= n ==> r == s
    ensures |s| > n ==> |r| == n + 3 && r[..n] == s[..n] && r[n..] == "..."
    ensures |r| <= n + 3
  {
    Take(s, n) + (if |s| > n then "..." else "")
  }

  /** A preview never changes the first `n` characters, and a text of at
      most `n` characters is shown whole. */
  lemma PreviewKeepsPrefix(s: string, n: nat)
    ensures var r := Preview(s, n);
            var m := if |s| <= n then |s| else n;
            m <= |r| && r[..m] == s[..m]
  {
  }

  // ----- The results of a scan -----

  /** `l` is the first `n` entries of some listing of the set `s`. */
  predicate FirstOf(l: seq<string>, s: set<string>, n: nat)
  {
    && NoDuplicates(l)
    && (forall u :: u in l ==> u in s)
    && |l| == (if |s| <= n then |s| else n)
  }

  /** The result built from a stored entry: the id, the sender, the verdict
      and the reason unchanged, the subject and the body cut to their
      previews, and, for spam only, at most three of the email's links. */
  predicate ResultOf(r: EmailResult, e: Entry, found: set<string>)
  {
    && r.emailId == e.email.id
    && r.subject == Preview(e.email.subject, SubjectPreview)
    && r.sender == e.email.sender
    && r.bodyPreview == Preview(e.email.body, BodyPreview)
    && r.isSpam == e.isSpam
    && r.reason == e.reason
    && (if e.isSpam then FirstOf(r.unsubscribeLinks, found, MaxLinksShown) else r.unsubscribeLinks == [])
  }

  /** `r` is the result built for the entry stored under `key`. */
  predicate RowFor(r: EmailResult, entries: map<nat, Entry>, key: nat,
                   matchesOf: string -> seq<string>, anchorsOf: string -> Option<seq<Anchor>>)
  {
    key in entries && ResultOf(r, entries[key], LinkSet(entries[key].email, matchesOf, anchorsOf))
  }

  /** `results` holds one result per stored entry, in ascending original
      position. */
  ghost predicate ScanResultsOf(results: seq<EmailResult>, entries: map<nat, Entry>,
                                matchesOf: string -> seq<string>, anchorsOf: string -> Option<seq<Anchor>>)
  {
    var keys := SortedSet(entries.Keys);
    && |results| == |keys|
    && forall k :: 0 <= k < |results| ==> RowFor(results[k], entries, keys[k], matchesOf, anchorsOf)
  }

  lemma TakeOfListing(links: seq<string>, s: set<string>, n: nat)
    requires Lists(links, s)
    ensures FirstOf(Take(links, n), s, n)
  {
    var l := Take(links, n);
    forall u | u in l ensures u in s {
      var k :| 0 <= k < |l| && l[k] == u;
      assert links[k] == u;
    }
  }

  /** One result of the ordered loop, for the entry stored under `key`. */
  method MakeResult(entries: map<nat, Entry>, key: nat,
                    matchesOf: string -> seq<string>, anchorsOf: string -> Option<seq<Anchor>>)
    returns (r: EmailResult)
    requires key in entries
    ensures RowFor(r, entries, key, matchesOf, anchorsOf)
  {
    var e := entries[key];
    var unsubscribeLinks: seq<string> := [];
    if e.isSpam {
      unsubscribeLinks := LinksOf(e.email, matchesOf, anchorsOf);
      TakeOfListing(unsubscribeLinks, LinkSet(e.email, matchesOf, anchorsOf), MaxLinksShown);
    }
    r := EmailResult(e.email.id, Preview(e.email.subject, SubjectPreview), e.email.sender,
                     Preview(e.email.body, BodyPreview), e.isSpam, e.reason, Take(unsubscribeLinks, MaxLinksShown));
  }

  /** The loop body over the keys `keys`, appending to `email_results`. */
  method ResultsFor(entries: map<nat, Entry>, keys: seq<nat>, matchesOf: string -> seq<string>,
                    anchorsOf: string -> Option<seq<Anchor>>)
    returns (emailResults: seq<EmailResult>)
    requires forall k :: 0 <= k < |keys| ==> keys[k] in entries
    ensures |emailResults| == |keys|
    ensures forall k :: 0 <= k < |keys| ==> RowFor(emailResults[k], entries, keys[k], matchesOf, anchorsOf)
  {
    emailResults := [];
    var k := 0;
    while k < |keys|
      invariant k <= |keys|
      invariant |emailResults| == k
      invariant forall j :: 0 <= j < k ==> RowFor(emailResults[j], entries, keys[j], matchesOf, anchorsOf)
    {
      var r := MakeResult(entries, keys[k], matchesOf, anchorsOf);
      emailResults := emailResults + [r];
      k := k + 1;
    }
  }

  /** `for i in sorted(results.keys())`: the results in ascending position. */
  method OrderedResults(entries: map<nat, Entry>, matchesOf: string -> seq<string>,
                        anchorsOf: string -> Option<seq<Anchor>>)
    returns (emailResults: seq<EmailResult>)
    ensures ScanResultsOf(emailResults, entries, matchesOf, anchorsOf)
  {
    var keys := SortedKeys(entries.Keys);
    assert forall k :: 0 <= k < |keys| ==> keys[k] in entries by {
      forall k | 0 <= k < |keys| ensures keys[k] in entries {
        assert keys[k] in keys;
      }
    }
    emailResults := ResultsFor(entries, keys, matchesOf, anchorsOf);
  }

  /** Every result has at most three links, and a clean one none. */
  lemma ResultLinksBounded(results: seq<EmailResult>, entries: map<nat, Entry>,
                           matchesOf: string -> seq<string>, anchorsOf: string -> Option<seq<Anchor>>)
    requires ScanResultsOf(results, entries, matchesOf, anchorsOf)
    ensures forall k :: 0 <= k < |results| ==> |results[k].unsubscribeLinks| <= MaxLinksShown
    ensures forall k :: 0 <= k < |results| && !results[k].isSpam ==> results[k].unsubscribeLinks == []
  {
    var keys := SortedSet(entries.Keys);
    forall k | 0 <= k < |results| ensures |results[k].unsubscribeLinks| <= MaxLinksShown {
      assert RowFor(results[k], entries, keys[k], matchesOf, anchorsOf);
    }
  }

  /** The results follow the original order of the emails: the result at
      each place comes from a smaller position than the next one. */
  lemma ResultsInOriginalOrder(results: seq<EmailResult>, entries: map<nat, Entry>,
                               matchesOf: string -> seq<string>, anchorsOf: string -> Option<seq<Anchor>>)
    requires ScanResultsOf(results, entries, matchesOf, anchorsOf)
    ensures var keys := SortedSet(entries.Keys);
            |keys| == |results| && (forall k, l :: 0 <= k < l < |keys| ==> keys[k] < keys[l])
            && forall k :: 0 <= k < |results| ==> keys[k] in entries && results[k].emailId == entries[keys[k]].email.id
  {
    var keys := SortedSet(entries.Keys);
    forall k | 0 <= k < |results| ensures results[k].emailId == entries[keys[k]].email.id {
      assert RowFor(results[k], entries, keys[k], matchesOf, anchorsOf);
    }
  }

  // ----- The analysis method -----

  /** The message of the `AttributeError` raised when `run_scan` looks up
      `_analyze_email_batch` on the class of the imported module, which has
      no such method. */
  const MissingAttribute := "'GmailSpamKiller' object has no attribute '_analyze_email_batch'"

  /** With the method of the current filter and its corrected template,
      every task returns, so every inbox email has its entry. */
  lemma EveryInboxEmailStored(emails: seq<Email>, examples: seq<Example>, complete: string -> Completion)
    ensures var tasks := InboxEmails(emails);
            var analyze := (e: Email) => IsSpam(examples, e, complete);
            DistinctIndices(tasks) && |Entries(tasks, AllTasks(|tasks|), analyze)| == |tasks|
  {
    var tasks := InboxEmails(emails);
    var analyze := (e: Email) => IsSpam(examples, e, complete);
    IncreasingDistinct(tasks);
    var all := AllTasks(|tasks|);
    assert ReturnedTasks(tasks, all, analyze) == all;
    EntriesKeys(tasks, all, analyze);
    ImageSize(tasks, all);
    MapSize(Entries(tasks, all, analyze));
    AllTasksSize(|tasks|);
  }

  /** With the method of the current filter and its corrected template, the
      results of a scan show every inbox email, once each. */
  lemma EveryInboxEmailShown(results: seq<EmailResult>, emails: seq<Email>, examples: seq<Example>,
                             complete: string -> Completion, matchesOf: string -> seq<string>,
                             anchorsOf: string -> Option<seq<Anchor>>)
    requires DistinctIndices(InboxEmails(emails))
    requires ScanResultsOf(results, Entries(InboxEmails(emails), AllTasks(|InboxEmails(emails)|),
                                            (e: Email) => IsSpam(examples, e, complete)), matchesOf, anchorsOf)
    ensures |results| == |InboxEmails(emails)|
  {
    var tasks := InboxEmails(emails);
    var entries := Entries(tasks, AllTasks(|tasks|), (e: Email) => IsSpam(examples, e, complete));
    EveryInboxEmailStored(emails, examples, complete);
    MapSize(entries);
  }

  // ----- scan_status -----

  /** The global `scan_status` dictionary. */
  class ScanStatus {
    var scanning: bool
    var progress: nat
    var total: nat
    var currentEmail: string
    var results: seq<EmailResult>

    /** Progress never runs ahead of the number of tasks. */
    ghost predicate Valid()
      reads this
    {
      progress <= total
    }

    /** The value at start-up. */
    constructor ()
      ensures Valid()
      ensures !scanning && progress == 0 && total == 0 && currentEmail == "" && results == []
    {
      scanning, progress, total, currentEmail, results := false, 0, 0, "", [];
    }

    /** `start_scan`: refused without an authenticated spam killer or while a
        scan runs; otherwise the status is reset and the scan is started. */
    method StartScan(authenticated: bool, maxEmails: int) returns (r: Result<ScanResponse, HttpError>)
      requires Valid()
      modifies this
      ensures !authenticated ==> r == Err(HttpError(400, "Not authenticated. Please authenticate first."))
      ensures authenticated && old(scanning) ==> r == Err(HttpError(400, "Scan already in progress"))
      ensures r.Err? ==> unchanged(this)
      ensures authenticated && !old(scanning) ==>
                && r == Ok(ScanResponse(true, "Scan started", maxEmails))
                && scanning && progress == 0 && total == 0 && currentEmail == "Initializing..." && results == []
      ensures Valid()
    {
      if !authenticated {
        return Err(HttpError(400, "Not authenticated. Please authenticate first."));
      }
      if scanning {
        return Err(HttpError(400, "Scan already in progress"));
      }
      scanning, progress, total, currentEmail, results := true, 0, 0, "Initializing...", [];
      r := Ok(ScanResponse(true, "Scan started", maxEmails));
    }

    /** The update made when one more task has completed: progress moves by
        exactly one and stays within the total. */
    method ReportProgress(completedCount: nat)
      requires completedCount == progress + 1 && completedCount <= total
      modifies this
      ensures progress == old(progress) + 1 && progress <= total
      ensures currentEmail == "Analyzed " + NatToString(completedCount) + "/" + NatToString(total) + " emails"
      ensures scanning == old(scanning) && total == old(total) && results == old(results)
    {
      progress := completedCount;
      currentEmail := "Analyzed " + NatToString(completedCount) + "/" + NatToString(total) + " emails";
    }

    /** `run_scan`, started by `start_scan`. `emails` is what
        `get_recent_emails` returns (`Mail.GetRecentEmails`): it catches
        every exception of the fetch itself and gives `[]`, so a failed
        fetch is an empty inbox here. `analyzer` is the lookup of `spam_killer._analyze_email_batch` made
        while the tasks are submitted: the method, or `Err(message)` when
        the lookup raises, before any task exists. Whatever happens, the
        scan ends with `scanning` false. */
    method RunScan(maxEmails: int, emails: seq<Email>, analyzer: Result<Email -> TaskOutcome, string>,
                   order: seq<nat>, matchesOf: string -> seq<string>, anchorsOf: string -> Option<seq<Anchor>>)
      requires progress == 0 && total == 0
      requires analyzer.Ok? ==> CompletionOrder(order, |InboxEmails(emails)|)
      modifies this
      ensures !scanning && Valid()
      ensures InboxEmails(emails) == [] ==>
                && currentEmail == "No emails in inbox to process."
                && results == old(results) && progress == 0 && total == 0
      ensures InboxEmails(emails) != [] && analyzer.Err? ==>
                && currentEmail == "Error during scan: " + analyzer.error
                && results == [] && progress == 0 && total == |InboxEmails(emails)|
      ensures InboxEmails(emails) != [] && analyzer.Ok? ==>
                var tasks := InboxEmails(emails);
                && DistinctIndices(tasks)
                && total == |tasks| && progress == total
                && currentEmail == "Scan completed successfully!"
                && ScanResultsOf(results, Entries(tasks, AllTasks(|tasks|), analyzer.value), matchesOf, anchorsOf)
    {
      currentEmail := "Fetching up to " + IntToString(maxEmails) + " emails...";
      var inboxEmails := InboxEmails(emails);
      IncreasingDistinct(inboxEmails);
      if inboxEmails == [] {
        scanning, currentEmail := false, "No emails in inbox to process.";
        return;
      }
      total := |inboxEmails|;
      currentEmail := "Analyzing " + NatToString(|inboxEmails|) + " emails...";
      if analyzer.Err? {
        scanning, currentEmail, results := false, "Error during scan: " + analyzer.error, [];
        return;
      }
      var analyze := analyzer.value;

      var entries: map<nat, Entry> := map[];
      var completedCount := 0;
      while completedCount < |order|
        invariant completedCount <= |order| == total
        invariant progress == completedCount
        invariant entries == Entries(inboxEmails, CompletedTasks(order[..completedCount]), analyze)
      {
        var j := order[completedCount];
        CollectStep(inboxEmails, order, completedCount, analyze);
        completedCount := completedCount + 1;
        ReportProgress(completedCount);
        var outcome := analyze(inboxEmails[j].email);
        if outcome.Returned? {
          entries := entries[inboxEmails[j].index := Entry(inboxEmails[j].email, outcome.verdict.isSpam, outcome.verdict.reason)];
        }
      }
      assert order[..completedCount] == order;
      AllCompleted(order, |inboxEmails|);

      var emailResults := OrderedResults(entries, matchesOf, anchorsOf);
      scanning, currentEmail, results := false, "Scan completed successfully!", emailResults;
    }

    /** `run_scan` as app.py runs it, with the class of `gmail_spam_killer`:
        as soon as there is an inbox email, the lookup of the missing
        `_analyze_email_batch` raises, the outer `except` catches it, and
        the scan ends with the error, no results and no progress, while the
        total already counts the inbox emails. */
    method RunScanAsImported(maxEmails: int, emails: seq<Email>,
                             matchesOf: string -> seq<string>, anchorsOf: string -> Option<seq<Anchor>>)
      requires progress == 0 && total == 0
      modifies this
      ensures !scanning && Valid()
      ensures InboxEmails(emails) != [] ==>
                && currentEmail == "Error during scan: " + MissingAttribute
                && results == [] && progress == 0 && total == |InboxEmails(emails)|
    {
      RunScan(maxEmails, emails, Err(MissingAttribute), [], matchesOf, anchorsOf);
    }
  }

  // ----- archive_email -----

  const ArchivedMessage := "Email archived successfully!"
  const UnsubscribeFailed := " (Unsubscribe attempts failed)"

  /** The message of a successful archive: the base text alone without an
      unsubscribe request, with the number of lists left when some attempt
      succeeded, and with a failure note when none did. */
  function ArchiveMessage(unsubscribe: bool, count: nat): (m: string)
    ensures StartsWith(m, ArchivedMessage)
    ensures !unsubscribe ==> m == ArchivedMessage
    ensures unsubscribe && count > 0 ==>
              m == ArchivedMessage + " Unsubscribed from " + NatToString(count) + " mailing lists."
    ensures unsubscribe && count == 0 ==> m == ArchivedMessage + UnsubscribeFailed
  {
    var message := ArchivedMessage;
    if unsubscribe && count > 0 then message + " Unsubscribed from " + NatToString(count) + " mailing lists."
    else if unsubscribe && count == 0 then message + UnsubscribeFailed
    else message
  }

  /** The unsubscribe count of a request: attempts are made only when
      unsubscribing was asked for and links were sent. */
  function UnsubscribeCount(req: ArchiveRequest, get: string -> Page): (n: nat)
    ensures n <= MaxAttempts && n <= |req.unsubscribeLinks|
    ensures !req.unsubscribe ==> n == 0
  {
    if req.unsubscribe && req.unsubscribeLinks != [] then CountOk(Take(req.unsubscribeLinks, MaxAttempts), get) else 0
  }

  /** The archive endpoint. `initialized` says whether the spam killer
      exists, `archived` is the outcome of `archive_email` for an id. */
  method ArchiveEmail(initialized: bool, req: ArchiveRequest, get: string -> Page, submit: Request -> Reply,
                      urljoin: (string, string) -> string, archived: string -> bool)
    returns (r: Result<ArchiveResponse, HttpError>)
    ensures !initialized ==> r == Err(HttpError(400, "Not authenticated"))
    ensures initialized && archived(req.emailId) ==>
              var n := UnsubscribeCount(req, get);
              r == Ok(ArchiveResponse(true, ArchiveMessage(req.unsubscribe, n), req.emailId, n))
    ensures initialized && !archived(req.emailId) ==>
              r == Ok(ArchiveResponse(false, "Failed to archive email", req.emailId, 0))
  {
    if !initialized {
      return Err(HttpError(400, "Not authenticated"));
    }
    var unsubscribeSuccess := 0;
    if req.unsubscribe && req.unsubscribeLinks != [] {
      var sent;
      unsubscribeSuccess, sent := AttemptUnsubscribe(req.unsubscribeLinks, get, submit, urljoin);
    }
    if archived(req.emailId) {
      var message := ArchivedMessage;
      if req.unsubscribe && unsubscribeSuccess > 0 {
        message := message + " Unsubscribed from " + NatToString(unsubscribeSuccess) + " mailing lists.";
      } else if req.unsubscribe && unsubscribeSuccess == 0 {
        message := message + UnsubscribeFailed;
      }
      return Ok(ArchiveResponse(true, message, req.emailId, unsubscribeSuccess));
    }
    return Ok(ArchiveResponse(false, "Failed to archive email", req.emailId, 0));
  }
}

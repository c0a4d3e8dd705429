/**
 * The review part of `run_spam_filter` in the current filter
 * (gmail_spam_killer_backup.py): the inbox emails are analysed in parallel
 * (`Batch.CollectResults`), then walked in ascending original position; a
 * clean email is reported, a spam email is reported with its unsubscribe
 * links in a dry run, and otherwise, once the user agrees, its links are
 * tried and the email is archived.
 *
 * Collaborators are parameters: `matchesOf` gives the regular-expression
 * matches in a body, `anchorsOf` the anchors of an email's raw HTML (`None`
 * when there is none or it could not be fetched or parsed), `confirm` the
 * user's answer to the archive prompt, `archiveOk` the outcome of
 * `archive_email`, and `get`, `submit`, `urljoin` the HTTP steps of
 * `attempt_unsubscribe`.
 */
module SpamFilter {
  import opened Wrappers
  import opened Text
  import opened Mail
  import opened Classifier
  import opened LinkMiner
  import opened Unsubscribe
  import opened Batch

  /** What happened to one reported email. */
  datatype Handling =
    | Clean
      /** dry run: the links found (the first two are displayed) */
    | WouldArchive(links: seq<string>)
    | Skipped
    | Archived(links: seq<string>, unsubscribed: nat, archived: bool)

  datatype Report = Report(index: nat, entry: Entry, handling: Handling)

  /** How a stored result is handled: clean emails are only reported; a spam
      email in a dry run has its links looked up; otherwise, when the user
      agrees, its links are looked up, tried (only when there are some), and
      the email is archived. */
  predicate HandledAs(h: Handling, e: Entry, dryRun: bool, confirm: Email -> bool,
                      matchesOf: string -> seq<string>, anchorsOf: string -> Option<seq<Anchor>>,
                      get: string -> Page, archiveOk: string -> bool)
  {
    var found := LinkSet(e.email, matchesOf, anchorsOf);
    if !e.isSpam then h == Clean
    else if dryRun then h.WouldArchive? && Lists(h.links, found)
    else if !confirm(e.email) then h == Skipped
    else
      && h.Archived? && Lists(h.links, found)
      && h.unsubscribed == (if h.links == [] then 0 else CountOk(Take(h.links, MaxAttempts), get))
      && h.archived == archiveOk(e.email.id)
  }

  /** The handling of one spam or clean result. */
  method Handle(e: Entry, dryRun: bool, confirm: Email -> bool,
                matchesOf: string -> seq<string>, anchorsOf: string -> Option<seq<Anchor>>,
                get: string -> Page, submit: Request -> Reply, urljoin: (string, string) -> string,
                archiveOk: string -> bool)
    returns (h: Handling)
    ensures HandledAs(h, e, dryRun, confirm, matchesOf, anchorsOf, get, archiveOk)
    ensures h.Archived? ==> h.unsubscribed <= MaxAttempts && h.unsubscribed <= |h.links|
  {
    if !e.isSpam {
      return Clean;
    }
    if dryRun {
      var links := LinksOf(e.email, matchesOf, anchorsOf);
      return WouldArchive(links);
    }
    if !confirm(e.email) {
      return Skipped;
    }
    var links := LinksOf(e.email, matchesOf, anchorsOf);
    var successCount := 0;
    if links != [] {
      var sent;
      successCount, sent := AttemptUnsubscribe(links, get, submit, urljoin);
    }
    h := Archived(links, successCount, archiveOk(e.email.id));
  }

  /** `r` reports the result stored under `key`, handled as its verdict
      and the user's answers decide. */
  predicate ReportFor(r: Report, results: map<nat, Entry>, key: nat, dryRun: bool, confirm: Email -> bool,
                      matchesOf: string -> seq<string>, anchorsOf: string -> Option<seq<Anchor>>,
                      get: string -> Page, archiveOk: string -> bool)
  {
    && r.index == key && key in results && r.entry == results[key]
    && HandledAs(r.handling, r.entry, dryRun, confirm, matchesOf, anchorsOf, get, archiveOk)
  }

  /** Every result of the map, read in ascending position, is reported once
      and handled as its verdict and the user's answers decide. */
  ghost predicate ReportsOf(reports: seq<Report>, results: map<nat, Entry>, dryRun: bool, confirm: Email -> bool,
                      matchesOf: string -> seq<string>, anchorsOf: string -> Option<seq<Anchor>>,
                      get: string -> Page, archiveOk: string -> bool)
  {
    var keys := SortedSet(results.Keys);
    && |reports| == |keys|
    && forall k :: 0 <= k < |reports| ==>
         ReportFor(reports[k], results, keys[k], dryRun, confirm, matchesOf, anchorsOf, get, archiveOk)
  }

  /** The loop body over the keys `keys`: one report per key, in that order. */
  method ReviewKeys(results: map<nat, Entry>, keys: seq<nat>, dryRun: bool, confirm: Email -> bool,
                    matchesOf: string -> seq<string>, anchorsOf: string -> Option<seq<Anchor>>,
                    get: string -> Page, submit: Request -> Reply, urljoin: (string, string) -> string,
                    archiveOk: string -> bool)
    returns (reports: seq<Report>)
    requires forall k :: 0 <= k < |keys| ==> keys[k] in results
    ensures |reports| == |keys|
    ensures forall k :: 0 <= k < |keys| ==>
              ReportFor(reports[k], results, keys[k], dryRun, confirm, matchesOf, anchorsOf, get, archiveOk)
  {
    reports := [];
    var k := 0;
    while k < |keys|
      invariant k <= |keys|
      invariant |reports| == k
      invariant forall j :: 0 <= j < k ==>
                  ReportFor(reports[j], results, keys[j], dryRun, confirm, matchesOf, anchorsOf, get, archiveOk)
    {
      var i := keys[k];
      var result := results[i];
      var h := Handle(result, dryRun, confirm, matchesOf, anchorsOf, get, submit, urljoin, archiveOk);
      reports := reports + [Report(i, result, h)];
      k := k + 1;
    }
  }

  /** `for i in sorted(results.keys())`: the drain of the result map. */
  method Review(results: map<nat, Entry>, dryRun: bool, confirm: Email -> bool,
                matchesOf: string -> seq<string>, anchorsOf: string -> Option<seq<Anchor>>,
                get: string -> Page, submit: Request -> Reply, urljoin: (string, string) -> string,
                archiveOk: string -> bool)
    returns (reports: seq<Report>)
    ensures ReportsOf(reports, results, dryRun, confirm, matchesOf, anchorsOf, get, archiveOk)
  {
    var keys := SortedKeys(results.Keys);
    assert forall k :: 0 <= k < |keys| ==> keys[k] in results by {
      forall k | 0 <= k < |keys| ensures keys[k] in results {
        assert keys[k] in keys;
      }
    }
    reports := ReviewKeys(results, keys, dryRun, confirm, matchesOf, anchorsOf, get, submit, urljoin, archiveOk);
  }

  /** The reports come in strictly ascending original position. */
  lemma ReportsAscending(reports: seq<Report>, results: map<nat, Entry>, dryRun: bool, confirm: Email -> bool,
                         matchesOf: string -> seq<string>, anchorsOf: string -> Option<seq<Anchor>>,
                         get: string -> Page, archiveOk: string -> bool)
    requires ReportsOf(reports, results, dryRun, confirm, matchesOf, anchorsOf, get, archiveOk)
    ensures forall k, l :: 0 <= k < l < |reports| ==> reports[k].index < reports[l].index
  {
    var keys := SortedSet(results.Keys);
    forall k, l | 0 <= k < l < |reports| ensures reports[k].index < reports[l].index {
      assert ReportFor(reports[k], results, keys[k], dryRun, confirm, matchesOf, anchorsOf, get, archiveOk);
      assert ReportFor(reports[l], results, keys[l], dryRun, confirm, matchesOf, anchorsOf, get, archiveOk);
    }
  }

  /** `run_spam_filter` from the fetched emails on: `processed` is the
      number of inbox emails (the summary's "Processed"), `spamCount` the
      number of spam verdicts, and `reports` the reviewed results. An empty
      fetch, or one without inbox emails, ends the run with nothing done. */
  method RunSpamFilter(emails: seq<Email>, analyze: Email -> TaskOutcome, order: seq<nat>,
                       dryRun: bool, confirm: Email -> bool,
                       matchesOf: string -> seq<string>, anchorsOf: string -> Option<seq<Anchor>>,
                       get: string -> Page, submit: Request -> Reply, urljoin: (string, string) -> string,
                       archiveOk: string -> bool)
    returns (processed: nat, spamCount: nat, reports: seq<Report>)
    requires CompletionOrder(order, |InboxEmails(emails)|)
    ensures processed == |InboxEmails(emails)|
    ensures var tasks := InboxEmails(emails);
            && DistinctIndices(tasks)
            && spamCount == |SpamTasks(tasks, AllTasks(|tasks|), analyze)|
            && ReportsOf(reports, Entries(tasks, AllTasks(|tasks|), analyze), dryRun, confirm, matchesOf, anchorsOf, get, archiveOk)
    ensures spamCount <= |reports| <= processed
  {
    var inboxEmails := InboxEmails(emails);
    IncreasingDistinct(inboxEmails);
    processed := |inboxEmails|;
    if emails == [] || inboxEmails == [] {
      spamCount, reports := 0, [];
      assert AllTasks(0) == {};
      return;
    }
    var results, completedCount;
    results, completedCount, spamCount := CollectResults(inboxEmails, order, analyze);
    SpamAmongResults(inboxEmails, analyze);
    reports := Review(results, dryRun, confirm, matchesOf, anchorsOf, get, submit, urljoin, archiveOk);
  }
}

/**
 * The parallel analysis shared by `run_spam_filter` of the current filter
 * (gmail_spam_killer_backup.py) and `run_scan` of the web application
 * (app.py): the inbox emails keep their positions in the fetched list, each
 * is analysed by a task, the results are stored by position in whatever
 * order the tasks complete, and are then read back in ascending position.
 *
 * Threads are not modelled. The completion order that `as_completed` yields
 * is the input `order`: every task exactly once, in any order. What a task
 * returns is `analyze`: `Raised` when `is_spam`, and so the task, raised.
 */
module Batch {
  import opened Wrappers
  import opened Mail
  import opened Classifier

  /** An inbox email with its position in the fetched list. */
  datatype Indexed = Indexed(index: nat, email: Email)

  /** What is stored for a task that returned. */
  datatype Entry = Entry(email: Email, isSpam: bool, reason: string)

  predicate StrictlyIncreasing(s: seq<Indexed>)
  {
    forall k, l :: 0 <= k < l < |s| ==> s[k].index < s[l].index
  }

  /** `r` lists the inbox emails of `emails` with their positions: each
      entry is an inbox email at its position, every inbox email appears,
      and positions strictly increase. */
  predicate InboxListing(emails: seq<Email>, r: seq<Indexed>)
  {
    && (forall k :: 0 <= k < |r| ==> r[k].index < |emails| && r[k].email == emails[r[k].index] && InInbox(r[k].email))
    && (forall i :: 0 <= i < |emails| && InInbox(emails[i]) ==> exists k :: 0 <= k < |r| && r[k].index == i)
    && StrictlyIncreasing(r)
  }

  /** `[(i, email) for i, email in enumerate(emails) if 'INBOX' in email['labels']]`. */
  function InboxEmails(emails: seq<Email>): (r: seq<Indexed>)
    ensures InboxListing(emails, r)
  {
    if emails == [] then []
    else
      var r := InboxEmails(emails[..|emails| - 1]);
      InboxExtend(emails, r);
      if InInbox(emails[|emails| - 1]) then r + [Indexed(|emails| - 1, emails[|emails| - 1])] else r
  }

  /** One more email: the listing of the shorter list extends to the whole
      one, by the new email when it is in the inbox. */
  lemma InboxExtend(emails: seq<Email>, r: seq<Indexed>)
    requires emails != [] && InboxListing(emails[..|emails| - 1], r)
    ensures var n := |emails| - 1;
            InboxListing(emails, if InInbox(emails[n]) then r + [Indexed(n, emails[n])] else r)
  {
    var n := |emails| - 1;
    var init := emails[..n];
    forall k | 0 <= k < |r| ensures r[k].email == emails[r[k].index] {
      assert init[r[k].index] == emails[r[k].index];
    }
    forall i | 0 <= i < n && InInbox(emails[i]) ensures exists k :: 0 <= k < |r| && r[k].index == i {
      assert init[i] == emails[i];
    }
    if InInbox(emails[n]) {
      var r' := r + [Indexed(n, emails[n])];
      forall i | 0 <= i < |emails| && InInbox(emails[i]) ensures exists k :: 0 <= k < |r'| && r'[k].index == i {
        if i == n {
          assert r'[|r|].index == i;
        } else {
          var k :| 0 <= k < |r| && r[k].index == i;
          assert r'[k].index == i;
        }
      }
    }
  }

  /** `as_completed` yields every task once: a permutation of the positions
      of the task list. */
  predicate CompletionOrder(order: seq<nat>, n: nat)
  {
    && |order| == n
    && (forall k :: 0 <= k < |order| ==> order[k] < n)
    && (forall j :: 0 <= j < n ==> j in order)
    && (forall k, l :: 0 <= k < l < |order| ==> order[k] != order[l])
  }

  predicate Succeeds(t: Indexed, analyze: Email -> TaskOutcome)
  {
    analyze(t.email).Returned?
  }

  function EntryOf(t: Indexed, analyze: Email -> TaskOutcome): Entry
    requires Succeeds(t, analyze)
  {
    var v := analyze(t.email).verdict;
    Entry(t.email, v.isSpam, v.reason)
  }

  predicate DistinctIndices(tasks: seq<Indexed>)
  {
    forall k, l :: 0 <= k < l < |tasks| ==> tasks[k].index != tasks[l].index
  }

  /** The results stored once the tasks at positions `done` have completed:
      each task that returned, under its email's original position. */
  function Entries(tasks: seq<Indexed>, done: set<nat>, analyze: Email -> TaskOutcome): map<nat, Entry>
    requires DistinctIndices(tasks)
  {
    map j | j in done && j < |tasks| && Succeeds(tasks[j], analyze) :: tasks[j].index := EntryOf(tasks[j], analyze)
  }

  /** The positions of the tasks that reported spam. */
  function SpamTasks(tasks: seq<Indexed>, done: set<nat>, analyze: Email -> TaskOutcome): set<nat>
  {
    set j | j in done && j < |tasks| && Succeeds(tasks[j], analyze) && analyze(tasks[j].email).verdict.isSpam
  }

  /** The positions of the tasks completed so far. */
  function CompletedTasks(order: seq<nat>): set<nat>
  {
    set k | k in order
  }

  /** `[0, 1, …, n - 1]`. */
  function Positions(n: nat): (r: seq<nat>)
    ensures |r| == n && forall i :: 0 <= i < n ==> r[i] == i
  {
    if n == 0 then [] else Positions(n - 1) + [n - 1]
  }

  /** The positions of all `n` tasks. */
  function AllTasks(n: nat): (r: set<nat>)
    ensures forall j: nat :: j in r <==> j < n
  {
    PositionsMembers(n);
    CompletedTasks(Positions(n))
  }

  lemma PositionsMembers(n: nat)
    ensures forall j: nat :: j in Positions(n) <==> j < n
  {
    forall j: nat ensures j in Positions(n) <==> j < n {
      if j < n {
        assert Positions(n)[j] == j;
      }
    }
  }

  /** The map after one more completed task `j`, built from the map before. */
  function StepEntries(tasks: seq<Indexed>, done: set<nat>, j: nat, analyze: Email -> TaskOutcome): map<nat, Entry>
    requires DistinctIndices(tasks) && j < |tasks|
  {
    var b := Entries(tasks, done, analyze);
    if Succeeds(tasks[j], analyze) then b[tasks[j].index := EntryOf(tasks[j], analyze)] else b
  }

  /** A completed task that returned has its entry under its position. */
  lemma EntryValue(tasks: seq<Indexed>, done: set<nat>, analyze: Email -> TaskOutcome, i: nat)
    requires DistinctIndices(tasks)
    requires i in done && i < |tasks| && Succeeds(tasks[i], analyze)
    ensures tasks[i].index in Entries(tasks, done, analyze)
    ensures Entries(tasks, done, analyze)[tasks[i].index] == EntryOf(tasks[i], analyze)
  {
  }

  /** The entry of task `i`, already completed or just completed, is in the
      map after the step, unchanged. */
  lemma EntryKept(tasks: seq<Indexed>, done: set<nat>, j: nat, analyze: Email -> TaskOutcome, i: nat)
    requires DistinctIndices(tasks) && j < |tasks|
    requires i in done + {j} && i < |tasks| && Succeeds(tasks[i], analyze)
    ensures tasks[i].index in StepEntries(tasks, done, j, analyze)
    ensures StepEntries(tasks, done, j, analyze)[tasks[i].index] == EntryOf(tasks[i], analyze)
  {
    if i != j {
      EntryValue(tasks, done, analyze, i);
      assert tasks[j].index != tasks[i].index;
    }
  }

  lemma StepKeepsEntries(tasks: seq<Indexed>, done: set<nat>, j: nat, analyze: Email -> TaskOutcome)
    requires DistinctIndices(tasks) && j < |tasks|
    ensures forall x | x in Entries(tasks, done + {j}, analyze) ::
              x in StepEntries(tasks, done, j, analyze)
              && Entries(tasks, done + {j}, analyze)[x] == StepEntries(tasks, done, j, analyze)[x]
  {
    var a := Entries(tasks, done + {j}, analyze);
    forall x | x in a ensures x in StepEntries(tasks, done, j, analyze) && a[x] == StepEntries(tasks, done, j, analyze)[x] {
      var i :| i in done + {j} && i < |tasks| && Succeeds(tasks[i], analyze) && tasks[i].index == x;
      EntryValue(tasks, done + {j}, analyze, i);
      EntryKept(tasks, done, j, analyze, i);
    }
  }

  lemma StepAddsNothing(tasks: seq<Indexed>, done: set<nat>, j: nat, analyze: Email -> TaskOutcome)
    requires DistinctIndices(tasks) && j < |tasks|
    ensures forall x | x in StepEntries(tasks, done, j, analyze) :: x in Entries(tasks, done + {j}, analyze)
  {
    var b := Entries(tasks, done, analyze);
    forall x | x in StepEntries(tasks, done, j, analyze) ensures x in Entries(tasks, done + {j}, analyze) {
      if x in b {
        var i :| i in done && i < |tasks| && Succeeds(tasks[i], analyze) && tasks[i].index == x;
        assert i in done + {j};
      }
    }
  }

  /** One more completed task adds its entry, if it returned, and nothing else. */
  lemma EntriesStep(tasks: seq<Indexed>, done: set<nat>, j: nat, analyze: Email -> TaskOutcome)
    requires DistinctIndices(tasks) && j < |tasks|
    ensures Entries(tasks, done + {j}, analyze)
            == if Succeeds(tasks[j], analyze) then Entries(tasks, done, analyze)[tasks[j].index := EntryOf(tasks[j], analyze)]
               else Entries(tasks, done, analyze)
  {
    StepKeepsEntries(tasks, done, j, analyze);
    StepAddsNothing(tasks, done, j, analyze);
    assert Entries(tasks, done + {j}, analyze) == StepEntries(tasks, done, j, analyze);
  }

  lemma CompletedStep(order: seq<nat>, i: nat)
    requires i < |order| && forall k, l :: 0 <= k < l < |order| ==> order[k] != order[l]
    ensures CompletedTasks(order[..i + 1]) == CompletedTasks(order[..i]) + {order[i]}
    ensures order[i] !in CompletedTasks(order[..i])
  {
    assert order[..i + 1] == order[..i] + [order[i]];
    forall k | 0 <= k < i ensures order[..i][k] != order[i] {
      assert order[..i][k] == order[k];
    }
  }

  lemma SpamStep(tasks: seq<Indexed>, done: set<nat>, j: nat, analyze: Email -> TaskOutcome)
    requires j < |tasks| && j !in done
    ensures |SpamTasks(tasks, done + {j}, analyze)|
            == |SpamTasks(tasks, done, analyze)| + if Succeeds(tasks[j], analyze) && analyze(tasks[j].email).verdict.isSpam then 1 else 0
  {
    if Succeeds(tasks[j], analyze) && analyze(tasks[j].email).verdict.isSpam {
      assert SpamTasks(tasks, done + {j}, analyze) == SpamTasks(tasks, done, analyze) + {j};
    } else {
      assert SpamTasks(tasks, done + {j}, analyze) == SpamTasks(tasks, done, analyze);
    }
  }

  /** Once `as_completed` is exhausted, every task has completed. */
  lemma AllCompleted(order: seq<nat>, n: nat)
    requires CompletionOrder(order, n)
    ensures CompletedTasks(order) == AllTasks(n)
  {
  }

  /** One more task taken from the completion order: the stored map and the
      spam count grow by that task's outcome. */
  lemma CollectStep(tasks: seq<Indexed>, order: seq<nat>, i: nat, analyze: Email -> TaskOutcome)
    requires DistinctIndices(tasks) && CompletionOrder(order, |tasks|) && i < |order|
    ensures var j, done := order[i], CompletedTasks(order[..i]);
            && j < |tasks|
            && Entries(tasks, CompletedTasks(order[..i + 1]), analyze) == StepEntries(tasks, done, j, analyze)
            && |SpamTasks(tasks, CompletedTasks(order[..i + 1]), analyze)|
               == |SpamTasks(tasks, done, analyze)| + if Succeeds(tasks[j], analyze) && analyze(tasks[j].email).verdict.isSpam then 1 else 0
  {
    var j, done := order[i], CompletedTasks(order[..i]);
    CompletedStep(order, i);
    EntriesStep(tasks, done, j, analyze);
    SpamStep(tasks, done, j, analyze);
  }

  /** The loop over `as_completed` of `run_spam_filter`: the progress
      counter, the results by position and the spam counter. The stored
      results and the counters are the same for every completion order. */
  method CollectResults(tasks: seq<Indexed>, order: seq<nat>, analyze: Email -> TaskOutcome)
    returns (results: map<nat, Entry>, completedCount: nat, spamCount: nat)
    requires DistinctIndices(tasks) && CompletionOrder(order, |tasks|)
    ensures completedCount == |tasks|
    ensures results == Entries(tasks, AllTasks(|tasks|), analyze)
    ensures spamCount == |SpamTasks(tasks, AllTasks(|tasks|), analyze)|
  {
    results, completedCount, spamCount := map[], 0, 0;
    var i := 0;
    while i < |order|
      invariant i <= |order|
      invariant completedCount == i
      invariant results == Entries(tasks, CompletedTasks(order[..i]), analyze)
      invariant spamCount == |SpamTasks(tasks, CompletedTasks(order[..i]), analyze)|
    {
      var j := order[i];
      CollectStep(tasks, order, i, analyze);
      completedCount := completedCount + 1;
      var outcome := analyze(tasks[j].email);
      if outcome.Returned? {
        results := results[tasks[j].index := Entry(tasks[j].email, outcome.verdict.isSpam, outcome.verdict.reason)];
        if outcome.verdict.isSpam {
          spamCount := spamCount + 1;
        }
      }
      i := i + 1;
    }
    assert order[..i] == order;
    AllCompleted(order, |tasks|);
  }

  /** Positions are kept: an email whose task returned is stored under its
      position in the fetched list, and nothing else is stored. */
  lemma EntriesByPosition(emails: seq<Email>, analyze: Email -> TaskOutcome, n: nat)
    requires DistinctIndices(InboxEmails(emails))
    ensures var tasks := InboxEmails(emails);
            var results := Entries(tasks, AllTasks(|tasks|), analyze);
            n in results <==> n < |emails| && InInbox(emails[n]) && analyze(emails[n]).Returned?
  {
    var tasks := InboxEmails(emails);
    if n < |emails| && InInbox(emails[n]) {
      var k :| 0 <= k < |tasks| && tasks[k].index == n;
      assert k in AllTasks(|tasks|);
    }
  }

  /** The positions of the tasks that returned. */
  function ReturnedTasks(tasks: seq<Indexed>, done: set<nat>, analyze: Email -> TaskOutcome): set<nat>
  {
    set j | j in done && j < |tasks| && Succeeds(tasks[j], analyze)
  }

  /** Distinct tasks have distinct original positions, so the map holds one
      entry per returned task. */
  lemma {:induction false} ImageSize(tasks: seq<Indexed>, s: set<nat>)
    requires DistinctIndices(tasks) && forall j :: j in s ==> j < |tasks|
    ensures |(set j | j in s :: tasks[j].index)| == |s|
    decreases |s|
  {
    if s != {} {
      var x :| x in s;
      ImageSize(tasks, s - {x});
      assert (set j | j in s :: tasks[j].index) == (set j | j in s - {x} :: tasks[j].index) + {tasks[x].index};
    }
  }

  lemma {:induction false} AllTasksSize(n: nat)
    ensures |AllTasks(n)| == n
  {
    if n > 0 {
      AllTasksSize(n - 1);
      assert AllTasks(n) == AllTasks(n - 1) + {n - 1};
    }
  }

  /** One stored result per task that returned, and at most one spam
      verdict per stored result: the spam count never exceeds the number of
      results, nor that the number of tasks. */
  lemma EntriesKeys(tasks: seq<Indexed>, done: set<nat>, analyze: Email -> TaskOutcome)
    requires DistinctIndices(tasks)
    ensures Entries(tasks, done, analyze).Keys == (set j | j in ReturnedTasks(tasks, done, analyze) :: tasks[j].index)
  {
  }

  lemma SpamReturned(tasks: seq<Indexed>, done: set<nat>, analyze: Email -> TaskOutcome)
    ensures SpamTasks(tasks, done, analyze) <= ReturnedTasks(tasks, done, analyze) <= done
  {
  }

  /** One stored result per task that returned, and at most one spam
      verdict per stored result: the spam count never exceeds the number of
      results, nor that the number of tasks. */
  lemma SpamAmongResults(tasks: seq<Indexed>, analyze: Email -> TaskOutcome)
    requires DistinctIndices(tasks)
    ensures var all := AllTasks(|tasks|);
            |SpamTasks(tasks, all, analyze)| <= |Entries(tasks, all, analyze)| <= |tasks|
  {
    var all := AllTasks(|tasks|);
    var ok := ReturnedTasks(tasks, all, analyze);
    EntriesKeys(tasks, all, analyze);
    ImageSize(tasks, ok);
    MapSize(Entries(tasks, all, analyze));
    SpamReturned(tasks, all, analyze);
    SubsetSize(SpamTasks(tasks, all, analyze), ok);
    SubsetSize(ok, all);
    AllTasksSize(|tasks|);
  }

  lemma MapSize(m: map<nat, Entry>)
    ensures |m| == |m.Keys|
  {
  }

  lemma SubsetSize(a: set<nat>, b: set<nat>)
    requires a <= b
    ensures |a| <= |b|
  {
    assert b == a + (b - a);
    assert a * (b - a) == {};
  }

  lemma IncreasingDistinct(tasks: seq<Indexed>)
    requires StrictlyIncreasing(tasks)
    ensures DistinctIndices(tasks)
  {
  }

  // ----- sorted(results.keys()) -----

  predicate Ascending(s: seq<nat>)
  {
    forall k, l :: 0 <= k < l < |s| ==> s[k] < s[l]
  }

  /** A set of naturals that holds `y` has a least element. */
  lemma {:induction false} MinExists(s: set<nat>, y: nat)
    requires y in s
    ensures exists m :: m in s && forall x :: x in s ==> m <= x
    decreases y
  {
    if x :| x in s && x < y {
      MinExists(s, x);
    } else {
      assert forall x :: x in s ==> y <= x;
    }
  }

  /** The least element of a non-empty set of naturals. */
  ghost function Least(s: set<nat>): (m: nat)
    requires s != {}
    ensures m in s && forall x :: x in s ==> m <= x
  {
    var y :| y in s;
    MinExists(s, y);
    var m :| m in s && forall x :: x in s ==> m <= x;
    m
  }

  /** The elements of `s` in ascending order. */
  ghost function SortedSet(s: set<nat>): (r: seq<nat>)
    ensures Ascending(r)
    ensures forall k :: k in r <==> k in s
    ensures |r| == |s|
    decreases |s|
  {
    if s == {} then []
    else
      var m := Least(s);
      var rest := SortedSet(s - {m});
      assert forall k :: k in rest ==> m < k;
      [m] + rest
  }

  /** Part way through `sorted(keys)`: `out` lists, in ascending order,
      the keys taken so far, all below the keys left in `rest`. */
  ghost predicate Draining(keys: set<nat>, out: seq<nat>, rest: set<nat>)
  {
    && rest <= keys
    && Ascending(out)
    && (forall k :: k in out <==> k in keys && k !in rest)
    && (forall k, x :: 0 <= k < |out| && x in rest ==> out[k] < x)
    && |out| + |rest| == |keys|
  }

  /** Taking the least remaining key keeps the drain in order. */
  lemma DrainStep(keys: set<nat>, out: seq<nat>, rest: set<nat>, m: nat)
    requires Draining(keys, out, rest)
    requires m in rest && forall x :: x in rest ==> m <= x
    ensures Draining(keys, out + [m], rest - {m}) && |rest - {m}| < |rest|
  {
    var out' := out + [m];
    forall k, l | 0 <= k < l < |out'| ensures out'[k] < out'[l] {
      if l == |out| {
        assert out'[k] == out[k];
      }
    }
  }

  /** A least element of a non-empty set of positions. */
  method PickLeast(rest: set<nat>) returns (m: nat)
    requires rest != {}
    ensures m in rest && forall x :: x in rest ==> m <= x
  {
    var some :| some in rest;
    MinExists(rest, some);
    m :| m in rest && forall x :: x in rest ==> m <= x;
  }

  /** `sorted(keys)`: every key once, in ascending order. */
  method SortedKeys(keys: set<nat>) returns (out: seq<nat>)
    ensures Ascending(out)
    ensures forall k :: k in out <==> k in keys
    ensures |out| == |keys|
    ensures out == SortedSet(keys)
  {
    out := [];
    var rest := keys;
    while rest != {}
      invariant Draining(keys, out, rest)
      decreases |rest|
    {
      var m := PickLeast(rest);
      DrainStep(keys, out, rest, m);
      out, rest := out + [m], rest - {m};
    }
    DrainDone(keys, out);
  }

  /** A finished drain is the ascending listing of the keys. */
  lemma DrainDone(keys: set<nat>, out: seq<nat>)
    requires Draining(keys, out, {})
    ensures Ascending(out) && (forall k :: k in out <==> k in keys) && |out| == |keys|
    ensures out == SortedSet(keys)
  {
    AscendingUnique(out, SortedSet(keys));
  }

  /** An ascending sequence is fixed by its elements: the drain order
      depends on nothing but the set of stored positions. */
  lemma {:induction false} AscendingUnique(a: seq<nat>, b: seq<nat>)
    requires Ascending(a) && Ascending(b)
    requires forall k :: k in a <==> k in b
    ensures a == b
    decreases |a|
  {
    assert a != [] <==> b != [] by {
      if a != [] { assert a[0] in a; }
      if b != [] { assert b[0] in b; }
    }
    if a != [] {
      SameHead(a, b);
      SameTail(a, b);
      AscendingUnique(a[1..], b[1..]);
      assert a == [a[0]] + a[1..] && b == [b[0]] + b[1..];
    }
  }

  /** Two ascending listings of the same elements start alike. */
  lemma SameHead(a: seq<nat>, b: seq<nat>)
    requires Ascending(a) && Ascending(b) && a != [] && b != []
    requires forall k :: k in a <==> k in b
    ensures a[0] == b[0]
  {
    assert a[0] in a;
    var j :| 0 <= j < |b| && b[j] == a[0];
    assert b[0] in a;
    var i :| 0 <= i < |a| && a[i] == b[0];
    assert a[0] <= a[i] && b[0] <= b[j];
  }

  /** Removing a common first element leaves listings of the same elements. */
  lemma SameTail(a: seq<nat>, b: seq<nat>)
    requires Ascending(a) && Ascending(b) && a != [] && b != [] && a[0] == b[0]
    requires forall k :: k in a <==> k in b
    ensures Ascending(a[1..]) && Ascending(b[1..])
    ensures forall k :: k in a[1..] <==> k in b[1..]
  {
    forall k ensures k in a[1..] <==> k in b[1..] {
      if k in a[1..] {
        var i :| 1 <= i < |a| && a[i] == k;
        assert k != b[0] && k in b;
      }
      if k in b[1..] {
        var j :| 1 <= j < |b| && b[j] == k;
        assert k != a[0] && k in a;
      }
    }
  }

}

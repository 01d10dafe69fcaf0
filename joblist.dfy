/** The dashboard's pure computations over the job list: the status-cycle
    click, deletion, the search-and-status filter, the per-status counts, the
    status badge's CSS class and the shortened texts on a job card. */
module JobList {
  import opened Wrappers
  import opened Text
  import opened Entities

  /** `r` is `s` with some elements left out, the rest in their order. */
  ghost predicate SubseqOf<T(!new)>(r: seq<T>, s: seq<T>)
    decreases |s|
  {
    if r == [] then true
    else if s == [] then false
    else (r[0] == s[0] && SubseqOf(r[1..], s[1..])) || SubseqOf(r, s[1..])
  }

  /** `Array.prototype.filter`: the elements of `s` that satisfy `p`. */
  function Keep<T>(s: seq<T>, p: T -> bool): (r: seq<T>)
    ensures |r| <= |s|
    ensures forall k :: 0 <= k < |r| ==> p(r[k])
  {
    if s == [] then []
    else if p(s[0]) then [s[0]] + Keep(s[1..], p)
    else Keep(s[1..], p)
  }

  /** The filter keeps, in order, every occurrence of every element that
      satisfies `p` and nothing else: its result is a subsequence of `s`, and
      each value occurs in it as often as in `s` when it satisfies `p` and not
      at all otherwise. */
  lemma {:induction false} KeepSpec<T(!new)>(s: seq<T>, p: T -> bool)
    ensures SubseqOf(Keep(s, p), s)
    ensures forall x :: multiset(Keep(s, p))[x] == if p(x) then multiset(s)[x] else 0
  {
    if s != [] {
      KeepSpec(s[1..], p);
      assert s == [s[0]] + s[1..];
    }
  }

  /** Filtering with a predicate every element satisfies changes nothing. */
  lemma {:induction false} KeepAll<T(!new)>(s: seq<T>, p: T -> bool)
    requires forall k :: 0 <= k < |s| ==> p(s[k])
    ensures Keep(s, p) == s
  {
    if s != [] {
      KeepAll(s[1..], p);
    }
  }

  /** Filtering distributes over concatenation. */
  lemma {:induction false} KeepConcat<T(!new)>(a: seq<T>, b: seq<T>, p: T -> bool)
    ensures Keep(a + b, p) == Keep(a, p) + Keep(b, p)
  {
    if a != [] {
      calc {
        Keep(a + b, p);
        { assert (a + b)[0] == a[0] && (a + b)[1..] == a[1..] + b; }
        if p(a[0]) then [a[0]] + Keep(a[1..] + b, p) else Keep(a[1..] + b, p);
        { KeepConcat(a[1..], b, p); }
        if p(a[0]) then [a[0]] + (Keep(a[1..], p) + Keep(b, p)) else Keep(a[1..], p) + Keep(b, p);
        Keep(a, p) + Keep(b, p);
      }
    } else {
      assert a + b == b;
    }
  }

  // ---------------------------------------------------------------- status click

  /** `jobs.map(...)` in `updateJobStatus`: the list keeps its length and
      order, no field but `status` changes anywhere, and the status advances
      in exactly the records whose id is `id` (all of them, if ids repeat). */
  function WithStatusCycled(jobs: seq<Job>, id: string): (r: seq<Job>)
    ensures |r| == |jobs|
    ensures forall k :: 0 <= k < |jobs| ==> r[k].(status := jobs[k].status) == jobs[k]
    ensures forall k :: 0 <= k < |jobs| ==>
      r[k].status == if jobs[k].id == id then NextStatus(jobs[k].status) else jobs[k].status
  {
    if jobs == [] then []
    else
      var j := jobs[0];
      var j' := if j.id == id then j.(status := NextStatus(j.status)) else j;
      [j'] + WithStatusCycled(jobs[1..], id)
  }

  /** A click on an id that no record carries changes nothing. */
  lemma CycleUnknownId(jobs: seq<Job>, id: string)
    requires forall k :: 0 <= k < |jobs| ==> jobs[k].id != id
    ensures WithStatusCycled(jobs, id) == jobs
  {
  }

  /** Three clicks on the same id restore the list, provided every record with
      that id is on the cycle Applied, Pending, Rejected. */
  lemma CycleThrice(jobs: seq<Job>, id: string)
    requires forall k :: 0 <= k < |jobs| && jobs[k].id == id ==> InCycle(jobs[k].status)
    ensures WithStatusCycled(WithStatusCycled(WithStatusCycled(jobs, id), id), id) == jobs
  {
  }

  // ---------------------------------------------------------------- deletion

  /** `jobs.filter(job => job.id !== jobId)`: exactly the records whose id is
      not `id`, in their original order. */
  function Without(jobs: seq<Job>, id: string): (r: seq<Job>)
    ensures SubseqOf(r, jobs)
    ensures forall j :: multiset(r)[j] == if j.id != id then multiset(jobs)[j] else 0
    ensures forall k :: 0 <= k < |r| ==> r[k].id != id
  {
    KeepSpec(jobs, (j: Job) => j.id != id);
    Keep(jobs, (j: Job) => j.id != id)
  }

  /** Deleting an id that no record carries changes nothing. */
  lemma WithoutUnknownId(jobs: seq<Job>, id: string)
    requires forall k :: 0 <= k < |jobs| ==> jobs[k].id != id
    ensures Without(jobs, id) == jobs
  {
    KeepAll(jobs, (j: Job) => j.id != id);
  }

  /** A record that survives deletion was in the list and has another id; a
      record with another id survives. */
  lemma WithoutMembership(jobs: seq<Job>, id: string, j: Job)
    ensures j in Without(jobs, id) <==> j in jobs && j.id != id
  {
  }

  // ---------------------------------------------------------------- filtering

  /** The search box: the lower-cased term occurs in the lower-cased company
      name or role. */
  predicate MatchesSearch(job: Job, term: string) {
    Includes(ToLower(job.companyName), ToLower(term)) || Includes(ToLower(job.role), ToLower(term))
  }

  /** The status select: `All`, or the name of the job's status. */
  predicate MatchesStatus(job: Job, filter: string) {
    filter == "All" || StatusName(job.status) == filter
  }

  /** `filteredJobs`: the jobs that match both the search and the status
      filter, in list order, each exactly as often as in the list. */
  function FilteredJobs(jobs: seq<Job>, term: string, filter: string): (r: seq<Job>)
    ensures SubseqOf(r, jobs)
    ensures forall j :: multiset(r)[j] == if MatchesSearch(j, term) && MatchesStatus(j, filter) then multiset(jobs)[j] else 0
    ensures forall k :: 0 <= k < |r| ==> MatchesSearch(r[k], term) && MatchesStatus(r[k], filter)
  {
    KeepSpec(jobs, (j: Job) => MatchesSearch(j, term) && MatchesStatus(j, filter));
    Keep(jobs, (j: Job) => MatchesSearch(j, term) && MatchesStatus(j, filter))
  }

  /** `p` occurs in `s` when case is ignored. */
  ghost predicate OccursIgnoringCase(s: string, p: string) {
    var ls, lp := ToLower(s), ToLower(p);
    exists i :: OccursAt(ls, lp, i)
  }

  /** The search is a case-insensitive substring test on company name or
      role, and the empty term matches every job. */
  lemma MatchesSearchIff(job: Job, term: string)
    ensures MatchesSearch(job, term) <==>
      OccursIgnoringCase(job.companyName, term) || OccursIgnoringCase(job.role, term)
    ensures MatchesSearch(job, "")
  {
    IncludesIff(ToLower(job.companyName), ToLower(term));
    IncludesIff(ToLower(job.role), ToLower(term));
    IncludesEmpty(ToLower(job.companyName));
  }

  /** Filtering by a status name keeps exactly the jobs with that status,
      unless the name is `All` itself (a status off the cycle could be called
      that), in which case every job is kept. */
  lemma MatchesStatusIff(job: Job, s: Status)
    ensures StatusName(s) != "All" ==> (MatchesStatus(job, StatusName(s)) <==> job.status == s)
    ensures StatusName(s) == "All" ==> MatchesStatus(job, StatusName(s))
  {
    StatusNameInjective(job.status, s);
  }

  /** With an empty search term and the `All` filter every job is shown. */
  lemma FilterEverything(jobs: seq<Job>)
    ensures FilteredJobs(jobs, "", "All") == jobs
  {
    forall k | 0 <= k < |jobs| ensures MatchesSearch(jobs[k], "") {
      MatchesSearchIff(jobs[k], "");
    }
    KeepAll(jobs, (j: Job) => MatchesSearch(j, "") && MatchesStatus(j, "All"));
  }

  /** Filtering the filtered list again changes nothing. */
  lemma FilterIdempotent(jobs: seq<Job>, term: string, filter: string)
    ensures FilteredJobs(FilteredJobs(jobs, term, filter), term, filter) == FilteredJobs(jobs, term, filter)
  {
    KeepAll(FilteredJobs(jobs, term, filter), (j: Job) => MatchesSearch(j, term) && MatchesStatus(j, filter));
  }

  // ---------------------------------------------------------------- statistics

  datatype Stats = Stats(totalApplied: nat, pending: nat, applied: nat, rejected: nat)

  /** `jobs.filter(job => job.status === s).length`. */
  function CountStatus(jobs: seq<Job>, s: Status): (n: nat)
    ensures n <= |jobs|
  {
    |Keep(jobs, (j: Job) => j.status == s)|
  }

  /** Counting one record at a time. */
  lemma CountStatusStep(jobs: seq<Job>, s: Status)
    requires jobs != []
    ensures CountStatus(jobs, s) == (if jobs[0].status == s then 1 else 0) + CountStatus(jobs[1..], s)
  {
  }

  /** `stats`. */
  function ComputeStats(jobs: seq<Job>): (st: Stats)
    ensures st.totalApplied == |jobs|
  {
    Stats(|jobs|, CountStatus(jobs, Pending), CountStatus(jobs, Applied), CountStatus(jobs, Rejected))
  }

  /** The three status counts never exceed the total, and add up to it
      exactly when no job has a status off the cycle. */
  lemma {:induction false} StatsSum(jobs: seq<Job>)
    ensures ComputeStats(jobs).pending + ComputeStats(jobs).applied + ComputeStats(jobs).rejected <= |jobs|
    ensures ComputeStats(jobs).pending + ComputeStats(jobs).applied + ComputeStats(jobs).rejected == |jobs|
        <==> forall k :: 0 <= k < |jobs| ==> InCycle(jobs[k].status)
  {
    if jobs != [] {
      StatsSum(jobs[1..]);
      CountStatusStep(jobs, Pending);
      CountStatusStep(jobs, Applied);
      CountStatusStep(jobs, Rejected);
      if forall k :: 0 <= k < |jobs[1..]| ==> InCycle(jobs[1..][k].status) {
        if InCycle(jobs[0].status) {
          forall k | 0 <= k < |jobs| ensures InCycle(jobs[k].status) {
            if k > 0 { assert jobs[k] == jobs[1..][k - 1]; }
          }
        }
      } else {
        var k :| 0 <= k < |jobs[1..]| && !InCycle(jobs[1..][k].status);
        assert jobs[k + 1] == jobs[1..][k];
      }
    }
  }

  /** Adding a job raises the total by one and the count of the new job's
      status by one, and leaves the other counts as they were. */
  lemma StatsAfterAppend(jobs: seq<Job>, job: Job, s: Status)
    ensures CountStatus(jobs + [job], s) == CountStatus(jobs, s) + (if job.status == s then 1 else 0)
  {
    KeepConcat(jobs, [job], (j: Job) => j.status == s);
  }

  /** Which status each statistic counts: an empty list counts nothing, and
      appending a job adds one to the total and one to the field its status
      names, `pending`, `applied` or `rejected`, and nothing else; a job off
      the cycle only adds to the total. */
  lemma StatsFields(jobs: seq<Job>, job: Job)
    ensures ComputeStats([]) == Stats(0, 0, 0, 0)
    ensures var before, after := ComputeStats(jobs), ComputeStats(jobs + [job]);
      && after.totalApplied == before.totalApplied + 1
      && after.pending == before.pending + (if job.status == Pending then 1 else 0)
      && after.applied == before.applied + (if job.status == Applied then 1 else 0)
      && after.rejected == before.rejected + (if job.status == Rejected then 1 else 0)
  {
    StatsAfterAppend(jobs, job, Pending);
    StatsAfterAppend(jobs, job, Applied);
    StatsAfterAppend(jobs, job, Rejected);
  }

  // ---------------------------------------------------------------- job card

  /** The badge class `status-<name>`, lower-cased with white-space runs
      replaced by one dash: always a single class token. */
  function StatusClass(s: Status): (c: string)
    ensures StartsWith(c, "status-") && NoSpace(c)
    ensures c == NameClass(StatusName(s))
  {
    NameClass(StatusName(s))
  }

  /** The class for a status name: `status-`, then the name lower-cased with
      every run of white space replaced by one dash. */
  function NameClass(name: string): (c: string)
    ensures StartsWith(c, "status-") && NoSpace(c)
  {
    var c := "status-" + CollapseSpaces(ToLower(name));
    assert c[..7] == "status-";
    c
  }


  /** A status name without white space gives the class `status-` followed by
      the lower-cased name. */
  lemma StatusClassOfPlainName(s: Status)
    requires NoSpace(StatusName(s))
    ensures StatusClass(s) == "status-" + ToLower(StatusName(s))
  {
    NoSpaceToLower(StatusName(s));
    CollapseSpacesIdentity(ToLower(StatusName(s)));
  }


  /** The names of the three cycle states are single words. */
  lemma CycleNamesArePlain()
    ensures NoSpace("Applied") && NoSpace("Pending") && NoSpace("Rejected")
  {
  }

  /** A cycle state's class is `status-` followed by its lower-cased name. */
  lemma StatusClassOfCycle(s: Status)
    requires InCycle(s)
    ensures StatusClass(s) == "status-" + ToLower(StatusName(s))
  {
    CycleNamesArePlain();
    StatusClassOfPlainName(s);
  }

  /** A name made of two pieces around a maximal run of white space gives
      `status-`, the first piece's lower-cased replacement, a single dash,
      and the second piece's. Applied run by run, with the single-word case
      of StatusClassOfPlainName for the last word, this gives the class of
      any name. */
  lemma NameClassOfWords(a: string, w: string, b: string)
    requires w != [] && AllSpace(w)
    requires a == [] || !IsSpace(a[|a| - 1])
    requires b == [] || !IsSpace(b[0])
    ensures NameClass(a + w + b) == "status-" + CollapseSpaces(ToLower(a)) + "-" + CollapseSpaces(ToLower(b))
  {
    var n := a + w + b;
    var m, x, y := CollapseSpaces(ToLower(n)), CollapseSpaces(ToLower(a)), CollapseSpaces(ToLower(b));
    assert NameClass(n) == "status-" + m;
    CollapseLowerSplit(a, w, b);
    AppendRegroup("status-", x, "-", y);
  }

  /** A name of two words separated by white space gives
      `status-<first>-<second>`, lower-cased. */
  lemma NameClassOfTwoWords(a: string, w: string, b: string)
    requires a != [] && NoSpace(a) && b != [] && NoSpace(b)
    requires w != [] && AllSpace(w)
    ensures NameClass(a + w + b) == "status-" + ToLower(a) + "-" + ToLower(b)
  {
    NameClassOfWords(a, w, b);
    NoSpaceToLower(a);
    NoSpaceToLower(b);
    CollapseSpacesIdentity(ToLower(a));
    CollapseSpacesIdentity(ToLower(b));
  }

  const DescriptionLimit: nat := 150
  const RequirementsLimit: nat := 100

  /** Text shown in a card section on the dashboard: nothing for an empty
      field, otherwise the text cut at `limit` characters with `...`. */
  function Shortened(text: string, limit: nat): (shown: Option<string>)
    ensures shown.None? <==> text == ""
    ensures shown.Some? ==> |shown.value| <= limit + 3
    ensures shown.Some? && |text| <= limit ==> shown.value == text
    ensures shown.Some? && |text| > limit ==> shown.value == text[..limit] + "..."
  {
    if text == "" then None else Some(Truncate(text, limit))
  }

  /** Text shown in a card section on the earlier dashboard page: nothing for
      an empty field, otherwise the whole text. */
  function InFull(text: string): (shown: Option<string>)
    ensures shown.None? <==> text == ""
    ensures shown.Some? ==> shown.value == text
  {
    if text == "" then None else Some(text)
  }

  function CardDescription(job: Job): (shown: Option<string>)
    ensures shown == Shortened(job.description, DescriptionLimit)
    ensures shown.None? <==> job.description == ""
    ensures shown.Some? ==> |shown.value| <= DescriptionLimit + 3
  {
    Shortened(job.description, DescriptionLimit)
  }

  function CardRequirements(job: Job): (shown: Option<string>)
    ensures shown == Shortened(job.requirements, RequirementsLimit)
    ensures shown.None? <==> job.requirements == ""
    ensures shown.Some? ==> |shown.value| <= RequirementsLimit + 3
  {
    Shortened(job.requirements, RequirementsLimit)
  }

  /** What a job card on the dashboard derives from its job: the badge class
      and the two shortened sections. */
  datatype Card = Card(statusClass: string, description: Option<string>, requirements: Option<string>)

  function CardOf(job: Job): (card: Card)
    ensures card.statusClass == StatusClass(job.status)
    ensures card.description == CardDescription(job) && card.requirements == CardRequirements(job)
    ensures StartsWith(card.statusClass, "status-") && NoSpace(card.statusClass)
    ensures card.description.None? <==> job.description == ""
    ensures card.requirements.None? <==> job.requirements == ""
  {
    Card(StatusClass(job.status), CardDescription(job), CardRequirements(job))
  }

  /** The two dashboard versions show the same text for a section exactly
      when it fits the limit, or when it is three characters over and its last
      three characters are already `...`. */
  lemma ShortenedAgreesIff(text: string, limit: nat)
    ensures Shortened(text, limit) == InFull(text) <==>
      |text| <= limit || (|text| == limit + 3 && text[limit..] == "...")
  {
    if |text| == limit + 3 && text[limit..] == "..." {
      assert text == text[..limit] + text[limit..];
    }
  }
}

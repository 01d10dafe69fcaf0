/** The dashboard page's state and its event handlers. The page keeps the job
    list in memory and writes it through to the browser store under one key
    after every change; both versions of the page share this logic and differ
    only in how a job card shows long texts (see JobList.Shortened and
    JobList.InFull). */
module Dashboard {
  import opened Wrappers
  import opened BrowserStorage
  import opened Entities
  import opened JobList

  const JobsKey: string := "jobTracker_jobs"

  const RequiredMessage: string := "Company name and role are required!"

  /** What the mount-time effect does with the stored list: nothing when the
      key is missing or holds the empty string, or the list when it parses.
      `JSON.parse` is not guarded there, so a string that does not parse
      throws out of the effect; with no error boundary the page's component
      tree is then taken down. ParseFailed marks that case; the model does
      not follow the page past it. */
  datatype LoadOutcome = NothingStored | Loaded(jobs: seq<Job>) | ParseFailed

  function LoadResult(items: map<string, string>, codec: Codec<seq<Job>>): (outcome: LoadOutcome)
    ensures outcome.NothingStored? <==> JobsKey !in items || items[JobsKey] == ""
    ensures outcome.Loaded? ==> codec.decode(items[JobsKey]) == Some(outcome.jobs)
    ensures outcome.ParseFailed? <==> JobsKey in items && items[JobsKey] != "" && codec.decode(items[JobsKey]).None?
  {
    if JobsKey in items && items[JobsKey] != "" then
      match codec.decode(items[JobsKey])
      case Some(stored) => Loaded(stored)
      case None => ParseFailed
    else NothingStored
  }

  /** A list written by `saveJobs` is the list the next mount loads, whatever
      else the store holds. */
  lemma ReloadRestoresSaved(items: map<string, string>, codec: Codec<seq<Job>>, jobs: seq<Job>)
    requires Faithful(codec)
    ensures LoadResult(items[JobsKey := codec.encode(jobs)], codec) == Loaded(jobs)
  {
    assert codec.decode(codec.encode(jobs)) == Some(jobs) && codec.encode(jobs) != "";
  }

  /** A submit either adds the job it built or raises the required-fields
      alert. */
  datatype SubmitOutcome = Added(job: Job) | Alerted(message: string)

  class Dashboard {
    var jobs: seq<Job>
    var searchTerm: string
    var statusFilter: string
    var showAddForm: bool
    var formData: FormData
    const storage: LocalStorage
    const codec: Codec<seq<Job>>

    /** The list in memory is the list in the store. */
    ghost predicate Persisted()
      reads this, storage
    {
      JobsKey in storage.items && storage.items[JobsKey] == codec.encode(jobs)
    }

    /** The page's initial state: no jobs, no search, the `All` filter, the
        form closed and empty. */
    constructor (storage: LocalStorage, codec: Codec<seq<Job>>, today: string)
      ensures this.storage == storage && this.codec == codec
      ensures jobs == [] && searchTerm == "" && statusFilter == "All"
      ensures !showAddForm && formData == EmptyForm(today)
    {
      this.storage := storage;
      this.codec := codec;
      jobs := [];
      searchTerm := "";
      statusFilter := "All";
      showAddForm := false;
      formData := EmptyForm(today);
    }

    /** The mount-time effect. */
    method Load() returns (outcome: LoadOutcome)
      modifies this`jobs
      ensures outcome == LoadResult(storage.items, codec)
      ensures jobs == if outcome.Loaded? then outcome.jobs else old(jobs)
    {
      var raw := storage.GetItem(JobsKey);
      if raw.Some? && raw.value != "" {
        var parsed := codec.decode(raw.value);
        if parsed.Some? {
          jobs := parsed.value;
          outcome := Loaded(parsed.value);
        } else {
          outcome := ParseFailed;
        }
      } else {
        outcome := NothingStored;
      }
    }

    /** `saveJobs`: replaces the list and writes it to its key, leaving every
        other key alone. */
    method SaveJobs(updated: seq<Job>)
      modifies this`jobs, storage
      ensures jobs == updated
      ensures storage.items == old(storage.items)[JobsKey := codec.encode(updated)]
      ensures Persisted()
    {
      jobs := updated;
      storage.SetItem(JobsKey, codec.encode(updated));
    }

    /** `updateJobStatus`: a click on a job's status badge. */
    method UpdateJobStatus(jobId: string)
      modifies this`jobs, storage
      ensures jobs == WithStatusCycled(old(jobs), jobId)
      ensures storage.items == old(storage.items)[JobsKey := codec.encode(jobs)]
      ensures Persisted()
    {
      SaveJobs(WithStatusCycled(jobs, jobId));
    }

    /** `deleteJob`, with the answer to the confirmation dialog as `confirmed`. */
    method DeleteJob(jobId: string, confirmed: bool)
      modifies this`jobs, storage
      ensures confirmed ==> jobs == Without(old(jobs), jobId)
      ensures confirmed ==> storage.items == old(storage.items)[JobsKey := codec.encode(jobs)] && Persisted()
      ensures !confirmed ==> jobs == old(jobs) && storage.items == old(storage.items)
    {
      if confirmed {
        SaveJobs(Without(jobs, jobId));
      }
    }

    /** `handleInputChange`: one form field takes the input's value. */
    method HandleInputChange(field: FieldName, value: string)
      modifies this`formData
      ensures formData == WithField(old(formData), field, value)
    {
      formData := WithField(formData, field, value);
    }

    /** `resetForm`, with today's date as `today`. */
    method ResetForm(today: string)
      modifies this`formData
      ensures formData == EmptyForm(today)
    {
      formData := EmptyForm(today);
    }

    /** `handleSubmit`, with `Date.now().toString()` as `newId` and today's date
        as `today`. A blank company name or role raises the alert and changes
        nothing; otherwise the form becomes a job at the end of the list, the
        form closes and is reset. */
    method HandleSubmit(newId: string, today: string) returns (outcome: SubmitOutcome)
      modifies this`jobs, this`formData, this`showAddForm, storage
      ensures !CanSubmit(old(formData)) ==>
        && outcome == Alerted(RequiredMessage)
        && jobs == old(jobs) && formData == old(formData) && showAddForm == old(showAddForm)
        && storage.items == old(storage.items)
      ensures CanSubmit(old(formData)) ==>
        && outcome == Added(NewJob(newId, old(formData)))
        && jobs == old(jobs) + [outcome.job]
        && storage.items == old(storage.items)[JobsKey := codec.encode(jobs)] && Persisted()
        && !showAddForm && formData == EmptyForm(today)
    {
      if !CanSubmit(formData) {
        outcome := Alerted(RequiredMessage);
        return;
      }
      var job := NewJob(newId, formData);
      SaveJobs(jobs + [job]);
      showAddForm := false;
      ResetForm(today);
      outcome := Added(job);
    }

    method OpenAddForm()
      modifies this`showAddForm
      ensures showAddForm
    {
      showAddForm := true;
    }

    method CloseAddForm()
      modifies this`showAddForm
      ensures !showAddForm
    {
      showAddForm := false;
    }

    method SetSearchTerm(term: string)
      modifies this`searchTerm
      ensures searchTerm == term
    {
      searchTerm := term;
    }

    method SetStatusFilter(filter: string)
      modifies this`statusFilter
      ensures statusFilter == filter
    {
      statusFilter := filter;
    }

    /** What the page renders from its state: the filtered list, one card
        per listed job, and the counts. Rendering reads the state and changes
        nothing. */
    method View() returns (visible: seq<Job>, cards: seq<Card>, stats: Stats)
      ensures visible == FilteredJobs(jobs, searchTerm, statusFilter)
      ensures |cards| == |visible|
      ensures forall k :: 0 <= k < |cards| ==> cards[k] == CardOf(visible[k])
      ensures stats == ComputeStats(jobs)
    {
      visible := FilteredJobs(jobs, searchTerm, statusFilter);
      cards := seq(|visible|, k requires 0 <= k < |visible| => CardOf(visible[k]));
      stats := ComputeStats(jobs);
    }
  }

  /** Scenario: a job is added and then deleted with confirmation. The record
      is gone from memory and from the store, and a reload agrees. */
  method AddThenDelete(d: Dashboard, newId: string, today: string) returns (outcome: SubmitOutcome)
    requires Faithful(d.codec)
    requires CanSubmit(d.formData)
    requires forall k :: 0 <= k < |d.jobs| ==> d.jobs[k].id != newId
    modifies d, d.storage
    ensures outcome.Added? && outcome.job.id == newId
    ensures d.jobs == old(d.jobs)
    ensures outcome.job !in d.jobs
    ensures LoadResult(d.storage.items, d.codec) == Loaded(d.jobs)
  {
    ghost var before := d.jobs;
    outcome := d.HandleSubmit(newId, today);
    assert d.jobs == before + [outcome.job];
    d.DeleteJob(newId, true);
    KeepConcat(before, [outcome.job], (j: Job) => j.id != newId);
    WithoutUnknownId(before, newId);
    assert d.jobs == Keep(before + [outcome.job], (j: Job) => j.id != newId);
    ReloadRestoresSaved(old(d.storage.items)[JobsKey := d.codec.encode(before + [outcome.job])], d.codec, d.jobs);
  }
}

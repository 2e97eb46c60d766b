/** The download engine: the table of jobs, and the methods that rewrite its rows. */
module Downloads {
  import opened Common
  import opened DownloadContract
  import opened DownloadJobs

  type Jobs = map<nat, Job>

  // ---- Enqueuing ---------------------------------------------------------------------------------

  /** One unit in one format; without a contract the source cannot give it and the whole request is refused. */
  datatype Want = Want(unit: string, format: Option<string>, contract: Option<Contract>)

  datatype Copy = Copy(unit: string, format: string)

  predicate Live(job: Job) {
    Runnable(job.state) || Active(job.state)
  }

  /** Both would bring the same file: without a format a job may bring any. */
  predicate Overlap(a: Option<string>, b: Option<string>) {
    a.None? || b.None? || a == b
  }

  predicate Busy(jobs: Jobs, unit: string, format: Option<string>) {
    exists id :: id in jobs && Live(jobs[id]) && jobs[id].contract.unit == unit
                 && Overlap(format, jobs[id].contract.fileFormat)
  }

  predicate Owned(copies: set<Copy>, unit: string, format: Option<string>) {
    exists c :: c in copies && c.unit == unit && (format.None? || c.format == format.value)
  }

  /** Without a format any copy of the unit will do; with one, only the copy in that format. */
  lemma OwnedExactly(copies: set<Copy>, unit: string, format: Option<string>)
    ensures Owned(copies, unit, format)
            <==> match format
                 case None => exists f :: Copy(unit, f) in copies
                 case Some(f) => Copy(unit, f) in copies
  {
    if Owned(copies, unit, format) {
      var c :| c in copies && c.unit == unit && (format.None? || c.format == format.value);
      assert c == Copy(unit, c.format);
    }
    if format.None? && exists f :: Copy(unit, f) in copies {
      var f :| Copy(unit, f) in copies;
      assert Copy(unit, f).unit == unit;
    }
    if format.Some? && Copy(unit, format.value) in copies {
      assert Copy(unit, format.value).format == format.value;
    }
  }

  predicate Skipped(jobs: Jobs, copies: set<Copy>, w: Want) {
    Owned(copies, w.unit, w.format) || Busy(jobs, w.unit, w.format)
  }

  /** The wants `..k`, one after the other; `None` once one was refused. */
  function Queue(jobs: Jobs, firstId: nat, copies: set<Copy>, wants: seq<Want>): Option<Jobs> {
    if wants == [] then Some(jobs)
    else
      var k := |wants| - 1;
      var before := Queue(jobs, firstId, copies, wants[..k]);
      if before.None? then None
      else if Skipped(before.value, copies, wants[k]) then before
      else if wants[k].contract.None? then None
      else Some(before.value[firstId + k := Enqueued(wants[k].contract.value)])
  }

  /** No two live jobs are after the same file. */
  ghost predicate Exclusive(jobs: Jobs) {
    forall i, j :: i in jobs && j in jobs && i != j && Live(jobs[i]) && Live(jobs[j]) ==> !Clash(jobs[i], jobs[j])
  }

  predicate Clash(a: Job, b: Job) {
    a.contract.unit == b.contract.unit && Overlap(a.contract.fileFormat, b.contract.fileFormat)
  }

  predicate Matches(w: Want) {
    w.contract.Some? ==> w.contract.value.unit == w.unit && w.contract.value.fileFormat == w.format
  }

  lemma QueueOne(jobs: Jobs, id: nat, w: Want)
    requires Exclusive(jobs) && id !in jobs && w.contract.Some? && Matches(w) && !Busy(jobs, w.unit, w.format)
    ensures Exclusive(jobs[id := Enqueued(w.contract.value)])
  {
  }

  /** The job of a want, new in the table and not of something the library has. */
  predicate RowOf(row: Job, w: Want, copies: set<Copy>) {
    w.contract.Some? && row == Enqueued(w.contract.value) && !Owned(copies, w.unit, w.format)
  }

  /** Enqueuing leaves every job there was, and adds only jobs asked for that the library does not have. */
  lemma {:induction false} QueueAdds(jobs: Jobs, firstId: nat, copies: set<Copy>, wants: seq<Want>)
    requires (forall id :: id in jobs ==> id < firstId) && Queue(jobs, firstId, copies, wants).Some?
    ensures var all := Queue(jobs, firstId, copies, wants).value;
            && (forall id :: id in jobs ==> id in all && all[id] == jobs[id])
            && (forall id :: id in all && id !in jobs ==>
                  firstId <= id < firstId + |wants| && RowOf(all[id], wants[id - firstId], copies))
  {
    if wants != [] {
      hide Busy, Owned, RowOf;
      var k := |wants| - 1;
      QueueAdds(jobs, firstId, copies, wants[..k]);
      var before := Queue(jobs, firstId, copies, wants[..k]).value;
      assert forall i :: 0 <= i < k ==> wants[..k][i] == wants[i];
      if !Skipped(before, copies, wants[k]) {
        RowIs(wants[k], before, copies);
      }
    }
  }

  lemma RowIs(w: Want, jobs: Jobs, copies: set<Copy>)
    requires w.contract.Some? && !Skipped(jobs, copies, w)
    ensures RowOf(Enqueued(w.contract.value), w, copies)
  {
  }

  /**
   Enqueuing queues no second job for a file that a live job is after, and afterwards everything asked for is
   in the library or some live job is after it.
   */
  lemma {:induction false} QueueKeepsExclusive(jobs: Jobs, firstId: nat, copies: set<Copy>, wants: seq<Want>)
    requires Exclusive(jobs) && (forall id :: id in jobs ==> id < firstId) && forall w :: w in wants ==> Matches(w)
    requires Queue(jobs, firstId, copies, wants).Some?
    ensures Exclusive(Queue(jobs, firstId, copies, wants).value)
    ensures Served(Queue(jobs, firstId, copies, wants).value, copies, wants)
  {
    hide Exclusive, Skipped, Matches, Queue, Served, Enqueued, Busy;
    if wants != [] {
      var k := |wants| - 1;
      QueueLast(jobs, firstId, copies, wants);
      QueueKeepsExclusive(jobs, firstId, copies, wants[..k]);
      var before := Queue(jobs, firstId, copies, wants[..k]).value;
      if !Skipped(before, copies, wants[k]) {
        NextIdIsNew(jobs, firstId, copies, wants[..k]);
        NotSkipped(before, copies, wants[k]);
        QueueOne(before, firstId + k, wants[k]);
        SkippedGrows(before, copies, firstId + k, wants[k], wants[..k]);
      }
      ServedLast(Queue(jobs, firstId, copies, wants).value, copies, wants);
    } else {
      ServedNone(jobs, copies);
      QueueNone(jobs, firstId, copies);
    }
  }

  lemma QueueNone(jobs: Jobs, firstId: nat, copies: set<Copy>)
    ensures Queue(jobs, firstId, copies, []) == Some(jobs)
  {
  }

  /** Everything asked for is in the library, or some live job is after it. */
  predicate Served(jobs: Jobs, copies: set<Copy>, wants: seq<Want>) {
    forall w :: w in wants ==> Skipped(jobs, copies, w)
  }

  lemma ServedNone(jobs: Jobs, copies: set<Copy>)
    ensures Served(jobs, copies, [])
  {
  }

  lemma ServedLast(jobs: Jobs, copies: set<Copy>, wants: seq<Want>)
    requires wants != [] && Served(jobs, copies, wants[..|wants| - 1]) && Skipped(jobs, copies, wants[|wants| - 1])
    ensures Served(jobs, copies, wants)
  {
    hide Skipped;
    assert wants == wants[..|wants| - 1] + [wants[|wants| - 1]];
  }

  lemma QueueLast(jobs: Jobs, firstId: nat, copies: set<Copy>, wants: seq<Want>)
    requires wants != [] && Queue(jobs, firstId, copies, wants).Some?
    ensures var k := |wants| - 1;
            var before := Queue(jobs, firstId, copies, wants[..k]);
            && before.Some?
            && (Skipped(before.value, copies, wants[k]) ==> Queue(jobs, firstId, copies, wants) == before)
            && (!Skipped(before.value, copies, wants[k]) ==>
                  && wants[k].contract.Some?
                  && Queue(jobs, firstId, copies, wants).value
                     == before.value[firstId + k := Enqueued(wants[k].contract.value)])
  {
    hide Skipped;
  }

  lemma NextIdIsNew(jobs: Jobs, firstId: nat, copies: set<Copy>, wants: seq<Want>)
    requires (forall id :: id in jobs ==> id < firstId) && Queue(jobs, firstId, copies, wants).Some?
    ensures firstId + |wants| !in Queue(jobs, firstId, copies, wants).value
  {
    hide Queue;
    QueueAdds(jobs, firstId, copies, wants);
  }

  lemma NotSkipped(jobs: Jobs, copies: set<Copy>, w: Want)
    requires !Skipped(jobs, copies, w)
    ensures !Busy(jobs, w.unit, w.format)
  {
  }

  lemma SkippedGrows(jobs: Jobs, copies: set<Copy>, id: nat, w: Want, earlier: seq<Want>)
    requires id !in jobs && w.contract.Some? && Matches(w)
    requires Served(jobs, copies, earlier)
    ensures var all := jobs[id := Enqueued(w.contract.value)]; Skipped(all, copies, w) && Served(all, copies, earlier)
  {
    hide Owned;
    var all := jobs[id := Enqueued(w.contract.value)];
    assert Live(all[id]) && all[id].contract.unit == w.unit;
    forall v | v in earlier ensures Skipped(all, copies, v) {
      if Busy(jobs, v.unit, v.format) {
        var i :| i in jobs && Live(jobs[i]) && jobs[i].contract.unit == v.unit
                 && Overlap(v.format, jobs[i].contract.fileFormat);
        assert all[i] == jobs[i];
      }
    }
  }

  // ---- Live jobs over whole runs -----------------------------------------------------------------

  /** The step brings an ended job back to life. */
  predicate Revives(job: Job, ev: Event, budget: nat) {
    !Live(job) && Live(Next(job, ev, budget))
  }

  /** Only a manual retry does, or a failure of the worker after its file was registered. */
  lemma OnlyTheseRevive(job: Job, ev: Event, budget: nat)
    requires WorkerFits(job) && Enabled(job, ev) && Revives(job, ev, budget)
    ensures ev.Again? || (ev.Fail? && job.state == Completed)
  {
    hide Decided, WithMethod;
  }

  /** One step of one job keeps live jobs apart exactly unless it revives the job while another is after its file. */
  lemma StepKeepsExclusiveIff(jobs: Jobs, id: nat, ev: Event, budget: nat)
    requires Exclusive(jobs) && id in jobs && WellMade(jobs[id].contract)
    ensures Exclusive(jobs[id := Next(jobs[id], ev, budget)])
            <==> !(Revives(jobs[id], ev, budget) && Busy(jobs, jobs[id].contract.unit, jobs[id].contract.fileFormat))
  {
    hide Next, WellMade;
    var job := jobs[id];
    var all := jobs[id := Next(job, ev, budget)];
    StepKeepsPromise(job, ev, budget);
    if Revives(job, ev, budget) && Busy(jobs, job.contract.unit, job.contract.fileFormat) {
      var i :| i in jobs && Live(jobs[i]) && jobs[i].contract.unit == job.contract.unit
               && Overlap(job.contract.fileFormat, jobs[i].contract.fileFormat);
      assert all[i] == jobs[i] && Clash(all[id], all[i]);
    }
  }

  /** A manual retry can break this: exactly when some other live job is after the file of an ended one. */
  lemma RetryKeepsExclusiveIff(jobs: Jobs, id: nat, budget: nat)
    requires Exclusive(jobs) && id in jobs && WellMade(jobs[id].contract) && !jobs[id].working && !Live(jobs[id])
    ensures Exclusive(jobs[id := Next(jobs[id], Again(None), budget)])
            <==> !Busy(jobs, jobs[id].contract.unit, jobs[id].contract.fileFormat)
  {
    StepKeepsExclusiveIff(jobs, id, Again(None), budget);
  }

  /** What happens to the engine: a request, in a library with these copies, or one step of one job. */
  datatype EngineStep = Asked(wants: seq<Want>, copies: set<Copy>) | Of(id: nat, event: Event)

  datatype Table = Table(jobs: Jobs, nextId: nat)

  predicate Possible(t: Table, s: EngineStep) {
    match s
    case Asked(wants, _) =>
      forall w :: w in wants ==> Matches(w) && (w.contract.Some? ==> WellMade(w.contract.value))
    case Of(id, ev) => id in t.jobs && Enabled(t.jobs[id], ev)
  }

  function Then(t: Table, s: EngineStep, budget: nat): Table {
    match s
    case Asked(wants, copies) =>
      var all := Queue(t.jobs, t.nextId, copies, wants);
      if all.None? then t else Table(all.value, t.nextId + |wants|)
    case Of(id, ev) => if id in t.jobs then t.(jobs := t.jobs[id := Next(t.jobs[id], ev, budget)]) else t
  }

  /** The step revives a job whose file a live job is after. */
  predicate Collides(t: Table, s: EngineStep, budget: nat) {
    s.Of? && s.id in t.jobs && Revives(t.jobs[s.id], s.event, budget)
    && Busy(t.jobs, t.jobs[s.id].contract.unit, t.jobs[s.id].contract.fileFormat)
  }

  function AfterSteps(steps: seq<EngineStep>, budget: nat): Table {
    if steps == [] then Table(map[], 0)
    else Then(AfterSteps(steps[..|steps| - 1], budget), steps[|steps| - 1], budget)
  }

  predicate IsEngineRun(steps: seq<EngineStep>, budget: nat) {
    steps == []
    || (IsEngineRun(steps[..|steps| - 1], budget)
        && Possible(AfterSteps(steps[..|steps| - 1], budget), steps[|steps| - 1]))
  }

  predicate NeverCollides(steps: seq<EngineStep>, budget: nat) {
    steps == []
    || (NeverCollides(steps[..|steps| - 1], budget)
        && !Collides(AfterSteps(steps[..|steps| - 1], budget), steps[|steps| - 1], budget))
  }

  ghost predicate InOrder(t: Table) {
    forall id :: id in t.jobs ==> id < t.nextId && WellMade(t.jobs[id].contract)
  }

  lemma QueueInOrder(t: Table, wants: seq<Want>, copies: set<Copy>)
    requires InOrder(t) && Queue(t.jobs, t.nextId, copies, wants).Some?
    requires forall w :: w in wants && w.contract.Some? ==> WellMade(w.contract.value)
    ensures InOrder(Table(Queue(t.jobs, t.nextId, copies, wants).value, t.nextId + |wants|))
  {
    hide WellMade, Queue, Owned;
    QueueAdds(t.jobs, t.nextId, copies, wants);
    var all := Queue(t.jobs, t.nextId, copies, wants).value;
    forall id | id in all ensures id < t.nextId + |wants| && WellMade(all[id].contract) {
      if id !in t.jobs {
        assert wants[id - t.nextId] in wants;
      }
    }
  }

  lemma ThenInOrder(t: Table, s: EngineStep, budget: nat)
    requires InOrder(t) && Possible(t, s)
    ensures InOrder(Then(t, s, budget))
  {
    hide WellMade, Next, Matches, Queue;
    match s
    case Asked(wants, copies) =>
      if Queue(t.jobs, t.nextId, copies, wants).Some? {
        QueueInOrder(t, wants, copies);
      }
    case Of(id, ev) =>
      StepKeepsPromise(t.jobs[id], ev, budget);
  }

  lemma {:induction false} AlwaysInOrder(steps: seq<EngineStep>, budget: nat)
    requires IsEngineRun(steps, budget)
    ensures InOrder(AfterSteps(steps, budget))
  {
    if steps != [] {
      hide Then, Possible, InOrder;
      AlwaysInOrder(steps[..|steps| - 1], budget);
      ThenInOrder(AfterSteps(steps[..|steps| - 1], budget), steps[|steps| - 1], budget);
    } else {
      NothingInOrder();
    }
  }

  lemma NothingInOrder()
    ensures InOrder(Table(map[], 0)) && Exclusive(map[])
  {
  }

  lemma ThenExclusiveIff(t: Table, s: EngineStep, budget: nat)
    requires InOrder(t) && Possible(t, s) && Exclusive(t.jobs)
    ensures Exclusive(Then(t, s, budget).jobs) <==> !Collides(t, s, budget)
  {
    hide Exclusive, Next, Busy, Matches;
    match s
    case Asked(wants, copies) =>
      if Queue(t.jobs, t.nextId, copies, wants).Some? {
        QueueKeepsExclusive(t.jobs, t.nextId, copies, wants);
      }
    case Of(id, ev) =>
      StepKeepsExclusiveIff(t.jobs, id, ev, budget);
  }

  /**
   Over every run of requests, workers, failures, crashes, cancels and retries: no two live jobs are ever after the
   same file, up to the end of the run, if and only if no step revives a job while another one is after its file.
   */
  lemma {:induction false} AlwaysExclusiveIff(steps: seq<EngineStep>, budget: nat)
    requires IsEngineRun(steps, budget)
    ensures NeverCollides(steps, budget) <==> AlwaysApart(steps, budget)
    ensures AlwaysApart(steps, budget) ==> Exclusive(AfterSteps(steps, budget).jobs)
  {
    hide Then, Possible, InOrder, Exclusive, Collides;
    if steps != [] {
      AlwaysExclusiveIff(steps[..|steps| - 1], budget);
      AlwaysInOrder(steps[..|steps| - 1], budget);
      if AlwaysApart(steps[..|steps| - 1], budget) {
        ThenExclusiveIff(AfterSteps(steps[..|steps| - 1], budget), steps[|steps| - 1], budget);
      }
    } else {
      NothingInOrder();
    }
  }

  /** No moment of the run has two live jobs after one file. */
  ghost predicate AlwaysApart(steps: seq<EngineStep>, budget: nat) {
    Exclusive(AfterSteps(steps, budget).jobs) && (steps != [] ==> AlwaysApart(steps[..|steps| - 1], budget))
  }

  // ---- Choosing a file ---------------------------------------------------------------------------

  const KEEPABLE := ["epub", "pdf", "cbz"]

  function FirstWith(formats: seq<string>, wanted: string): (r: Option<nat>)
    ensures r.None? <==> wanted !in formats
    ensures r.Some? ==> r.value < |formats| && formats[r.value] == wanted && wanted !in formats[..r.value]
  {
    if formats == [] then None
    else
      var k := |formats| - 1;
      var before := FirstWith(formats[..k], wanted);
      assert formats == formats[..k] + [formats[k]];
      if before.Some? then
        assert formats[..k][..before.value] == formats[..before.value];
        before
      else if formats[k] == wanted then Some(k) else None
  }

  /** `choose_file` over the offered formats: the chosen format or none; else the first keepable one. */
  method ChooseFile(formats: seq<string>, chosen: Option<string>) returns (r: Option<nat>)
    requires formats != []
    ensures r.Some? ==> r.value < |formats|
    ensures r.None? <==> chosen.Some? && chosen.value !in formats
    ensures r.Some? && chosen.Some? ==> formats[r.value] == chosen.value
    ensures chosen.None? && r.value > 0 ==>
              exists j :: 0 <= j < |KEEPABLE| && formats[r.value] == KEEPABLE[j]
                          && (forall i :: 0 <= i < j ==> KEEPABLE[i] !in formats) && KEEPABLE[j] !in formats[..r.value]
    ensures chosen.None? && (exists f :: f in KEEPABLE && f in formats) ==> formats[r.value] in KEEPABLE
  {
    if chosen.Some? {
      return FirstWith(formats, chosen.value);
    }
    for j := 0 to |KEEPABLE|
      invariant forall i :: 0 <= i < j ==> KEEPABLE[i] !in formats
    {
      var match_ := FirstWith(formats, KEEPABLE[j]);
      if match_.Some? {
        return match_;
      }
    }
    r := Some(0);
  }

  // ---- The engine --------------------------------------------------------------------------------

  class Engine {
    const budget: nat
    var jobs: Jobs
    var nextId: nat

    constructor (budget: nat)
      ensures this.budget == budget && jobs == map[]
    {
      this.budget := budget;
      jobs, nextId := map[], 0;
    }

    method Enqueue(wants: seq<Want>, copies: set<Copy>) returns (ok: bool)
      requires forall id :: id in jobs ==> id < nextId
      modifies this
      ensures forall id :: id in jobs ==> id < nextId
      ensures var all := Queue(old(jobs), old(nextId), copies, wants);
              ok == all.Some? && jobs == if ok then all.value else old(jobs)
    {
      var all := jobs;
      for k := 0 to |wants|
        invariant Queue(old(jobs), old(nextId), copies, wants[..k]) == Some(all)
        invariant forall id :: id in all ==> id < nextId + k
        invariant jobs == old(jobs) && nextId == old(nextId)
      {
        assert wants[..k + 1][..k] == wants[..k];
        if !Skipped(all, copies, wants[k]) {
          if wants[k].contract.None? {
            RefusedForGood(jobs, nextId, copies, wants, k + 1);
            return false;
          }
          all := all[nextId + k := Enqueued(wants[k].contract.value)];
        }
      }
      assert wants[..|wants|] == wants;
      jobs, nextId, ok := all, nextId + |wants|, true;
    }

    method Begin(id: nat)
      requires id in jobs && Enabled(jobs[id], Start)
      modifies this`jobs
      ensures jobs == old(jobs)[id := Next(old(jobs[id]), Start, budget)]
    {
      var job := jobs[id];
      var attempts := job.attempts + 1;
      jobs := jobs[id := job.(state := Preparing, attempts := attempts, staged := true, working := true)];
    }

    method HandleFailure(id: nat, category: string)
      requires id in jobs && Enabled(jobs[id], Fail(category))
      modifies this`jobs
      ensures jobs == old(jobs)[id := Next(old(jobs[id]), Fail(category), budget)]
    {
      var job := jobs[id];
      var ended := job.(working := false);
      var d := NextMethod(job.contract, job.attempts, budget, category);
      if job.state == Canceled {
        jobs := jobs[id := ended];
        return;
      }
      var failing := ended.(error := Some(category));
      match d {
        case Retry =>
          jobs := jobs[id := failing.(state := RetryWait)];
        case WaitForSession =>
          jobs := jobs[id := failing.(state := WaitingForSession, attempts := 0)];
        case WaitForRateLimit =>
          jobs := jobs[id := failing.(state := WaitingForRateLimit, attempts := 0)];
        case Fallback(way) =>
          var switched := WithMethod(job.contract, way);
          if switched.None? {
            jobs := jobs[id := ended];
          } else {
            jobs := jobs[id := failing.(state := Queued, attempts := 0, contract := switched.value,
                                        pages := false, file := false, staged := false)];
          }
        case Ask =>
          jobs := jobs[id := failing.(state := Failed, options := Some(job.contract.order))];
        case GiveUp =>
          jobs := jobs[id := failing.(state := Failed, options := None)];
      }
    }

    method CancelJob(id: nat) returns (known: bool)
      modifies this`jobs
      ensures known <==> id in old(jobs)
      ensures jobs == if known then old(jobs)[id := Next(old(jobs[id]), Cancel, budget)] else old(jobs)
    {
      if id !in jobs {
        return false;
      }
      var job := jobs[id];
      if job.state != Canceled && job.state != Completed {
        jobs := jobs[id := job.(state := Canceled)];
        if job.working && Active(job.state) {
          jobs := jobs[id := jobs[id].(stopping := true)];
        }
      }
      assert jobs == old(jobs)[id := jobs[id]];
      known := true;
    }

    method RetryJob(id: nat, way: Option<string>) returns (ok: bool)
      modifies this`jobs
      ensures ok <==> id in old(jobs) && !old(jobs[id]).working
                      && (way.Some? ==> WithMethod(old(jobs[id]).contract, way.value).Some?)
      ensures jobs == if ok then old(jobs)[id := Next(old(jobs[id]), Again(way), budget)] else old(jobs)
    {
      if id !in jobs || jobs[id].working {
        return false;
      }
      var job := jobs[id];
      var contract := job.contract;
      if way.Some? {
        var switched := WithMethod(contract, way.value);
        if switched.None? {
          return false;
        }
        contract := switched.value;
      }
      jobs := jobs[id := job.(state := Queued, attempts := 0, error := None, options := None, contract := contract,
                              file := false)];
      ok := true;
    }

    /** A job whose worker kept dying has used its attempts and fails. */
    method FailExhausted()
      modifies this`jobs
      ensures jobs == map id | id in old(jobs) :: Exhausted(old(jobs[id]), budget)
    {
      var rest := jobs.Keys;
      var all := jobs;
      while rest != {}
        invariant rest <= jobs.Keys && all.Keys == jobs.Keys && jobs == old(jobs)
        invariant forall id :: id in jobs ==> all[id] == if id in rest then jobs[id] else Exhausted(jobs[id], budget)
      {
        var id :| id in rest;
        all := all[id := Exhausted(all[id], budget)];
        rest := rest - {id};
      }
      jobs := all;
    }

    /**
     At startup no worker lives: jobs that used up their attempts fail, the others go on, and open commits are
     replayed; `replays` says which of a job's rows are registered, which given up, and the rest stay open.
     */
    method RecoverAll(replays: map<nat, seq<Replay>>)
      requires forall id :: id in jobs ==> !jobs[id].working && |ReplaysOf(replays, id)| <= jobs[id].journal
      modifies this`jobs
      ensures jobs == map id | id in old(jobs) ::
                After(Next(old(jobs[id]), Recover, budget), Steps(ReplaysOf(replays, id)), budget)
      ensures forall id :: id in jobs ==>
                IsRun(Next(old(jobs[id]), Recover, budget), Steps(ReplaysOf(replays, id)), budget)
    {
      hide Next, Exhausted, Requeued, Replayed, After, IsRun, ReplaysOf, Steps;
      FailExhausted();
      jobs := map id | id in jobs :: Requeued(jobs[id]);
      jobs := map id | id in jobs :: Replayed(jobs[id], ReplaysOf(replays, id), budget);
      forall id | id in jobs
        ensures jobs[id] == After(Next(old(jobs[id]), Recover, budget), Steps(ReplaysOf(replays, id)), budget)
        ensures IsRun(Next(old(jobs[id]), Recover, budget), Steps(ReplaysOf(replays, id)), budget)
      {
        RecoversInSteps(old(jobs[id]), ReplaysOf(replays, id), budget);
      }
    }
  }

  function Requeued(job: Job): Job {
    if Active(job.state) then job.(state := Recovering) else job
  }

  // ---- Replaying the journal ---------------------------------------------------------------------

  /** What the replay of one open row comes to; the registration does not look at the job's state. */
  datatype Replay = Registered | GivenUp

  function ReplaysOf(replays: map<nat, seq<Replay>>, id: nat): seq<Replay> {
    if id in replays then replays[id] else []
  }

  function Steps(rows: seq<Replay>): seq<Event> {
    if rows == [] then []
    else Steps(rows[..|rows| - 1]) + [if rows[|rows| - 1] == Registered then Register else Abort]
  }

  function Replayed(job: Job, rows: seq<Replay>, budget: nat): Job {
    if rows == [] then job
    else
      var before := Replayed(job, rows[..|rows| - 1], budget);
      Next(before, if rows[|rows| - 1] == Registered then Register else Abort, budget)
  }

  lemma {:induction false} ReplayedInSteps(job: Job, rows: seq<Replay>, budget: nat)
    requires |rows| <= job.journal
    ensures IsRun(job, Steps(rows), budget) && After(job, Steps(rows), budget) == Replayed(job, rows, budget)
    ensures Replayed(job, rows, budget).journal == job.journal - |rows|
  {
    hide IsRun, After;
    if rows == [] {
      NoEvents(job, budget);
    } else {
      var k := |rows| - 1;
      ReplayedInSteps(job, rows[..k], budget);
      OneMoreEvent(job, Steps(rows[..k]), if rows[k] == Registered then Register else Abort, budget);
    }
  }

  /** Failing exhausted jobs, re-queueing the others and replaying what is open is recovering and then replaying. */
  lemma RecoversInSteps(job: Job, rows: seq<Replay>, budget: nat)
    requires |rows| <= job.journal
    ensures var recovered := Next(job, Recover, budget);
            && IsRun(recovered, Steps(rows), budget)
            && After(recovered, Steps(rows), budget) == Replayed(Requeued(Exhausted(job, budget)), rows, budget)
  {
    hide AfterFailure, IsRun, After, Replayed, Steps;
    ReplayedInSteps(Next(job, Recover, budget), rows, budget);
  }

  function Exhausted(job: Job, budget: nat): Job {
    if Active(job.state) && job.attempts > budget then job.(state := Failed, error := Some("interrupted")) else job
  }

  lemma {:induction false} RefusedForGood(jobs: Jobs, firstId: nat, copies: set<Copy>, wants: seq<Want>, k: nat)
    requires k <= |wants| && Queue(jobs, firstId, copies, wants[..k]).None?
    ensures Queue(jobs, firstId, copies, wants).None?
  {
    if k == |wants| {
      assert wants[..k] == wants;
    } else {
      assert wants[..|wants| - 1][..k] == wants[..k];
      RefusedForGood(jobs, firstId, copies, wants[..|wants| - 1], k);
    }
  }
}

/** What becomes of the commits, the kept data and the worker of a download job over whole runs. */
module DownloadCommits {
  import opened Common
  import opened DownloadContract
  import opened DownloadJobs
  import opened DownloadDecisions

  // ---- Every commit is accounted for -------------------------------------------------------------

  function Occurrences(evs: seq<Event>, ev: Event): nat {
    if evs == [] then 0 else Occurrences(evs[..|evs| - 1], ev) + if evs[|evs| - 1] == ev then 1 else 0
  }

  /** The commits that were in a thread whenever the process died. */
  function LostInThreads(job: Job, evs: seq<Event>, budget: nat): nat {
    if evs == [] then 0
    else
      var k := |evs| - 1;
      LostInThreads(job, evs[..k], budget) + if evs[k] == Crash then After(job, evs[..k], budget).threads else 0
  }

  /** Commits that were handed over are refused, journaled, lost with the process, or still in a thread. */
  ghost predicate CommitsAccounted(c: Contract, evs: seq<Event>, budget: nat) {
    var job := After(Enqueued(c), evs, budget);
    && Occurrences(evs, Commit)
       == Occurrences(evs, Refuse) + Occurrences(evs, Journal) + LostInThreads(Enqueued(c), evs, budget) + job.threads
    && Occurrences(evs, Journal) == Occurrences(evs, Register) + Occurrences(evs, Abort) + job.journal
  }

  function One(b: bool): nat {
    if b then 1 else 0
  }

  lemma StepCommits(job: Job, ev: Event, budget: nat)
    requires WellMade(job.contract) && Enabled(job, ev)
    ensures var j := Next(job, ev, budget);
            && j.threads == job.threads + One(ev == Commit) - One(ev == Refuse || ev == Journal)
                            - (if ev == Crash then job.threads else 0)
            && j.journal == job.journal + One(ev == Journal) - One(ev == Register || ev == Abort)
  {
    if ev.Fail? && job.state != Canceled {
      FailureLeavesExactly(job, ev.category, budget);
      hide Next, WellMade;
    } else {
      hide Decided, WithMethod, WellMade;
    }
  }

  /**
   In every run no commit is journaled or refused that was not handed to a thread, and no row of the journal is
   registered or given up twice: so a download is registered at most as often as its worker committed it.
   */
  lemma {:induction false} CommitsAlwaysAccounted(c: Contract, evs: seq<Event>, budget: nat)
    requires WellMade(c) && IsRun(Enqueued(c), evs, budget)
    ensures CommitsAccounted(c, evs, budget)
    ensures Occurrences(evs, Register) <= Occurrences(evs, Commit)
  {
    if evs != [] {
      hide Next, Enabled, WellMade;
      var k := |evs| - 1;
      CommitsAlwaysAccounted(c, evs[..k], budget);
      PromiseKept(Enqueued(c), evs[..k], budget);
      StepCommits(After(Enqueued(c), evs[..k], budget), evs[k], budget);
    }
  }

  /** A registration completes the job, whatever it was, and clears its error. */
  lemma RegisterCompletes(job: Job, budget: nat)
    requires Enabled(job, Register)
    ensures var j := Next(job, Register, budget);
            j == job.(state := Completed, error := None, journal := j.journal) && j.journal == job.journal - 1
  {
  }

  /** Whether a loose commit completes the job is open: any can be refused or given up, and nothing else changes. */
  lemma {:induction false} LooseCanBeGivenUp(job: Job, budget: nat) returns (evs: seq<Event>)
    ensures IsRun(job, evs, budget)
    ensures After(job, evs, budget) == job.(threads := 0, journal := 0)
    decreases Loose(job)
  {
    hide IsRun, After;
    if Loose(job) == 0 {
      evs := [];
      NoEvents(job, budget);
    } else {
      var ev := if job.threads > 0 then Refuse else Abort;
      assert Enabled(job, ev);
      var rest := LooseCanBeGivenUp(Next(job, ev, budget), budget);
      evs := [ev] + rest;
      FirstEvent(job, ev, rest, budget);
    }
  }

  lemma {:induction false} FirstEvent(job: Job, ev: Event, rest: seq<Event>, budget: nat)
    requires Enabled(job, ev) && IsRun(Next(job, ev, budget), rest, budget)
    ensures IsRun(job, [ev] + rest, budget)
    ensures After(job, [ev] + rest, budget) == After(Next(job, ev, budget), rest, budget)
  {
    hide Next, Enabled;
    if rest == [] {
      assert [ev] + rest == [] + [ev];
      NoEvents(job, budget);
      OneMoreEvent(job, [], ev, budget);
    } else {
      var k := |rest| - 1;
      FirstEvent(job, ev, rest[..k], budget);
      assert rest == rest[..k] + [rest[k]];
      assert [ev] + rest == ([ev] + rest[..k]) + [rest[k]];
      OneMoreEvent(job, [ev] + rest[..k], rest[k], budget);
    }
  }

  // ---- What is kept ------------------------------------------------------------------------------

  predicate Requeues(job: Job, ev: Event) {
    ev.Again? && !job.working && (ev.way.None? || ev.way.value in METHODS)
  }

  /** The pages and the file kept change by the worker's word, a switch of method and, the file, a manual retry. */
  lemma StepKept(job: Job, ev: Event, budget: nat)
    requires WellMade(job.contract) && Enabled(job, ev)
    ensures var j := Next(job, ev, budget);
            var switched := ev.Fail? && j.contract != job.contract;
            && j.pages == (if ev.Keep? then ev.pages else job.pages && !switched)
            && j.file == (if ev.Keep? then ev.file else job.file && !switched && !Requeues(job, ev))
  {
    if ev.Fail? && job.state != Canceled {
      FailureKeepsOrSwitches(job, ev.category, budget);
      if Next(job, ev, budget).state == Queued { SwitchDiffers(job.contract, Next(job, ev, budget).contract); }
      FailureGoesExactly(job, ev.category, budget);
      hide Next, WellMade, Decided;
    } else {
      hide Decided, WellMade;
    }
  }

  lemma SwitchDiffers(c: Contract, next: Contract)
    requires SwitchedToFirstLeft(c, next)
    ensures next != c
  {
  }

  // ---- The worker --------------------------------------------------------------------------------

  /** In every run a worker whose job has ended can stop, and is gone then. */
  lemma EndedWorkerStops(c: Contract, evs: seq<Event>, budget: nat)
    requires IsRun(Enqueued(c), evs, budget)
    ensures var job := After(Enqueued(c), evs, budget);
            job.working && !Active(job.state) ==> Enabled(job, Stop) && !Next(job, Stop, budget).working
  {
    CanceledIsDropped(c, evs, budget);
    hide After, IsRun, Decided, WithMethod;
  }
}

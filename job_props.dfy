/**
 * What the job table promises across requests and worker steps: every step
 * keeps the invariant and never lowers a job's progress, the slot counter
 * stays within `MAX_CONCURRENT_JOBS`, and two races the handlers leave
 * open.
 */
module JobProps {
  import opened Text
  import opened Paths
  import opened Jobs

  // ---------------------------------------------------------------------------
  // The slot set under one worker's move
  // ---------------------------------------------------------------------------

  lemma HoldingSame(ws: map<nat, Worker>, id: nat, w: Worker)
    requires id in ws && HoldsSlot(ws[id].phase) == HoldsSlot(w.phase)
    ensures Holding(ws[id := w]) == Holding(ws)
  {
  }

  lemma HoldingAcquired(ws: map<nat, Worker>, id: nat, w: Worker)
    requires id in ws && !HoldsSlot(ws[id].phase) && HoldsSlot(w.phase)
    ensures |Holding(ws[id := w])| == |Holding(ws)| + 1
  {
    assert Holding(ws[id := w]) == Holding(ws) + {id};
  }

  lemma HoldingReleased(ws: map<nat, Worker>, id: nat, w: Worker)
    requires id in ws && HoldsSlot(ws[id].phase) && !HoldsSlot(w.phase)
    ensures |Holding(ws[id := w])| == |Holding(ws)| - 1
  {
    assert Holding(ws[id := w]) == Holding(ws) - {id};
  }

  lemma HoldingAdded(ws: map<nat, Worker>, id: nat, w: Worker)
    requires id !in ws && !HoldsSlot(w.phase)
    ensures Holding(ws[id := w]) == Holding(ws)
  {
  }

  lemma {:induction false} SubsetCard(a: set<nat>, b: set<nat>)
    requires a <= b
    ensures |a| <= |b|
    decreases |b|
  {
    if a != {} {
      var x :| x in a;
      SubsetCard(a - {x}, b - {x});
    }
  }

  // ---------------------------------------------------------------------------
  // The entries under one update
  // ---------------------------------------------------------------------------

  lemma KeptAt(jobs: map<nat, Job>, workers: map<nat, Worker>, cfg: Config, id: nat)
    requires AllKept(jobs, workers, cfg) && id in jobs && id in workers
    ensures Kept(id, jobs[id], workers[id], cfg)
  {
  }

  lemma KeptPut(jobs: map<nat, Job>, workers: map<nat, Worker>, cfg: Config, id: nat, job: Job, w: Worker)
    requires AllKept(jobs, workers, cfg) && Kept(id, job, w, cfg)
    ensures AllKept(jobs[id := job], workers[id := w], cfg)
  {
  }

  lemma KeptPutJob(jobs: map<nat, Job>, workers: map<nat, Worker>, cfg: Config, id: nat, job: Job)
    requires AllKept(jobs, workers, cfg) && id in workers && Kept(id, job, workers[id], cfg)
    ensures AllKept(jobs[id := job], workers, cfg)
  {
  }

  // ---------------------------------------------------------------------------
  // Slots
  // ---------------------------------------------------------------------------

  lemma InitialInv(cfg: Config)
    ensures Inv(Initial, cfg)
  {
    assert Holding(Initial.workers) == {};
  }

  /**
   * The slot counter never exceeds the limit, and every `running` job holds
   * a slot, so the running count `transcribe` checks is at most the counter.
   */
  lemma SlotsBounded(s: Server, cfg: Config)
    requires Inv(s, cfg)
    ensures 0 <= s.activeThreads
    ensures s.activeThreads <= cfg.maxJobs || s.activeThreads == 0
    ensures RunningCount(s.jobs) <= s.activeThreads
  {
    forall id | id in RunningIds(s.jobs) ensures id in Holding(s.workers) {
      assert Matches(s.jobs[id], s.workers[id]);
    }
    SubsetCard(RunningIds(s.jobs), Holding(s.workers));
  }

  // ---------------------------------------------------------------------------
  // transcribe, cancel_job
  // ---------------------------------------------------------------------------

  /**
   * A rejected request changes nothing; an accepted one adds exactly one
   * new pending job under a fresh id, the old counter, and raises the
   * counter by one.
   */
  lemma TranscribeKeepsInv(s: Server, cfg: Config, onDisk: set<string>, path: Option<string>,
                           language: Option<string>, overwrite: Option<bool>)
    requires Inv(s, cfg)
    ensures var (t, reply) := Transcribe(s, cfg, onDisk, path, language, overwrite);
      && Inv(t, cfg) && Progressed(s, t)
      && (!reply.JobCreated? ==> t == s)
      && (reply.JobCreated? ==>
            && reply.jobId == s.jobCounter
            && reply.jobId !in s.jobs
            && t.jobs.Keys == s.jobs.Keys + {reply.jobId}
            && t.jobCounter == s.jobCounter + 1
            && t.jobs[reply.jobId].status == Pending
            && t.jobs[reply.jobId].progress == 0
            && (forall id :: id in s.jobs ==> t.jobs[id] == s.jobs[id]))
  {
    if path.Some? && Admission(s, cfg, onDisk, path, language.GetOr("en-US"), overwrite.GetOr(true)).JobCreated? {
      CreatedKeepsInv(s, cfg, path.value, language.GetOr("en-US"));
    }
  }

  /**
   * When `transcribe` accepts a request and why it refuses one: a missing or
   * empty path (400), a file that does not exist (404), existing subtitles
   * with overwrite off (409, listing them), the running-job limit (429);
   * a request past all four checks gets the counter as its id.
   */
  lemma AdmissionOutcome(s: Server, cfg: Config, onDisk: set<string>, path: Option<string>,
                         language: string, overwrite: bool)
    ensures var r := Admission(s, cfg, onDisk, path, language, overwrite);
      var given := path.Some? && path.value != "";
      var found := given && JoinPath(cfg.mediaFolder, path.value) in onDisk;
      var clear := found && (overwrite || Conflicts(JoinPath(cfg.mediaFolder, path.value), language, onDisk) == []);
      && (r == NoFileSpecified <==> !given)
      && (r == FileNotFound <==> given && !found)
      && (r.ExistingFiles? <==> found && !clear)
      && (r.ExistingFiles? ==> found && r.files == Conflicts(JoinPath(cfg.mediaFolder, path.value), language, onDisk))
      && (r == TooManyJobs <==> clear && RunningCount(s.jobs) >= cfg.maxJobs)
      && (r.JobCreated? <==> clear && RunningCount(s.jobs) < cfg.maxJobs)
      && (r.JobCreated? ==> r.jobId == s.jobCounter)
      && (overwrite ==> !r.ExistingFiles?)
  {
  }

  /** Overwrite is on unless the request turns it off, so a request that leaves it out is never refused for existing files. */
  lemma OverwriteByDefault(s: Server, cfg: Config, onDisk: set<string>, path: Option<string>, language: Option<string>)
    ensures !Transcribe(s, cfg, onDisk, path, language, None).1.ExistingFiles?
  {
  }

  /** The new job takes the counter as a fresh id; its worker waits without a slot. */
  lemma CreatedKeepsInv(s: Server, cfg: Config, file: string, language: string)
    requires Inv(s, cfg)
    ensures var t := Created(s, cfg, file, language);
      && Inv(t, cfg) && Progressed(s, t)
      && s.jobCounter !in s.jobs
      && t.jobs.Keys == s.jobs.Keys + {s.jobCounter}
  {
    var id := s.jobCounter;
    var w := Worker(Waiting, JoinPath(cfg.mediaFolder, file), language, "", []);
    KeptPut(s.jobs, s.workers, cfg, id, NewJob(id, file, language), w);
    HoldingAdded(s.workers, id, w);
  }

  // ---------------------------------------------------------------------------
  // Two shapes of step
  // ---------------------------------------------------------------------------

  /**
   * A worker that moves on without taking or giving back a slot keeps the
   * invariant when the job's new entry matches its new position.
   */
  lemma Advanced(s: Server, cfg: Config, id: nat, job: Job, w: Worker)
    requires Inv(s, cfg) && id in s.jobs
    requires job.file == s.jobs[id].file && job.language == s.jobs[id].language && Kept(id, job, w, cfg)
    requires HoldsSlot(w.phase) == HoldsSlot(s.workers[id].phase)
    requires job.progress >= s.jobs[id].progress
    ensures Inv(Advance(s, id, job, w), cfg) && Progressed(s, Advance(s, id, job, w))
  {
    KeptPut(s.jobs, s.workers, cfg, id, job, w);
    HoldingSame(s.workers, id, w);
  }

  /** A worker that returns through `finally` keeps the invariant when its final entry matches. */
  lemma Released(s: Server, cfg: Config, id: nat, job: Job)
    requires Inv(s, cfg) && id in s.jobs && HoldsSlot(s.workers[id].phase)
    requires job.file == s.jobs[id].file && job.language == s.jobs[id].language
    requires Kept(id, job, s.workers[id].(phase := Exited), cfg) && job.progress >= s.jobs[id].progress
    ensures Inv(Release(SetJob(s, id, job), id), cfg) && Progressed(s, Release(SetJob(s, id, job), id))
  {
    var w := s.workers[id].(phase := Exited);
    KeptPut(s.jobs, s.workers, cfg, id, job, w);
    HoldingReleased(s.workers, id, w);
  }

  /** A cancel check that fires ends the worker, and the invariant holds whichever step it was in. */
  lemma StopCancelledKeepsInv(s: Server, cfg: Config, id: nat)
    requires Inv(s, cfg) && id in s.jobs && HoldsSlot(s.workers[id].phase)
    ensures Inv(StopCancelled(s, id), cfg) && Progressed(s, StopCancelled(s, id))
  {
    KeptAt(s.jobs, s.workers, cfg, id);
    Released(s, cfg, id, s.jobs[id].(status := Cancelled));
  }

  /**
   * The `except` block keeps the invariant when the entry it writes is the
   * job's own entry, with its file and language, at no lower progress.
   */
  lemma FailKeepsInv(s: Server, cfg: Config, id: nat, reported: Job, error: string)
    requires Inv(s, cfg) && id in s.jobs && HoldsSlot(s.workers[id].phase)
    requires reported.id == s.jobs[id].id && reported.file == s.jobs[id].file
    requires reported.language == s.jobs[id].language && reported.progress >= s.jobs[id].progress
    ensures Inv(Fail(s, id, reported, error), cfg) && Progressed(s, Fail(s, id, reported, error))
  {
    KeptAt(s.jobs, s.workers, cfg, id);
    Released(s, cfg, id, reported.(status := Failed, error := Some(error)));
  }

  // ---------------------------------------------------------------------------
  // cancel_job
  // ---------------------------------------------------------------------------

  /**
   * An unknown id or a finished job is refused and nothing changes; a
   * pending or running job becomes `cancelled` with its flag raised, and
   * its worker keeps its slot until it reaches a cancel check.
   */
  lemma CancelOutcome(s: Server, id: nat)
    ensures var (t, reply) := Cancel(s, id);
      && (reply == JobNotFound <==> id !in s.jobs)
      && (reply == AlreadyFinished <==> id in s.jobs && Finished(s.jobs[id].status))
      && (reply != CancelAccepted ==> t == s)
      && (reply == CancelAccepted ==>
            && t.jobs[id].status == Cancelled
            && CancelRequested(t, id)
            && t.workers == s.workers
            && t.activeThreads == s.activeThreads)
  {
  }

  lemma CancelProgressed(s: Server, id: nat)
    ensures Progressed(s, Cancel(s, id).0)
  {
  }

  lemma CancelKeepsInv(s: Server, cfg: Config, id: nat)
    requires Inv(s, cfg)
    ensures Inv(Cancel(s, id).0, cfg) && Progressed(s, Cancel(s, id).0)
  {
    CancelProgressed(s, id);
    if id in s.jobs && !Finished(s.jobs[id].status) {
      var job := s.jobs[id];
      var message := if job.status == Pending then "Cancelled before start" else "Cancelled";
      KeptAt(s.jobs, s.workers, cfg, id);
      var cancelled := job.(status := Cancelled, message := message);
      KeptPutJob(s.jobs, s.workers, cfg, id, cancelled);
    }
  }

  // ---------------------------------------------------------------------------
  // Worker steps
  // ---------------------------------------------------------------------------

  /** Taking a slot keeps the counter within the limit; giving up while waiting takes none. */
  lemma PollSlotKeepsInv(s: Server, cfg: Config, id: nat)
    requires Inv(s, cfg) && AtPhase(s, id, Waiting)
    ensures Inv(PollSlot(s, cfg, id), cfg) && Progressed(s, PollSlot(s, cfg, id))
  {
    KeptAt(s.jobs, s.workers, cfg, id);
    var job := s.jobs[id];
    var w := s.workers[id];
    if s.activeThreads < cfg.maxJobs {
      var started := job.(status := Running, message := "Starting transcription...");
      KeptPut(s.jobs, s.workers, cfg, id, started, w.(phase := Started));
      HoldingAcquired(s.workers, id, w.(phase := Started));
    } else if CancelRequested(s, id) {
      Advanced(s, cfg, id, job.(status := Cancelled, message := "Cancelled while waiting"), w.(phase := Exited));
    }
  }

  lemma ExtractAudioKeepsInv(s: Server, cfg: Config, id: nat, ok: bool, error: string)
    requires Inv(s, cfg) && AtPhase(s, id, Started)
    ensures Inv(ExtractAudio(s, id, ok, error), cfg) && Progressed(s, ExtractAudio(s, id, ok, error))
  {
    KeptAt(s.jobs, s.workers, cfg, id);
    var job := s.jobs[id];
    var reported := job.(progress := 10, message := "Extracting audio...");
    if CancelRequested(s, id) {
      Released(s, cfg, id, job.(status := Cancelled));
    } else if ok {
      Advanced(s, cfg, id, reported, s.workers[id].(phase := AudioReady));
    } else {
      Released(s, cfg, id, reported.(status := Failed, error := Some(error)));
    }
  }

  lemma TranscribeOriginalKeepsInv(s: Server, cfg: Config, id: nat, ok: bool, detected: string, error: string)
    requires Inv(s, cfg) && AtPhase(s, id, AudioReady)
    ensures Inv(TranscribeOriginal(s, id, ok, detected, error), cfg)
    ensures Progressed(s, TranscribeOriginal(s, id, ok, detected, error))
  {
    KeptAt(s.jobs, s.workers, cfg, id);
    var job := s.jobs[id];
    var w := s.workers[id];
    var reported := job.(progress := 30, message := "Transcribing original language...");
    if CancelRequested(s, id) {
      Released(s, cfg, id, job.(status := Cancelled));
    } else if ok {
      Advanced(s, cfg, id, reported, w.(phase := Transcribed, detected := detected, generated := [LangSrt(Base(w), detected)]));
    } else {
      Released(s, cfg, id, reported.(status := Failed, error := Some(error)));
    }
  }

  lemma TranslateEnglishKeepsInv(s: Server, cfg: Config, id: nat, ok: bool, error: string)
    requires Inv(s, cfg) && AtPhase(s, id, Transcribed)
    ensures Inv(TranslateEnglish(s, id, ok, error), cfg) && Progressed(s, TranslateEnglish(s, id, ok, error))
  {
    KeptAt(s.jobs, s.workers, cfg, id);
    var job := s.jobs[id];
    var w := s.workers[id];
    var reported := job.(progress := 60, message := "Translating to English...");
    if !EnglishRuns(w.detected) {
      Advanced(s, cfg, id, job, w.(phase := EnglishDone));
    } else if CancelRequested(s, id) {
      Released(s, cfg, id, job.(status := Cancelled));
    } else if ok {
      Advanced(s, cfg, id, reported, w.(phase := EnglishDone, generated := w.generated + [LangSrt(Base(w), "en")]));
    } else {
      Released(s, cfg, id, reported.(status := Failed, error := Some(error)));
    }
  }

  lemma TranslateTargetKeepsInv(s: Server, cfg: Config, id: nat, ok: bool, error: string)
    requires Inv(s, cfg) && AtPhase(s, id, EnglishDone)
    ensures Inv(TranslateTarget(s, id, ok, error), cfg) && Progressed(s, TranslateTarget(s, id, ok, error))
  {
    KeptAt(s.jobs, s.workers, cfg, id);
    var job := s.jobs[id];
    var w := s.workers[id];
    var reported := job.(progress := 80, message := "Translating to " + TargetLang(w.language) + "...");
    if !TargetRuns(w.language, w.detected) {
      Advanced(s, cfg, id, job, w.(phase := TargetDone));
    } else if CancelRequested(s, id) {
      Released(s, cfg, id, job.(status := Cancelled));
    } else if ok {
      Advanced(s, cfg, id, reported,
               w.(phase := TargetDone, generated := w.generated + [LangSrt(Base(w), TargetLang(w.language))]));
    } else {
      Released(s, cfg, id, reported.(status := Failed, error := Some(error)));
    }
  }

  lemma CompleteKeepsInv(s: Server, cfg: Config, id: nat, ok: bool, error: string)
    requires Inv(s, cfg) && AtPhase(s, id, TargetDone)
    ensures Inv(Complete(s, id, ok, error), cfg) && Progressed(s, Complete(s, id, ok, error))
  {
    KeptAt(s.jobs, s.workers, cfg, id);
    var reported := s.jobs[id].(progress := 90);
    if ok {
      Released(s, cfg, id, CompletedJob(reported, s.workers[id]));
    } else {
      Released(s, cfg, id, reported.(status := Failed, error := Some(error)));
    }
  }

  // ---------------------------------------------------------------------------
  // What a finished job reports
  // ---------------------------------------------------------------------------

  /**
   * A completed job lists `{base}.{detected}.srt`, then `{base}.en.srt` if
   * the English stage ran, then `{base}.{target}.srt` if the NLLB stage ran,
   * where `base` is the media path of its file without the extension.
   */
  lemma CompletedOutputs(s: Server, cfg: Config, id: nat)
    requires Inv(s, cfg) && id in s.jobs && s.jobs[id].status == Completed
    ensures var job := s.jobs[id];
      var files := FilesAfterTarget(SplitExtRoot(JoinPath(cfg.mediaFolder, job.file)), job.language, s.workers[id].detected);
      && job.progress == 100
      && job.generatedFiles == Some(files)
      && job.output == Some(Join(files, ", "))
      && job.detectedLanguage == Some(s.workers[id].detected)
      && !HoldsSlot(s.workers[id].phase)
  {
    assert Matches(s.jobs[id], s.workers[id]);
  }

  // ---------------------------------------------------------------------------
  // Races the handlers leave open
  // ---------------------------------------------------------------------------

  /**
   * A cancel made while the job waits for a slot is lost when the worker
   * then finds a slot free: the job runs, and the flag is cleared.
   */
  lemma LostCancel(s: Server, cfg: Config, id: nat)
    requires Inv(s, cfg) && AtPhase(s, id, Waiting) && s.jobs[id].status == Pending
    requires s.activeThreads < cfg.maxJobs
    ensures var (c, reply) := Cancel(s, id);
      && reply == CancelAccepted
      && c.jobs[id].status == Cancelled
      && AtPhase(c, id, Waiting)
      && PollSlot(c, cfg, id).jobs[id].status == Running
      && !CancelRequested(PollSlot(c, cfg, id), id)
  {
  }

  /** Without a free slot the same cancel holds: the job ends cancelled and takes no slot. */
  lemma CancelledWhileWaiting(s: Server, cfg: Config, id: nat)
    requires Inv(s, cfg) && AtPhase(s, id, Waiting) && CancelRequested(s, id)
    requires s.activeThreads >= cfg.maxJobs
    ensures var t := PollSlot(s, cfg, id);
      && t.jobs[id].status == Cancelled
      && t.activeThreads == s.activeThreads
      && t.workers[id].phase == Exited
  {
  }

  /**
   * Completion has no cancel check: a job cancelled after the last stage
   * began still ends `completed`.
   */
  lemma CompletionOverridesCancel(s: Server, cfg: Config, id: nat, error: string)
    requires Inv(s, cfg) && AtPhase(s, id, TargetDone) && s.jobs[id].status == Cancelled
    ensures Complete(s, id, true, error).jobs[id].status == Completed
    ensures Complete(s, id, true, error).jobs[id].progress == 100
  {
  }
}

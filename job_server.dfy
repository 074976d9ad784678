/**
 * The web server's globals as one object: `jobs`, `job_counter`,
 * `job_cancel_flags` and `active_threads`, with the worker threads' local
 * state alongside. Each handler and each worker step is a method that
 * updates the fields in place. The step functions of module `Jobs` are
 * the specification: each method's postcondition says its new state is the
 * matching function applied to the old one, and that the invariant holds.
 */
module JobServer {
  import opened Text
  import opened Paths
  import opened Jobs
  import JobProps

  class JobTable {
    var jobs: map<nat, Job>
    var jobCounter: nat
    var jobCancelFlags: map<nat, bool>
    var activeThreads: int
    var workers: map<nat, Worker>
    const cfg: Config

    function State(): Server
      reads this
    {
      Server(jobs, jobCounter, jobCancelFlags, activeThreads, workers)
    }

    predicate Valid()
      reads this
    {
      Inv(State(), cfg)
    }

    constructor (mediaFolder: string, maxJobs: int)
      ensures cfg == Config(mediaFolder, maxJobs)
      ensures State() == Initial && Valid()
    {
      jobs := map[];
      jobCounter := 0;
      jobCancelFlags := map[];
      activeThreads := 0;
      workers := map[];
      cfg := Config(mediaFolder, maxJobs);
      new;
      JobProps.InitialInv(cfg);
    }

    /** The names of the `candidates` that exist, collected in a loop. */
    static method ExistingNames(candidates: seq<string>, onDisk: set<string>) returns (existing: seq<string>)
      ensures existing == PresentNames(candidates, onDisk)
    {
      existing := [];
      for i := 0 to |candidates|
        invariant existing == PresentNames(candidates[..i], onDisk)
      {
        assert candidates[..i + 1][..i] == candidates[..i];
        if candidates[i] in onDisk {
          existing := existing + [Basename(candidates[i])];
        }
      }
      assert candidates[..|candidates|] == candidates;
    }

    /** The checks of `POST /api/transcribe`, in order: no path, missing file, existing subtitles, job limit. */
    method Admit(onDisk: set<string>, path: Option<string>, language: string, overwrite: bool) returns (reply: Reply)
      ensures reply == Admission(State(), cfg, onDisk, path, language, overwrite)
    {
      if path.None? || path.value == "" {
        return NoFileSpecified;
      }
      var fullPath := JoinPath(cfg.mediaFolder, path.value);
      if fullPath !in onDisk {
        return FileNotFound;
      }
      if !overwrite {
        var existing := ExistingNames(ConflictCandidates(fullPath, language), onDisk);
        if existing != [] {
          return ExistingFiles(existing);
        }
      }
      if RunningCount(jobs) >= cfg.maxJobs {
        return TooManyJobs;
      }
      reply := JobCreated(jobCounter);
    }

    /** `POST /api/transcribe`: the checks, then a new job and its worker waiting for a slot. */
    method Transcribe(onDisk: set<string>, path: Option<string>, language: Option<string>, overwrite: Option<bool>)
      returns (reply: Reply)
      requires Valid()
      modifies this
      ensures (State(), reply) == Jobs.Transcribe(old(State()), cfg, onDisk, path, language, overwrite)
      ensures Valid()
    {
      ghost var s := State();
      var lang := language.GetOr("en-US");
      reply := Admit(onDisk, path, lang, overwrite.GetOr(true));
      if reply.JobCreated? && path.Some? {
        var jobId := jobCounter;
        jobCounter := jobCounter + 1;
        jobs := jobs[jobId := NewJob(jobId, path.value, lang)];
        workers := workers[jobId := Worker(Waiting, JoinPath(cfg.mediaFolder, path.value), lang, "", [])];
      }
      assert (State(), reply) == Jobs.Transcribe(s, cfg, onDisk, path, language, overwrite);
      JobProps.TranscribeKeepsInv(s, cfg, onDisk, path, language, overwrite);
    }

    /** A cancel check that fires: the status, then the `finally` block giving the slot back. */
    method StopCancelled(id: nat)
      requires Valid() && id in jobs && HoldsSlot(workers[id].phase)
      modifies this
      ensures State() == Jobs.StopCancelled(old(State()), id)
      ensures Valid()
    {
      ghost var s := State();
      jobs := jobs[id := jobs[id].(status := Cancelled)];
      activeThreads := activeThreads - 1;
      workers := workers[id := workers[id].(phase := Exited)];
      assert State() == Jobs.StopCancelled(s, id);
      JobProps.StopCancelledKeepsInv(s, cfg, id);
    }

    /** The `except` block, on the entry as last reported, then the `finally` block. */
    method Fail(id: nat, reported: Job, error: string)
      requires Valid() && id in jobs && HoldsSlot(workers[id].phase)
      requires reported.id == jobs[id].id && reported.file == jobs[id].file
      requires reported.language == jobs[id].language && reported.progress >= jobs[id].progress
      modifies this
      ensures State() == Jobs.Fail(old(State()), id, reported, error)
      ensures Valid()
    {
      ghost var s := State();
      jobs := jobs[id := reported.(status := Failed, error := Some(error))];
      activeThreads := activeThreads - 1;
      workers := workers[id := workers[id].(phase := Exited)];
      assert State() == Jobs.Fail(s, id, reported, error);
      JobProps.FailKeepsInv(s, cfg, id, reported, error);
    }

    /** One pass of the slot-waiting loop of `run_transcription`. */
    method PollSlot(id: nat)
      requires Valid() && AtPhase(State(), id, Waiting)
      modifies this
      ensures State() == Jobs.PollSlot(old(State()), cfg, id)
      ensures Valid()
    {
      ghost var s := State();
      if activeThreads < cfg.maxJobs {
        activeThreads := activeThreads + 1;
        jobs := jobs[id := jobs[id].(status := Running, message := "Starting transcription...")];
        jobCancelFlags := jobCancelFlags[id := false];
        workers := workers[id := workers[id].(phase := Started)];
      } else if id in jobCancelFlags && jobCancelFlags[id] {
        jobs := jobs[id := jobs[id].(status := Cancelled, message := "Cancelled while waiting")];
        workers := workers[id := workers[id].(phase := Exited)];
      }
      assert State() == Jobs.PollSlot(s, cfg, id);
      JobProps.PollSlotKeepsInv(s, cfg, id);
    }

    method ExtractAudio(id: nat, ok: bool, error: string)
      requires Valid() && AtPhase(State(), id, Started)
      modifies this
      ensures State() == Jobs.ExtractAudio(old(State()), id, ok, error)
      ensures Valid()
    {
      ghost var s := State();
      if id in jobCancelFlags && jobCancelFlags[id] {
        StopCancelled(id);
      } else {
        var reported := jobs[id].(progress := 10, message := "Extracting audio...");
        if ok {
          jobs := jobs[id := reported];
          workers := workers[id := workers[id].(phase := AudioReady)];
        } else {
          Fail(id, reported, error);
        }
      }
      assert State() == Jobs.ExtractAudio(s, id, ok, error);
      JobProps.ExtractAudioKeepsInv(s, cfg, id, ok, error);
    }

    method TranscribeOriginal(id: nat, ok: bool, detected: string, error: string)
      requires Valid() && AtPhase(State(), id, AudioReady)
      modifies this
      ensures State() == Jobs.TranscribeOriginal(old(State()), id, ok, detected, error)
      ensures Valid()
    {
      ghost var s := State();
      if id in jobCancelFlags && jobCancelFlags[id] {
        StopCancelled(id);
      } else {
        var w := workers[id];
        var reported := jobs[id].(progress := 30, message := "Transcribing original language...");
        if ok {
          jobs := jobs[id := reported];
          workers := workers[id := w.(phase := Transcribed, detected := detected, generated := [LangSrt(Base(w), detected)])];
        } else {
          Fail(id, reported, error);
        }
      }
      assert State() == Jobs.TranscribeOriginal(s, id, ok, detected, error);
      JobProps.TranscribeOriginalKeepsInv(s, cfg, id, ok, detected, error);
    }

    method TranslateEnglish(id: nat, ok: bool, error: string)
      requires Valid() && AtPhase(State(), id, Transcribed)
      modifies this
      ensures State() == Jobs.TranslateEnglish(old(State()), id, ok, error)
      ensures Valid()
    {
      ghost var s := State();
      var w := workers[id];
      if w.detected == "en" {
        workers := workers[id := w.(phase := EnglishDone)];
      } else if id in jobCancelFlags && jobCancelFlags[id] {
        StopCancelled(id);
      } else {
        var reported := jobs[id].(progress := 60, message := "Translating to English...");
        if ok {
          jobs := jobs[id := reported];
          workers := workers[id := w.(phase := EnglishDone, generated := w.generated + [LangSrt(Base(w), "en")])];
        } else {
          Fail(id, reported, error);
        }
      }
      assert State() == Jobs.TranslateEnglish(s, id, ok, error);
      JobProps.TranslateEnglishKeepsInv(s, cfg, id, ok, error);
    }

    method TranslateTarget(id: nat, ok: bool, error: string)
      requires Valid() && AtPhase(State(), id, EnglishDone)
      modifies this
      ensures State() == Jobs.TranslateTarget(old(State()), id, ok, error)
      ensures Valid()
    {
      ghost var s := State();
      var w := workers[id];
      var target := TargetLang(w.language);
      if target == w.detected || target == "en" {
        workers := workers[id := w.(phase := TargetDone)];
      } else if id in jobCancelFlags && jobCancelFlags[id] {
        StopCancelled(id);
      } else {
        // progress 75 ("Loading NLLB translation model...") is overwritten before any other step can look
        var reported := jobs[id].(progress := 80, message := "Translating to " + target + "...");
        if ok {
          jobs := jobs[id := reported];
          workers := workers[id := w.(phase := TargetDone, generated := w.generated + [LangSrt(Base(w), target)])];
        } else {
          Fail(id, reported, error);
        }
      }
      assert State() == Jobs.TranslateTarget(s, id, ok, error);
      JobProps.TranslateTargetKeepsInv(s, cfg, id, ok, error);
    }

    method Complete(id: nat, ok: bool, error: string)
      requires Valid() && AtPhase(State(), id, TargetDone)
      modifies this
      ensures State() == Jobs.Complete(old(State()), id, ok, error)
      ensures Valid()
    {
      ghost var s := State();
      var reported := jobs[id].(progress := 90);
      if ok {
        jobs := jobs[id := CompletedJob(reported, workers[id])];
        activeThreads := activeThreads - 1;
        workers := workers[id := workers[id].(phase := Exited)];
      } else {
        Fail(id, reported, error);
      }
      assert State() == Jobs.Complete(s, id, ok, error);
      JobProps.CompleteKeepsInv(s, cfg, id, ok, error);
    }

    /** `POST /api/jobs/<id>/cancel`. */
    method CancelJob(id: nat) returns (reply: CancelReply)
      requires Valid()
      modifies this
      ensures (State(), reply) == Cancel(old(State()), id)
      ensures Valid()
    {
      ghost var s := State();
      if id !in jobs {
        reply := JobNotFound;
      } else if Finished(jobs[id].status) {
        reply := AlreadyFinished;
      } else if jobs[id].status == Pending {
        jobs := jobs[id := jobs[id].(status := Cancelled, message := "Cancelled before start")];
        jobCancelFlags := jobCancelFlags[id := true];
        reply := CancelAccepted;
      } else {
        jobCancelFlags := jobCancelFlags[id := true];
        jobs := jobs[id := jobs[id].(status := Cancelled, message := "Cancelled")];
        reply := CancelAccepted;
      }
      assert (State(), reply) == Cancel(s, id);
      JobProps.CancelKeepsInv(s, cfg, id);
    }

    /** `GET /api/jobs/<id>`: the entry, or nothing (a 404 reply). */
    method GetJob(id: nat) returns (r: Option<Job>)
      ensures r.Some? <==> id in jobs
      ensures r.Some? ==> r.value == jobs[id]
    {
      if id !in jobs {
        return None;
      }
      r := Some(jobs[id]);
    }
  }
}

/**
 * The web server's job table and its transcription workers, as values.
 *
 * The server keeps four globals: the `jobs` dictionary, the `job_counter`
 * that numbers new jobs, the `job_cancel_flags` dictionary and the
 * `active_threads` slot counter. Each request handler and each stretch of a
 * worker thread between two points where another thread can look at the
 * table is one atomic step here: a function from the old server state to
 * the new one. The external programs a worker runs (audio extraction,
 * Whisper, NLLB, removing the audio file) enter as an `ok` flag and an
 * error text, and the file system as the set of paths that exist.
 *
 * These functions are the specification. The class `JobTable` in module
 * `JobServer` implements the same steps as methods that update its fields
 * in place, and each method's postcondition equates its new state with the
 * function here; the properties are proved once, about the functions, in
 * module `JobProps`.
 */
module Jobs {
  import opened Text
  import opened Paths

  // ---------------------------------------------------------------------------
  // State
  // ---------------------------------------------------------------------------

  datatype Status = Pending | Running | Completed | Failed | Cancelled

  /** The statuses `cancel_job` refuses to touch. */
  predicate Finished(status: Status) {
    status == Completed || status == Failed || status == Cancelled
  }

  /** One entry of `jobs`; the keys a worker adds late are `Option`s. */
  datatype Job = Job(
    id: nat,
    file: string,
    language: string,
    status: Status,
    message: string,
    progress: int,
    output: Option<string>,
    detectedLanguage: Option<string>,
    generatedFiles: Option<seq<string>>,
    error: Option<string>)

  /** Where a worker thread is in `run_transcription`. */
  datatype Phase =
    | Waiting       // polling for a slot
    | Started       // holds a slot, status set to running
    | AudioReady    // audio extracted
    | Transcribed   // original-language subtitles written
    | EnglishDone   // English stage run or skipped
    | TargetDone    // target-language stage run or skipped
    | Exited        // returned

  /** A slot is held from acquisition until the `finally` block releases it. */
  predicate HoldsSlot(phase: Phase) {
    phase != Waiting && phase != Exited
  }

  /** The worker thread of one job, with its local variables. */
  datatype Worker = Worker(
    phase: Phase,
    filePath: string,
    language: string,
    detected: string,
    generated: seq<string>)

  datatype Server = Server(
    jobs: map<nat, Job>,
    jobCounter: nat,
    cancelFlags: map<nat, bool>,
    activeThreads: int,
    workers: map<nat, Worker>)

  /** `MEDIA_FOLDER` and `MAX_CONCURRENT_JOBS`, read once at start-up. */
  datatype Config = Config(mediaFolder: string, maxJobs: int)

  const Initial := Server(map[], 0, map[], 0, map[])

  // ---------------------------------------------------------------------------
  // Output names, stage choice and progress
  // ---------------------------------------------------------------------------

  /** `language.split('-')[0] if language else 'en'`. */
  function TargetLang(language: string): string {
    if language == "" then "en" else Split(language, "-")[0]
  }

  /** `os.path.splitext(file_path)[0]`. */
  function Base(w: Worker): string {
    SplitExtRoot(w.filePath)
  }

  function LangSrt(base: string, lang: string): string {
    base + "." + lang + ".srt"
  }

  /** The English stage runs unless Whisper detected English. */
  predicate EnglishRuns(detected: string) {
    detected != "en"
  }

  /** The NLLB stage runs unless the target is the detected language or English. */
  predicate TargetRuns(language: string, detected: string) {
    TargetLang(language) != detected && TargetLang(language) != "en"
  }

  function FilesAfterEnglish(base: string, detected: string): seq<string> {
    [LangSrt(base, detected)] + (if EnglishRuns(detected) then [LangSrt(base, "en")] else [])
  }

  function FilesAfterTarget(base: string, language: string, detected: string): seq<string> {
    FilesAfterEnglish(base, detected)
      + (if TargetRuns(language, detected) then [LangSrt(base, TargetLang(language))] else [])
  }

  function ProgressAfterEnglish(detected: string): int {
    if EnglishRuns(detected) then 60 else 30
  }

  function ProgressAfterTarget(language: string, detected: string): int {
    if TargetRuns(language, detected) then 80 else ProgressAfterEnglish(detected)
  }

  /** The generated files in order: original language, then English, then target, each when its stage ran. */
  lemma FilesInOrder(base: string, language: string, detected: string)
    ensures var files := FilesAfterTarget(base, language, detected);
      && files[0] == LangSrt(base, detected)
      && |files| == 1 + (if EnglishRuns(detected) then 1 else 0) + (if TargetRuns(language, detected) then 1 else 0)
      && (EnglishRuns(detected) ==> files[1] == LangSrt(base, "en"))
      && (TargetRuns(language, detected) ==> files[|files| - 1] == LangSrt(base, TargetLang(language)))
  {
  }

  // ---------------------------------------------------------------------------
  // The invariant
  // ---------------------------------------------------------------------------

  /** The ids whose worker holds a slot. */
  function Holding(workers: map<nat, Worker>): set<nat> {
    set id | id in workers && HoldsSlot(workers[id].phase)
  }

  function RunningIds(jobs: map<nat, Job>): set<nat> {
    set id | id in jobs && jobs[id].status == Running
  }

  /** `sum(1 for j in jobs.values() if j['status'] == 'running')`. */
  function RunningCount(jobs: map<nat, Job>): nat {
    |RunningIds(jobs)|
  }

  predicate RunningOrCancelled(job: Job) {
    job.status == Running || job.status == Cancelled
  }

  /** What a job's entry says, given where its worker is. */
  predicate Matches(job: Job, w: Worker) {
    && job.language == w.language
    && (w.phase != Exited ==> job.output.None? && job.generatedFiles.None?)
    && match w.phase
       case Waiting =>
         (job.status == Pending || job.status == Cancelled) && job.progress == 0 && w.generated == []
       case Started => RunningOrCancelled(job) && job.progress == 0 && w.generated == []
       case AudioReady => RunningOrCancelled(job) && job.progress == 10 && w.generated == []
       case Transcribed =>
         RunningOrCancelled(job) && job.progress == 30 && w.generated == [LangSrt(Base(w), w.detected)]
       case EnglishDone =>
         && RunningOrCancelled(job)
         && job.progress == ProgressAfterEnglish(w.detected)
         && w.generated == FilesAfterEnglish(Base(w), w.detected)
       case TargetDone =>
         && RunningOrCancelled(job)
         && job.progress == ProgressAfterTarget(w.language, w.detected)
         && w.generated == FilesAfterTarget(Base(w), w.language, w.detected)
       case Exited =>
         && Finished(job.status)
         && (job.status == Completed ==>
               && job.progress == 100
               && w.generated == FilesAfterTarget(Base(w), w.language, w.detected)
               && job.generatedFiles == Some(w.generated)
               && job.output == Some(Join(w.generated, ", "))
               && job.detectedLanguage == Some(w.detected))
  }

  /** One entry and its worker agree: the entry's id is its key, the worker's path is the media path of its file. */
  predicate Kept(id: nat, job: Job, w: Worker, cfg: Config) {
    && job.id == id
    && w.filePath == JoinPath(cfg.mediaFolder, job.file)
    && Matches(job, w)
  }

  predicate AllKept(jobs: map<nat, Job>, workers: map<nat, Worker>, cfg: Config) {
    forall id :: id in jobs && id in workers ==> Kept(id, jobs[id], workers[id], cfg)
  }

  /**
   * Every job has a worker and an id below the counter; the slot counter
   * counts exactly the workers between acquisition and release, and never
   * passes the limit.
   */
  predicate Inv(s: Server, cfg: Config) {
    && s.workers.Keys == s.jobs.Keys
    && s.cancelFlags.Keys <= s.jobs.Keys
    && (forall id :: id in s.jobs ==> id < s.jobCounter)
    && AllKept(s.jobs, s.workers, cfg)
    && s.activeThreads == |Holding(s.workers)|
    && (s.activeThreads == 0 || s.activeThreads <= cfg.maxJobs)
  }

  /** What every step keeps: no job disappears, and no job's progress goes down. */
  predicate Progressed(s: Server, t: Server) {
    && s.jobs.Keys <= t.jobs.Keys
    && s.jobCounter <= t.jobCounter
    && forall id :: id in s.jobs ==>
         && t.jobs[id].progress >= s.jobs[id].progress
         && t.jobs[id].id == s.jobs[id].id
         && t.jobs[id].file == s.jobs[id].file
         && t.jobs[id].language == s.jobs[id].language
  }

  // ---------------------------------------------------------------------------
  // transcribe
  // ---------------------------------------------------------------------------

  datatype Reply =
    | JobCreated(jobId: nat)
    | NoFileSpecified
    | FileNotFound
    | ExistingFiles(files: seq<string>)
    | TooManyJobs

  function HttpStatus(r: Reply): int {
    match r
    case JobCreated(_) => 200
    case NoFileSpecified => 400
    case FileNotFound => 404
    case ExistingFiles(_) => 409
    case TooManyJobs => 429
  }

  function Prefix2(s: string): (r: string)
    ensures |r| <= 2 && |r| <= |s| && r == s[..|r|]
    ensures |r| == if |s| < 2 then |s| else 2
  {
    if |s| <= 2 then s else s[..2]
  }

  /** The names of those `paths` that exist, in order, as `name` gives them. */
  function Present<T>(paths: seq<string>, onDisk: set<string>, name: string -> T): (r: seq<T>)
    ensures |r| <= |paths|
    ensures r == [] <==> forall k :: 0 <= k < |paths| ==> paths[k] !in onDisk
    ensures forall n :: n in r ==> exists k :: 0 <= k < |paths| && paths[k] in onDisk && n == name(paths[k])
    ensures forall k :: 0 <= k < |paths| && paths[k] in onDisk ==> name(paths[k]) in r
  {
    if |paths| == 0 then []
    else
      Present(paths[..|paths| - 1], onDisk, name)
        + (if paths[|paths| - 1] in onDisk then [name(paths[|paths| - 1])] else [])
  }

  /** The positions of the `paths` that exist: increasing, and every existing path's position among them. */
  function PresentIndices(paths: seq<string>, onDisk: set<string>): (ks: seq<nat>)
    ensures forall j :: 0 <= j < |ks| ==> ks[j] < |paths| && paths[ks[j]] in onDisk
    ensures forall j, j' :: 0 <= j < j' < |ks| ==> ks[j] < ks[j']
    ensures forall i :: 0 <= i < |paths| && paths[i] in onDisk ==> i in ks
  {
    if |paths| == 0 then []
    else
      PresentIndices(paths[..|paths| - 1], onDisk)
        + (if paths[|paths| - 1] in onDisk then [|paths| - 1] else [])
  }

  /** The names are exactly those of the existing paths, in the order of the paths. */
  lemma {:induction false} PresentIndexed<T>(paths: seq<string>, onDisk: set<string>, name: string -> T)
    ensures var r, ks := Present(paths, onDisk, name), PresentIndices(paths, onDisk);
      |r| == |ks| && forall j :: 0 <= j < |ks| ==> r[j] == name(paths[ks[j]])
  {
    if |paths| > 0 {
      var init := paths[..|paths| - 1];
      PresentIndexed(init, onDisk, name);
      var ks := PresentIndices(init, onDisk);
      forall j | 0 <= j < |ks| ensures paths[ks[j]] == init[ks[j]] {
      }
    }
  }

  /** The basenames of those `paths` that exist (the `existing_files` list). */
  function PresentNames(paths: seq<string>, onDisk: set<string>): seq<string> {
    Present(paths, onDisk, Basename)
  }

  /**
   * The names reported are, in order, the basenames of the existing paths
   * and of no other path: one per existing path, none when none exists.
   */
  lemma PresentNamesExact(paths: seq<string>, onDisk: set<string>)
    ensures var r, ks := PresentNames(paths, onDisk), PresentIndices(paths, onDisk);
      && |r| == |ks|
      && (forall j :: 0 <= j < |ks| ==> r[j] == Basename(paths[ks[j]]))
      && (r == [] <==> forall k :: 0 <= k < |paths| ==> paths[k] !in onDisk)
      && (forall k :: 0 <= k < |paths| && paths[k] in onDisk ==> Basename(paths[k]) in r)
  {
    PresentIndexed(paths, onDisk, Basename);
  }

  /** `{base}.en.srt` and `{base}.{language[:2]}.srt`, the files an overwrite-off request must not find. */
  function ConflictCandidates(fullPath: string, language: string): seq<string> {
    [LangSrt(SplitExtRoot(fullPath), "en"), LangSrt(SplitExtRoot(fullPath), Prefix2(language))]
  }

  function Conflicts(fullPath: string, language: string, onDisk: set<string>): seq<string> {
    PresentNames(ConflictCandidates(fullPath, language), onDisk)
  }

  /** The reply of `transcribe`, in the order of its checks. */
  function Admission(s: Server, cfg: Config, onDisk: set<string>, path: Option<string>, language: string, overwrite: bool): Reply {
    if path.None? || path.value == "" then NoFileSpecified
    else if JoinPath(cfg.mediaFolder, path.value) !in onDisk then FileNotFound
    else if !overwrite && Conflicts(JoinPath(cfg.mediaFolder, path.value), language, onDisk) != [] then
      ExistingFiles(Conflicts(JoinPath(cfg.mediaFolder, path.value), language, onDisk))
    else if RunningCount(s.jobs) >= cfg.maxJobs then TooManyJobs
    else JobCreated(s.jobCounter)
  }

  function NewJob(id: nat, file: string, language: string): Job {
    Job(id, file, language, Pending, "Waiting for available slot...", 0, None, None, None, None)
  }

  /** The new job and its worker, waiting for a slot. */
  function Created(s: Server, cfg: Config, file: string, language: string): Server {
    s.(jobs := s.jobs[s.jobCounter := NewJob(s.jobCounter, file, language)],
       jobCounter := s.jobCounter + 1,
       workers := s.workers[s.jobCounter := Worker(Waiting, JoinPath(cfg.mediaFolder, file), language, "", [])])
  }

  /**
   * `POST /api/transcribe`: `language` defaults to `en-US` and `overwrite`
   * to true; only an accepted request changes the state.
   */
  function Transcribe(s: Server, cfg: Config, onDisk: set<string>, path: Option<string>,
                      language: Option<string>, overwrite: Option<bool>): (Server, Reply) {
    var reply := Admission(s, cfg, onDisk, path, language.GetOr("en-US"), overwrite.GetOr(true));
    if reply.JobCreated? && path.Some? then (Created(s, cfg, path.value, language.GetOr("en-US")), reply)
    else (s, reply)
  }

  // ---------------------------------------------------------------------------
  // run_transcription, step by step
  // ---------------------------------------------------------------------------

  /** `job_cancel_flags.get(job_id, False)`. */
  predicate CancelRequested(s: Server, id: nat) {
    id in s.cancelFlags && s.cancelFlags[id]
  }

  predicate AtPhase(s: Server, id: nat, phase: Phase) {
    id in s.jobs && id in s.workers && s.workers[id].phase == phase
  }

  function SetJob(s: Server, id: nat, job: Job): Server {
    s.(jobs := s.jobs[id := job])
  }

  /** The worker moves on, with the job's entry as it now reads. */
  function Advance(s: Server, id: nat, job: Job, w: Worker): Server {
    s.(jobs := s.jobs[id := job], workers := s.workers[id := w])
  }

  /** The `finally` block: the slot is given back and the thread ends. */
  function Release(s: Server, id: nat): Server
    requires id in s.workers
  {
    s.(activeThreads := s.activeThreads - 1, workers := s.workers[id := s.workers[id].(phase := Exited)])
  }

  /** A cancel check that fires: status `cancelled`, then return through `finally`. */
  function StopCancelled(s: Server, id: nat): Server
    requires id in s.jobs && id in s.workers
  {
    Release(SetJob(s, id, s.jobs[id].(status := Cancelled)), id)
  }

  /** The `except` block on the entry as last reported, then `finally`. */
  function Fail(s: Server, id: nat, reported: Job, error: string): Server
    requires id in s.workers
  {
    Release(SetJob(s, id, reported.(status := Failed, error := Some(error))), id)
  }

  /**
   * One pass of the slot-waiting loop: take a free slot and start running
   * (clearing the cancel flag), or end cancelled without a slot, or wait.
   */
  function PollSlot(s: Server, cfg: Config, id: nat): Server
    requires AtPhase(s, id, Waiting)
  {
    if s.activeThreads < cfg.maxJobs then
      s.(activeThreads := s.activeThreads + 1,
         jobs := s.jobs[id := s.jobs[id].(status := Running, message := "Starting transcription...")],
         cancelFlags := s.cancelFlags[id := false],
         workers := s.workers[id := s.workers[id].(phase := Started)])
    else if CancelRequested(s, id) then
      Advance(s, id, s.jobs[id].(status := Cancelled, message := "Cancelled while waiting"), s.workers[id].(phase := Exited))
    else s
  }

  /** Cancel check, progress 10, audio extraction. */
  function ExtractAudio(s: Server, id: nat, ok: bool, error: string): Server
    requires AtPhase(s, id, Started)
  {
    var reported := s.jobs[id].(progress := 10, message := "Extracting audio...");
    if CancelRequested(s, id) then StopCancelled(s, id)
    else if ok then Advance(s, id, reported, s.workers[id].(phase := AudioReady))
    else Fail(s, id, reported, error)
  }

  /** Cancel check, progress 30, Whisper in the detected language, `{base}.{detected}.srt`. */
  function TranscribeOriginal(s: Server, id: nat, ok: bool, detected: string, error: string): Server
    requires AtPhase(s, id, AudioReady)
  {
    var w := s.workers[id];
    var reported := s.jobs[id].(progress := 30, message := "Transcribing original language...");
    if CancelRequested(s, id) then StopCancelled(s, id)
    else if ok then
      Advance(s, id, reported, w.(phase := Transcribed, detected := detected, generated := [LangSrt(Base(w), detected)]))
    else Fail(s, id, reported, error)
  }

  /** Unless English was detected: cancel check, progress 60, Whisper's translation, `{base}.en.srt`. */
  function TranslateEnglish(s: Server, id: nat, ok: bool, error: string): Server
    requires AtPhase(s, id, Transcribed)
  {
    var w := s.workers[id];
    var reported := s.jobs[id].(progress := 60, message := "Translating to English...");
    if !EnglishRuns(w.detected) then Advance(s, id, s.jobs[id], w.(phase := EnglishDone))
    else if CancelRequested(s, id) then StopCancelled(s, id)
    else if ok then
      Advance(s, id, reported, w.(phase := EnglishDone, generated := w.generated + [LangSrt(Base(w), "en")]))
    else Fail(s, id, reported, error)
  }

  /**
   * Unless the target is the detected language or English: cancel check,
   * progress 75 and then 80, the NLLB translation, `{base}.{target}.srt`.
   */
  function TranslateTarget(s: Server, id: nat, ok: bool, error: string): Server
    requires AtPhase(s, id, EnglishDone)
  {
    var w := s.workers[id];
    var reported := s.jobs[id].(progress := 80, message := "Translating to " + TargetLang(w.language) + "...");
    if !TargetRuns(w.language, w.detected) then Advance(s, id, s.jobs[id], w.(phase := TargetDone))
    else if CancelRequested(s, id) then StopCancelled(s, id)
    else if ok then
      Advance(s, id, reported, w.(phase := TargetDone, generated := w.generated + [LangSrt(Base(w), TargetLang(w.language))]))
    else Fail(s, id, reported, error)
  }

  /** The completed entry: progress 100, the output list and the detected language. */
  function CompletedJob(job: Job, w: Worker): Job {
    job.(status := Completed, progress := 100, output := Some(Join(w.generated, ", ")),
         detectedLanguage := Some(w.detected), generatedFiles := Some(w.generated))
  }

  /** Progress 90, the audio file removed (`ok`), completion, and the slot released. No cancel check. */
  function Complete(s: Server, id: nat, ok: bool, error: string): Server
    requires AtPhase(s, id, TargetDone)
  {
    var reported := s.jobs[id].(progress := 90);
    if ok then Release(SetJob(s, id, CompletedJob(reported, s.workers[id])), id)
    else Fail(s, id, reported, error)
  }

  // ---------------------------------------------------------------------------
  // cancel_job and get_job
  // ---------------------------------------------------------------------------

  datatype CancelReply = JobNotFound | AlreadyFinished | CancelAccepted

  function CancelStatus(r: CancelReply): int {
    match r
    case JobNotFound => 404
    case AlreadyFinished => 400
    case CancelAccepted => 200
  }

  /** `POST /api/jobs/<id>/cancel`. */
  function Cancel(s: Server, id: nat): (Server, CancelReply) {
    if id !in s.jobs then (s, JobNotFound)
    else if Finished(s.jobs[id].status) then (s, AlreadyFinished)
    else if s.jobs[id].status == Pending then
      (s.(jobs := s.jobs[id := s.jobs[id].(status := Cancelled, message := "Cancelled before start")],
          cancelFlags := s.cancelFlags[id := true]),
       CancelAccepted)
    else
      (s.(cancelFlags := s.cancelFlags[id := true],
          jobs := s.jobs[id := s.jobs[id].(status := Cancelled, message := "Cancelled")]),
       CancelAccepted)
  }
}

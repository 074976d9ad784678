/**
 * The decisions of `main` in mkv_transcribe.py: which existing subtitle
 * files stop a run when `--overwrite` is not given, and which stages run
 * once the spoken language is known. Paths are a directory and a file name;
 * the file system is the set `onDisk` of paths that exist.
 */
module Cli {
  import opened Text

  /** `output_dir / name`. */
  datatype OutPath = OutPath(dir: string, name: string)

  /** The command-line options that steer the decisions. */
  datatype Args = Args(language: Option<string>, overwrite: bool, originalOnly: bool)

  /** A `--language` that is given and not empty. */
  predicate Truthy(language: Option<string>) {
    language.Some? && language.value != ""
  }

  function OriginalSrt(dir: string, base: string): OutPath {
    OutPath(dir, base + ".srt")
  }

  function EnglishSrt(dir: string, base: string): OutPath {
    OutPath(dir, base + ".en.srt")
  }

  /** `{base_name}.{language}.srt`, or None when no language was asked for. */
  function TargetSrt(dir: string, base: string, language: Option<string>): Option<OutPath> {
    if Truthy(language) then Some(OutPath(dir, base + "." + language.value + ".srt")) else None
  }

  /** The `existing` list: the original, then (unless original-only) English and target, as they exist. */
  function Existing(dir: string, base: string, args: Args, onDisk: set<OutPath>): seq<OutPath> {
    var target := TargetSrt(dir, base, args.language);
    (if OriginalSrt(dir, base) in onDisk then [OriginalSrt(dir, base)] else [])
    + (if !args.originalOnly && EnglishSrt(dir, base) in onDisk then [EnglishSrt(dir, base)] else [])
    + (if !args.originalOnly && target.Some? && target.value in onDisk then [target.value] else [])
  }

  /** How `main` gets past its checks. */
  datatype Start =
    | FileNotFound                      // the video does not exist: exit 1
    | AlreadyExist(paths: seq<OutPath>) // subtitle files would be replaced: exit 1
    | Proceed

  /**
   * The checks before any work: a missing video, then, without
   * `--overwrite`, the subtitle files that already exist.
   */
  function CheckStart(videoExists: bool, dir: string, base: string, args: Args, onDisk: set<OutPath>): (r: Start)
    ensures r.AlreadyExist? <==>
      && videoExists && !args.overwrite
      && (|| OriginalSrt(dir, base) in onDisk
          || (!args.originalOnly && EnglishSrt(dir, base) in onDisk)
          || (!args.originalOnly && Truthy(args.language)
              && TargetSrt(dir, base, args.language).value in onDisk))
    ensures r.AlreadyExist? ==> forall p :: p in r.paths ==> p in onDisk
  {
    if !videoExists then FileNotFound
    else if !args.overwrite && |Existing(dir, base, args, onDisk)| > 0 then
      AlreadyExist(Existing(dir, base, args, onDisk))
    else Proceed
  }

  /** The steps after the audio is extracted. */
  datatype Stage =
    | OriginalTranscript  // Whisper transcription written to `{base}.srt`
    | EnglishCopy         // the original copied to `{base}.en.srt`
    | EnglishWhisper      // Whisper's English translation written to `{base}.en.srt`
    | TargetNllb          // the English file translated with NLLB to `{base}.{language}.srt`
    | TargetCopy          // the original copied to `{base}.{language}.srt`

  /** The stages `main` runs for a detected language, in order. */
  function Stages(detected: string, args: Args): (r: seq<Stage>)
    ensures |r| >= 1 && r[0] == OriginalTranscript
    ensures args.originalOnly ==> r == [OriginalTranscript]
    ensures !args.originalOnly ==>
      && 2 <= |r| <= 3
      && (r[1] == EnglishCopy || r[1] == EnglishWhisper)
      && (|r| == 3 ==> r[2] == TargetNllb || r[2] == TargetCopy)
    ensures EnglishCopy in r <==> !args.originalOnly && detected == "en"
    ensures EnglishWhisper in r <==> !args.originalOnly && detected != "en"
    ensures TargetNllb in r <==>
      !args.originalOnly && Truthy(args.language) && args.language.value != detected && args.language.value != "en"
    ensures TargetCopy in r <==> !args.originalOnly && args.language == Some(detected)
    ensures !(TargetNllb in r && TargetCopy in r)
  {
    if args.originalOnly then [OriginalTranscript]
    else
      var english := if detected == "en" then [EnglishCopy] else [EnglishWhisper];
      var target :=
        if Truthy(args.language) && args.language.value != detected && args.language.value != "en" then [TargetNllb]
        else if args.language == Some(detected) then [TargetCopy]
        else [];
      [OriginalTranscript] + english + target
  }

  /** The file a stage writes; a copy to the target with no language given has no checked path. */
  function Output(stage: Stage, dir: string, base: string, language: Option<string>): Option<OutPath> {
    match stage
    case OriginalTranscript => Some(OriginalSrt(dir, base))
    case EnglishCopy => Some(EnglishSrt(dir, base))
    case EnglishWhisper => Some(EnglishSrt(dir, base))
    case TargetNllb => TargetSrt(dir, base, language)
    case TargetCopy => TargetSrt(dir, base, language)
  }

  /**
   * Without `--overwrite`, a run that gets past the checks writes only files
   * that did not exist: every stage's output was checked. The one exception
   * is an empty `--language` when the detected language is empty too, where
   * the target copy goes to a path the check never looked at.
   */
  lemma NoOverwrite(videoExists: bool, dir: string, base: string, args: Args, onDisk: set<OutPath>, detected: string)
    requires CheckStart(videoExists, dir, base, args, onDisk) == Proceed && videoExists && !args.overwrite
    requires !(args.language == Some("") && detected == "")
    ensures forall stage :: stage in Stages(detected, args) ==>
      Output(stage, dir, base, args.language).Some? && Output(stage, dir, base, args.language).value !in onDisk
  {
  }
}

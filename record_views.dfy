/**
 * The server's views (record/views.py): the upload form's POST handler, the
 * batch processing view with its per-file pipeline, and the metadata update
 * API. The filesystem under MEDIA_ROOT is a `Disk` keyed by paths relative to
 * MEDIA_ROOT; the rows are a `Database`.
 */
module RecordViews {
  import opened Wrappers
  import opened Strings
  import opened Decimal
  import opened Paths
  import opened Audio
  import opened Wire
  import opened Files
  import opened Records
  import ScriptSteps

  // ---------------------------------------------------------------------------
  // RecordAudioView.post
  // ---------------------------------------------------------------------------

  /** An uploaded file as the form delivers it. */
  datatype Upload = Upload(name: string, data: seq<int>)

  /**
   * Where the POST handler ends. All outcomes but `ServerError` redirect back
   * to the form with a message; `ServerError` is the ValueError the ORM raises
   * for a `text_id` that `int()` refuses, which nothing catches.
   */
  datatype PostOutcome = NoPromptSelected | NoAudioUploaded | InvalidPrompt | ServerError | SaveFailed | Uploaded(id: nat)

  /** The verdict of the three checks before anything is saved. */
  datatype Verdict = Rejected(outcome: PostOutcome) | Accepted(promptId: nat)

  /** `if not text_id`: absent or the empty string. */
  predicate HasTextId(textId: Option<string>) {
    textId.Some? && textId.value != ""
  }

  /** `if not audio_file`: absent, or a file whose name is empty (a Django File is false then). */
  predicate HasAudio(upload: Option<Upload>) {
    upload.Some? && upload.value.name != ""
  }

  /** The id `TextPrompt.objects.get(id=text_id)` finds a row for: `int(text_id)` is a key of the table. */
  predicate NamesPrompt(textId: string, prompts: map<nat, string>) {
    var id := ParseInt(textId);
    id.Some? && id.value >= 0 && id.value as nat in prompts
  }

  /**
   * The checks of RecordAudioView.post, in their order. The lookup converts
   * the id with `int()`; an id it refuses raises, one it reads but that names
   * no row (a negative one included) is an invalid prompt.
   */
  function CheckUpload(textId: Option<string>, upload: Option<Upload>, prompts: map<nat, string>): (v: Verdict)
    ensures v.Accepted? <==> HasTextId(textId) && HasAudio(upload) && NamesPrompt(textId.value, prompts)
    ensures v.Accepted? ==> v.promptId as int == ParseInt(textId.value).value
    ensures v.Rejected? ==> !v.outcome.Uploaded? && v.outcome != SaveFailed
  {
    if !HasTextId(textId) then Rejected(NoPromptSelected)
    else if !HasAudio(upload) then Rejected(NoAudioUploaded)
    else match ParseInt(textId.value)
      case None => Rejected(ServerError)
      case Some(id) => if id >= 0 && id as nat in prompts then Accepted(id as nat) else Rejected(InvalidPrompt)
  }

  /**
   * The checks run in a fixed order: a missing prompt id is reported whatever
   * the file, a missing file whatever the prompt table, and only then is the id
   * converted and looked up.
   */
  lemma ValidationOrder(textId: Option<string>, upload: Option<Upload>, prompts: map<nat, string>)
    ensures !HasTextId(textId) ==> CheckUpload(textId, upload, prompts) == Rejected(NoPromptSelected)
    ensures HasTextId(textId) && !HasAudio(upload) ==>
      CheckUpload(textId, upload, prompts) == Rejected(NoAudioUploaded)
    ensures HasTextId(textId) && HasAudio(upload) && ParseInt(textId.value).None? ==>
      CheckUpload(textId, upload, prompts) == Rejected(ServerError)
    ensures HasTextId(textId) && HasAudio(upload) && ParseInt(textId.value).Some? && !NamesPrompt(textId.value, prompts) ==>
      CheckUpload(textId, upload, prompts) == Rejected(InvalidPrompt)
  {
  }

  /**
   * Once both fields are present, the verdict depends on the text id only
   * through what `int()` makes of it.
   */
  lemma ParsedVerdict(t: string, u: Upload, prompts: map<nat, string>, n: int)
    requires t != "" && u.name != "" && ParseInt(t) == Some(n)
    ensures CheckUpload(Some(t), Some(u), prompts)
      == if n >= 0 && n as nat in prompts then Accepted(n as nat) else Rejected(InvalidPrompt)
  {
  }

  /**
   * `int()` is lenient: blanks around the id, a `+` sign or an underscore
   * between digits still find prompt 7, and `-1` is an unknown prompt, not an
   * error; a non-numeric id is.
   */
  lemma LenientPromptIds(prompts: map<nat, string>, u: Upload)
    requires 7 in prompts && u.name != ""
    ensures CheckUpload(Some(" +7\n"), Some(u), prompts) == Accepted(7)
    ensures CheckUpload(Some("0_7"), Some(u), prompts) == Accepted(7)
    ensures CheckUpload(Some("-1"), Some(u), prompts) == Rejected(InvalidPrompt)
    ensures CheckUpload(Some("7_"), Some(u), prompts) == Rejected(ServerError)
  {
    assert ParseInt(" +7\n") == Some(7) by {
      ParseIntSigned(7);
      assert ToDecimal(7) == "7";
    }
    ParsedVerdict(" +7\n", u, prompts, 7);
    assert ParseInt("0_7") == Some(7) && ParseInt("-1") == Some(-1) by {
      ParseIntAccepts();
    }
    ParsedVerdict("0_7", u, prompts, 7);
    ParsedVerdict("-1", u, prompts, -1);
    assert ParseInt("7_") == None by {
      ParseIntRefuses();
    }
  }

  /**
   * `Model.save()` does not run field validators, so the extension whitelist
   * is never consulted on this path: the verdict is the same for any two
   * uploaded names, and a FLAC upload is accepted.
   */
  lemma WhitelistNotEnforced(textId: Option<string>, a: Upload, b: Upload, prompts: map<nat, string>)
    requires a.name != "" && b.name != ""
    ensures CheckUpload(textId, Some(a), prompts) == CheckUpload(textId, Some(b), prompts)
    ensures textId == Some("7") && 7 in prompts && b.name == "take.flac" ==>
      !ExtensionAllowed(b.name) && CheckUpload(textId, Some(b), prompts) == Accepted(7)
  {
    if textId == Some("7") && 7 in prompts && b.name == "take.flac" {
      assert !ExtensionAllowed(b.name) by {
        assert "take.flac" == "take" + ".flac";
        SplitJoined("take", ".flac");
        assert Suffix("take.flac")[1..] == "flac";
        assert Lower("flac")[0] == 'f';
      }
      assert ParseInt("7") == Some(7) by {
        ParseIntDecimal(7);
        assert ToDecimal(7) == "7";
      }
      ParsedVerdict("7", b, prompts, 7);
    }
  }

  /**
   * Where the upload is stored: `audio_file_path` applied to the uploaded
   * file's name, which Django has already reduced to its last component.
   */
  function UploadedPath(promptId: nat, name: string): (p: Path)
    ensures p == Path("recordings/" + ToDecimal(promptId), Basename(name))
    ensures PromptIdOfPath(AudioFilePath(promptId, Basename(name))) == Some(promptId)
  {
    assert '/' !in Basename(name) by {
      var b := Basename(name);
      assert forall j :: 0 <= j < |b| ==> b[j] != '/';
    }
    UploadPathRoundTrip(promptId, Basename(name));
    PathOf(AudioFilePath(promptId, Basename(name)))
  }

  /**
   * RecordAudioView.post. When the checks pass, the file is written under its
   * prompt's directory and one row is created with the defaults of the model;
   * a failed write is reported and creates nothing.
   */
  method PostRecording(db: Database, disk: Disk, textId: Option<string>, upload: Option<Upload>, now: int)
    returns (outcome: PostOutcome)
    requires db.Valid()
    modifies db, disk
    ensures db.Valid()
    ensures db.prompts == old(db.prompts)
    ensures match CheckUpload(textId, upload, old(db.prompts))
      case Rejected(o) =>
        && outcome == o && db.recordings == old(db.recordings)
        && disk.files == old(disk.files) && disk.dirs == old(disk.dirs)
      case Accepted(promptId) =>
        var p := UploadedPath(promptId, upload.value.name);
        && disk.dirs == old(disk.dirs) + {p.dir}
        && (p in disk.locked ==>
              outcome == SaveFailed && db.recordings == old(db.recordings) && disk.files == old(disk.files))
        && (p !in disk.locked ==>
              && outcome == Uploaded(old(db.nextRecordingId))
              && old(db.nextRecordingId) !in old(db.recordings)
              && db.recordings == old(db.recordings)[old(db.nextRecordingId) := NewRecording(promptId, p, now)]
              && disk.files == old(disk.files)[p := Bytes(upload.value.data)])
  {
    var verdict := CheckUpload(textId, upload, db.prompts);
    if verdict.Rejected? {
      return verdict.outcome;
    }
    var promptId := verdict.promptId;
    var file := upload.value;
    var p := UploadedPath(promptId, file.name);
    disk.MakeDirs(p.dir);
    var stored := disk.Write(p, Bytes(file.data));
    if !stored {
      return SaveFailed;
    }
    var id := db.CreateRecording(NewRecording(promptId, p, now));
    return Uploaded(id);
  }

  // ---------------------------------------------------------------------------
  // process_audio_file and its helpers
  // ---------------------------------------------------------------------------

  /** `original_path.parent / f"{original_path.stem}.wav"`: same directory and stem, suffix `.wav`. */
  function ConvertedPath(original: Path): Path {
    Path(original.dir, Stem(original.name) + ".wav")
  }

  /** The converted path keeps the directory and the stem, and its suffix is `.wav`. */
  lemma ConvertedPathShape(original: Path)
    requires original.name != ""
    ensures var p := ConvertedPath(original);
      p.dir == original.dir && Stem(p.name) == Stem(original.name) && Suffix(p.name) == ".wav"
  {
    SplitJoined(Stem(original.name), ".wav");
  }

  /** A file that already carries the suffix `.wav` is its own converted path. */
  lemma ConvertedPathOfWav(original: Path)
    requires Suffix(original.name) == ".wav"
    ensures ConvertedPath(original) == original
  {
  }

  /** The converted path differs from the original exactly when conversion runs, or the suffix is `.WAV`-like. */
  lemma ConvertedPathMoves(original: Path)
    requires !IsWavName(original.name)
    ensures ConvertedPath(original) != original
  {
  }

  /** views.py's trim target: `wav_path.with_stem(wav_path.stem + '_trimmed')`, which keeps the suffix. */
  function TrimmedPath(wav: Path): Path {
    WithStem(wav, Stem(wav.name) + "_trimmed")
  }

  /** The trim target sits beside the WAV, with `_trimmed` appended to the stem and the suffix kept. */
  lemma TrimmedPathShape(wav: Path)
    requires Suffix(wav.name) != ""
    ensures var p := TrimmedPath(wav);
      p.dir == wav.dir && Stem(p.name) == Stem(wav.name) + "_trimmed" && Suffix(p.name) == Suffix(wav.name)
  {
    SplitJoined(Stem(wav.name) + "_trimmed", Suffix(wav.name));
  }

  /** For a converted WAV the view and the scripts pick the same trim target. */
  lemma TrimTargetsAgree(original: Path)
    requires original.name != ""
    ensures TrimmedPath(ConvertedPath(original)) == ScriptSteps.TrimmedPath(ConvertedPath(original))
  {
    var c := ConvertedPath(original);
    ConvertedPathShape(original);
    assert Stem(c.name) + "_trimmed" + ".wav" == Stem(c.name) + "_trimmed.wav";
  }

  /** `y[y < 0.01]`: the samples below 0.01, signed, so every negative sample is kept. */
  function QuietSamples(y: seq<real>): (r: seq<real>)
    ensures |r| <= |y|
    ensures forall x :: x in r <==> x in y && x < 0.01
  {
    if y == [] then []
    else
      var rest := QuietSamples(y[..|y| - 1]);
      assert y == y[..|y| - 1] + [y[|y| - 1]];
      if y[|y| - 1] < 0.01 then rest + [y[|y| - 1]] else rest
  }

  /** Selecting quiet samples commutes with concatenation, so their order is the signal's. */
  lemma {:induction false} QuietSamplesAppend(y: seq<real>, z: seq<real>)
    ensures QuietSamples(y + z) == QuietSamples(y) + QuietSamples(z)
    decreases |z|
  {
    if z == [] {
      assert y + z == y;
    } else {
      var z' := z[..|z| - 1];
      QuietSamplesAppend(y, z');
      assert (y + z)[..|y + z| - 1] == y + z';
      assert (y + z)[|y + z| - 1] == z[|z| - 1];
    }
  }

  /** Every sample below 0.01 is kept as often as it occurs, and no other sample is kept. */
  lemma {:induction false} QuietSamplesCount(y: seq<real>, x: real)
    ensures multiset(QuietSamples(y))[x] == if x < 0.01 then multiset(y)[x] else 0
    decreases |y|
  {
    if y != [] {
      var front := y[..|y| - 1];
      QuietSamplesCount(front, x);
      assert y == front + [y[|y| - 1]];
      assert multiset(y) == multiset(front) + multiset{y[|y| - 1]};
    }
  }

  /** The two values extract_audio_metadata stores. */
  datatype Metrics = Metrics(clarity: real, noise: real)

  /**
   * extract_audio_metadata's computation: clarity from the RMS of the whole
   * trimmed signal, noise from the RMS of its quiet samples, both rounded to
   * two places. None stands for the exception any failing step raises.
   */
  function MeasureTrimmed(files: map<Path, File>, wav: Path, codec: Codec, dsp: Dsp): (r: Option<Metrics>)
    ensures r.Some? ==> 0.0 <= r.value.clarity <= 1.0
    ensures r.None? <==>
      || Load(files, wav, codec).None?
      || dsp.meanRms(Load(files, wav, codec).value.samples).None?
      || dsp.meanRms(QuietSamples(Load(files, wav, codec).value.samples)).None?
    ensures r.Some? ==>
      var y := Load(files, wav, codec).value.samples;
      && r.value.clarity == Round(ClarityScore(dsp.meanRms(y).value), 2)
      && r.value.noise == Round(dsp.meanRms(QuietSamples(y)).value, 2)
  {
    match Load(files, wav, codec)
    case None => None
    case Some(sig) =>
      match (dsp.meanRms(sig.samples), dsp.meanRms(QuietSamples(sig.samples)))
      case (Some(rms), Some(noise)) =>
        RoundUnitInterval(ClarityScore(rms), 2);
        Some(Metrics(Round(ClarityScore(rms), 2), Round(noise, 2)))
      case _ => None
  }

  /** What processing one row leaves behind: the files, and on success the row to commit. */
  datatype FileOutcome = Failed(files: map<Path, File>) | Done(files: map<Path, File>, record: Recording)

  /** A row after a successful run of the pipeline, compared with the row before. */
  predicate Processed(before: Recording, after: Recording) {
    && after.isMlProcessed
    && after.speechClarityScore.Some? && 0.0 <= after.speechClarityScore.value <= 1.0
    && after.backgroundNoiseLevel.Some?
    && after.promptId == before.promptId
    && after.uploadedAt == before.uploadedAt
    && after.isVerified == before.isVerified
  }

  /**
   * The conversion step of process_audio_file: when the suffix is not `.wav`
   * (ignoring case) ffmpeg writes the converted file and the row is repointed
   * at it; None stands for the exception a failed conversion raises. ffmpeg
   * runs without `-y`, so when the converted path already exists it refuses
   * to overwrite it (stdin gives no consent) and exits with an error.
   */
  function ConvertStage(files: map<Path, File>, locked: set<Path>, rec: Recording, codec: Codec)
    : (r: Option<(map<Path, File>, Recording)>)
    ensures IsWavName(rec.file.name) ==> r == Some((files, rec))
    ensures !IsWavName(rec.file.name) && ConvertedPath(rec.file) in files ==> r.None?
    ensures r.Some? ==> r.value.1 == rec.(file := if IsWavName(rec.file.name) then rec.file else ConvertedPath(rec.file))
  {
    if IsWavName(rec.file.name) then Some((files, rec))
    else
      var converted := ConvertedPath(rec.file);
      match ScriptSteps.Transcode(files, rec.file, codec)
      case None => None
      case Some(wav) =>
        if converted in files || converted in locked then None
        else Some((files[converted := Bytes(wav)], rec.(file := converted)))
  }

  /**
   * The view's trim_silence on `files`: the files once the trimmed waveform of
   * `wav` is written beside it, None for the exception raised when `wav` does
   * not load or the trimmed file cannot be written.
   */
  function TrimWritten(files: map<Path, File>, locked: set<Path>, wav: Path, codec: Codec, dsp: Dsp)
    : (r: Option<map<Path, File>>)
    ensures r.Some? <==> Load(files, wav, codec).Some? && TrimmedPath(wav) !in locked
    ensures r.Some? ==> r.value == files[TrimmedPath(wav) := ScriptSteps.TrimmedFile(Load(files, wav, codec).value, codec, dsp)]
  {
    match Load(files, wav, codec)
    case None => None
    case Some(sig) =>
      if TrimmedPath(wav) in locked then None
      else Some(files[TrimmedPath(wav) := ScriptSteps.TrimmedFile(sig, codec, dsp)])
  }

  /**
   * The rest of process_audio_file once `converted` exists (or should): trim
   * it, measure the trimmed file, store the metrics and delete both
   * intermediates (FinishStageMeasures states what it stores).
   */
  function FinishStage(files: map<Path, File>, locked: set<Path>, rec: Recording, converted: Path, codec: Codec, dsp: Dsp)
    : (o: FileOutcome)
    ensures o.Done? ==> o.record == rec.(speechClarityScore := o.record.speechClarityScore,
                                          backgroundNoiseLevel := o.record.backgroundNoiseLevel,
                                          isMlProcessed := true)
    ensures o.Done? ==> o.record.speechClarityScore.Some? && 0.0 <= o.record.speechClarityScore.value <= 1.0
    ensures o.Done? ==> o.record.backgroundNoiseLevel.Some?
    ensures o.Done? ==> converted !in o.files && TrimmedPath(converted) !in o.files
    ensures Load(files, converted, codec).None? ==> o == Failed(files)
  {
    var trimmed := TrimmedPath(converted);
    match TrimWritten(files, locked, converted, codec, dsp)
    case None => Failed(files)
    case Some(files2) =>
      match MeasureTrimmed(files2, trimmed, codec, dsp)
      case None => Failed(files2)
      case Some(m) =>
        Done(files2 - {converted, trimmed},
             rec.(speechClarityScore := Some(m.clarity), backgroundNoiseLevel := Some(m.noise),
                  isMlProcessed := true))
  }

  /** Conversion writes the converted path and nothing else. */
  lemma ConvertStageFrame(files: map<Path, File>, locked: set<Path>, rec: Recording, codec: Codec)
    requires ConvertStage(files, locked, rec, codec).Some?
    ensures var files1 := ConvertStage(files, locked, rec, codec).value.0;
      && (forall p :: p in files && p != ConvertedPath(rec.file) ==> p in files1 && files1[p] == files[p])
      && (forall p :: p in files1 ==> p in files || p == ConvertedPath(rec.file))
  {
  }

  /**
   * Trimming and cleanup touch the converted file and its trimmed sibling
   * only; a failed run deletes nothing, and keeps the trimmed file once written.
   */
  lemma FinishStageFrame(files: map<Path, File>, locked: set<Path>, rec: Recording, converted: Path, codec: Codec, dsp: Dsp)
    ensures var o := FinishStage(files, locked, rec, converted, codec, dsp);
      && (forall p :: p in files && p != converted && p != TrimmedPath(converted) ==> p in o.files && o.files[p] == files[p])
      && (forall p :: p in o.files ==> p in files || (o.Failed? && p == TrimmedPath(converted)))
      && (o.Failed? ==> files.Keys <= o.files.Keys)
  {
  }

  /**
   * FinishStage succeeds exactly when trimming and measuring do; the row then
   * holds the metrics MeasureTrimmed computes from the trimmed file, and on
   * failure the files are those written before the exception.
   */
  lemma FinishStageMeasures(files: map<Path, File>, locked: set<Path>, rec: Recording, converted: Path, codec: Codec, dsp: Dsp)
    ensures var o := FinishStage(files, locked, rec, converted, codec, dsp);
      var f2 := TrimWritten(files, locked, converted, codec, dsp);
      o.Done? <==> f2.Some? && MeasureTrimmed(f2.value, TrimmedPath(converted), codec, dsp).Some?
    ensures var o := FinishStage(files, locked, rec, converted, codec, dsp);
      var f2 := TrimWritten(files, locked, converted, codec, dsp);
      o.Done? ==>
        var m := MeasureTrimmed(f2.value, TrimmedPath(converted), codec, dsp).value;
        && o.record.speechClarityScore == Some(m.clarity)
        && o.record.backgroundNoiseLevel == Some(m.noise)
        && o.files == f2.value - {converted, TrimmedPath(converted)}
    ensures var o := FinishStage(files, locked, rec, converted, codec, dsp);
      var f2 := TrimWritten(files, locked, converted, codec, dsp);
      o.Failed? ==> o.files == if f2.Some? then f2.value else files
  {
  }

  /**
   * process_audio_file on the filesystem `files` for row `rec`: convert when
   * needed, then trim, measure and clean up.
   */
  function ProcessFile(files: map<Path, File>, locked: set<Path>, rec: Recording, codec: Codec, dsp: Dsp)
    : FileOutcome
  {
    match ConvertStage(files, locked, rec, codec)
    case None => Failed(files)
    case Some((files1, rec1)) => FinishStage(files1, locked, rec1, ConvertedPath(rec.file), codec, dsp)
  }

  /**
   * A successful run stores the metrics and the processed flag, leaves the
   * prompt, upload time and verification flag alone, repoints the row at the
   * converted file exactly when conversion ran, and deletes both intermediates.
   */
  lemma ProcessedRow(files: map<Path, File>, locked: set<Path>, rec: Recording, codec: Codec, dsp: Dsp)
    requires ProcessFile(files, locked, rec, codec, dsp).Done?
    ensures var o := ProcessFile(files, locked, rec, codec, dsp);
      && Processed(rec, o.record)
      && o.record.file == (if IsWavName(rec.file.name) then rec.file else ConvertedPath(rec.file))
      && ConvertedPath(rec.file) !in o.files && TrimmedPath(ConvertedPath(rec.file)) !in o.files
    ensures var o := ProcessFile(files, locked, rec, codec, dsp);
      var c := ConvertedPath(rec.file);
      && ConvertStage(files, locked, rec, codec).Some?
      && var f2 := TrimWritten(ConvertStage(files, locked, rec, codec).value.0, locked, c, codec, dsp);
      && f2.Some?
      && var m := MeasureTrimmed(f2.value, TrimmedPath(c), codec, dsp);
      && m.Some?
      && o.record.speechClarityScore == Some(m.value.clarity)
      && o.record.backgroundNoiseLevel == Some(m.value.noise)
  {
  }

  /**
   * Processing a row touches two paths only, the converted file and its
   * trimmed sibling; a trimmed file survives only a failed run.
   */
  lemma ProcessFileFrame(files: map<Path, File>, locked: set<Path>, rec: Recording, codec: Codec, dsp: Dsp)
    ensures var o := ProcessFile(files, locked, rec, codec, dsp);
      forall p :: p in files && p != ConvertedPath(rec.file) && p != TrimmedPath(ConvertedPath(rec.file)) ==>
        p in o.files && o.files[p] == files[p]
    ensures var o := ProcessFile(files, locked, rec, codec, dsp);
      forall p :: p in o.files ==>
        p in files || p == ConvertedPath(rec.file) || (o.Failed? && p == TrimmedPath(ConvertedPath(rec.file)))
  {
    var s := ConvertStage(files, locked, rec, codec);
    if s.Some? {
      ConvertStageFrame(files, locked, rec, codec);
      FinishStageFrame(s.value.0, locked, s.value.1, ConvertedPath(rec.file), codec, dsp);
    }
  }

  /**
   * After a successful run the row points at a file that no longer exists
   * whenever the upload's suffix is exactly `.wav` (the converted path is the
   * original, and cleanup deletes it) or conversion ran (the row was repointed
   * at the converted file, which cleanup deletes).
   */
  lemma ProcessedAudioIsDeleted(files: map<Path, File>, locked: set<Path>, rec: Recording, codec: Codec, dsp: Dsp)
    requires Suffix(rec.file.name) == ".wav" || !IsWavName(rec.file.name)
    requires ProcessFile(files, locked, rec, codec, dsp).Done?
    ensures var o := ProcessFile(files, locked, rec, codec, dsp); o.record.file !in o.files
  {
    var o := ProcessFile(files, locked, rec, codec, dsp);
    ProcessedRow(files, locked, rec, codec, dsp);
    if Suffix(rec.file.name) == ".wav" {
      ExactWavIsWavName(rec.file.name);
      ConvertedPathOfWav(rec.file);
      assert o.record.file == ConvertedPath(rec.file);
    }
  }

  /** A converted upload's original file is never deleted: it stays beside the (deleted) WAV. */
  lemma ConvertedOriginalKept(files: map<Path, File>, locked: set<Path>, rec: Recording, codec: Codec, dsp: Dsp)
    requires !IsWavName(rec.file.name) && rec.file in files
    ensures var o := ProcessFile(files, locked, rec, codec, dsp);
      rec.file in o.files && o.files[rec.file] == files[rec.file]
  {
    ConvertedPathMoves(rec.file);
    var c := ConvertedPath(rec.file);
    if rec.file.name != "" {
      ConvertedPathShape(rec.file);
      TrimmedPathShape(c);
      assert Suffix(TrimmedPath(c).name) == ".wav";
      ExactWavIsWavName(TrimmedPath(c).name);
    } else {
      assert |TrimmedPath(c).name| > 0;
    }
    assert TrimmedPath(c) != rec.file;
    ProcessFileFrame(files, locked, rec, codec, dsp);
  }

  /**
   * An upload whose suffix is `.wav` in another case (say `.WAV`) is not
   * converted, but the pipeline then loads `<stem>.wav`; unless such a file
   * happens to exist the run fails and changes nothing.
   */
  lemma MixedCaseWavFails(files: map<Path, File>, locked: set<Path>, rec: Recording, codec: Codec, dsp: Dsp)
    requires IsWavName(rec.file.name) && Suffix(rec.file.name) != ".wav"
    requires ConvertedPath(rec.file) !in files
    ensures ProcessFile(files, locked, rec, codec, dsp) == Failed(files)
  {
  }

  /** A run that fails after converting leaves the converted WAV behind (no cleanup on the error path). */
  lemma FailureKeepsConversion(files: map<Path, File>, locked: set<Path>, rec: Recording, codec: Codec, dsp: Dsp)
    requires !IsWavName(rec.file.name)
    requires ScriptSteps.Transcode(files, rec.file, codec).Some?
    requires ConvertedPath(rec.file) !in files && ConvertedPath(rec.file) !in locked
    requires ProcessFile(files, locked, rec, codec, dsp).Failed?
    ensures ConvertedPath(rec.file) in ProcessFile(files, locked, rec, codec, dsp).files
  {
    var r := ConvertStage(files, locked, rec, codec);
    assert r.Some? && ConvertedPath(rec.file) in r.value.0;
  }

  /**
   * A converted WAV left behind by a failed run makes every later run on the
   * same row fail at the conversion, since ffmpeg will not overwrite it: the
   * row can no longer be processed, and each batch that reaches it ends there.
   */
  lemma RetryAfterFailureFails(files: map<Path, File>, locked: set<Path>, rec: Recording, codec: Codec, dsp: Dsp)
    requires !IsWavName(rec.file.name)
    requires ScriptSteps.Transcode(files, rec.file, codec).Some?
    requires ConvertedPath(rec.file) !in files && ConvertedPath(rec.file) !in locked
    requires ProcessFile(files, locked, rec, codec, dsp).Failed?
    ensures var after := ProcessFile(files, locked, rec, codec, dsp).files;
      ProcessFile(after, locked, rec, codec, dsp) == Failed(after)
  {
    FailureKeepsConversion(files, locked, rec, codec, dsp);
  }

  /** A row saved twice holds what the second save stored. */
  lemma UpdateTwice(rows: map<nat, Recording>, id: nat, first: Recording, second: Recording)
    ensures rows[id := first][id := second] == rows[id := second]
  {
  }

  /**
   * process_audio_file: convert and repoint, then trim, measure and clean up.
   * An exception leaves whatever was saved before it (the repointed row).
   */
  method ProcessAudioFile(db: Database, disk: Disk, id: nat, codec: Codec, dsp: Dsp) returns (ok: bool)
    requires db.Valid() && id in db.recordings
    modifies db, disk
    ensures db.Valid()
    ensures db.prompts == old(db.prompts)
    ensures db.nextPromptId == old(db.nextPromptId) && db.nextRecordingId == old(db.nextRecordingId)
    ensures var s := ConvertStage(old(disk.files), disk.locked, old(db.recordings[id]), codec);
      && (s.None? ==> !ok && disk.files == old(disk.files) && db.recordings == old(db.recordings))
      && (s.Some? ==>
            var o := FinishStage(s.value.0, disk.locked, s.value.1, ConvertedPath(old(db.recordings[id]).file), codec, dsp);
            && ok == o.Done?
            && disk.files == o.files
            && db.recordings == old(db.recordings)[id := if ok then o.record else s.value.1])
    ensures disk.dirs == old(disk.dirs)
  {
    var original := db.recordings[id];
    var converted := ConvertedPath(original.file);
    ghost var s := ConvertStage(disk.files, disk.locked, original, codec);
    var rec := ConvertToWav(db, disk, id, codec);
    if rec.None? {
      assert s.None?;
      return false;
    }
    assert s.Some? && rec.value == s.value.1 && disk.files == s.value.0;
    assert rec.value.promptId == original.promptId;
    ok := TrimAndMeasure(db, disk, id, rec.value, converted, codec, dsp);
    if ok {
      UpdateTwice(old(db.recordings), id, rec.value, db.recordings[id]);
    }
  }

  /**
   * One iteration of process_audio_view: process_audio_file inside its own
   * `transaction.atomic()`. The row is committed only when every step
   * succeeds; on an exception its database changes are rolled back while the
   * files already written stay.
   */
  method ProcessAtomically(db: Database, disk: Disk, id: nat, codec: Codec, dsp: Dsp) returns (ok: bool)
    requires db.Valid() && id in db.recordings
    modifies db, disk
    ensures db.Valid()
    ensures db.prompts == old(db.prompts)
    ensures db.nextPromptId == old(db.nextPromptId) && db.nextRecordingId == old(db.nextRecordingId)
    ensures disk.dirs == old(disk.dirs)
    ensures var o := ProcessFile(old(disk.files), disk.locked, old(db.recordings[id]), codec, dsp);
      ok == o.Done? && disk.files == o.files && (ok ==> id in db.recordings && db.recordings[id] == o.record)
    ensures !ok ==> db.recordings == old(db.recordings)
    ensures ok ==> id in db.recordings && db.recordings == old(db.recordings)[id := db.recordings[id]]
    ensures ok ==> Processed(old(db.recordings[id]), db.recordings[id])
  {
    var snapshot := db.recordings;
    assert forall r :: r in snapshot ==> r < db.nextRecordingId && snapshot[r].promptId in db.prompts;
    ghost var files0 := disk.files;
    ghost var rec0 := db.recordings[id];
    ok := ProcessAudioFile(db, disk, id, codec, dsp);
    if !ok {
      db.Rollback(snapshot);
    } else {
      ProcessedRow(files0, disk.locked, rec0, codec, dsp);
    }
  }

  /**
   * Lines 141-148 of process_audio_file: ffmpeg writes the converted file and
   * the row is saved pointing at it, unless the suffix is already `.wav`;
   * ffmpeg fails when the converted file already exists.
   */
  method ConvertToWav(db: Database, disk: Disk, id: nat, codec: Codec) returns (rec: Option<Recording>)
    requires db.Valid() && id in db.recordings
    modifies db, disk
    ensures db.Valid()
    ensures db.prompts == old(db.prompts)
    ensures db.nextPromptId == old(db.nextPromptId) && db.nextRecordingId == old(db.nextRecordingId)
    ensures var s := ConvertStage(old(disk.files), disk.locked, old(db.recordings[id]), codec);
      && (s.None? ==> rec.None? && disk.files == old(disk.files) && db.recordings == old(db.recordings))
      && (s.Some? ==> rec == Some(s.value.1) && disk.files == s.value.0
                      && db.recordings == old(db.recordings)[id := s.value.1])
    ensures disk.dirs == old(disk.dirs)
  {
    var r := db.recordings[id];
    if IsWavName(r.file.name) {
      assert db.recordings == db.recordings[id := r];
      return Some(r);
    }
    var wav := ScriptSteps.Transcode(disk.files, r.file, codec);
    if wav.None? {
      return None;
    }
    var converted := ConvertedPath(r.file);
    if converted in disk.files {
      return None;
    }
    var written := disk.Write(converted, Bytes(wav.value));
    if !written {
      return None;
    }
    r := r.(file := converted);
    db.SaveRecording(id, r);
    return Some(r);
  }

  /**
   * Lines 150-160 of process_audio_file: trim the converted file, measure the
   * trimmed one and save the metrics, then delete both intermediates.
   */
  method TrimAndMeasure(db: Database, disk: Disk, id: nat, rec: Recording, converted: Path, codec: Codec, dsp: Dsp)
    returns (ok: bool)
    requires db.Valid() && id in db.recordings && rec.promptId in db.prompts
    modifies db, disk
    ensures db.Valid()
    ensures db.prompts == old(db.prompts)
    ensures db.nextPromptId == old(db.nextPromptId) && db.nextRecordingId == old(db.nextRecordingId)
    ensures var o := FinishStage(old(disk.files), disk.locked, rec, converted, codec, dsp);
      && ok == o.Done?
      && disk.files == o.files
      && db.recordings == if ok then old(db.recordings)[id := o.record] else old(db.recordings)
    ensures disk.dirs == old(disk.dirs)
  {
    var sig := Load(disk.files, converted, codec);
    if sig.None? {
      return false;
    }
    var trimmed := TrimmedPath(converted);
    var written := disk.Write(trimmed, ScriptSteps.TrimmedFile(sig.value, codec, dsp));
    if !written {
      return false;
    }
    var m := MeasureTrimmed(disk.files, trimmed, codec, dsp);
    if m.None? {
      return false;
    }
    db.SaveRecording(id, rec.(speechClarityScore := Some(m.value.clarity),
                              backgroundNoiseLevel := Some(m.value.noise), isMlProcessed := true));
    if converted in disk.files {
      disk.Unlink(converted);
    }
    if trimmed in disk.files {
      disk.Unlink(trimmed);
    }
    return true;
  }

  // ---------------------------------------------------------------------------
  // process_audio_view
  // ---------------------------------------------------------------------------

  /** The view's JSON answers: 200 "No unprocessed…", 200 "…processed successfully", 500 at the row that raised. */
  datatype BatchResponse = NothingToProcess | AllProcessed | Aborted(at: nat)

  /**
   * process_audio_view over `ids`, the listing of every row newest first. Every
   * row is processed, already processed ones included; the first row whose
   * processing raises ends the batch with a 500, its own changes rolled back
   * and the rows before it committed.
   */
  method ProcessAudioView(db: Database, disk: Disk, ids: seq<nat>, codec: Codec, dsp: Dsp)
    returns (r: BatchResponse, ghost states: seq<map<Path, File>>)
    requires db.Valid() && IsDefaultListing(ids, db.recordings)
    modifies db, disk
    ensures db.Valid()
    ensures db.prompts == old(db.prompts)
    ensures forall k :: 0 <= k < |ids| ==> ids[k] in db.recordings
    ensures r == NothingToProcess <==> |ids| == 0
    ensures r == NothingToProcess ==> disk.files == old(disk.files)
    ensures r == AllProcessed ==>
      forall k :: 0 <= k < |ids| ==> Processed(old(db.recordings)[ids[k]], db.recordings[ids[k]])
    ensures r.Aborted? ==>
      && r.at < |ids|
      && (forall k :: 0 <= k < r.at ==> Processed(old(db.recordings)[ids[k]], db.recordings[ids[k]]))
      && (forall k :: r.at <= k < |ids| ==> db.recordings[ids[k]] == old(db.recordings)[ids[k]])
    // the files each row saw and left behind, as in ProcessEach
    ensures |states| == (if r.Aborted? then r.at else |ids|) + 1 && states[0] == old(disk.files)
    ensures forall k :: 0 <= k < |states| - 1 ==>
      ProcessFile(states[k], disk.locked, old(db.recordings)[ids[k]], codec, dsp) == Done(states[k + 1], db.recordings[ids[k]])
    ensures r.Aborted? ==>
      ProcessFile(states[r.at], disk.locked, old(db.recordings)[ids[r.at]], codec, dsp) == Failed(disk.files)
    ensures !r.Aborted? ==> disk.files == states[|states| - 1]
    ensures db.recordings.Keys == old(db.recordings).Keys && disk.dirs == old(disk.dirs)
  {
    if |ids| == 0 {
      return NothingToProcess, [disk.files];
    }
    var failedAt;
    failedAt, states := ProcessEach(db, disk, ids, codec, dsp);
    r := if failedAt.Some? then Aborted(failedAt.value) else AllProcessed;
  }

  /**
   * The view's `for` loop: each row in its own transaction, stopping at the
   * first one that raises (its index is returned). `states[k]` is the file
   * system row `ids[k]` is processed on: each row before the stop is
   * ProcessFile's Done outcome on the original row, and the row that stops the
   * loop is its Failed outcome, whose files are the ones left on disk.
   */
  method ProcessEach(db: Database, disk: Disk, ids: seq<nat>, codec: Codec, dsp: Dsp)
    returns (failedAt: Option<nat>, ghost states: seq<map<Path, File>>)
    requires db.Valid()
    requires forall k :: 0 <= k < |ids| ==> ids[k] in db.recordings
    requires forall i, j :: 0 <= i < j < |ids| ==> ids[i] != ids[j]
    modifies db, disk
    ensures db.Valid()
    ensures db.prompts == old(db.prompts)
    ensures forall k :: 0 <= k < |ids| ==> ids[k] in db.recordings
    ensures failedAt.None? ==>
      forall k :: 0 <= k < |ids| ==> Processed(old(db.recordings)[ids[k]], db.recordings[ids[k]])
    ensures failedAt.Some? ==>
      && failedAt.value < |ids|
      && (forall k :: 0 <= k < failedAt.value ==> Processed(old(db.recordings)[ids[k]], db.recordings[ids[k]]))
      && (forall k :: failedAt.value <= k < |ids| ==> db.recordings[ids[k]] == old(db.recordings)[ids[k]])
    ensures |states| == (if failedAt.Some? then failedAt.value else |ids|) + 1 && states[0] == old(disk.files)
    ensures forall k :: 0 <= k < |states| - 1 ==>
      ProcessFile(states[k], disk.locked, old(db.recordings)[ids[k]], codec, dsp) == Done(states[k + 1], db.recordings[ids[k]])
    ensures failedAt.Some? ==>
      ProcessFile(states[failedAt.value], disk.locked, old(db.recordings)[ids[failedAt.value]], codec, dsp) == Failed(disk.files)
    ensures failedAt.None? ==> disk.files == states[|ids|]
    ensures db.recordings.Keys == old(db.recordings).Keys && disk.dirs == old(disk.dirs)
  {
    var i := 0;
    states := [disk.files];
    while i < |ids|
      invariant 0 <= i <= |ids|
      invariant db.Valid() && db.prompts == old(db.prompts)
      invariant forall k :: 0 <= k < |ids| ==> ids[k] in db.recordings
      invariant forall k :: i <= k < |ids| ==> db.recordings[ids[k]] == old(db.recordings)[ids[k]]
      invariant |states| == i + 1 && states[0] == old(disk.files) && states[i] == disk.files
      invariant forall k :: 0 <= k < i ==>
        ProcessFile(states[k], disk.locked, old(db.recordings)[ids[k]], codec, dsp) == Done(states[k + 1], db.recordings[ids[k]])
      invariant db.recordings.Keys == old(db.recordings).Keys && disk.dirs == old(disk.dirs)
    {
      ghost var before := db.recordings;
      var ok := ProcessAtomically(db, disk, ids[i], codec, dsp);
      if !ok {
        RowsProcessed(states, disk.locked, old(db.recordings), db.recordings, ids, codec, dsp, i);
        return Some(i), states;
      }
      RowsDoneSnoc(states, disk.files, disk.locked, old(db.recordings), before, db.recordings, ids, codec, dsp, i);
      states := states + [disk.files];
      i := i + 1;
    }
    RowsProcessed(states, disk.locked, old(db.recordings), db.recordings, ids, codec, dsp, |ids|);
    return None, states;
  }

  /** Every row with a Done outcome in the run is processed, as ProcessedRow says of one. */
  lemma RowsProcessed(states: seq<map<Path, File>>, locked: set<Path>, original: map<nat, Recording>,
                      rows: map<nat, Recording>, ids: seq<nat>, codec: Codec, dsp: Dsp, n: nat)
    requires n < |states| && n <= |ids|
    requires forall k :: 0 <= k < n ==> ids[k] in original && ids[k] in rows
    requires forall k :: 0 <= k < n ==>
      ProcessFile(states[k], locked, original[ids[k]], codec, dsp) == Done(states[k + 1], rows[ids[k]])
    ensures forall k :: 0 <= k < n ==> Processed(original[ids[k]], rows[ids[k]])
  {
    forall k | 0 <= k < n
      ensures Processed(original[ids[k]], rows[ids[k]])
    {
      var o := ProcessFile(states[k], locked, original[ids[k]], codec, dsp);
      assert o == Done(states[k + 1], rows[ids[k]]);
      ProcessedRow(states[k], locked, original[ids[k]], codec, dsp);
    }
  }

  /**
   * One more row done: saving row `ids[i]` leaves the other listed rows alone
   * and the set of rows as it was, and the run's files grow by the files that
   * row left.
   */
  lemma RowsDoneSnoc(states: seq<map<Path, File>>, files: map<Path, File>, locked: set<Path>,
                     original: map<nat, Recording>, rows: map<nat, Recording>, rows2: map<nat, Recording>,
                     ids: seq<nat>, codec: Codec, dsp: Dsp, i: nat)
    requires |states| == i + 1 && i < |ids|
    requires forall k :: 0 <= k < |ids| ==> ids[k] in original && ids[k] in rows
    requires forall k, j :: 0 <= k < j < |ids| ==> ids[k] != ids[j]
    requires ids[i] in rows2 && rows2 == rows[ids[i] := rows2[ids[i]]]
    requires forall k :: 0 <= k < i ==>
      ProcessFile(states[k], locked, original[ids[k]], codec, dsp) == Done(states[k + 1], rows[ids[k]])
    requires ProcessFile(states[i], locked, original[ids[i]], codec, dsp) == Done(files, rows2[ids[i]])
    ensures forall k :: 0 <= k < |ids| && k != i ==> rows2[ids[k]] == rows[ids[k]]
    ensures rows2.Keys == rows.Keys
    ensures forall k :: 0 <= k < i + 1 ==>
      ProcessFile((states + [files])[k], locked, original[ids[k]], codec, dsp) == Done((states + [files])[k + 1], rows2[ids[k]])
  {
    forall k | 0 <= k < |ids| && k != i
      ensures rows2[ids[k]] == rows[ids[k]]
    {
      assert ids[k] != ids[i];
    }
    var next := states + [files];
    forall k | 0 <= k < i + 1
      ensures ProcessFile(next[k], locked, original[ids[k]], codec, dsp) == Done(next[k + 1], rows2[ids[k]])
    {
      assert next[k] == states[k] && next[k + 1] == (if k < i then states[k + 1] else files);
    }
  }

  // ---------------------------------------------------------------------------
  // UpdateAudioMetadataView.post
  // ---------------------------------------------------------------------------

  /** `AudioFile.objects.get(id=record.get("id"))` finds a row: the id is present and names one. */
  predicate KnownId(recordings: map<nat, Recording>, u: UpdateRecord) {
    u.id.Some? && u.id.value >= 0 && u.id.value as nat in recordings
  }

  /** `record.get("metadata", {})`. */
  function MetadataOf(u: UpdateRecord): map<string, real> {
    u.metadata.GetOr(map[])
  }

  /** The fields one record sets: the two scores (0 when the key is missing) and the processed flag. */
  function ApplyMetadata(r: Recording, metadata: map<string, real>): Recording {
    r.(speechClarityScore := Some(GetOrZero(metadata, ClarityKey)),
       backgroundNoiseLevel := Some(GetOrZero(metadata, NoiseKey)),
       isMlProcessed := true)
  }

  /** Missing keys are stored as 0; the row is marked processed either way. */
  lemma MissingKeysDefaultToZero(r: Recording)
    ensures ApplyMetadata(r, map[]).speechClarityScore == Some(0.0)
    ensures ApplyMetadata(r, map[]).backgroundNoiseLevel == Some(0.0)
    ensures ApplyMetadata(r, map[]).isMlProcessed
  {
  }

  /** The rows after the handler and its HTTP status. */
  datatype UpdateResult = UpdateResult(recordings: map<nat, Recording>, status: nat)

  /**
   * The handler's loop: records are saved one by one, in order; the first
   * record whose id finds no row stops it with 400, with no rollback.
   */
  function ApplyUpdates(recordings: map<nat, Recording>, body: seq<UpdateRecord>): (r: UpdateResult)
    ensures r.status == 200 || r.status == 400
    ensures r.recordings.Keys == recordings.Keys
    ensures forall id :: id in recordings ==>
      && r.recordings[id].promptId == recordings[id].promptId
      && r.recordings[id].file == recordings[id].file
      && r.recordings[id].uploadedAt == recordings[id].uploadedAt
    decreases |body|
  {
    if body == [] then UpdateResult(recordings, 200)
    else if !KnownId(recordings, body[0]) then UpdateResult(recordings, 400)
    else
      var id := body[0].id.value as nat;
      ApplyUpdates(recordings[id := ApplyMetadata(recordings[id], MetadataOf(body[0]))], body[1..])
  }

  /** The handler answers 200 exactly when every record names an existing row. */
  lemma {:induction false} UpdatesSucceedIffAllKnown(recordings: map<nat, Recording>, body: seq<UpdateRecord>)
    ensures ApplyUpdates(recordings, body).status == 200 <==>
      forall i :: 0 <= i < |body| ==> KnownId(recordings, body[i])
    decreases |body|
  {
    if body != [] && KnownId(recordings, body[0]) {
      var id := body[0].id.value as nat;
      var next := recordings[id := ApplyMetadata(recordings[id], MetadataOf(body[0]))];
      UpdatesSucceedIffAllKnown(next, body[1..]);
      assert forall u :: KnownId(next, u) <==> KnownId(recordings, u);
      assert forall i :: 0 < i < |body| ==> body[1..][i - 1] == body[i];
    }
  }

  /**
   * When record `k` names no row, the answer is 400 and the rows are exactly
   * those the records before it left: earlier saves are not rolled back.
   */
  lemma {:induction false} UpdatesStopAtUnknown(recordings: map<nat, Recording>, body: seq<UpdateRecord>, k: nat)
    requires k < |body| && !KnownId(recordings, body[k])
    ensures ApplyUpdates(recordings, body) == UpdateResult(ApplyUpdates(recordings, body[..k]).recordings, 400)
    decreases k
  {
    if k == 0 {
      assert body[..0] == [];
    } else if KnownId(recordings, body[0]) {
      var id := body[0].id.value as nat;
      var next := recordings[id := ApplyMetadata(recordings[id], MetadataOf(body[0]))];
      assert !KnownId(next, body[k]);
      assert body[1..][k - 1] == body[k];
      UpdatesStopAtUnknown(next, body[1..], k - 1);
      assert body[..k][0] == body[0] && body[..k][1..] == body[1..][..k - 1];
    } else {
      assert body[..k][0] == body[0];
    }
  }

  /**
   * After a 200 every row named in the body is marked processed, and a row no
   * record names is exactly as it was.
   */
  lemma {:induction false} UpdatesTouchOnlyNamedRows(recordings: map<nat, Recording>, body: seq<UpdateRecord>)
    ensures var r := ApplyUpdates(recordings, body);
      forall id :: id in recordings && (forall i :: 0 <= i < |body| ==> body[i].id != Some(id as int)) ==>
        r.recordings[id] == recordings[id]
    ensures var r := ApplyUpdates(recordings, body);
      r.status == 200 ==> forall i :: 0 <= i < |body| && KnownId(recordings, body[i]) ==>
        r.recordings[body[i].id.value as nat].isMlProcessed
    decreases |body|
  {
    if body != [] && KnownId(recordings, body[0]) {
      var id := body[0].id.value as nat;
      var next := recordings[id := ApplyMetadata(recordings[id], MetadataOf(body[0]))];
      UpdatesTouchOnlyNamedRows(next, body[1..]);
      UpdatesSucceedIffAllKnown(recordings, body);
      ProcessedStays(next, body[1..], id);
      assert forall i :: 0 < i < |body| ==> body[1..][i - 1] == body[i];
    }
  }

  /** A row already marked processed stays marked through any further records. */
  lemma {:induction false} ProcessedStays(recordings: map<nat, Recording>, body: seq<UpdateRecord>, id: nat)
    requires id in recordings && recordings[id].isMlProcessed
    ensures ApplyUpdates(recordings, body).recordings[id].isMlProcessed
    decreases |body|
  {
    if body != [] && KnownId(recordings, body[0]) {
      var j := body[0].id.value as nat;
      ProcessedStays(recordings[j := ApplyMetadata(recordings[j], MetadataOf(body[0]))], body[1..], id);
    }
  }

  /** A body whose first record carries no `id` is refused with 400 before any row changes. */
  lemma IdlessBodyRejected(recordings: map<nat, Recording>, body: seq<UpdateRecord>)
    requires |body| > 0 && body[0].id.None?
    ensures ApplyUpdates(recordings, body) == UpdateResult(recordings, 400)
  {
  }

  /** UpdateAudioMetadataView.post: saves record after record, as ApplyUpdates describes. */
  method UpdateAudioMetadata(db: Database, body: seq<UpdateRecord>) returns (status: nat)
    requires db.Valid()
    modifies db
    ensures db.Valid()
    ensures db.prompts == old(db.prompts)
    ensures UpdateResult(db.recordings, status) == ApplyUpdates(old(db.recordings), body)
  {
    var i := 0;
    while i < |body|
      invariant 0 <= i <= |body|
      invariant db.Valid() && db.prompts == old(db.prompts)
      invariant ApplyUpdates(db.recordings, body[i..]) == ApplyUpdates(old(db.recordings), body)
    {
      var u := body[i];
      assert body[i..][0] == u && body[i..][1..] == body[i + 1..];
      if !KnownId(db.recordings, u) {
        return 400;
      }
      var id := u.id.value as nat;
      db.SaveRecording(id, ApplyMetadata(db.recordings[id], MetadataOf(u)));
      i := i + 1;
    }
    assert body[i..] == [];
    return 200;
  }
}

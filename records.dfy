/**
 * The server's data model (record/models.py): prompts, recordings, the upload
 * path of a recording, the accepted extensions, the choice tables and the
 * database the views and the prompt loader change.
 */
module Records {
  import opened Wrappers
  import opened Strings
  import opened Decimal
  import opened Paths

  /** `audio_file_path(instance, filename)`: `os.path.join('recordings', str(prompt id), filename)`. */
  function AudioFilePath(promptId: nat, filename: string): string {
    Join(Join("recordings", ToDecimal(promptId)), filename)
  }

  /**
   * A relative file name lands in `recordings/<id>/`; an absolute one replaces
   * the whole path, as `os.path.join` does.
   */
  lemma AudioFilePathShape(promptId: nat, filename: string)
    ensures !StartsWith(filename, "/") ==>
      AudioFilePath(promptId, filename) == "recordings/" + ToDecimal(promptId) + "/" + filename
    ensures StartsWith(filename, "/") ==> AudioFilePath(promptId, filename) == filename
  {
    var id := ToDecimal(promptId);
    assert !StartsWith(id, "/") by {
      assert Decimal.IsDigit(id[0]);
    }
    assert Join("recordings", id) == "recordings/" + id;
  }

  /** The prompt id a stored upload path names: the directory under `recordings/`. */
  function PromptIdOfPath(s: string): Option<nat> {
    var dir := PathOf(s).dir;
    if StartsWith(dir, "recordings/") then ParseDecimal(dir[|"recordings/"|..]) else None
  }

  /** A plain file name is stored under its own prompt's directory, and its name survives intact. */
  lemma {:induction false} UploadPathRoundTrip(promptId: nat, filename: string)
    requires '/' !in filename
    ensures PathOf(AudioFilePath(promptId, filename)) == Path("recordings/" + ToDecimal(promptId), filename)
    ensures PromptIdOfPath(AudioFilePath(promptId, filename)) == Some(promptId)
  {
    assert !StartsWith(filename, "/") by {
      if |filename| > 0 {
        assert filename[0] in filename;
      }
    }
    AudioFilePathShape(promptId, filename);
    var dir := "recordings/" + ToDecimal(promptId);
    assert AudioFilePath(promptId, filename) == dir + "/" + filename;
    PathOfJoined(dir, filename);
    assert dir[|"recordings/"|..] == ToDecimal(promptId);
    ParseToDecimal(promptId);
  }

  /** The extensions `FileExtensionValidator(['wav', 'mp3', 'ogg'])` lets through. */
  const AllowedExtensions: seq<string> := ["wav", "mp3", "ogg"]

  /** The validator's test: `Path(name).suffix[1:].lower()` is one of the allowed extensions. */
  predicate ExtensionAllowed(name: string) {
    var s := Suffix(name);
    var ext := Lower(if |s| > 0 then s[1..] else "");
    ext == AllowedExtensions[0] || ext == AllowedExtensions[1] || ext == AllowedExtensions[2]
  }

  /** An accepted name has a suffix, and lower-cased it is `.wav`, `.mp3` or `.ogg`. */
  lemma ExtensionAllowedSuffix(name: string)
    ensures ExtensionAllowed(name) <==>
      var l := Lower(Suffix(name)); l == ".wav" || l == ".mp3" || l == ".ogg"
  {
    DottedExtension(Suffix(name));
  }

  lemma DottedExtension(s: string)
    requires s == "" || s[0] == '.'
    ensures var ext := Lower(if |s| > 0 then s[1..] else "");
      var l := Lower(s);
      (ext == "wav" || ext == "mp3" || ext == "ogg") <==> (l == ".wav" || l == ".mp3" || l == ".ogg")
  {
    if |s| > 0 {
      var ext := Lower(s[1..]);
      assert s == "." + s[1..];
      LowerDot(s[1..]);
      assert Lower(s) == "." + ext;
      assert ".wav" == "." + "wav" && ".mp3" == "." + "mp3" && ".ogg" == "." + "ogg";
      DotPrefixed(ext, "wav");
      DotPrefixed(ext, "mp3");
      DotPrefixed(ext, "ogg");
    } else {
      assert Lower(s) == [];
    }
  }

  lemma LowerDot(x: string)
    ensures Lower("." + x) == "." + Lower(x)
  {
    var l := Lower("." + x);
    assert l[0] == '.';
    assert forall i :: 0 < i < |l| ==> l[i] == Lower(x)[i - 1];
  }

  lemma DotPrefixed(x: string, e: string)
    ensures "." + x == "." + e <==> x == e
  {
    if "." + x == "." + e {
      assert x == ("." + x)[1..];
    }
  }

  /** Of the accepted uploads, exactly the non-WAV ones are converted by the processing view. */
  lemma AcceptedNonWavIsMp3OrOgg(name: string)
    requires ExtensionAllowed(name) && !IsWavName(name)
    ensures Lower(Suffix(name)) == ".mp3" || Lower(Suffix(name)) == ".ogg"
  {
    ExtensionAllowedSuffix(name);
  }

  /** One `(key, human-readable name)` pair of a `choices` table. */
  datatype Choice = Choice(key: string, display: string)

  const QualityChoices: seq<Choice> := [
    Choice("high", "High Quality"), Choice("medium", "Medium Quality"), Choice("low", "Low Quality")]
  const AccentChoices: seq<Choice> := [
    Choice("neutral", "Neutral"), Choice("american", "American English"),
    Choice("british", "British English"), Choice("australian", "Australian English"),
    Choice("indian", "Indian English"), Choice("other", "Other Accent")]
  const GenderChoices: seq<Choice> := [
    Choice("male", "Male"), Choice("female", "Female"), Choice("other", "Other")]
  const AgeGroupChoices: seq<Choice> := [
    Choice("child", "Child (0-12)"), Choice("teen", "Teenager (13-19)"),
    Choice("young_adult", "Young Adult (20-35)"), Choice("adult", "Adult (36-55)"),
    Choice("senior", "Senior (55+)")]

  const QualityMaxLength: nat := 10
  const AccentMaxLength: nat := 20
  const GenderMaxLength: nat := 10
  const AgeGroupMaxLength: nat := 20

  /** Every key of a choice table is at most `maxLength` characters long. */
  predicate KeysFit(choices: seq<Choice>, maxLength: nat) {
    forall i :: 0 <= i < |choices| ==> |choices[i].key| <= maxLength
  }

  /** Every choice key fits the `max_length` of its field (the longest, `young_adult`, has 11 of 20). */
  lemma ChoiceKeysFit()
    ensures KeysFit(QualityChoices, QualityMaxLength)
    ensures KeysFit(AccentChoices, AccentMaxLength)
    ensures KeysFit(GenderChoices, GenderMaxLength)
    ensures KeysFit(AgeGroupChoices, AgeGroupMaxLength)
  {
  }

  /**
   * An `AudioFile` row as the core reads and writes it. The two metric fields
   * are nullable; the labelling fields no core operation sets are left out.
   */
  datatype Recording = Recording(
    promptId: nat,
    file: Path,
    uploadedAt: int,
    backgroundNoiseLevel: Option<real>,
    speechClarityScore: Option<real>,
    isVerified: bool,
    isMlProcessed: bool)

  /** A freshly created row: field defaults, metrics null, both flags False. */
  function NewRecording(promptId: nat, file: Path, now: int): (r: Recording)
    ensures !r.isVerified && !r.isMlProcessed
    ensures r.backgroundNoiseLevel.None? && r.speechClarityScore.None?
    ensures r.promptId == promptId && r.file == file && r.uploadedAt == now
  {
    Recording(promptId, file, now, None, None, false, false)
  }

  /**
   * `AudioFile.objects.all()` under `ordering = ['-uploaded_at']`: every row
   * once, newest upload first.
   */
  predicate IsDefaultListing(ids: seq<nat>, recordings: map<nat, Recording>) {
    && (forall i :: 0 <= i < |ids| ==> ids[i] in recordings)
    && (forall id :: id in recordings ==> id in ids)
    && (forall i, j :: 0 <= i < j < |ids| ==> ids[i] != ids[j])
    && (forall i, j :: 0 <= i < j < |ids| ==>
          recordings[ids[i]].uploadedAt >= recordings[ids[j]].uploadedAt)
  }

  /** The listing is empty exactly when the table is: `exists()` and iteration agree. */
  lemma ListingEmpty(ids: seq<nat>, recordings: map<nat, Recording>)
    requires IsDefaultListing(ids, recordings)
    ensures |ids| == 0 <==> recordings == map[]
  {
    if |ids| > 0 {
      assert ids[0] in recordings;
    }
  }

  /** `TextPrompt.text` is unique: no two prompts share a text. */
  predicate UniqueTexts(prompts: map<nat, string>) {
    forall a, b :: a in prompts && b in prompts && prompts[a] == prompts[b] ==> a == b
  }

  /** The database: the two tables and the next primary key of each. */
  class Database {
    var prompts: map<nat, string>
    var recordings: map<nat, Recording>
    var nextPromptId: nat
    var nextRecordingId: nat

    ghost predicate Valid()
      reads this
    {
      && (forall id :: id in prompts ==> id < nextPromptId)
      && (forall id :: id in recordings ==> id < nextRecordingId)
      && UniqueTexts(prompts)
      && (forall id :: id in recordings ==> recordings[id].promptId in prompts)
    }

    /** A database holding consistent tables, with the next ids past every stored one. */
    constructor (prompts0: map<nat, string>, recordings0: map<nat, Recording>, nextPrompt: nat, nextRecording: nat)
      requires forall id :: id in prompts0 ==> id < nextPrompt
      requires forall id :: id in recordings0 ==> id < nextRecording
      requires UniqueTexts(prompts0)
      requires forall id :: id in recordings0 ==> recordings0[id].promptId in prompts0
      ensures Valid()
      ensures prompts == prompts0 && recordings == recordings0
      ensures nextPromptId == nextPrompt && nextRecordingId == nextRecording
    {
      prompts, recordings := prompts0, recordings0;
      nextPromptId, nextRecordingId := nextPrompt, nextRecording;
    }

    /** `TextPrompt.objects.create(text=text)` for a text not yet stored. */
    method CreatePrompt(text: string)
      requires Valid() && text !in prompts.Values
      modifies this
      ensures Valid()
      ensures prompts == old(prompts)[old(nextPromptId) := text]
      ensures old(nextPromptId) !in old(prompts)
      ensures prompts.Values == old(prompts.Values) + {text} && |prompts| == |old(prompts)| + 1
      ensures nextPromptId == old(nextPromptId) + 1
      ensures recordings == old(recordings) && nextRecordingId == old(nextRecordingId)
    {
      var before := prompts;
      prompts := prompts[nextPromptId := text];
      nextPromptId := nextPromptId + 1;
      assert text in prompts.Values by {
        assert prompts[old(nextPromptId)] == text;
      }
      forall x | x in before.Values
        ensures x in prompts.Values
      {
        var k :| k in before && before[k] == x;
        assert prompts[k] == x;
      }
    }

    /** `AudioFile(...).save()` for a new row. */
    method CreateRecording(r: Recording) returns (id: nat)
      requires Valid() && r.promptId in prompts
      modifies this
      ensures Valid()
      ensures id == old(nextRecordingId) && id !in old(recordings)
      ensures recordings == old(recordings)[id := r]
      ensures nextRecordingId == old(nextRecordingId) + 1
      ensures prompts == old(prompts) && nextPromptId == old(nextPromptId)
    {
      id := nextRecordingId;
      recordings := recordings[id := r];
      nextRecordingId := nextRecordingId + 1;
    }

    /** `audio_file.save()` on an existing row. */
    method SaveRecording(id: nat, r: Recording)
      requires Valid() && id in recordings && r.promptId in prompts
      modifies this
      ensures Valid()
      ensures recordings == old(recordings)[id := r]
      ensures prompts == old(prompts)
      ensures nextPromptId == old(nextPromptId) && nextRecordingId == old(nextRecordingId)
    {
      recordings := recordings[id := r];
    }

    /**
     * The end of a `transaction.atomic()` block left by an exception: the rows
     * return to the state saved when the block began.
     */
    method Rollback(snapshot: map<nat, Recording>)
      requires Valid()
      requires forall id :: id in snapshot ==> id < nextRecordingId && snapshot[id].promptId in prompts
      modifies this
      ensures Valid()
      ensures recordings == snapshot
      ensures prompts == old(prompts)
      ensures nextPromptId == old(nextPromptId) && nextRecordingId == old(nextRecordingId)
    {
      recordings := snapshot;
    }
  }
}

/**
 * pas.py's own part: save_audio_with_metadata, which writes a JSON sidecar
 * and promotes the audio file into the output directory, and `main`, which
 * runs download, processing and saving over the fetched list and collects
 * the entries to upload. The per-file helpers are those of ScriptSteps.
 */
module PasScript {
  import opened Wrappers
  import opened Paths
  import opened Audio
  import opened Wire
  import opened Files
  import opened Batch
  import opened ScriptSteps
  import Records
  import RecordViews

  /** `output_dir` in main. */
  const OutputDir := "processed_audio"

  /** `Path(output_dir) / (Path(file_path).stem + '_metadata.json')`. */
  function SidecarPath(file: Path, outputDir: string): Path {
    Path(outputDir, Stem(file.name) + "_metadata.json")
  }

  /** The sidecar sits in the output directory, its stem is the audio stem plus `_metadata`, its suffix `.json`. */
  lemma SidecarPathShape(file: Path, outputDir: string)
    ensures var p := SidecarPath(file, outputDir);
      p.dir == outputDir && Stem(p.name) == Stem(file.name) + "_metadata" && Suffix(p.name) == ".json"
  {
    assert Stem(file.name) + "_metadata.json" == (Stem(file.name) + "_metadata") + ".json";
    SplitJoined(Stem(file.name) + "_metadata", ".json");
  }

  /** The sidecar never overwrites the audio file it describes, wherever that file is promoted to. */
  lemma {:induction false} SidecarNotAudio(file: Path, outputDir: string)
    ensures SidecarPath(file, outputDir) != Path(outputDir, file.name)
  {
    var stem := Stem(file.name);
    var side := SidecarPath(file, outputDir).name;
    StemSuffix(file.name);
    if |Suffix(file.name)| != 14 {
      assert |side| != |file.name|;
    } else {
      assert side[|stem|] == '_';
      assert file.name[|stem|] == Suffix(file.name)[0] == '.';
    }
  }

  /** One element of `metadata_list`: note that it carries no record id. */
  datatype PasEntry = PasEntry(audioFile: Path, metadataFile: Path, textPrompt: PromptJson, metadata: map<string, real>)

  /**
   * save_audio_with_metadata: the sidecar is written (or overwritten)
   * unconditionally; the audio file is renamed into `output_dir` only when
   * nothing is there yet. Any exception (opening the sidecar, the rename)
   * gives `(None, None)`, here None.
   */
  method SaveAudioWithMetadata(disk: Disk, file: Path, metadata: map<string, real>, prompt: PromptJson, outputDir: string)
    returns (r: Option<(Path, Path)>)
    modifies disk
    ensures disk.dirs == old(disk.dirs)
    ensures var side := SidecarPath(file, outputDir);
      var dest := Path(outputDir, file.name);
      var written := old(disk.files)[side := Sidecar(prompt, metadata)];
      && (side in disk.locked ==> r.None? && disk.files == old(disk.files))
      && (side !in disk.locked && dest in written ==> r == Some((dest, side)) && disk.files == written)
      && (side !in disk.locked && dest !in written && file in written && dest !in disk.locked ==>
            r == Some((dest, side)) && disk.files == (written - {file})[dest := written[file]])
      && (side !in disk.locked && dest !in written && (file !in written || dest in disk.locked) ==>
            r.None? && disk.files == written)
  {
    var side := SidecarPath(file, outputDir);
    var dest := Path(outputDir, file.name);
    var ok := disk.Write(side, Sidecar(prompt, metadata));
    if !ok {
      return None;
    }
    if dest !in disk.files {
      var moved := disk.Rename(file, dest);
      if !moved {
        return None;
      }
    }
    return Some((dest, side));
  }

  /** What an entry for `item` holds: the downloaded file, left where it was, its sidecar, the prompt and full metadata. */
  predicate EntryFor(item: WorkItem, e: PasEntry) {
    var p := DownloadPath(item.audioFile, OutputDir);
    && e.audioFile == p
    && e.metadataFile == SidecarPath(p, OutputDir)
    && e.textPrompt == item.textPrompt
    && IsFullMetadata(e.metadata)
  }

  /** What one pass of main's loop leaves: the script stopped, nothing appended, or an entry. */
  datatype ItemResult = Crash | Skipped | Kept(entry: PasEntry)

  /**
   * One pass of main's loop on `files`: download, process, and when the
   * metadata is not empty save and append. The result and the files after it.
   * The downloaded file already sits at its promoted path, so saving writes
   * the sidecar and moves nothing.
   */
  function ItemOutcome(files: map<Path, File>, locked: set<Path>, item: WorkItem,
                       get: string -> Option<seq<seq<int>>>, codec: Codec, dsp: Dsp): (ItemResult, map<Path, File>)
  {
    if !Downloads(item.audioFile, OutputDir, locked, get) then
      (if Crashes(item.audioFile, OutputDir, locked, get) then Crash else Skipped, files)
    else
      var p := DownloadPath(item.audioFile, OutputDir);
      var r := ProcessedAudio(AfterDownload(files, locked, item.audioFile, OutputDir, get), locked, p, codec, dsp);
      var side := SidecarPath(p, OutputDir);
      if r.metadata == map[] || side in locked then (Skipped, r.files)
      else (Kept(PasEntry(p, side, item.textPrompt, r.metadata)), r.files[side := Sidecar(item.textPrompt, r.metadata)])
  }

  /**
   * What item `item` contributed to the list, handled on `files`: an entry
   * exactly when its download succeeded, processing returned non-empty
   * metadata and the sidecar could be written; the entry then describes it
   * and carries that metadata.
   */
  predicate SlotFor(item: WorkItem, files: map<Path, File>, locked: set<Path>, get: string -> Option<seq<seq<int>>>,
                    codec: Codec, dsp: Dsp, slot: Option<PasEntry>)
  {
    var m := DownloadedMetadata(files, locked, item.audioFile, OutputDir, get, codec, dsp);
    && !Crashes(item.audioFile, OutputDir, locked, get)
    && (slot.Some? <==>
          Downloads(item.audioFile, OutputDir, locked, get) && m != map[]
          && SidecarPath(DownloadPath(item.audioFile, OutputDir), OutputDir) !in locked)
    && (slot.Some? ==> EntryFor(item, slot.value) && slot.value.metadata == m)
  }

  /** The slot an item's result fills: its entry, if any. */
  function SlotOf(r: ItemResult): Option<PasEntry> {
    if r.Kept? then Some(r.entry) else None
  }

  /**
   * An item crashes the script exactly when its download does, and otherwise
   * contributes as SlotFor says; a kept entry's audio file and sidecar exist,
   * the sidecar holding the prompt and the metadata.
   */
  lemma ItemOutcomeSlot(files: map<Path, File>, locked: set<Path>, item: WorkItem,
                        get: string -> Option<seq<seq<int>>>, codec: Codec, dsp: Dsp)
    ensures var (r, after) := ItemOutcome(files, locked, item, get, codec, dsp);
      && (r == Crash <==> Crashes(item.audioFile, OutputDir, locked, get))
      && (r != Crash ==> SlotFor(item, files, locked, get, codec, dsp, SlotOf(r)))
      && (r.Kept? ==>
            && r.entry.audioFile in after && r.entry.metadataFile in after
            && after[r.entry.metadataFile] == Sidecar(item.textPrompt, r.entry.metadata))
  {
    if Downloads(item.audioFile, OutputDir, locked, get) {
      var p := DownloadPath(item.audioFile, OutputDir);
      ProcessedAudioFrame(AfterDownload(files, locked, item.audioFile, OutputDir, get), locked, p, codec, dsp);
    }
  }

  /**
   * The items before `|slots|` were handled one after another: `states[k]` is
   * the files item k started from, item k contributed `slots[k]` as SlotFor
   * says, and left `states[k + 1]` behind.
   */
  predicate SlotsFor(fetched: seq<WorkItem>, locked: set<Path>, get: string -> Option<seq<seq<int>>>,
                     codec: Codec, dsp: Dsp, states: seq<map<Path, File>>, slots: seq<Option<PasEntry>>)
    decreases |slots|
  {
    && |states| == |slots| + 1 && |slots| <= |fetched|
    && (slots != [] ==>
          var k := |slots| - 1;
          && SlotsFor(fetched, locked, get, codec, dsp, states[..k + 1], slots[..k])
          && SlotFor(fetched[k], states[k], locked, get, codec, dsp, slots[k])
          && states[k + 1] == ItemOutcome(states[k], locked, fetched[k], get, codec, dsp).1)
  }

  /** One more item handled: its slot and the files it left join the others. */
  lemma SlotsForSnoc(fetched: seq<WorkItem>, locked: set<Path>, get: string -> Option<seq<seq<int>>>,
                     codec: Codec, dsp: Dsp, states: seq<map<Path, File>>, slots: seq<Option<PasEntry>>,
                     slot: Option<PasEntry>, after: map<Path, File>)
    requires SlotsFor(fetched, locked, get, codec, dsp, states, slots) && |slots| < |fetched|
    requires SlotFor(fetched[|slots|], states[|slots|], locked, get, codec, dsp, slot)
    requires after == ItemOutcome(states[|slots|], locked, fetched[|slots|], get, codec, dsp).1
    ensures SlotsFor(fetched, locked, get, codec, dsp, states + [after], slots + [slot])
  {
    var next, nextS := slots + [slot], states + [after];
    assert nextS[..|slots| + 1] == states && next[..|slots|] == slots;
    assert nextS[|slots|] == states[|slots|] && next[|slots|] == slot;
  }

  /** One pass of main's loop: download, process, and when the metadata is not empty save and append. */
  method HandleItem(disk: Disk, item: WorkItem, get: string -> Option<seq<seq<int>>>, codec: Codec, dsp: Dsp)
    returns (r: ItemResult)
    modifies disk
    ensures disk.dirs == old(disk.dirs)
    ensures (r, disk.files) == ItemOutcome(old(disk.files), disk.locked, item, get, codec, dsp)
  {
    ghost var files0 := disk.files;
    var d := DownloadAudioFile(disk, item.audioFile, OutputDir, get);
    if d == WriteRaised {
      return Crash;
    }
    if d == RequestFailed {
      return Skipped;
    }
    var p := d.path;
    ghost var files1 := disk.files;
    var m := ProcessAudio(disk, p, codec, dsp);
    if m == map[] {
      return Skipped;
    }
    ProcessedAudioFrame(files1, disk.locked, p, codec, dsp);
    assert p in disk.files;
    assert Path(OutputDir, p.name) == p;
    SidecarNotAudio(p, OutputDir);
    var saved := SaveAudioWithMetadata(disk, p, m, item.textPrompt, OutputDir);
    if saved.None? {
      return Skipped;
    }
    r := Kept(PasEntry(saved.value.0, saved.value.1, item.textPrompt, m));
  }

  /** How main ends. */
  datatype PasOutcome =
    | NothingFetched             // "No unprocessed audio files found."
    | Crashed(at: nat)           // an OSError from download_audio_file ended the script at item `at`
    | NothingToUpload            // the loop ran, no entry was kept
    | UploadRaised(entries: seq<PasEntry>)
      // upload_metadata was called: the entries hold Path objects, which the
      // JSON encoder rejects with a TypeError that escapes the script

  /**
   * main over `fetched`, the list fetch_audio_files returned (empty when the
   * request failed). `slots[k]` is what item k contributed and `states[k]` the
   * files it started from; the script stops at the first item whose local
   * file cannot be opened.
   */
  method Run(disk: Disk, fetched: seq<WorkItem>, get: string -> Option<seq<seq<int>>>, codec: Codec, dsp: Dsp)
    returns (outcome: PasOutcome, ghost slots: seq<Option<PasEntry>>, ghost states: seq<map<Path, File>>)
    modifies disk
    ensures fetched == [] ==> outcome == NothingFetched && disk.files == old(disk.files) && disk.dirs == old(disk.dirs)
    ensures fetched != [] ==> disk.dirs == old(disk.dirs) + {OutputDir} && outcome != NothingFetched
    ensures |slots| == (if outcome.Crashed? then outcome.at else |fetched|)
    ensures SlotsFor(fetched, disk.locked, get, codec, dsp, states, slots)
    ensures states[0] == old(disk.files) && disk.files == states[|slots|]
    ensures outcome.Crashed? ==> outcome.at < |fetched| && Crashes(fetched[outcome.at].audioFile, OutputDir, disk.locked, get)
    ensures outcome == NothingToUpload <==> fetched != [] && !outcome.Crashed? && Collected(slots) == []
    ensures outcome.UploadRaised? <==> !outcome.Crashed? && Collected(slots) != []
    ensures outcome.UploadRaised? ==> outcome.entries == Collected(slots)
  {
    slots, states := [], [disk.files];
    if fetched == [] {
      return NothingFetched, slots, states;
    }
    disk.MakeDirs(OutputDir);
    var entries: seq<PasEntry> := [];
    var i := 0;
    while i < |fetched|
      invariant 0 <= i <= |fetched| && |slots| == i
      invariant disk.dirs == old(disk.dirs) + {OutputDir}
      invariant entries == Collected(slots)
      invariant SlotsFor(fetched, disk.locked, get, codec, dsp, states, slots)
      invariant states[0] == old(disk.files) && disk.files == states[i]
    {
      ghost var before := disk.files;
      var r := HandleItem(disk, fetched[i], get, codec, dsp);
      ItemOutcomeSlot(before, disk.locked, fetched[i], get, codec, dsp);
      if r == Crash {
        return Crashed(i), slots, states;
      }
      var slot := SlotOf(r);
      SlotsForSnoc(fetched, disk.locked, get, codec, dsp, states, slots, slot, disk.files);
      CollectedSnoc(slots, slot);
      slots, states := slots + [slot], states + [disk.files];
      if r.Kept? {
        entries := entries + [r.entry];
      }
      i := i + 1;
    }
    if entries == [] {
      return NothingToUpload, slots, states;
    }
    return UploadRaised(entries), slots, states;
  }

  /** How the server reads one entry: there is no `id` key, and the metadata is there. */
  function ToWire(e: PasEntry): UpdateRecord {
    UpdateRecord(None, Some(e.metadata))
  }

  /**
   * Even if the list reached the server, UpdateAudioMetadataView would answer
   * 400 at the first entry and change no row.
   */
  lemma EntriesRejectedByServer(recordings: map<nat, Records.Recording>, entries: seq<PasEntry>)
    requires entries != []
    ensures var body := seq(|entries|, k requires 0 <= k < |entries| => ToWire(entries[k]));
      RecordViews.ApplyUpdates(recordings, body) == RecordViews.UpdateResult(recordings, 400)
  {
    var body := seq(|entries|, k requires 0 <= k < |entries| => ToWire(entries[k]));
    RecordViews.IdlessBodyRejected(recordings, body);
  }
}

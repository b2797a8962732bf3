/**
 * process_audio.py's own `main`: every item whose download succeeds gets an
 * entry `{id, metadata}`, whatever processing returned, and the list is
 * posted to the server's metadata endpoint. The per-file helpers are those
 * of ScriptSteps.
 */
module ProcessAudioScript {
  import opened Wrappers
  import opened Paths
  import opened Audio
  import opened Wire
  import opened Files
  import opened Batch
  import opened ScriptSteps
  import Records
  import RecordViews

  /** `output_dir` in main. */
  const OutputDir := "downloaded_audio"

  /** One element of `metadata_list`. */
  datatype Entry = Entry(id: int, metadata: map<string, real>)

  /** How the server reads one entry: both keys are present. */
  function ToWire(e: Entry): (u: UpdateRecord)
    ensures u.id == Some(e.id) && RecordViews.MetadataOf(u) == e.metadata
  {
    UpdateRecord(Some(e.id), Some(e.metadata))
  }

  /** What one pass of main's loop leaves: the script stopped, nothing appended, or an entry. */
  datatype ItemResult = Crash | Skipped | Kept(entry: Entry)

  /**
   * One pass of main's loop on `files`: download, and when that worked
   * process and append, even `{}`. The result and the files after it.
   */
  function ItemOutcome(files: map<Path, File>, locked: set<Path>, item: WorkItem,
                       get: string -> Option<seq<seq<int>>>, codec: Codec, dsp: Dsp): (ItemResult, map<Path, File>)
  {
    if !Downloads(item.audioFile, OutputDir, locked, get) then
      (if Crashes(item.audioFile, OutputDir, locked, get) then Crash else Skipped, files)
    else
      var p := DownloadPath(item.audioFile, OutputDir);
      var r := ProcessedAudio(AfterDownload(files, locked, item.audioFile, OutputDir, get), locked, p, codec, dsp);
      (Kept(Entry(item.id, r.metadata)), r.files)
  }

  /**
   * What item `item` contributed, handled on `files`: an entry exactly when
   * its download succeeded, carrying its id and what processing the
   * downloaded file returned.
   */
  predicate SlotFor(item: WorkItem, files: map<Path, File>, locked: set<Path>, get: string -> Option<seq<seq<int>>>,
                    codec: Codec, dsp: Dsp, slot: Option<Entry>)
  {
    && !Crashes(item.audioFile, OutputDir, locked, get)
    && (slot.Some? <==> Downloads(item.audioFile, OutputDir, locked, get))
    && (slot.Some? ==>
          slot.value == Entry(item.id, DownloadedMetadata(files, locked, item.audioFile, OutputDir, get, codec, dsp)))
  }

  /** The slot an item's result fills: its entry, if any. */
  function SlotOf(r: ItemResult): Option<Entry> {
    if r.Kept? then Some(r.entry) else None
  }

  /**
   * An item crashes the script exactly when its download does, and otherwise
   * contributes as SlotFor says; an item that downloads nothing changes no file.
   */
  lemma ItemOutcomeSlot(files: map<Path, File>, locked: set<Path>, item: WorkItem,
                        get: string -> Option<seq<seq<int>>>, codec: Codec, dsp: Dsp)
    ensures var (r, after) := ItemOutcome(files, locked, item, get, codec, dsp);
      && (r == Crash <==> Crashes(item.audioFile, OutputDir, locked, get))
      && (r != Crash ==> SlotFor(item, files, locked, get, codec, dsp, SlotOf(r)))
      && (!r.Kept? ==> after == files)
  {
  }

  /**
   * The items before `|slots|` were handled one after another: `states[k]` is
   * the files item k started from, item k contributed `slots[k]` as SlotFor
   * says, and left `states[k + 1]` behind.
   */
  predicate SlotsFor(fetched: seq<WorkItem>, locked: set<Path>, get: string -> Option<seq<seq<int>>>,
                     codec: Codec, dsp: Dsp, states: seq<map<Path, File>>, slots: seq<Option<Entry>>)
    decreases |slots|
  {
    && |states| == |slots| + 1 && |slots| <= |fetched|
    && (slots != [] ==>
          var k := |slots| - 1;
          && SlotsFor(fetched, locked, get, codec, dsp, states[..k + 1], slots[..k])
          && SlotFor(fetched[k], states[k], locked, get, codec, dsp, slots[k])
          && states[k + 1] == ItemOutcome(states[k], locked, fetched[k], get, codec, dsp).1)
  }

  /** One more item handled: its slot and the files it left join the others. */
  lemma SlotsForSnoc(fetched: seq<WorkItem>, locked: set<Path>, get: string -> Option<seq<seq<int>>>,
                     codec: Codec, dsp: Dsp, states: seq<map<Path, File>>, slots: seq<Option<Entry>>,
                     slot: Option<Entry>, after: map<Path, File>)
    requires SlotsFor(fetched, locked, get, codec, dsp, states, slots) && |slots| < |fetched|
    requires SlotFor(fetched[|slots|], states[|slots|], locked, get, codec, dsp, slot)
    requires after == ItemOutcome(states[|slots|], locked, fetched[|slots|], get, codec, dsp).1
    ensures SlotsFor(fetched, locked, get, codec, dsp, states + [after], slots + [slot])
  {
    var next, nextS := slots + [slot], states + [after];
    assert nextS[..|slots| + 1] == states && next[..|slots|] == slots;
    assert nextS[|slots|] == states[|slots|] && next[|slots|] == slot;
  }

  /** One pass of main's loop: download, and when that worked process and append, even `{}`. */
  method HandleItem(disk: Disk, item: WorkItem, get: string -> Option<seq<seq<int>>>, codec: Codec, dsp: Dsp)
    returns (r: ItemResult)
    modifies disk
    ensures disk.dirs == old(disk.dirs)
    ensures (r, disk.files) == ItemOutcome(old(disk.files), disk.locked, item, get, codec, dsp)
  {
    var d := DownloadAudioFile(disk, item.audioFile, OutputDir, get);
    if d == WriteRaised {
      return Crash;
    }
    if d == RequestFailed {
      return Skipped;
    }
    var m := ProcessAudio(disk, d.path, codec, dsp);
    r := Kept(Entry(item.id, m));
  }

  /** The JSON body upload_metadata posts. */
  function Body(entries: seq<Entry>): (body: seq<UpdateRecord>)
    ensures |body| == |entries|
    ensures forall k :: 0 <= k < |entries| ==> body[k] == ToWire(entries[k])
  {
    seq(|entries|, k requires 0 <= k < |entries| => ToWire(entries[k]))
  }

  /** How main ends. A failed post is logged, not raised, so Uploaded covers any server answer. */
  datatype ScriptOutcome =
    | NothingFetched             // "No unprocessed audio files found."
    | Crashed(at: nat)           // an OSError from download_audio_file ended the script at item `at`
    | NothingToUpload            // the loop ran, no download succeeded
    | Uploaded(body: seq<UpdateRecord>)

  /**
   * main over `fetched`, the list fetch_audio_files returned (empty when the
   * request failed). `slots[k]` is what item k contributed and `states[k]` the
   * files it started from; the script stops at the first item whose local
   * file cannot be opened.
   */
  method Run(disk: Disk, fetched: seq<WorkItem>, get: string -> Option<seq<seq<int>>>, codec: Codec, dsp: Dsp)
    returns (outcome: ScriptOutcome, ghost slots: seq<Option<Entry>>, ghost states: seq<map<Path, File>>)
    modifies disk
    ensures fetched == [] ==> outcome == NothingFetched && disk.files == old(disk.files) && disk.dirs == old(disk.dirs)
    ensures fetched != [] ==> disk.dirs == old(disk.dirs) + {OutputDir} && outcome != NothingFetched
    ensures |slots| == (if outcome.Crashed? then outcome.at else |fetched|)
    ensures SlotsFor(fetched, disk.locked, get, codec, dsp, states, slots)
    ensures states[0] == old(disk.files) && disk.files == states[|slots|]
    ensures outcome.Crashed? ==>
      outcome.at < |fetched| && Crashes(fetched[outcome.at].audioFile, OutputDir, disk.locked, get)
    ensures outcome == NothingToUpload <==> fetched != [] && !outcome.Crashed? && Collected(slots) == []
    ensures outcome.Uploaded? <==> !outcome.Crashed? && Collected(slots) != []
    ensures outcome.Uploaded? ==> outcome.body == Body(Collected(slots))
  {
    slots, states := [], [disk.files];
    if fetched == [] {
      return NothingFetched, slots, states;
    }
    disk.MakeDirs(OutputDir);
    var entries: seq<Entry> := [];
    var i := 0;
    while i < |fetched|
      invariant 0 <= i <= |fetched| && |slots| == i
      invariant disk.dirs == old(disk.dirs) + {OutputDir}
      invariant entries == Collected(slots)
      invariant SlotsFor(fetched, disk.locked, get, codec, dsp, states, slots)
      invariant states[0] == old(disk.files) && disk.files == states[i]
    {
      ghost var before := disk.files;
      var r := HandleItem(disk, fetched[i], get, codec, dsp);
      ItemOutcomeSlot(before, disk.locked, fetched[i], get, codec, dsp);
      if r == Crash {
        return Crashed(i), slots, states;
      }
      var slot := SlotOf(r);
      SlotsForSnoc(fetched, disk.locked, get, codec, dsp, states, slots, slot, disk.files);
      CollectedSnoc(slots, slot);
      slots, states := slots + [slot], states + [disk.files];
      if r.Kept? {
        entries := entries + [r.entry];
      }
      i := i + 1;
    }
    if entries == [] {
      return NothingToUpload, slots, states;
    }
    return Uploaded(Body(entries)), slots, states;
  }

  /**
   * An entry posted with `{}` metadata (processing failed) still marks its row
   * processed on the server, with both scores stored as 0.
   */
  lemma EmptyMetadataStoredAsZeros(recordings: map<nat, Records.Recording>, e: Entry)
    requires e.metadata == map[] && e.id >= 0 && e.id as nat in recordings
    ensures var r := RecordViews.ApplyUpdates(recordings, [ToWire(e)]);
      && r.status == 200
      && r.recordings[e.id as nat].isMlProcessed
      && r.recordings[e.id as nat].speechClarityScore == Some(0.0)
      && r.recordings[e.id as nat].backgroundNoiseLevel == Some(0.0)
  {
    var u := ToWire(e);
    assert RecordViews.KnownId(recordings, u);
    var next := recordings[e.id as nat := RecordViews.ApplyMetadata(recordings[e.id as nat], map[])];
    assert [u][1..] == [];
    assert RecordViews.ApplyUpdates(recordings, [u]) == RecordViews.ApplyUpdates(next, []);
  }

  /**
   * When every posted id names an existing row the server answers 200 and
   * marks every one of those rows processed, whatever its metadata held.
   */
  lemma {:induction false} UploadMarksEveryRow(recordings: map<nat, Records.Recording>, entries: seq<Entry>)
    requires forall k :: 0 <= k < |entries| ==> entries[k].id >= 0 && entries[k].id as nat in recordings
    ensures var r := RecordViews.ApplyUpdates(recordings, Body(entries));
      && r.status == 200
      && forall k :: 0 <= k < |entries| ==> r.recordings[entries[k].id as nat].isMlProcessed
  {
    var body := Body(entries);
    assert forall k :: 0 <= k < |body| ==> RecordViews.KnownId(recordings, body[k]);
    RecordViews.UpdatesSucceedIffAllKnown(recordings, body);
    RecordViews.UpdatesTouchOnlyNamedRows(recordings, body);
    forall k | 0 <= k < |entries|
      ensures RecordViews.ApplyUpdates(recordings, body).recordings[entries[k].id as nat].isMlProcessed
    {
      assert RecordViews.KnownId(recordings, body[k]);
      assert body[k].id.value as nat == entries[k].id as nat;
    }
  }
}

/**
 * The per-file steps of the two client scripts. pas.py and process_audio.py
 * define these helpers with the same text (fetch, download, process_audio,
 * convert_to_wav, trim_silence, extract_audio_metadata), so they are modelled
 * once here; each script's own `main` lives in its own module.
 */
module ScriptSteps {
  import opened Wrappers
  import opened Strings
  import opened Paths
  import opened Audio
  import opened Wire
  import opened Files

  const ServerUrl := "http://127.0.0.1:8000"

  predicate IsAbsoluteUrl(url: string) {
    StartsWith(url, "http://") || StartsWith(url, "https://")
  }

  /**
   * The locator resolution of download_audio_file. Both branches of the
   * source's inner conditional build the same string, so no '/' is ever
   * inserted between the server address and a relative locator.
   */
  function ResolveUrl(url: string): (r: string)
    ensures IsAbsoluteUrl(r)
    ensures IsAbsoluteUrl(url) ==> r == url
    ensures !IsAbsoluteUrl(url) ==> r == ServerUrl + url
  {
    if IsAbsoluteUrl(url) then url
    else
      var r := if !StartsWith(url, "/") then ServerUrl + url else ServerUrl + url;
      assert r[..|"http://"|] == "http://";
      r
  }

  /** Resolving twice changes nothing more. */
  lemma ResolveUrlIdempotent(url: string)
    ensures ResolveUrl(ResolveUrl(url)) == ResolveUrl(url)
  {
  }

  /** A relative locator is appended to the server address as it stands, with no separator added. */
  lemma RelativeLocatorNotSeparated()
    ensures ResolveUrl("media/a.mp3") == "http://127.0.0.1:8000media/a.mp3"
    ensures ResolveUrl("/media/a.mp3") == "http://127.0.0.1:8000/media/a.mp3"
  {
    assert !IsAbsoluteUrl("media/a.mp3") by {
      assert "media/a.mp3"[..7][0] == 'm' && "media/a.mp3"[..8][0] == 'm';
    }
    assert !IsAbsoluteUrl("/media/a.mp3") by {
      assert "/media/a.mp3"[..7][0] == '/' && "/media/a.mp3"[..8][0] == '/';
    }
  }

  /**
   * `Path(output_dir) / os.path.basename(url)` for the resolved url. pathlib
   * drops an empty or `.` component, so for a locator ending in `/`, `/.` or
   * `/..` this names the output directory or its parent (see NamesDirectory).
   */
  function DownloadPath(url: string, outputDir: string): (p: Path)
    ensures p.dir == outputDir && '/' !in p.name
  {
    var p := Path(outputDir, Basename(ResolveUrl(url)));
    assert forall j :: 0 <= j < |p.name| ==> p.name[j] != '/';
    p
  }

  /** A last component that makes the local path a directory, which `open(..., "wb")` refuses. */
  predicate NamesDirectory(name: string) {
    name == "" || name == "." || name == ".."
  }

  /**
   * The local file name keeps the locator's last component when the locator
   * has a '/'; a relative locator without one is glued to the server's host
   * and port.
   */
  lemma {:induction false} DownloadName(url: string, outputDir: string)
    ensures '/' in url ==> DownloadPath(url, outputDir).name == Basename(url)
    ensures '/' !in url && !IsAbsoluteUrl(url) ==>
      DownloadPath(url, outputDir).name == "127.0.0.1:8000" + url
  {
    if !IsAbsoluteUrl(url) {
      if '/' in url {
        RelativeWithSlash(url);
      } else {
        RelativeWithoutSlash(url);
      }
    }
  }

  lemma RelativeWithSlash(url: string)
    requires '/' in url
    ensures Basename(ServerUrl + url) == Basename(url)
  {
    RFindAppendHit(ServerUrl, url, '/');
    var k := RFind(url, '/');
    assert (ServerUrl + url)[|ServerUrl| + k + 1..] == url[k + 1..];
  }

  lemma RelativeWithoutSlash(url: string)
    requires '/' !in url
    ensures Basename(ServerUrl + url) == "127.0.0.1:8000" + url
  {
    RFindAppendMiss(ServerUrl, url, '/');
    ServerUrlLastSlash();
    assert (ServerUrl + url)[7..] == "127.0.0.1:8000" + url;
  }

  lemma ServerUrlLastSlash()
    ensures RFind(ServerUrl, '/') == 6
  {
    assert ServerUrl[6] == '/';
    assert forall j :: 6 < j < |ServerUrl| ==> ServerUrl[j] != '/';
    RFindUnique(ServerUrl, '/', 6);
  }

  /** The bytes of a streamed response, chunk after chunk. */
  function Flatten(chunks: seq<seq<int>>): seq<int> {
    if chunks == [] then [] else Flatten(chunks[..|chunks| - 1]) + chunks[|chunks| - 1]
  }

  /**
   * What download_audio_file does: a request error returns None; an OSError
   * when opening the local file is not a requests exception, so it escapes
   * the function and ends the script.
   */
  datatype Download = Saved(path: Path) | RequestFailed | WriteRaised

  /** The download of `url` is answered and its local file can be opened: download_audio_file returns the path. */
  predicate Downloads(url: string, outputDir: string, locked: set<Path>, get: string -> Option<seq<seq<int>>>) {
    var p := DownloadPath(url, outputDir);
    get(ResolveUrl(url)).Some? && !NamesDirectory(p.name) && p !in locked
  }

  /**
   * The download of `url` is answered but opening its local file raises an
   * OSError that escapes: the path is a directory, or cannot be written.
   */
  predicate Crashes(url: string, outputDir: string, locked: set<Path>, get: string -> Option<seq<seq<int>>>) {
    var p := DownloadPath(url, outputDir);
    get(ResolveUrl(url)).Some? && (NamesDirectory(p.name) || p in locked)
  }

  /** The files once download_audio_file has run: the answer saved at the local path when it downloads, untouched otherwise. */
  function AfterDownload(files: map<Path, File>, locked: set<Path>, url: string, outputDir: string,
                         get: string -> Option<seq<seq<int>>>): map<Path, File>
  {
    if Downloads(url, outputDir, locked, get)
    then files[DownloadPath(url, outputDir) := Bytes(Flatten(get(ResolveUrl(url)).value))]
    else files
  }

  /**
   * download_audio_file. `get(url)` is the server's answer: the chunks of the
   * streamed body, or None when requests raises (connection error, HTTP error
   * status).
   */
  method DownloadAudioFile(disk: Disk, url: string, outputDir: string, get: string -> Option<seq<seq<int>>>)
    returns (d: Download)
    modifies disk
    ensures disk.dirs == old(disk.dirs)
    ensures disk.files == AfterDownload(old(disk.files), disk.locked, url, outputDir, get)
    ensures get(ResolveUrl(url)).None? ==> d == RequestFailed
    ensures Crashes(url, outputDir, disk.locked, get) ==> d == WriteRaised
    ensures Downloads(url, outputDir, disk.locked, get) ==> d == Saved(DownloadPath(url, outputDir))
  {
    var resolved := ResolveUrl(url);
    var localPath := DownloadPath(url, outputDir);
    var response := get(resolved);
    if response.None? {
      return RequestFailed;
    }
    if NamesDirectory(localPath.name) {
      return WriteRaised;
    }
    var created := disk.Write(localPath, Bytes([]));
    if !created {
      return WriteRaised;
    }
    var chunks := response.value;
    var i := 0;
    while i < |chunks|
      invariant 0 <= i <= |chunks|
      invariant disk.files == old(disk.files)[localPath := Bytes(Flatten(chunks[..i]))]
      invariant disk.dirs == old(disk.dirs)
    {
      assert chunks[..i + 1][..i] == chunks[..i];
      disk.Append(localPath, chunks[i]);
      i := i + 1;
    }
    assert chunks[..i] == chunks;
    return Saved(localPath);
  }

  /**
   * A locator ending in `/` names no file: once the server answers, opening
   * the output directory for writing raises and the script stops.
   */
  lemma TrailingSlashCrashes(url: string, outputDir: string, locked: set<Path>, get: string -> Option<seq<seq<int>>>)
    requires |url| > 0 && url[|url| - 1] == '/'
    requires get(ResolveUrl(url)).Some?
    ensures Crashes(url, outputDir, locked, get) && !Downloads(url, outputDir, locked, get)
  {
    var r := ResolveUrl(url);
    assert r[|r| - 1] == '/';
  }

  /** The WAV bytes pydub produces from a file, None when it cannot decode it. */
  function Transcode(files: map<Path, File>, p: Path, codec: Codec): Option<seq<int>> {
    if p in files && files[p].Bytes? then codec.toWav(files[p].data) else None
  }

  /**
   * convert_to_wav on `files`: the path it returns, always
   * `input.with_suffix('.wav')`, and the files after it. pydub runs only when
   * the suffix, lower-cased, is not `.wav`, and its export overwrites; None
   * stands for the exception a failed decode or export raises.
   */
  function Converted(files: map<Path, File>, locked: set<Path>, input: Path, codec: Codec)
    : (r: Option<(Path, map<Path, File>)>)
    ensures r.Some? ==> r.value.0 == WithSuffix(input, ".wav")
    ensures IsWavName(input.name) ==> r == Some((WithSuffix(input, ".wav"), files))
    ensures !IsWavName(input.name) ==>
      (r.Some? <==> Transcode(files, input, codec).Some? && WithSuffix(input, ".wav") !in locked)
  {
    var out := WithSuffix(input, ".wav");
    if IsWavName(input.name) then Some((out, files))
    else match Transcode(files, input, codec)
      case None => None
      case Some(wav) => if out in locked then None else Some((out, files[out := Bytes(wav)]))
  }

  /** convert_to_wav. */
  method ConvertToWav(disk: Disk, input: Path, codec: Codec) returns (r: Option<Path>)
    modifies disk
    ensures disk.dirs == old(disk.dirs)
    ensures var c := Converted(old(disk.files), disk.locked, input, codec);
      && (c.None? ==> r.None? && disk.files == old(disk.files))
      && (c.Some? ==> r == Some(c.value.0) && disk.files == c.value.1)
  {
    var output := WithSuffix(input, ".wav");
    if !IsWavName(input.name) {
      var wav := Transcode(disk.files, input, codec);
      if wav.None? {
        return None;
      }
      var ok := disk.Write(output, Bytes(wav.value));
      if !ok {
        return None;
      }
    }
    return Some(output);
  }

  /** The trim target of the scripts: `wav_path.with_name(stem + '_trimmed.wav')`. */
  function TrimmedPath(wav: Path): Path {
    WithName(wav, Stem(wav.name) + "_trimmed.wav")
  }

  /** The trimmed file never overwrites the file it was trimmed from. */
  lemma TrimmedPathIsNew(wav: Path)
    ensures TrimmedPath(wav) != wav
  {
  }

  /** The trimmed waveform as it is written: librosa's trim of the loaded samples, at the same rate. */
  function TrimmedFile(sig: Signal, codec: Codec, dsp: Dsp): File {
    Bytes(codec.encodeWav(Signal(dsp.trim(sig.samples), sig.rate)))
  }

  /**
   * trim_silence of the scripts on `files`: the path it returns and the files
   * after it. Any failure (the file does not load, the trimmed file cannot be
   * written) is logged and the input path returned.
   */
  function Trimmed(files: map<Path, File>, locked: set<Path>, wav: Path, codec: Codec, dsp: Dsp)
    : (r: (Path, map<Path, File>))
    ensures r.0 == TrimmedPath(wav) || r == (wav, files)
    ensures r.0 == TrimmedPath(wav) <==> Load(files, wav, codec).Some? && TrimmedPath(wav) !in locked
  {
    var t := TrimmedPath(wav);
    TrimmedPathIsNew(wav);
    match Load(files, wav, codec)
    case None => (wav, files)
    case Some(sig) => if t in locked then (wav, files) else (t, files[t := TrimmedFile(sig, codec, dsp)])
  }

  /** trim_silence. */
  method TrimSilence(disk: Disk, wav: Path, codec: Codec, dsp: Dsp) returns (r: Path)
    modifies disk
    ensures disk.dirs == old(disk.dirs)
    ensures (r, disk.files) == Trimmed(old(disk.files), disk.locked, wav, codec, dsp)
  {
    var sig := Load(disk.files, wav, codec);
    if sig.None? {
      return wav;
    }
    var t := TrimmedPath(wav);
    var ok := disk.Write(t, TrimmedFile(sig.value, codec, dsp));
    r := if ok then t else wav;
  }

  /** The four keys of a successful metadata dict, with the clarity bound and noise equal to RMS. */
  predicate IsFullMetadata(m: map<string, real>) {
    && m.Keys == {DurationKey, RmsKey, ClarityKey, NoiseKey}
    && 0.0 <= m[ClarityKey] <= 1.0
    && m[NoiseKey] == m[RmsKey]
  }

  /**
   * extract_audio_metadata of the scripts. `Background Noise Level` is the
   * same expression as the RMS, rounded the same way, so the two are equal;
   * any failure gives the empty dict.
   */
  function ExtractAudioMetadata(files: map<Path, File>, wav: Path, codec: Codec, dsp: Dsp): (m: map<string, real>)
    ensures m == map[] || IsFullMetadata(m)
    ensures m == map[] <==>
      Load(files, wav, codec).None? || dsp.meanRms(Load(files, wav, codec).value.samples).None?
    ensures m != map[] ==>
      m[ClarityKey] == Round(ClarityScore(dsp.meanRms(Load(files, wav, codec).value.samples).value), 2)
  {
    match Load(files, wav, codec)
    case None => map[]
    case Some(sig) =>
      match dsp.meanRms(sig.samples)
      case None => map[]
      case Some(rms) =>
        var clarity := ClarityScore(rms);
        var noise := rms;
        RoundUnitInterval(clarity, 2);
        map[DurationKey := Round(dsp.duration(sig), 2),
            RmsKey := Round(rms, 4),
            ClarityKey := Round(clarity, 2),
            NoiseKey := Round(noise, 4)]
  }

  /** What process_audio returns, and the files it leaves behind. */
  datatype Processing = Processing(metadata: map<string, real>, files: map<Path, File>)

  /**
   * process_audio on `files`: convert, trim (falling back to the WAV), and
   * read the metadata of the file trimming returned; a failed conversion is
   * caught and gives `{}`.
   */
  function ProcessedAudio(files: map<Path, File>, locked: set<Path>, path: Path, codec: Codec, dsp: Dsp)
    : (r: Processing)
    ensures r.metadata == map[] || IsFullMetadata(r.metadata)
  {
    match Converted(files, locked, path, codec)
    case None => Processing(map[], files)
    case Some((wav, files1)) =>
      var (analysed, files2) := Trimmed(files1, locked, wav, codec, dsp);
      Processing(ExtractAudioMetadata(files2, analysed, codec, dsp), files2)
  }

  /** process_audio. */
  method ProcessAudio(disk: Disk, path: Path, codec: Codec, dsp: Dsp) returns (m: map<string, real>)
    modifies disk
    ensures disk.dirs == old(disk.dirs)
    ensures Processing(m, disk.files) == ProcessedAudio(old(disk.files), disk.locked, path, codec, dsp)
  {
    var wav := ConvertToWav(disk, path, codec);
    if wav.None? {
      return map[];
    }
    var trimmed := TrimSilence(disk, wav.value, codec, dsp);
    m := ExtractAudioMetadata(disk.files, trimmed, codec, dsp);
  }

  /**
   * Processing writes two paths at most, the WAV and its trimmed sibling, and
   * deletes nothing.
   */
  lemma ProcessedAudioFrame(files: map<Path, File>, locked: set<Path>, path: Path, codec: Codec, dsp: Dsp)
    ensures var r := ProcessedAudio(files, locked, path, codec, dsp);
      var wav := WithSuffix(path, ".wav");
      && files.Keys <= r.files.Keys
      && r.files.Keys <= files.Keys + {wav, TrimmedPath(wav)}
      && forall p :: p in files && p != wav && p != TrimmedPath(wav) ==> r.files[p] == files[p]
  {
  }

  /**
   * Where the metadata comes from once conversion succeeded: the trimmed file
   * as trimming wrote it when the WAV loads and the trimmed file can be
   * written, the WAV itself otherwise.
   */
  lemma ProcessedAudioSource(files: map<Path, File>, locked: set<Path>, path: Path, codec: Codec, dsp: Dsp)
    requires Converted(files, locked, path, codec).Some?
    ensures var (wav, files1) := Converted(files, locked, path, codec).value;
      var r := ProcessedAudio(files, locked, path, codec, dsp);
      var t := TrimmedPath(wav);
      var sig := Load(files1, wav, codec);
      && (sig.Some? && t !in locked ==>
            && r.files == files1[t := TrimmedFile(sig.value, codec, dsp)]
            && r.metadata == ExtractAudioMetadata(r.files, t, codec, dsp))
      && (sig.None? || t in locked ==>
            r.files == files1 && r.metadata == ExtractAudioMetadata(files1, wav, codec, dsp))
  {
  }

  /**
   * Processing gives `{}` when conversion fails, and also whenever the WAV
   * does not load: trimming then falls back to the WAV, which fails again.
   */
  lemma EmptyMetadataCauses(files: map<Path, File>, locked: set<Path>, path: Path, codec: Codec, dsp: Dsp)
    ensures Converted(files, locked, path, codec).None? ==>
      ProcessedAudio(files, locked, path, codec, dsp) == Processing(map[], files)
    ensures var c := Converted(files, locked, path, codec);
      c.Some? && Load(c.value.1, c.value.0, codec).None? ==>
        ProcessedAudio(files, locked, path, codec, dsp).metadata == map[]
  {
  }

  /** The metadata process_audio returns for the file downloaded from `url`, on the files before the download. */
  function DownloadedMetadata(files: map<Path, File>, locked: set<Path>, url: string, outputDir: string,
                              get: string -> Option<seq<seq<int>>>, codec: Codec, dsp: Dsp): map<string, real>
  {
    ProcessedAudio(AfterDownload(files, locked, url, outputDir, get), locked, DownloadPath(url, outputDir), codec, dsp).metadata
  }
}

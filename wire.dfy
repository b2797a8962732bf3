/**
 * The JSON exchanged between the server's API and the two processing
 * scripts, and the fixed metadata keys both sides agree on.
 */
module Wire {
  import opened Wrappers

  /** The nested `text_prompt` object of the list API (fields `id` and `text`). */
  datatype PromptJson = PromptJson(id: int, text: string)

  /** One element of GET /api/audio_files/, as far as the scripts read it. */
  datatype WorkItem = WorkItem(id: int, audioFile: string, textPrompt: PromptJson)

  /**
   * One element of the body POSTed to /api/update_metadata/ as the server
   * reads it: `record.get("id")` and `record.get("metadata")`, None when the
   * key is absent.
   */
  datatype UpdateRecord = UpdateRecord(id: Option<int>, metadata: Option<map<string, real>>)

  const DurationKey := "Duration (seconds)"
  const RmsKey := "RMS (Root Mean Square Energy)"
  const ClarityKey := "Speech Clarity Score"
  const NoiseKey := "Background Noise Level"

  /** `d.get(key, 0)` on a metadata dict. */
  function GetOrZero(d: map<string, real>, key: string): (v: real)
    ensures key in d ==> v == d[key]
    ensures key !in d ==> v == 0.0
  {
    if key in d then d[key] else 0.0
  }
}

/**
 * The path arithmetic of Python's `pathlib.PurePosixPath` and `os.path` that
 * the pipeline uses to name its artifacts: `name`, `stem`, `suffix`,
 * `with_suffix`, `with_stem`, `with_name`, `os.path.basename` and
 * `os.path.join`.
 */
module Paths {
  import opened Strings

  /** A path as pathlib splits it: the parent directory and the final component. */
  datatype Path = Path(dir: string, name: string)

  /**
   * Where pathlib cuts a name into stem and suffix: at the last '.', provided
   * that dot is neither the first nor the last character; otherwise at the end.
   */
  function SuffixStart(name: string): (i: nat)
    ensures i <= |name|
    ensures i < |name| ==> 0 < i < |name| - 1 && name[i] == '.'
    ensures forall j :: i < j < |name| ==> name[j] != '.'
  {
    var k := RFind(name, '.');
    if 0 < k < |name| - 1 then k else |name|
  }

  /** `PurePath.suffix`: empty, or a dot followed by at least one character and no further dot. */
  function Suffix(name: string): (s: string)
    ensures s == "" || (|s| >= 2 && s[0] == '.' && forall j :: 0 < j < |s| ==> s[j] != '.')
  {
    name[SuffixStart(name)..]
  }

  /** `PurePath.stem`: what precedes the suffix; it is empty only for an empty name. */
  function Stem(name: string): string {
    name[..SuffixStart(name)]
  }

  /** Stem and suffix split the name: together they give it back, and the stem is empty only for an empty name. */
  lemma StemSuffix(name: string)
    ensures Stem(name) + Suffix(name) == name
    ensures |Stem(name)| == 0 <==> |name| == 0
  {
  }

  /** `p.with_suffix(suffix)`. */
  function WithSuffix(p: Path, suffix: string): Path {
    Path(p.dir, Stem(p.name) + suffix)
  }

  /** `p.with_name(name)`. */
  function WithName(p: Path, name: string): Path {
    Path(p.dir, name)
  }

  /** `p.with_stem(stem)`: a new stem, the old suffix. */
  function WithStem(p: Path, stem: string): Path {
    WithName(p, stem + Suffix(p.name))
  }

  /** `p.suffix.lower() == '.wav'`, the test both pipelines use to skip conversion. */
  predicate IsWavName(name: string) {
    Lower(Suffix(name)) == ".wav"
  }

  /** A name whose suffix is exactly `.wav` is a WAV name. */
  lemma ExactWavIsWavName(name: string)
    requires Suffix(name) == ".wav"
    ensures IsWavName(name)
  {
    var l := Lower(".wav");
    assert forall i :: 0 <= i < 4 ==> l[i] == ".wav"[i];
  }

  /**
   * A nonempty stem followed by a dot and a dot-free extension splits back
   * into exactly that stem and that suffix.
   */
  lemma {:induction false} SplitJoined(stem: string, ext: string)
    requires |stem| > 0
    requires |ext| >= 2 && ext[0] == '.' && forall j :: 0 < j < |ext| ==> ext[j] != '.'
    ensures Stem(stem + ext) == stem
    ensures Suffix(stem + ext) == ext
  {
    var n := stem + ext;
    RFindAppendHit(stem, ext, '.');
    RFindUnique(ext, '.', 0);
    assert RFind(n, '.') == |stem|;
    assert SuffixStart(n) == |stem|;
  }

  /** `with_suffix('.wav')` gives back the same path exactly when the suffix already is `.wav`. */
  lemma WithWavSuffixFixed(p: Path)
    ensures WithSuffix(p, ".wav") == p <==> Suffix(p.name) == ".wav"
  {
    if Suffix(p.name) == ".wav" {
      assert Stem(p.name) + ".wav" == p.name;
    }
    if WithSuffix(p, ".wav") == p && p.name != "" {
      SplitJoined(Stem(p.name), ".wav");
    }
  }

  /** `os.path.basename(s)`: what follows the last '/', the whole string when there is none. */
  function Basename(s: string): (r: string)
    ensures forall j :: 0 <= j < |r| ==> r[j] != '/'
    ensures |r| <= |s| && r == s[|s| - |r|..]
    ensures '/' !in s ==> r == s
    ensures |r| < |s| ==> s[|s| - |r| - 1] == '/'
  {
    s[RFind(s, '/') + 1..]
  }

  /** The basename of a string that ends in a slash-free part is that part, if a slash precedes it. */
  lemma BasenameAfterSlash(head: string, tail: string)
    requires '/' !in tail
    ensures Basename(head + "/" + tail) == tail
  {
    RFindAppendMiss(head + "/", tail, '/');
    RFindAppendHit(head, "/", '/');
    assert (head + "/" + tail)[|head| + 1..] == tail;
  }

  /** A path string split into parent and final component at the last '/'. */
  function PathOf(s: string): (p: Path)
    ensures p.name == Basename(s)
  {
    var k := RFind(s, '/');
    Path(if k < 0 then "" else s[..k], s[k + 1..])
  }

  lemma PathOfJoined(head: string, tail: string)
    requires '/' !in tail
    ensures PathOf(head + "/" + tail) == Path(head, tail)
  {
    BasenameAfterSlash(head, tail);
    RFindAppendMiss(head + "/", tail, '/');
    RFindAppendHit(head, "/", '/');
    assert (head + "/" + tail)[..|head|] == head;
  }

  /**
   * Two-argument `os.path.join` on POSIX: an absolute second part replaces the
   * first; otherwise a `/` is inserted exactly when the first part is
   * non-empty and does not already end in one.
   */
  function Join(a: string, b: string): (r: string)
    ensures StartsWith(b, "/") ==> r == b
    ensures !StartsWith(b, "/") ==> r == a + b || r == a + "/" + b
    ensures !StartsWith(b, "/") ==> (r == a + "/" + b <==> a != "" && a[|a| - 1] != '/')
  {
    if StartsWith(b, "/") then b
    else if a == "" || a[|a| - 1] == '/' then a + b
    else a + "/" + b
  }
}

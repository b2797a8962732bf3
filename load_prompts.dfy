/**
 * The management command that fills the prompt table with words: the text is
 * split at whitespace, deduplicated, and each word the English dictionary
 * accepts is stored unless a prompt with that text already exists; the
 * others are reported as invalid.
 */
module LoadPrompts {
  import opened Strings
  import opened Records

  /** A word as `str.split()` yields it: non-empty, without whitespace. */
  predicate IsWord(w: string) {
    |w| > 0 && forall k :: 0 <= k < |w| ==> !IsSpace(w[k])
  }

  /** The length of the run of non-whitespace characters at the start of `s`. */
  function TokenLength(s: string): (n: nat)
    ensures n <= |s|
    ensures forall k :: 0 <= k < n ==> !IsSpace(s[k])
    ensures n < |s| ==> IsSpace(s[n])
  {
    if s == [] || IsSpace(s[0]) then 0 else 1 + TokenLength(s[1..])
  }

  /** `text.split()`: the maximal runs of non-whitespace characters, in order. */
  function Split(s: string): (words: seq<string>)
    ensures forall i :: 0 <= i < |words| ==> IsWord(words[i])
    decreases |s|
  {
    if s == [] then []
    else if IsSpace(s[0]) then Split(s[1..])
    else
      var n := TokenLength(s);
      [s[..n]] + Split(s[n..])
  }

  /** The characters of `s` that are not whitespace, in order. */
  function NonSpace(s: string): string {
    if s == [] then [] else (if IsSpace(s[0]) then [] else [s[0]]) + NonSpace(s[1..])
  }

  /** The words glued back together. */
  function Concat(words: seq<string>): string {
    if words == [] then [] else words[0] + Concat(words[1..])
  }

  /** A prefix free of whitespace is kept whole by NonSpace. */
  lemma {:induction false} NonSpacePrefix(s: string, n: nat)
    requires n <= |s| && forall k :: 0 <= k < n ==> !IsSpace(s[k])
    ensures NonSpace(s) == s[..n] + NonSpace(s[n..])
    decreases n
  {
    if n > 0 {
      NonSpacePrefix(s[1..], n - 1);
      assert s[1..][..n - 1] == s[1..n];
      assert s[1..][n - 1..] == s[n..];
      assert [s[0]] + s[1..n] == s[..n];
    }
  }

  /** Splitting loses the whitespace and nothing else. */
  lemma {:induction false} SplitLosesOnlySpace(s: string)
    ensures Concat(Split(s)) == NonSpace(s)
    decreases |s|
  {
    if s != [] {
      if IsSpace(s[0]) {
        SplitLosesOnlySpace(s[1..]);
      } else {
        var n := TokenLength(s);
        SplitLosesOnlySpace(s[n..]);
        NonSpacePrefix(s, n);
        assert ([s[..n]] + Split(s[n..]))[1..] == Split(s[n..]);
      }
    }
  }

  /** A token stops at the first whitespace, so what follows a space-terminated prefix does not matter. */
  lemma {:induction false} TokenLengthBeforeSpace(s: string, t: string)
    requires t != [] && IsSpace(t[0])
    ensures TokenLength(s + t) == TokenLength(s)
    decreases |s|
  {
    if s != [] && !IsSpace(s[0]) {
      assert (s + t)[1..] == s[1..] + t;
      TokenLengthBeforeSpace(s[1..], t);
    } else if s == [] {
      assert s + t == t;
    }
  }

  /** Whitespace separates words: splitting at a space splits the text into the words of either side. */
  lemma {:induction false} SplitAtSpace(s: string, c: char, t: string)
    requires IsSpace(c)
    ensures Split(s + [c] + t) == Split(s) + Split(t)
    decreases |s|
  {
    var u := s + [c] + t;
    if s == [] {
      assert u == [c] + t && u[1..] == t;
    } else if IsSpace(s[0]) {
      assert u[1..] == s[1..] + [c] + t;
      SplitAtSpace(s[1..], c, t);
    } else {
      var n := TokenLength(s);
      TokenLengthBeforeSpace(s, [c] + t);
      assert u == s + ([c] + t);
      assert u[..n] == s[..n];
      assert u[n..] == s[n..] + [c] + t;
      SplitAtSpace(s[n..], c, t);
    }
  }

  /** `set(text.split())`. */
  function UniqueWords(text: string): (words: set<string>)
    ensures forall w :: w in words ==> IsWord(w)
  {
    set w | w in Split(text)
  }

  /** The unique words the dictionary accepts. */
  function ValidWords(words: set<string>, isEnglish: string -> bool): set<string> {
    set w | w in words && isEnglish(w)
  }

  /** The unique words the dictionary rejects. */
  function InvalidWords(words: set<string>, isEnglish: string -> bool): set<string> {
    set w | w in words && !isEnglish(w)
  }

  /**
   * Each unique word ends up in exactly one category: created, skipped as
   * already stored, or invalid.
   */
  lemma WordsPartition(words: set<string>, isEnglish: string -> bool, stored: set<string>)
    ensures var created := ValidWords(words, isEnglish) - stored;
      var skipped := ValidWords(words, isEnglish) * stored;
      var invalid := InvalidWords(words, isEnglish);
      && created + skipped + invalid == words
      && created !! skipped && created !! invalid && skipped !! invalid
  {
  }

  /** A sequence without repeats. */
  predicate Distinct(s: seq<string>) {
    forall i, j :: 0 <= i < j < |s| ==> s[i] != s[j]
  }

  /** Visiting word `w` moves it from the words still to visit to those visited, into exactly one category. */
  lemma VisitStep(done: set<string>, w: string, isEnglish: string -> bool, stored: set<string>)
    requires w !in done
    ensures isEnglish(w) ==>
      && ValidWords(done + {w}, isEnglish) == ValidWords(done, isEnglish) + {w}
      && InvalidWords(done + {w}, isEnglish) == InvalidWords(done, isEnglish)
      && (w !in stored ==> ValidWords(done + {w}, isEnglish) - stored == (ValidWords(done, isEnglish) - stored) + {w})
      && (w in stored ==> ValidWords(done + {w}, isEnglish) - stored == ValidWords(done, isEnglish) - stored)
    ensures !isEnglish(w) ==>
      && ValidWords(done + {w}, isEnglish) == ValidWords(done, isEnglish)
      && InvalidWords(done + {w}, isEnglish) == InvalidWords(done, isEnglish) + {w}
      && w !in InvalidWords(done, isEnglish)
  {
  }

  /** The words of a sequence, as a set. */
  function Elems(s: seq<string>): set<string> {
    set x | x in s
  }

  /**
   * The state of the loop once the words `done` are visited: the stored texts
   * are those stored before (`stored`) and the valid visited words, `added`
   * counts the valid words that were new and is what the table grew by from
   * `size0` rows to `size`, and `invalid` lists the rejected visited words
   * once each.
   */
  ghost predicate Progress(texts: set<string>, size: nat, size0: nat, stored: set<string>,
                           done: set<string>, isEnglish: string -> bool, added: nat, invalid: seq<string>)
  {
    && texts == stored + ValidWords(done, isEnglish)
    && added == |ValidWords(done, isEnglish) - stored|
    && size == size0 + added
    && Distinct(invalid)
    && Elems(invalid) == InvalidWords(done, isEnglish)
  }

  /** Visiting one more word, as Visit does it, keeps Progress. */
  lemma ProgressStep(texts: set<string>, texts': set<string>, size: nat, size': nat, size0: nat,
                     stored: set<string>, done: set<string>, w: string, isEnglish: string -> bool,
                     added: nat, invalid: seq<string>, created: bool)
    requires Progress(texts, size, size0, stored, done, isEnglish, added, invalid)
    requires w !in done
    requires created <==> isEnglish(w) && w !in texts
    requires texts' == texts + (if isEnglish(w) then {w} else {})
    requires size' == size + (if created then 1 else 0)
    ensures Progress(texts', size', size0, stored, done + {w}, isEnglish,
                     added + (if created then 1 else 0), if isEnglish(w) then invalid else invalid + [w])
  {
    var valid := ValidWords(done, isEnglish);
    var valid' := ValidWords(done + {w}, isEnglish);
    VisitStep(done, w, isEnglish, stored);
    CountStep(stored, valid, valid', w, isEnglish(w), created, w in texts);
    if !isEnglish(w) {
      InvalidStep(invalid, w);
    }
  }

  /**
   * Progress stated on the prompt table itself: every prompt stored before
   * the loop (`prompts0`) is still there, unchanged.
   */
  ghost predicate TableProgress(prompts0: map<nat, string>, prompts: map<nat, string>, stored: set<string>,
                                done: set<string>, isEnglish: string -> bool, added: nat, invalid: seq<string>)
  {
    && (forall id :: id in prompts0 ==> id in prompts && prompts[id] == prompts0[id])
    && Progress(prompts.Values, |prompts|, |prompts0|, stored, done, isEnglish, added, invalid)
  }

  /** Visit keeps TableProgress. */
  lemma TableProgressStep(prompts0: map<nat, string>, before: map<nat, string>, after: map<nat, string>,
                          stored: set<string>, done: set<string>, w: string, isEnglish: string -> bool,
                          added: nat, invalid: seq<string>, created: bool)
    requires TableProgress(prompts0, before, stored, done, isEnglish, added, invalid)
    requires w !in done
    requires created <==> isEnglish(w) && w !in before.Values
    requires after.Values == before.Values + (if isEnglish(w) then {w} else {})
    requires |after| == |before| + (if created then 1 else 0)
    requires forall id :: id in before ==> id in after && after[id] == before[id]
    ensures TableProgress(prompts0, after, stored, done + {w}, isEnglish,
                          added + (if created then 1 else 0), if isEnglish(w) then invalid else invalid + [w])
  {
    ProgressStep(before.Values, after.Values, |before|, |after|, |prompts0|, stored, done, w, isEnglish,
                 added, invalid, created);
  }

  /** The count of new valid words grows by one exactly when a row is created. */
  lemma CountStep(stored: set<string>, valid: set<string>, valid': set<string>, w: string,
                  english: bool, created: bool, present: bool)
    requires w !in valid
    requires english ==> valid' == valid + {w}
    requires !english ==> valid' == valid
    requires present <==> w in stored || w in valid
    requires created <==> english && !present
    ensures |valid' - stored| == |valid - stored| + (if created then 1 else 0)
  {
    if created {
      assert valid' - stored == (valid - stored) + {w};
    } else if english {
      assert valid' - stored == valid - stored;
    }
  }

  /** Appending a word not yet listed keeps the list free of repeats and adds the word to its set. */
  lemma InvalidStep(invalid: seq<string>, w: string)
    requires Distinct(invalid) && w !in Elems(invalid)
    ensures Distinct(invalid + [w]) && Elems(invalid + [w]) == Elems(invalid) + {w}
  {
    assert w !in invalid;
  }

  /**
   * One pass of the loop: a valid word is created unless a prompt with that
   * text exists; `created` says whether a row was added.
   */
  method Visit(db: Database, w: string, isEnglish: string -> bool) returns (created: bool)
    requires db.Valid()
    modifies db
    ensures db.Valid()
    ensures created <==> isEnglish(w) && w !in old(db.prompts.Values)
    ensures db.prompts.Values == old(db.prompts.Values) + (if isEnglish(w) then {w} else {})
    ensures |db.prompts| == |old(db.prompts)| + (if created then 1 else 0)
    ensures forall id :: id in old(db.prompts) ==> id in db.prompts && db.prompts[id] == old(db.prompts[id])
    ensures db.recordings == old(db.recordings) && db.nextRecordingId == old(db.nextRecordingId)
  {
    created := false;
    if isEnglish(w) && w !in db.prompts.Values {
      db.CreatePrompt(w);
      created := true;
    }
  }

  /**
   * `for word in unique_words` visits the set in an order of its own, which
   * the program does not control: `order` is any enumeration of `words`, each
   * word once.
   */
  method Enumerate(words: set<string>) returns (order: seq<string>)
    ensures Distinct(order) && Elems(order) == words
  {
    order := [];
    var remaining := words;
    while remaining != {}
      invariant Distinct(order)
      invariant Elems(order) + remaining == words && Elems(order) !! remaining
      decreases remaining
    {
      var w :| w in remaining;
      order := order + [w];
      remaining := remaining - {w};
    }
  }

  /**
   * Command.handle on `text`, with `isEnglish` standing for the dictionary's
   * `check`. `warned` says whether the warning listing the invalid words is
   * written.
   */
  method Handle(db: Database, text: string, isEnglish: string -> bool)
    returns (added: nat, invalid: seq<string>, warned: bool)
    requires db.Valid()
    modifies db
    ensures db.Valid()
    ensures db.recordings == old(db.recordings) && db.nextRecordingId == old(db.nextRecordingId)
    ensures forall id :: id in old(db.prompts) ==> id in db.prompts && db.prompts[id] == old(db.prompts[id])
    ensures db.prompts.Values == old(db.prompts.Values) + ValidWords(UniqueWords(text), isEnglish)
    ensures added == |ValidWords(UniqueWords(text), isEnglish) - old(db.prompts.Values)|
    ensures |db.prompts| == |old(db.prompts)| + added
    ensures Distinct(invalid)
    ensures Elems(invalid) == InvalidWords(UniqueWords(text), isEnglish)
    ensures warned <==> invalid != []
  {
    var words := UniqueWords(text);
    var order := Enumerate(words);
    ghost var stored := db.prompts.Values;
    added, invalid := 0, [];
    assert Elems(order[..0]) == {};
    assert ValidWords({}, isEnglish) == {} && InvalidWords({}, isEnglish) == {};
    for i := 0 to |order|
      invariant db.Valid()
      invariant db.recordings == old(db.recordings) && db.nextRecordingId == old(db.nextRecordingId)
      invariant TableProgress(old(db.prompts), db.prompts, stored, Elems(order[..i]), isEnglish, added, invalid)
    {
      var w := order[i];
      ghost var done := Elems(order[..i]);
      assert Elems(order[..i + 1]) == done + {w};
      ghost var before := db.prompts;
      var created := Visit(db, w, isEnglish);
      TableProgressStep(old(db.prompts), before, db.prompts, stored, done, w, isEnglish, added, invalid, created);
      if created {
        added := added + 1;
      }
      if !isEnglish(w) {
        invalid := invalid + [w];
      }
    }
    assert order[..|order|] == order;
    assert TableProgress(old(db.prompts), db.prompts, stored, words, isEnglish, added, invalid);
    warned := invalid != [];
  }
}

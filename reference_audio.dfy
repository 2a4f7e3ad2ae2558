/**
 * `ReferenceAudio` (ReferenceAudio.py:14-76): the prepared state of one
 * reference voice (its text, phoneme ids and BERT features, and the audio
 * and self-supervised features computed from its file), and the class-level
 * cache keyed by file path that makes constructing the same path twice
 * return the same instance.
 */
module RefAudio {
  import opened Wrappers
  import opened Tensors
  import opened Names
  import opened Frontend

  // ---------------------------------------------------------------------------
  // _looks_english

  /** `sum(ch.isascii() and ch.isalpha() for ch in text)`. */
  function AsciiLetterCount(t: string): nat
  {
    if t == [] then 0 else (if IsAsciiLetter(t[0]) then 1 else 0) + AsciiLetterCount(t[1..])
  }

  /** `sum(not ch.isascii() and not ch.isspace() for ch in text)`. */
  function ForeignCount(t: string): nat
  {
    if t == [] then 0 else (if !IsAscii(t[0]) && !IsSpace(t[0]) then 1 else 0) + ForeignCount(t[1..])
  }

  /** `_looks_english`: some ASCII letters, and at least as many as non-ASCII, non-space characters. */
  predicate LooksEnglish(t: string)
  {
    AsciiLetterCount(t) > 0 && AsciiLetterCount(t) >= ForeignCount(t)
  }

  /** Both counts add up over concatenation. */
  lemma {:induction false} CountsAppend(a: string, b: string)
    ensures AsciiLetterCount(a + b) == AsciiLetterCount(a) + AsciiLetterCount(b)
    ensures ForeignCount(a + b) == ForeignCount(a) + ForeignCount(b)
  {
    if a == [] {
      assert a + b == b;
    } else {
      assert (a + b)[1..] == a[1..] + b;
      CountsAppend(a[1..], b);
    }
  }

  /** ASCII digits, punctuation and whitespace, and non-ASCII whitespace, count toward neither side. */
  predicate Neutral(c: char)
  {
    (IsAscii(c) && !IsAsciiLetter(c)) || IsSpace(c)
  }

  lemma {:induction false} NeutralCountsNothing(n: string)
    requires forall i :: 0 <= i < |n| ==> Neutral(n[i])
    ensures AsciiLetterCount(n) == 0 && ForeignCount(n) == 0
  {
    if n != [] {
      assert IsSpace(n[0]) ==> !IsAsciiLetter(n[0]);
      NeutralCountsNothing(n[1..]);
    }
  }

  /** Adding neutral characters on either side never changes the verdict. */
  lemma NeutralTextIgnored(t: string, n: string)
    requires forall i :: 0 <= i < |n| ==> Neutral(n[i])
    ensures LooksEnglish(t + n) == LooksEnglish(t)
    ensures LooksEnglish(n + t) == LooksEnglish(t)
  {
    NeutralCountsNothing(n);
    CountsAppend(t, n);
    CountsAppend(n, t);
  }

  lemma {:induction false} AsciiHasNoForeign(t: string)
    requires forall i :: 0 <= i < |t| ==> IsAscii(t[i])
    ensures ForeignCount(t) == 0
  {
    if t != [] {
      AsciiHasNoForeign(t[1..]);
    }
  }

  lemma {:induction false} LetterCounted(t: string, k: nat)
    requires k < |t| && IsAsciiLetter(t[k])
    ensures AsciiLetterCount(t) > 0
  {
    if k > 0 {
      LetterCounted(t[1..], k - 1);
    }
  }

  lemma {:induction false} NoLetterNoCount(t: string)
    requires forall i :: 0 <= i < |t| ==> !IsAsciiLetter(t[i])
    ensures AsciiLetterCount(t) == 0
  {
    if t != [] {
      NoLetterNoCount(t[1..]);
    }
  }

  /** All-ASCII text with at least one letter looks English. */
  lemma AsciiTextLooksEnglish(t: string, k: nat)
    requires forall i :: 0 <= i < |t| ==> IsAscii(t[i])
    requires k < |t| && IsAsciiLetter(t[k])
    ensures LooksEnglish(t)
  {
    AsciiHasNoForeign(t);
    LetterCounted(t, k);
  }

  /** Text without ASCII letters (kana, kanji, digits alone) never looks English. */
  lemma NoLettersNotEnglish(t: string)
    requires forall i :: 0 <= i < |t| ==> !IsAsciiLetter(t[i])
    ensures !LooksEnglish(t)
  {
    NoLetterNoCount(t);
  }

  /** `language == 'en' or (language == 'auto' and _looks_english(text))`. */
  predicate UsesEnglish(language: string, text: string)
  {
    language == "en" || (language == "auto" && LooksEnglish(text))
  }

  /** The phoneme ids `set_text` computes. */
  function Phonemes(fe: TextFrontend, text: string, language: string): seq<int>
  {
    if UsesEnglish(language, text) then fe.english(text) else fe.japanese(text)
  }

  /**
   * 'en' always goes to the English converter; 'auto' goes to it exactly when
   * the text looks English, so an ASCII sentence does and text without ASCII
   * letters (kana, kanji) does not; every other hint, 'zh' included, goes to
   * the Japanese converter.
   */
  lemma HintDispatch(fe: TextFrontend, text: string, language: string, k: nat)
    ensures Phonemes(fe, text, "en") == fe.english(text)
    ensures Phonemes(fe, text, "auto") == if LooksEnglish(text) then fe.english(text) else fe.japanese(text)
    ensures language != "en" && language != "auto" ==> Phonemes(fe, text, language) == fe.japanese(text)
    ensures (forall i :: 0 <= i < |text| ==> IsAscii(text[i])) && k < |text| && IsAsciiLetter(text[k]) ==>
      Phonemes(fe, text, "auto") == fe.english(text)
    ensures (forall i :: 0 <= i < |text| ==> !IsAsciiLetter(text[i])) ==>
      Phonemes(fe, text, "auto") == fe.japanese(text)
  {
    if (forall i :: 0 <= i < |text| ==> IsAscii(text[i])) && k < |text| && IsAsciiLetter(text[k]) {
      AsciiTextLooksEnglish(text, k);
    }
    if forall i :: 0 <= i < |text| ==> !IsAsciiLetter(text[i]) {
      NoLettersNotEnglish(text);
    }
  }

  // ---------------------------------------------------------------------------
  // The instance

  /** Loading the reference file at 32 kHz, and the resample-and-embed step; None where either raises. */
  datatype AudioIO = AudioIO(load: string -> Option<Tensor>, embed: Tensor -> Option<Tensor>)

  class ReferenceAudio {
    var text: string
    var phonemesSeq: Option<Tensor>
    var textBert: Option<Tensor>
    var audio32k: Option<Tensor>
    var sslContent: Option<Tensor>
    var initialized: bool

    /** The phoneme ids form a `[1, N]` row and the BERT features are N zero rows. */
    ghost predicate TextFeaturesAgree()
      reads this
    {
      phonemesSeq.Some? ==>
        |phonemesSeq.value.shape| == 2 && phonemesSeq.value.shape[0] == 1 &&
        textBert == Some(ZeroBert(phonemesSeq.value.shape[1]))
    }

    /** Once initialised, both audio-derived fields exist. */
    ghost predicate AudioReady()
      reads this
    {
      initialized ==> audio32k.Some? && sslContent.Some?
    }

    ghost predicate Valid()
      reads this
    {
      TextFeaturesAgree() && AudioReady()
    }

    /** `super().__new__(cls)`: an instance none of whose fields is set yet. */
    constructor Blank()
      ensures text == [] && phonemesSeq.None? && textBert.None?
      ensures audio32k.None? && sslContent.None? && !initialized
      ensures Valid()
    {
      text, phonemesSeq, textBert := [], None, None;
      audio32k, sslContent, initialized := None, None, false;
    }

    /**
     * `set_text`: the text, its phoneme row and an all-zero BERT matrix with
     * one row per phoneme; the audio fields are left alone.
     */
    method SetText(prompt: string, language: string, fe: TextFrontend)
      modifies this
      ensures text == prompt
      ensures phonemesSeq == Some(PhonemeRow(Phonemes(fe, prompt, language)))
      ensures textBert == Some(ZeroBert(|Phonemes(fe, prompt, language)|))
      ensures audio32k == old(audio32k) && sslContent == old(sslContent) && initialized == old(initialized)
      ensures TextFeaturesAgree()
    {
      text := prompt;
      var ids := Phonemes(fe, prompt, language);
      phonemesSeq := Some(PhonemeRow(ids));
      textBert := Some(ZeroBert(PhonemeRow(ids).shape[1]));
    }

    /**
     * `__init__`: nothing at all when already initialised; otherwise the text
     * fields, then the audio loaded and embedded, and the instance marked
     * initialised last. `ok` is false where loading or embedding raises, which
     * leaves the instance uninitialised with its text fields set.
     */
    method Init(path: string, prompt: string, language: string, fe: TextFrontend, io: AudioIO) returns (ok: bool)
      requires Valid()
      modifies this
      ensures Valid()
      ensures old(initialized) ==> ok && unchanged(this)
      ensures !old(initialized) ==>
        text == prompt && phonemesSeq == Some(PhonemeRow(Phonemes(fe, prompt, language))) &&
        textBert == Some(ZeroBert(|Phonemes(fe, prompt, language)|)) &&
        (ok <==> io.load(path).Some? && io.embed(io.load(path).value).Some?)
      ensures !old(initialized) && ok ==> audio32k == io.load(path) && sslContent == io.embed(io.load(path).value)
      ensures initialized <==> old(initialized) || ok
      ensures !old(initialized) && io.load(path).None? ==> audio32k == old(audio32k)
      ensures !old(initialized) && io.load(path).Some? ==> audio32k == io.load(path)
      ensures !old(initialized) && !ok ==> sslContent == old(sslContent)
    {
      if initialized {
        return true;
      }
      text := prompt;
      phonemesSeq := None;
      textBert := None;
      SetText(prompt, language, fe);
      var audio := io.load(path);
      if audio.None? {
        return false;
      }
      audio32k := audio;
      var ssl := io.embed(audio.value);
      if ssl.None? {
        return false;
      }
      sslContent := ssl;
      initialized := true;
      ok := true;
    }
  }

  // ---------------------------------------------------------------------------
  // The class-level cache

  /** `int(os.getenv('Max_Cached_Reference_Audio', '10'))`; None where `int` raises. */
  function CapacityFromEnv(env: Option<string>): Option<int>
  {
    ParseInt(env.GetOr("10"))
  }

  /** Unset, the capacity is 10. */
  lemma CapacityDefault()
    ensures CapacityFromEnv(None) == Some(10)
  {
    assert NatToString(10) == "10";
    ParseIntOfString(10);
  }

  /** Set to the decimal rendering of a number, the capacity is that number. */
  lemma CapacityFromDecimal(n: nat)
    ensures CapacityFromEnv(Some(NatToString(n))) == Some(n)
  {
    ParseIntOfString(n);
  }

  /** A map with two or more keys has a key other than any given one. */
  lemma OtherKey<V>(m: map<string, V>, k: string)
    requires |m| >= 2
    ensures exists other :: other in m && other != k
  {
    if forall p :: p in m ==> p == k {
      assert m.Keys <= {k};
      SubsetCard(m.Keys, {k});
    }
  }

  lemma {:induction false} SubsetCard(a: set<string>, b: set<string>)
    requires a <= b
    ensures |a| <= |b|
    decreases |b|
  {
    if b != {} {
      var x :| x in b;
      SubsetCard(a - {x}, b - {x});
    }
  }

  /**
   * `_prompt_cache`: instances by reference file path. How `LRUCacheDict`
   * orders its evictions is not part of this model: an insertion that takes
   * the cache over capacity evicts some other path.
   */
  class PromptCache {
    var entries: map<string, ReferenceAudio>
    const capacity: int

    /** How many entries the cache holds at most. */
    function Bound(): nat
      reads this
    {
      if capacity >= 1 then capacity else 1
    }

    ghost predicate Valid()
      reads this
    {
      |entries| <= Bound()
    }

    constructor (capacity: int)
      ensures entries == map[] && this.capacity == capacity
      ensures Valid()
    {
      entries := map[];
      this.capacity := capacity;
    }

    /**
     * `__new__`: on a hit, the cached instance, with `set_text` called under
     * the default 'auto' hint when its text differs (the caller's hint is not
     * passed on); on a miss, a new blank instance stored under the path
     * before any of its fields is set.
     */
    method New(path: string, prompt: string, fe: TextFrontend) returns (inst: ReferenceAudio)
      requires Valid()
      requires path in entries ==> entries[path].Valid()
      modifies this, if path in entries then {entries[path]} else {}
      ensures Valid() && inst.Valid()
      ensures path in entries && entries[path] == inst
      ensures entries.Values <= old(entries.Values) + {inst}
      ensures forall p :: p in entries && p != path ==> p in old(entries) && entries[p] == old(entries)[p]
      ensures path in old(entries) ==> inst == old(entries)[path] && entries == old(entries) && inst.text == prompt
      ensures path in old(entries) && old(entries[path].text) != prompt ==>
        inst.text == prompt && inst.phonemesSeq == Some(PhonemeRow(Phonemes(fe, prompt, "auto"))) &&
        inst.textBert == Some(ZeroBert(|Phonemes(fe, prompt, "auto")|)) &&
        inst.audio32k == old(inst.audio32k) && inst.sslContent == old(inst.sslContent) &&
        inst.initialized == old(inst.initialized)
      ensures path in old(entries) && old(entries[path].text) == prompt ==> unchanged(inst)
      ensures path !in old(entries) ==>
        fresh(inst) && !inst.initialized && inst.phonemesSeq.None? &&
        |old(entries).Keys - entries.Keys| <= 1 &&
        (|old(entries)| < Bound() ==> entries == old(entries)[path := inst])
    {
      if path in entries {
        inst := Hit(path, prompt, fe);
        return;
      }
      inst := new ReferenceAudio.Blank();
      Admit(path, inst);
    }

    /** The hit branch of `__new__`: the cached instance, its text refreshed when it differs. */
    method Hit(path: string, prompt: string, fe: TextFrontend) returns (inst: ReferenceAudio)
      requires path in entries && entries[path].Valid()
      modifies entries[path]
      ensures inst == entries[path] && inst.text == prompt && inst.Valid()
      ensures old(inst.text) != prompt ==>
        inst.phonemesSeq == Some(PhonemeRow(Phonemes(fe, prompt, "auto"))) &&
        inst.textBert == Some(ZeroBert(|Phonemes(fe, prompt, "auto")|)) &&
        inst.audio32k == old(inst.audio32k) && inst.sslContent == old(inst.sslContent) &&
        inst.initialized == old(inst.initialized)
      ensures old(inst.text) == prompt ==> unchanged(inst)
    {
      inst := entries[path];
      if inst.text != prompt {
        inst.SetText(prompt, "auto", fe);
      }
    }

    /**
     * Stores a new instance under a path not yet cached, evicting one other
     * path when that takes the cache over capacity.
     */
    method Admit(path: string, inst: ReferenceAudio)
      requires Valid() && path !in entries
      modifies this
      ensures Valid()
      ensures path in entries && entries[path] == inst
      ensures entries.Values <= old(entries.Values) + {inst}
      ensures forall p :: p in entries && p != path ==> p in old(entries) && entries[p] == old(entries)[p]
      ensures |old(entries).Keys - entries.Keys| <= 1
      ensures |old(entries)| < Bound() ==> entries == old(entries)[path := inst]
    {
      entries := entries[path := inst];
      if |entries| > Bound() {
        OtherKey(entries, path);
        var victim :| victim in entries && victim != path;
        entries := entries - {victim};
        assert old(entries).Keys - entries.Keys <= {victim};
        SubsetCard(old(entries).Keys - entries.Keys, {victim});
      }
    }

    /**
     * `ReferenceAudio(path, text, language)`: `__new__` then `__init__`.
     * `ok` is false where `__init__` raises; the instance stays cached even then.
     */
    method Construct(path: string, prompt: string, language: string, fe: TextFrontend, io: AudioIO)
      returns (inst: ReferenceAudio, ok: bool)
      requires Valid()
      requires path in entries ==> entries[path].Valid()
      modifies this, if path in entries then {entries[path]} else {}
      ensures Valid() && inst.Valid()
      ensures path in entries && entries[path] == inst && inst.text == prompt
      ensures path !in old(entries) ==> fresh(inst)
      ensures entries.Values <= old(entries.Values) + {inst}
      ensures path in old(entries) ==> inst == old(entries)[path]
      ensures path in old(entries) && old(entries[path].initialized) ==>
        ok && inst.initialized && inst.audio32k == old(entries[path].audio32k) &&
        inst.sslContent == old(entries[path].sslContent)
      ensures path !in old(entries) && ok ==>
        io.load(path).Some? && inst.audio32k == io.load(path) && inst.sslContent == io.embed(io.load(path).value)
      ensures ok <==> inst.initialized
      ensures !(path in old(entries) && old(entries[path].initialized)) ==>
        inst.phonemesSeq == Some(PhonemeRow(Phonemes(fe, prompt, language))) &&
        inst.textBert == Some(ZeroBert(|Phonemes(fe, prompt, language)|))
      ensures path in old(entries) && old(entries[path].initialized) && old(entries[path].text) != prompt ==>
        inst.phonemesSeq == Some(PhonemeRow(Phonemes(fe, prompt, "auto"))) &&
        inst.textBert == Some(ZeroBert(|Phonemes(fe, prompt, "auto")|))
      ensures path in old(entries) && old(entries[path].initialized) && old(entries[path].text) == prompt ==>
        unchanged(inst)
    {
      inst := New(path, prompt, fe);
      ok := inst.Init(path, prompt, language, fe, io);
    }

    /** `clear_cache`: the cache is left empty. */
    method ClearCache()
      modifies this
      ensures entries == map[]
      ensures Valid()
    {
      entries := map[];
    }
  }

  /**
   * Constructing twice with the same path yields the very same instance,
   * carrying the second text; once the first construction succeeded, the
   * second succeeds too and keeps the audio fields the first one computed
   * (for a path not cached before, the audio loaded from it and its
   * embedding). No instance cached under another path changes.
   */
  method ConstructTwice(cache: PromptCache, path: string, text1: string, text2: string, language: string,
                        fe: TextFrontend, io: AudioIO)
    returns (a: ReferenceAudio, b: ReferenceAudio, ok1: bool, ok2: bool)
    requires cache.Valid()
    requires path in cache.entries ==> cache.entries[path].Valid()
    modifies cache, if path in cache.entries then {cache.entries[path]} else {}
    ensures a == b
    ensures b.text == text2
    ensures ok1 ==> ok2
    ensures ok1 && path !in old(cache.entries) ==>
      io.load(path).Some? && b.audio32k == io.load(path) && b.sslContent == io.embed(io.load(path).value)
    ensures path in old(cache.entries) && old(cache.entries[path].initialized) ==>
      ok1 && b.audio32k == old(cache.entries[path].audio32k) && b.sslContent == old(cache.entries[path].sslContent)
    ensures forall p :: p in old(cache.entries) && p != path && old(cache.entries)[p] != b ==>
      unchanged(old(cache.entries)[p])
    ensures ok1 && text1 != text2 ==>
      b.phonemesSeq == Some(PhonemeRow(Phonemes(fe, text2, "auto"))) &&
      b.textBert == Some(ZeroBert(|Phonemes(fe, text2, "auto")|))
    ensures !ok1 ==>
      b.phonemesSeq == Some(PhonemeRow(Phonemes(fe, text2, language))) &&
      b.textBert == Some(ZeroBert(|Phonemes(fe, text2, language)|))
    ensures ok1 && text1 == text2 && !(path in old(cache.entries) && old(cache.entries[path].initialized)) ==>
      b.phonemesSeq == Some(PhonemeRow(Phonemes(fe, text2, language)))
  {
    a, ok1 := cache.Construct(path, text1, language, fe, io);
    b, ok2 := cache.Construct(path, text2, language, fe, io);
  }
}

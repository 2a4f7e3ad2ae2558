/**
 * `LunaVoxEngine.tts` (Inference.py:18-74): the text turned into phoneme
 * ids and BERT features by language, the reference voice's features with
 * their fallback, the decoder run, the cancel flag read once more, the
 * sentinel scrub, and the single vocoder run.
 */
module Engine {
  import opened Wrappers
  import opened Tensors
  import opened Sessions
  import opened Frontend
  import opened Decoder
  import opened RefAudio

  /** `stop_event.is_set()` as read at its checkpoints: the top of each decoder step, and once after decoding. */
  datatype StopFlag = StopFlag(atStep: nat -> bool, afterDecode: bool)

  /**
   * The phoneme row and BERT features of the text: 'en' and every language
   * other than 'zh' get zero features; 'zh' keeps the computed features when
   * their row count matches the phoneme count and falls back to zeros
   * otherwise. None where reading the feature row count raises (a 0-d
   * array). Whatever the branch, the features have one row per phoneme.
   */
  function TextFeatures(language: string, text: string, fe: TextFrontend): (r: Option<(Tensor, Tensor)>)
    ensures r.Some? ==>
      (|r.value.0.shape| == 2 && r.value.0.shape[0] == 1 &&
       |r.value.1.shape| >= 1 && r.value.1.shape[0] == r.value.0.shape[1])
    ensures language == "en" ==>
      r == Some((PhonemeRow(fe.english(text)), ZeroBert(|fe.english(text)|)))
    ensures language != "en" && language != "zh" ==>
      r == Some((PhonemeRow(fe.japanese(text)), ZeroBert(|fe.japanese(text)|)))
    ensures language == "zh" ==>
      var (ids, word2ph, norm) := fe.chinese(text);
      var bert := fe.bertPhone(norm, word2ph);
      (r.None? <==> |bert.shape| == 0) &&
      (r.Some? ==>
        (r.value.0 == PhonemeRow(ids) && r.value.1 == if bert.shape[0] == |ids| then bert else ZeroBert(|ids|)))
  {
    if language == "en" then
      var ids := fe.english(text);
      Some((PhonemeRow(ids), ZeroBert(PhonemeRow(ids).shape[1])))
    else if language == "zh" then
      var (ids, word2ph, normText) := fe.chinese(text);
      var textSeq := PhonemeRow(ids);
      var bertPhone := fe.bertPhone(normText, word2ph);
      if |bertPhone.shape| == 0 then None
      else if bertPhone.shape[0] != textSeq.shape[1] then Some((textSeq, ZeroBert(textSeq.shape[1])))
      else Some((textSeq, bertPhone))
    else
      var ids := fe.japanese(text);
      Some((PhonemeRow(ids), ZeroBert(PhonemeRow(ids).shape[1])))
  }

  /**
   * The reference BERT features fed to the encoder: the stored ones when
   * their row count matches the reference phoneme count, else zeros with
   * that many rows. None where a shape read raises.
   */
  function RefBert(refSeq: Tensor, stored: Option<Tensor>): (r: Option<Tensor>)
    ensures r.Some? <==> |refSeq.shape| >= 2 && (stored.Some? ==> |stored.value.shape| >= 1)
    ensures r.Some? ==> |r.value.shape| >= 1 && r.value.shape[0] == refSeq.shape[1]
    ensures r.Some? && r.value != ZeroBert(refSeq.shape[1]) ==> r == stored
    ensures (|refSeq.shape| >= 2 && stored.Some? && |stored.value.shape| >= 1 &&
             stored.value.shape[0] == refSeq.shape[1]) ==> r == stored
    ensures (|refSeq.shape| >= 2 &&
             (stored.None? || (|stored.value.shape| >= 1 && stored.value.shape[0] != refSeq.shape[1]))) ==>
      r == Some(ZeroBert(refSeq.shape[1]))
  {
    if |refSeq.shape| < 2 then None
    else match stored
      case None => Some(ZeroBert(refSeq.shape[1]))
      case Some(b) =>
        if |b.shape| == 0 then None
        else if b.shape[0] != refSeq.shape[1] then Some(ZeroBert(refSeq.shape[1]))
        else Some(b)
  }

  /**
   * The sentinel scrub: the tokens truncated along the last axis just before
   * the last-axis position of the first value at or above the threshold (in
   * C order), or unchanged when there is none.
   */
  function Scrub(tokens: Tensor): (r: Tensor)
    requires |tokens.shape| >= 1
    ensures |r.shape| == |tokens.shape| && r.shape[..|r.shape| - 1] == tokens.shape[..|tokens.shape| - 1]
    ensures r.shape[|r.shape| - 1] <= tokens.shape[|tokens.shape| - 1]
    ensures (forall j :: 0 <= j < |tokens.data| ==> tokens.data[j] < EosThreshold) ==> r == tokens
  {
    match FirstSentinelColumn(tokens)
    case None => tokens
    case Some(c) => TruncateLastAxis(tokens, c)
  }

  /**
   * On the `[1, 1, n]` tokens the decoder returns: the scrubbed tokens are
   * exactly those before the first sentinel, and none of them is a sentinel.
   */
  lemma ScrubRow(tokens: Tensor)
    requires tokens.shape == [1, 1, |tokens.data|]
    ensures var r := Scrub(tokens);
      (forall j :: 0 <= j < |r.data| ==> r.data[j] < EosThreshold) &&
      match FirstSentinelPos(tokens.data)
      case None => r.data == tokens.data
      case Some(p) => r.shape == [1, 1, p] && r.data == tokens.data[..p]
  {
    SentinelColumnOfRow(tokens);
    match FirstSentinelPos(tokens.data)
    case None =>
    case Some(p) =>
      TruncateRow(tokens, p);
      assert Scrub(tokens) == TruncateLastAxis(tokens, p);
  }

  /** On `[1, 1, n]` tokens the sentinel's last-axis coordinate is its position. */
  lemma SentinelColumnOfRow(tokens: Tensor)
    requires tokens.shape == [1, 1, |tokens.data|]
    ensures FirstSentinelColumn(tokens) == FirstSentinelPos(tokens.data)
  {
    match FirstSentinelPos(tokens.data)
    case None =>
    case Some(p) =>
      assert p % |tokens.data| == p;
  }

  /** `t[..., :c]` on `[1, 1, n]` tokens keeps the first c of them. */
  lemma TruncateRow(tokens: Tensor, c: nat)
    requires tokens.shape == [1, 1, |tokens.data|] && c <= |tokens.data|
    ensures TruncateLastAxis(tokens, c).shape == [1, 1, c]
    ensures TruncateLastAxis(tokens, c).data == tokens.data[..c]
  {
    var n := |tokens.data|;
    assert tokens.shape[..2] == [1, 1];
    assert Prod([1, 1]) == 1 by {
      ProdCons(1, [1]);
      ProdCons(1, []);
    }
    assert TruncateLastAxis(tokens, c).data == Gather(tokens.data, 1, n, 0, c);
    GatherOne(tokens.data, n, 0, c);
  }

  function VocoderFeed(textSeq: Tensor, semantic: Tensor, audio32k: Tensor): Feed
  {
    map["text_seq" := Some(textSeq), "pred_semantic" := Some(semantic), "ref_audio" := Some(ExpandDims0(audio32k))]
  }

  /** `vocoder.run(None, feed)[0]`; Raised where the run raises or returns nothing. */
  function Vocode(vocoder: Session, feed: Feed): (r: Outcome<Tensor>)
    ensures !r.ReturnedNone?
    ensures r.Returned? <==> vocoder.run(feed).Some? && |vocoder.run(feed).value| > 0
    ensures r.Returned? ==> r.value == vocoder.run(feed).value[0]
  {
    match vocoder.run(feed)
    case None => Raised
    case Some(outs) => if |outs| == 0 then Raised else Returned(outs[0])
  }

  /** The reference voice's fields as `tts` reads them; None for a field never set or set to None. */
  datatype PromptFields = PromptFields(
    phonemesSeq: Option<Tensor>, textBert: Option<Tensor>, sslContent: Option<Tensor>, audio32k: Option<Tensor>)

  /** What `tts` returns. */
  function TtsSpec(text: string, language: string, fe: TextFrontend, prompt: PromptFields,
                   g: Graphs, vocoder: Session, flag: StopFlag): Outcome<Tensor>
    requires Conforms(g.firstStage)
  {
    match TextFeatures(language, text, fe)
    case None => Raised
    case Some((textSeq, textBert)) =>
      match prompt.phonemesSeq
      case None => ReturnedNone
      case Some(refSeq) =>
        match RefBert(refSeq, prompt.textBert)
        case None => Raised
        case Some(refBert) =>
          if prompt.sslContent.None? then Raised
          else
            var tokens := T2SSpec(T2SInputs(refSeq, refBert, textSeq, textBert, prompt.sslContent.value), g, flag.atStep);
            Synthesize(tokens, flag.afterDecode, textSeq, prompt.audio32k, vocoder)
  }

  /** What `tts` does with the decoder's outcome: the flag read, the scrub and the vocoder run. */
  function Synthesize(tokens: Outcome<Tensor>, afterDecode: bool, textSeq: Tensor, audio32k: Option<Tensor>,
                      vocoder: Session): (r: Outcome<Tensor>)
    requires tokens.Returned? ==> |tokens.value.shape| >= 1
    ensures r.ReturnedNone? <==> !tokens.Raised? && afterDecode
    ensures r.Returned? ==> tokens.Returned? && !afterDecode && audio32k.Some?
  {
    if tokens.Raised? then Raised
    else if afterDecode then ReturnedNone
    else if tokens.ReturnedNone? then Raised   // `None >= 1024` raises once the flag has been cleared
    else if audio32k.None? then Raised
    else Vocode(vocoder, VocoderFeed(textSeq, Scrub(tokens.value), audio32k.value))
  }

  /**
   * Without reference phonemes no graph runs: the outcome is None (or the
   * text front end's error) whatever the graphs and the flag.
   */
  lemma NoPhonemesNoGraphs(text: string, language: string, fe: TextFrontend, prompt: PromptFields,
                           g: Graphs, vocoder: Session, flag: StopFlag,
                           g': Graphs, vocoder': Session, flag': StopFlag)
    requires Conforms(g.firstStage) && Conforms(g'.firstStage)
    requires prompt.phonemesSeq.None?
    ensures TtsSpec(text, language, fe, prompt, g, vocoder, flag) == TtsSpec(text, language, fe, prompt, g', vocoder', flag')
    ensures TtsSpec(text, language, fe, prompt, g, vocoder, flag) == if language == "zh" then
      (if |fe.bertPhone(fe.chinese(text).2, fe.chinese(text).1).shape| == 0 then Raised else ReturnedNone)
      else ReturnedNone
  {
  }

  /** The encoder inputs `tts` assembles, when every read before the decoder succeeds. */
  function DecoderInputs(text: string, language: string, fe: TextFrontend, prompt: PromptFields): Option<T2SInputs>
  {
    match TextFeatures(language, text, fe)
    case None => None
    case Some((textSeq, textBert)) =>
      match prompt.phonemesSeq
      case None => None
      case Some(refSeq) =>
        match RefBert(refSeq, prompt.textBert)
        case None => None
        case Some(refBert) =>
          if prompt.sslContent.None? then None
          else Some(T2SInputs(refSeq, refBert, textSeq, textBert, prompt.sslContent.value))
  }

  /**
   * A result is the vocoder's first output, given the text's phoneme row, the
   * scrubbed tokens of a decoder run that finished and the reference audio,
   * with the flag read clear after decoding.
   */
  lemma TtsResult(text: string, language: string, fe: TextFrontend, prompt: PromptFields,
                  g: Graphs, vocoder: Session, flag: StopFlag)
    requires Conforms(g.firstStage)
    ensures var r := TtsSpec(text, language, fe, prompt, g, vocoder, flag);
      r.Returned? ==>
        !flag.afterDecode && prompt.audio32k.Some? && DecoderInputs(text, language, fe, prompt).Some? &&
        var inp := DecoderInputs(text, language, fe, prompt).value;
        T2SSpec(inp, g, flag.atStep).Returned? &&
        r == Vocode(vocoder, VocoderFeed(inp.textSeq, Scrub(T2SSpec(inp, g, flag.atStep).value), prompt.audio32k.value))
  {
  }

  /** `tts` returns None only without reference phonemes or when the flag is read set after decoding. */
  lemma TtsNoneOnlyWhen(text: string, language: string, fe: TextFrontend, prompt: PromptFields,
                        g: Graphs, vocoder: Session, flag: StopFlag)
    requires Conforms(g.firstStage)
    ensures TtsSpec(text, language, fe, prompt, g, vocoder, flag).ReturnedNone? ==>
      prompt.phonemesSeq.None? || flag.afterDecode
  {
  }

  /**
   * `tts`: the text features by language, the reference features, the
   * decoder, the flag read after decoding, the scrub, then the vocoder.
   */
  method Tts(text: string, language: string, fe: TextFrontend, prompt: ReferenceAudio,
             g: Graphs, vocoder: Session, flag: StopFlag) returns (r: Outcome<Tensor>)
    requires Conforms(g.firstStage)
    ensures r == TtsSpec(text, language, fe,
      PromptFields(prompt.phonemesSeq, prompt.textBert, prompt.sslContent, prompt.audio32k), g, vocoder, flag)
  {
    var features := TextFeatures(language, text, fe);
    if features.None? {
      return Raised;
    }
    var (textSeq, textBert) := features.value;
    var refSeq := prompt.phonemesSeq;
    if refSeq.None? {
      return ReturnedNone;
    }
    var refBert := RefBert(refSeq.value, prompt.textBert);
    if refBert.None? || prompt.sslContent.None? {
      return Raised;
    }
    var semanticTokens, _ := T2S(T2SInputs(refSeq.value, refBert.value, textSeq, textBert, prompt.sslContent.value),
                                 g, flag.atStep);
    r := SynthesizeStep(semanticTokens, flag.afterDecode, textSeq, prompt.audio32k, vocoder);
  }

  /** The tail of `tts`: the flag read after decoding, the sentinel scrub, then one vocoder run. */
  method SynthesizeStep(semanticTokens: Outcome<Tensor>, afterDecode: bool, textSeq: Tensor, audio32k: Option<Tensor>,
                        vocoder: Session) returns (r: Outcome<Tensor>)
    requires semanticTokens.Returned? ==> |semanticTokens.value.shape| >= 1
    ensures r == Synthesize(semanticTokens, afterDecode, textSeq, audio32k, vocoder)
  {
    if semanticTokens.Raised? {
      return Raised;
    }
    if afterDecode {
      return ReturnedNone;
    }
    if semanticTokens.ReturnedNone? {
      return Raised;
    }
    var tokens := Scrub(semanticTokens.value);
    if audio32k.None? {
      return Raised;
    }
    r := Vocode(vocoder, VocoderFeed(textSeq, tokens, audio32k.value));
  }
}

/**
 * The text front end both the engine and the reference-voice cache call:
 * grapheme-to-phoneme converters and the Chinese BERT feature extractor.
 * Their internals are not part of this model; they enter as functions. What
 * is modelled is how their results become the `[1, N]` phoneme-id tensor
 * and the N-row BERT feature matrix the encoder takes.
 */
module Frontend {
  import opened Tensors

  /** Width of a BERT feature row (the 1024-dimensional features the Chinese front end aligns to phonemes). */
  const BertFeatureDim: nat := 1024

  /** The converters the engine and the reference cache call. */
  datatype TextFrontend = TextFrontend(
    english: string -> seq<int>,                    // english_to_phones
    japanese: string -> seq<int>,                   // japanese_to_phones
    chinese: string -> (seq<int>, seq<int>, string), // chinese_clean_g2p_and_norm: ids, word2ph, normalised text
    bertPhone: (string, seq<int>) -> Tensor)         // compute_bert_phone_features(norm_text, word2ph)

  /** `np.array([ids], dtype=np.int64)`: the ids as one row. */
  function PhonemeRow(ids: seq<int>): (t: Tensor)
    ensures t.shape == [1, |ids|] && t.data == ids
  {
    ProdCons(1, [|ids|]);
    ProdCons(|ids|, []);
    RawTensor([1, |ids|], ids)
  }

  /** `np.zeros((n, BERT_FEATURE_DIM))`. */
  function ZeroBert(n: nat): (t: Tensor)
    ensures t.shape == [n, BertFeatureDim]
    ensures forall j :: 0 <= j < |t.data| ==> t.data[j] == 0
  {
    ProdCons(n, [BertFeatureDim]);
    ProdCons(BertFeatureDim, []);
    RawTensor([n, BertFeatureDim], Zeros(n * BertFeatureDim))
  }
}

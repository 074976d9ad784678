/**
 * Translation of an SRT file, `translate_srt_content` of mkv_transcribe.py:
 * the file's blocks are taken five at a time, the texts of a batch are joined
 * with `" | "` and translated together, the translation is split back at
 * `" | "`, and when the number of pieces differs every text of the batch is
 * translated on its own. Each block keeps its index; its end time is
 * stretched for a longer translation. The NLLB model itself is a parameter.
 */
module Translation {
  import opened Text
  import opened SrtTime
  import opened SrtFile

  /** `NLLB_LANG_MAP`: two-letter language codes to NLLB-200 codes. */
  const NllbLangMap: map<string, string> := map[
    "en" := "eng_Latn", "nl" := "nld_Latn", "fr" := "fra_Latn", "de" := "deu_Latn",
    "es" := "spa_Latn", "it" := "ita_Latn", "pt" := "por_Latn", "pl" := "pol_Latn",
    "ru" := "rus_Cyrl", "ja" := "jpn_Jpan", "zh" := "zho_Hans", "ko" := "kor_Hang",
    "ar" := "arb_Arab", "tr" := "tur_Latn", "sv" := "swe_Latn", "da" := "dan_Latn",
    "no" := "nob_Latn", "fi" := "fin_Latn", "cs" := "ces_Latn", "el" := "ell_Grek",
    "he" := "heb_Hebr", "hi" := "hin_Deva", "th" := "tha_Thai", "vi" := "vie_Latn",
    "id" := "ind_Latn", "ms" := "zsm_Latn", "uk" := "ukr_Cyrl", "ro" := "ron_Latn",
    "hu" := "hun_Latn", "bg" := "bul_Cyrl", "hr" := "hrv_Latn", "sk" := "slk_Latn"
  ]

  /** `NLLB_LANG_MAP.get(source_lang, 'eng_Latn')`. */
  function SourceCode(lang: string): string {
    if lang in NllbLangMap then NllbLangMap[lang] else "eng_Latn"
  }

  /** `NLLB_LANG_MAP.get(target_lang, 'nld_Latn')`. */
  function TargetCode(lang: string): string {
    if lang in NllbLangMap then NllbLangMap[lang] else "nld_Latn"
  }

  /**
   * Every lookup yields a code of the map: a listed language gets its own
   * code on either side, and an unlisted one falls back to English as the
   * source and to Dutch as the target, both of which the map lists.
   */
  lemma CodesAreMapped(lang: string)
    ensures SourceCode(lang) in NllbLangMap.Values && TargetCode(lang) in NllbLangMap.Values
    ensures lang in NllbLangMap ==> SourceCode(lang) == TargetCode(lang) == NllbLangMap[lang]
    ensures lang !in NllbLangMap ==> SourceCode(lang) == NllbLangMap["en"] && TargetCode(lang) == NllbLangMap["nl"]
  {
    assert "en" in NllbLangMap && NllbLangMap["en"] == "eng_Latn";
    assert "nl" in NllbLangMap && NllbLangMap["nl"] == "nld_Latn";
  }

  /** The NLLB model: the text, the source code and the target code to the translation. */
  type Model = (string, string, string) -> string

  /**
   * `translate_text_nllb`: a text that is empty or only whitespace comes back
   * as it is and the model is not consulted; any other text is translated
   * between the mapped codes.
   */
  function TranslateText(text: string, sourceLang: string, targetLang: string, model: Model): (r: string)
    ensures Strip(text) == [] ==> r == text
    ensures Strip(text) != [] ==> r == model(text, SourceCode(sourceLang), TargetCode(targetLang))
  {
    if text == [] || Strip(text) == [] then text
    else model(text, SourceCode(sourceLang), TargetCode(targetLang))
  }

  const BatchSize := 5

  /** The separator marking subtitle boundaries inside a batch. */
  const Separator := " | "

  function Min(a: int, b: int): int {
    if a < b then a else b
  }

  /** `zip(xs, ys)` followed by `f` on each pair, for lists of one length. */
  function Zip<A, B, C>(xs: seq<A>, ys: seq<B>, f: (A, B) -> C): (r: seq<C>)
    requires |xs| == |ys|
    ensures |r| == |xs| && forall k :: 0 <= k < |xs| ==> r[k] == f(xs[k], ys[k])
  {
    if |xs| == 0 then [] else [f(xs[0], ys[0])] + Zip(xs[1..], ys[1..], f)
  }

  /** The texts of the parsed blocks of a batch (`batch_texts`). */
  function Texts(metas: seq<Cue>): (r: seq<string>)
    ensures |r| == |metas| && forall k :: 0 <= k < |metas| ==> r[k] == metas[k].text
  {
    if |metas| == 0 then [] else [metas[0].text] + Texts(metas[1..])
  }

  /**
   * The translations of a batch's texts: the pieces of the combined
   * translation when there is one per text, otherwise each text translated
   * on its own.
   */
  function TranslatedParts(texts: seq<string>, sourceLang: string, targetLang: string, model: Model): (r: seq<string>)
    ensures |r| == |texts|
    ensures |Split(TranslateText(Join(texts, Separator), sourceLang, targetLang, model), Separator)| != |texts| ==>
      forall k :: 0 <= k < |texts| ==> r[k] == TranslateText(texts[k], sourceLang, targetLang, model)
  {
    var parts := Split(TranslateText(Join(texts, Separator), sourceLang, targetLang, model), Separator);
    if |parts| != |texts| then EachTranslated(texts, sourceLang, targetLang, model) else parts
  }

  /** `[translate_text_nllb(text, source_lang, target_lang) for text in batch_texts]`. */
  function EachTranslated(texts: seq<string>, sourceLang: string, targetLang: string, model: Model): (r: seq<string>)
    ensures |r| == |texts|
    ensures forall k :: 0 <= k < |texts| ==> r[k] == TranslateText(texts[k], sourceLang, targetLang, model)
  {
    Map(texts, text => TranslateText(text, sourceLang, targetLang, model))
  }

  /** `[f(x) for x in xs]`. */
  function Map<A, B>(xs: seq<A>, f: A -> B): (r: seq<B>)
    ensures |r| == |xs| && forall k :: 0 <= k < |xs| ==> r[k] == f(xs[k])
  {
    if |xs| == 0 then [] else [f(xs[0])] + Map(xs[1..], f)
  }

  /** The translations used for a batch's blocks; a batch with no block translates nothing. */
  function BatchParts(metas: seq<Cue>, sourceLang: string, targetLang: string, model: Model): (r: seq<string>)
    ensures |r| == |metas|
  {
    if |metas| == 0 then [] else TranslatedParts(Texts(metas), sourceLang, targetLang, model)
  }

  /** The segment for one block and its translation. */
  function Translated(meta: Cue, translation: string): Cue {
    Cue(meta.index, AdjustTimestamp(meta.timestamp, |meta.text|, |translation|), Strip(translation))
  }

  /** The blocks of the batch starting at `i`. */
  function Batch(blocks: seq<string>, i: nat): seq<string>
    requires i <= |blocks|
  {
    blocks[i..Min(i + BatchSize, |blocks|)]
  }

  /** The segments for the batches from block `i` on. */
  function TranslateFrom(blocks: seq<string>, sourceLang: string, targetLang: string, model: Model, i: nat): seq<Cue>
    decreases |blocks| - i
  {
    if i >= |blocks| then []
    else
      var metas := ParseBlocks(Batch(blocks, i));
      Zip(metas, BatchParts(metas, sourceLang, targetLang, model), Translated)
      + TranslateFrom(blocks, sourceLang, targetLang, model, i + BatchSize)
  }

  /** `translate_srt_content(srt_path, source_lang, target_lang)` on the file's text. */
  method TranslateSrtContent(content: string, sourceLang: string, targetLang: string, model: Model)
    returns (translatedSegments: seq<Cue>)
    ensures translatedSegments == TranslateFrom(Blocks(content), sourceLang, targetLang, model, 0)
  {
    var blocks := Blocks(content);
    translatedSegments := [];
    var i := 0;
    while i < |blocks|
      invariant translatedSegments + TranslateFrom(blocks, sourceLang, targetLang, model, i)
        == TranslateFrom(blocks, sourceLang, targetLang, model, 0)
      decreases |blocks| - i
    {
      var batch := blocks[i..Min(i + BatchSize, |blocks|)];
      var batchTexts, batchMeta := ParseBatch(batch);
      var batchSegments := TranslateBatch(batchTexts, batchMeta, sourceLang, targetLang, model);
      ghost var before := translatedSegments;
      translatedSegments := translatedSegments + batchSegments;
      BatchStep(blocks, sourceLang, targetLang, model, i, before, translatedSegments);
      i := i + BatchSize;
    }
  }

  /** The blocks of one batch with at least three lines, as `batch_texts` and `batch_meta`. */
  method ParseBatch(batch: seq<string>) returns (batchTexts: seq<string>, batchMeta: seq<Cue>)
    ensures batchMeta == ParseBlocks(batch)
    ensures batchTexts == Texts(batchMeta)
  {
    batchTexts := [];
    batchMeta := [];
    for j := 0 to |batch|
      invariant batchMeta == ParseBlocks(batch[..j])
      invariant batchTexts == Texts(batchMeta)
    {
      var lines := Split(batch[j], "\n");
      if |lines| >= 3 {
        var index := lines[0];
        var timestamp := lines[1];
        var text := Join(lines[2..], "\n");
        batchTexts := batchTexts + [text];
        batchMeta := batchMeta + [Cue(index, timestamp, text)];
      }
      ParseBlockStep(batch, j);
    }
    assert batch[..|batch|] == batch;
  }

  /**
   * The segments of one batch: the texts translated together, or one by one
   * when the combined translation does not split into one piece per text.
   */
  method TranslateBatch(batchTexts: seq<string>, batchMeta: seq<Cue>, sourceLang: string, targetLang: string,
                        model: Model)
    returns (segments: seq<Cue>)
    requires batchTexts == Texts(batchMeta)
    ensures segments == Zip(batchMeta, BatchParts(batchMeta, sourceLang, targetLang, model), Translated)
  {
    segments := [];
    if |batchTexts| > 0 {
      var translatedParts := TranslatedParts(batchTexts, sourceLang, targetLang, model);
      segments := ZipTranslated(batchMeta, translatedParts);
    }
  }

  /** The loop over `zip(batch_meta, translated_parts)`: one segment per block and translation. */
  method ZipTranslated(batchMeta: seq<Cue>, translatedParts: seq<string>) returns (segments: seq<Cue>)
    requires |batchMeta| == |translatedParts|
    ensures segments == Zip(batchMeta, translatedParts, Translated)
  {
    segments := [];
    for j := 0 to |batchMeta|
      invariant segments == Zip(batchMeta[..j], translatedParts[..j], Translated)
    {
      var meta := batchMeta[j];
      var translatedText := translatedParts[j];
      var adjustedTimestamp := AdjustTimestamp(meta.timestamp, |meta.text|, |translatedText|);
      ghost var before := segments;
      segments := segments + [Cue(meta.index, adjustedTimestamp, Strip(translatedText))];
      TranslatedStep(batchMeta, translatedParts, j, before, segments);
    }
    assert batchMeta[..|batchMeta|] == batchMeta && translatedParts[..|batchMeta|] == translatedParts;
  }

  /** The inner loop's step: the parsed blocks grow by the block just read, if it parses. */
  lemma ParseBlockStep(batch: seq<string>, j: nat)
    requires j < |batch|
    ensures ParseBlocks(batch[..j + 1]) == ParseBlocks(batch[..j]) + ParseBlocks([batch[j]])
  {
    assert batch[..j + 1] == batch[..j] + [batch[j]];
    ParseBlocksAppend(batch[..j], [batch[j]]);
  }

  /** The zip loop's step: the segment built for block `j` is `Translated` of it. */
  lemma TranslatedStep(metas: seq<Cue>, parts: seq<string>, j: nat, before: seq<Cue>, after: seq<Cue>)
    requires |metas| == |parts| && j < |metas|
    requires before == Zip(metas[..j], parts[..j], Translated)
    requires after == before + [Cue(metas[j].index, AdjustTimestamp(metas[j].timestamp, |metas[j].text|, |parts[j]|),
      Strip(parts[j]))]
    ensures after == Zip(metas[..j + 1], parts[..j + 1], Translated)
  {
    ZipSnoc(metas, parts, j, Translated);
  }

  lemma ZipSnoc<A, B, C>(xs: seq<A>, ys: seq<B>, j: nat, f: (A, B) -> C)
    requires |xs| == |ys| && j < |xs|
    ensures Zip(xs[..j + 1], ys[..j + 1], f) == Zip(xs[..j], ys[..j], f) + [f(xs[j], ys[j])]
  {
    var l, r := Zip(xs[..j + 1], ys[..j + 1], f), Zip(xs[..j], ys[..j], f) + [f(xs[j], ys[j])];
    assert |l| == |r|;
    forall k | 0 <= k < |l| ensures l[k] == r[k] {
      if k < j {
        assert xs[..j + 1][k] == xs[..j][k] && ys[..j + 1][k] == ys[..j][k];
      }
    }
  }

  /** The outer loop's step: one batch's segments are appended. */
  lemma BatchStep(blocks: seq<string>, sourceLang: string, targetLang: string, model: Model, i: nat,
                  before: seq<Cue>, after: seq<Cue>)
    requires i < |blocks|
    requires var metas := ParseBlocks(blocks[i..Min(i + BatchSize, |blocks|)]);
      after == before + Zip(metas, BatchParts(metas, sourceLang, targetLang, model), Translated)
    ensures after + TranslateFrom(blocks, sourceLang, targetLang, model, i + BatchSize)
      == before + TranslateFrom(blocks, sourceLang, targetLang, model, i)
  {
  }

  // ---------------------------------------------------------------------------
  // Properties
  // ---------------------------------------------------------------------------

  /** The blocks from `i` on. */
  function Drop(blocks: seq<string>, i: nat): seq<string> {
    if i >= |blocks| then [] else blocks[i..]
  }

  /** The translations used for the blocks from `i` on, batch after batch. */
  function TranslationsFrom(blocks: seq<string>, sourceLang: string, targetLang: string, model: Model, i: nat)
    : seq<string>
    decreases |blocks| - i
  {
    if i >= |blocks| then []
    else
      BatchParts(ParseBlocks(Batch(blocks, i)), sourceLang, targetLang, model)
      + TranslationsFrom(blocks, sourceLang, targetLang, model, i + BatchSize)
  }

  lemma ZipAppend<A, B, C>(xs: seq<A>, ys: seq<B>, xs': seq<A>, ys': seq<B>, f: (A, B) -> C)
    requires |xs| == |ys| && |xs'| == |ys'|
    ensures Zip(xs, ys, f) + Zip(xs', ys', f) == Zip(xs + xs', ys + ys', f)
  {
    var l, r := Zip(xs, ys, f) + Zip(xs', ys', f), Zip(xs + xs', ys + ys', f);
    forall k | 0 <= k < |l| ensures l[k] == r[k] {
      if k < |xs| {
        assert (xs + xs')[k] == xs[k] && (ys + ys')[k] == ys[k];
      } else {
        assert (xs + xs')[k] == xs'[k - |xs|] && (ys + ys')[k] == ys'[k - |xs|];
      }
    }
  }

  /** The blocks from `i` on are the batch at `i` followed by the blocks from the next batch on. */
  lemma DropBatch(blocks: seq<string>, i: nat)
    requires i < |blocks|
    ensures Drop(blocks, i) == Batch(blocks, i) + Drop(blocks, i + BatchSize)
  {
  }

  /**
   * Batching does not change which blocks are translated: the segments from
   * block `i` on are, in order, each parsed block with its translation.
   */
  lemma {:induction false} TranslateFromZip(blocks: seq<string>, sourceLang: string, targetLang: string,
                                            model: Model, i: nat)
    ensures |TranslationsFrom(blocks, sourceLang, targetLang, model, i)| == |ParseBlocks(Drop(blocks, i))|
    ensures TranslateFrom(blocks, sourceLang, targetLang, model, i)
      == Zip(ParseBlocks(Drop(blocks, i)), TranslationsFrom(blocks, sourceLang, targetLang, model, i), Translated)
    decreases |blocks| - i
  {
    if i < |blocks| {
      var metas := ParseBlocks(Batch(blocks, i));
      var parts := BatchParts(metas, sourceLang, targetLang, model);
      TranslateFromZip(blocks, sourceLang, targetLang, model, i + BatchSize);
      DropBatch(blocks, i);
      ParseBlocksAppend(Batch(blocks, i), Drop(blocks, i + BatchSize));
      ZipAppend(metas, parts, ParseBlocks(Drop(blocks, i + BatchSize)),
        TranslationsFrom(blocks, sourceLang, targetLang, model, i + BatchSize), Translated);
    } else {
      assert Drop(blocks, i) == [];
    }
  }

  /**
   * `translate_srt_content` gives one segment per block of at least three
   * lines, in order: segment `k` is block `k` with its index kept, its
   * timestamp adjusted for its translation's length and the stripped
   * translation as text, whether each batch was split back or translated
   * text by text.
   */
  lemma TranslateKeepsBlocks(content: string, sourceLang: string, targetLang: string, model: Model)
    ensures var segments := TranslateFrom(Blocks(content), sourceLang, targetLang, model, 0);
      var blocks := ParseSrt(content);
      var translations := TranslationsFrom(Blocks(content), sourceLang, targetLang, model, 0);
      && |segments| == |blocks| == |translations|
      && forall k :: 0 <= k < |segments| ==>
        && segments[k].index == blocks[k].index
        && segments[k].timestamp == AdjustTimestamp(blocks[k].timestamp, |blocks[k].text|, |translations[k]|)
        && segments[k].text == Strip(translations[k])
  {
    TranslateFromZip(Blocks(content), sourceLang, targetLang, model, 0);
    assert Drop(Blocks(content), 0) == Blocks(content);
  }

  /**
   * When the combined translation comes back as one piece per text with the
   * separators in place, the pieces are used in order and nothing is
   * translated again. Every piece but the last must keep a following
   * separator from starting early; the last needs only to hold none.
   */
  lemma BatchSplitUsed(texts: seq<string>, sourceLang: string, targetLang: string, model: Model,
                       pieces: seq<string>)
    requires |texts| >= 1 && |pieces| == |texts|
    requires forall k :: 0 <= k < |pieces| - 1 ==> Separable(pieces[k], Separator)
    requires Find(pieces[|pieces| - 1], Separator) < 0
    requires TranslateText(Join(texts, Separator), sourceLang, targetLang, model) == Join(pieces, Separator)
    ensures TranslatedParts(texts, sourceLang, targetLang, model) == pieces
  {
    SplitJoinLast(pieces, Separator);
  }
}

/** The cache logic of `TranslationService.translate_text` (bot.py:419-456). The
    remote model is an oracle: its answer is a parameter. */
module Translation {
  import opened Wrappers
  import opened NestedMaps

  /** `self.saved_translations`: source text to language tag to translation. */
  type Cache = map<string, map<string, string>>

  /** What the remote call gave: the message content (`None` for a null one), or an exception. */
  datatype Reply = Answer(content: Option<string>) | Raised

  /** The returned text and the cache afterwards. */
  datatype Translated = Translated(text: string, cache: Cache)

  /** `translate_text(text, lang)` given the reply the remote call would produce. */
  function Translate(cache: Cache, apiKey: string, text: string, lang: string, reply: Reply): Translated {
    if apiKey == "" then Translated(text, cache)
    else match Get(cache, text, lang)
      case Some(saved) => Translated(saved, cache)
      case None =>
        match reply
        case Answer(Some(translated)) =>
          if translated == "" then Translated(text, cache)
          else Translated(translated, Put(cache, text, lang, translated))
        case _ => Translated(text, cache)
  }

  /** The cache only grows: an entry, once saved, keeps its translation. */
  lemma TranslateKeepsEntries(cache: Cache, apiKey: string, text: string, lang: string, reply: Reply, t: string, l: string)
    requires Get(cache, t, l).Some?
    ensures Get(Translate(cache, apiKey, text, lang, reply).cache, t, l) == Get(cache, t, l)
  {
  }

  /** A saved translation is returned without consulting the oracle. */
  lemma TranslateHitIgnoresReply(cache: Cache, apiKey: string, text: string, lang: string, r1: Reply, r2: Reply)
    requires apiKey != "" && Get(cache, text, lang).Some?
    ensures Translate(cache, apiKey, text, lang, r1) == Translate(cache, apiKey, text, lang, r2)
    ensures Translate(cache, apiKey, text, lang, r1) == Translated(Get(cache, text, lang).value, cache)
  {
  }

  /** After a translation is saved (or found), asking again returns the same text from the cache,
      whatever the remote call would now answer. */
  lemma TranslateTwice(cache: Cache, apiKey: string, text: string, lang: string, r1: Reply, r2: Reply)
    ensures var first := Translate(cache, apiKey, text, lang, r1);
      Get(first.cache, text, lang).Some? ==>
        Translate(first.cache, apiKey, text, lang, r2) == Translated(first.text, first.cache)
  {
  }

  /** Without a key, or when the reply is empty or raised, the text comes back unchanged
      and nothing is saved. */
  lemma TranslateFallsBack(cache: Cache, apiKey: string, text: string, lang: string, reply: Reply)
    requires apiKey == "" || (Get(cache, text, lang).None? && (reply == Raised || reply == Answer(None) || reply == Answer(Some(""))))
    ensures Translate(cache, apiKey, text, lang, reply) == Translated(text, cache)
  {
  }

  /** On a miss with a key, a non-empty answer is returned and saved under the text and
      language, so the next call finds it. */
  lemma TranslateStoresAnswer(cache: Cache, apiKey: string, text: string, lang: string, t: string)
    requires apiKey != "" && Get(cache, text, lang).None? && t != ""
    ensures Translate(cache, apiKey, text, lang, Answer(Some(t))).text == t
    ensures Get(Translate(cache, apiKey, text, lang, Answer(Some(t))).cache, text, lang) == Some(t)
  {
  }

  class TranslationService {
    const apiKey: string
    var savedTranslations: Cache

    /** Starts from the loaded cache (`{}` when the file does not exist). */
    constructor (apiKey: string, loaded: Cache)
      ensures this.apiKey == apiKey && savedTranslations == loaded
    {
      this.apiKey := apiKey;
      savedTranslations := loaded;
    }

    /** `translate_text`; saving the file after an insert is not modelled. */
    method TranslateText(text: string, lang: string, reply: Reply) returns (r: string)
      modifies this
      ensures Translated(r, savedTranslations) == Translate(old(savedTranslations), apiKey, text, lang, reply)
    {
      if apiKey == "" {
        return text;
      }
      if text in savedTranslations && lang in savedTranslations[text] {
        return savedTranslations[text][lang];
      }
      match reply
      case Raised =>
        return text;
      case Answer(translated) =>
        if translated.None? || translated.value == "" {
          return text;
        }
        if text !in savedTranslations {
          savedTranslations := savedTranslations[text := map[]];
        }
        savedTranslations := savedTranslations[text := savedTranslations[text][lang := translated.value]];
        return translated.value;
    }
  }
}

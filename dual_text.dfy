/**
 * `getDualText` of the file uploader (src/components/S3/S3FileUploader.jsx):
 * the text for a message key under the current display mode, English and
 * Hindi side by side, Hindi alone, or English, with English falling back to
 * the key itself. The translation function `t` is a partial map from key and
 * language to text; a missing entry stands for any falsy result of `t`.
 */
module DualText {

  datatype Lang = En | Hi

  type Translations = map<(string, Lang), string>

  /** The display mode the context provider starts with. */
  const InitialMode := "dual"
  const Separator := " / "

  /** `t(key, { lng })`, with "" for a missing entry (both are falsy). */
  function T(tr: Translations, key: string, lang: Lang): string {
    if (key, lang) in tr then tr[(key, lang)] else ""
  }

  /** `t(key, { lng: 'en' }) || key`. */
  function EnText(tr: Translations, key: string): (r: string)
    ensures r != "" || key == ""
    ensures T(tr, key, En) != "" ==> r == T(tr, key, En)
    ensures T(tr, key, En) == "" ==> r == key
  {
    if T(tr, key, En) != "" then T(tr, key, En) else key
  }

  function GetDualText(tr: Translations, mode: string, key: string): (r: string)
    ensures mode == "dual" && T(tr, key, Hi) != "" ==> r == EnText(tr, key) + Separator + T(tr, key, Hi)
    ensures mode == "hi" && T(tr, key, Hi) != "" ==> r == T(tr, key, Hi)
    ensures (mode != "dual" && mode != "hi") || T(tr, key, Hi) == "" ==> r == EnText(tr, key)
  {
    var enText := EnText(tr, key);
    var hiText := T(tr, key, Hi);
    if mode == "dual" && hiText != "" then enText + Separator + hiText
    else if mode == "hi" && hiText != "" then hiText
    else enText
  }

  /** The languages a mode shows for a key: both, Hindi alone, or English alone. */
  function Shown(tr: Translations, mode: string, key: string): (ls: seq<Lang>)
    ensures |ls| in {1, 2}
  {
    if T(tr, key, Hi) == "" then [En]
    else if mode == "dual" then [En, Hi]
    else if mode == "hi" then [Hi]
    else [En]
  }

  /** The text of one language as the resolver uses it: English falls back to the key. */
  function TextIn(tr: Translations, key: string, l: Lang): string {
    if l == En then EnText(tr, key) else T(tr, key, Hi)
  }

  /** The texts of `ls`, joined by the separator. */
  function Join(tr: Translations, key: string, ls: seq<Lang>): string
    decreases |ls|
  {
    if ls == [] then ""
    else if |ls| == 1 then TextIn(tr, key, ls[0])
    else TextIn(tr, key, ls[0]) + Separator + Join(tr, key, ls[1..])
  }

  /** The resolved text is exactly the shown languages' texts, joined by " / ". */
  lemma ResolvesToShownLanguages(tr: Translations, mode: string, key: string)
    ensures GetDualText(tr, mode, key) == Join(tr, key, Shown(tr, mode, key))
  {
    var ls := Shown(tr, mode, key);
    if |ls| == 2 {
      assert ls[1..] == [Hi];
    }
  }

  /** English always shows, first, except in Hindi mode with a Hindi text. */
  lemma EnglishLeads(tr: Translations, mode: string, key: string)
    requires mode != "hi" || T(tr, key, Hi) == ""
    ensures EnText(tr, key) <= GetDualText(tr, mode, key)
  {
  }

  /** A non-empty key always resolves to a non-empty text. */
  lemma NeverBlank(tr: Translations, mode: string, key: string)
    requires key != ""
    ensures GetDualText(tr, mode, key) != ""
  {
  }

  /** Without any translation the key itself is shown, in every mode. */
  lemma UntranslatedShowsKey(tr: Translations, mode: string, key: string)
    requires (key, En) !in tr && (key, Hi) !in tr
    ensures GetDualText(tr, mode, key) == key
  {
  }

  /** The initial mode shows both languages whenever a Hindi text exists. */
  lemma InitialModeIsDual(tr: Translations, key: string)
    requires T(tr, key, Hi) != ""
    ensures GetDualText(tr, InitialMode, key) == EnText(tr, key) + " / " + T(tr, key, Hi)
  {
  }
}

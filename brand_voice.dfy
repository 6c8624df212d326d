/**
 * The brand-voice context: settings held in memory, merged over the defaults
 * when loaded from storage, partially overwritten by `updateSettings`, and
 * written back to storage after every change.
 */
module BrandVoice {
  import opened Wrappers
  import opened Store

  datatype Settings = Settings(
    coreValues: string,
    forbiddenWords: string,
    targetAudience: string,
    toneFormal: int,  // 0-100
    toneLength: int   // 0-100
  )

  /** `Partial<BrandVoiceSettings>`: a record in which any field may be absent. */
  datatype Partial = Partial(
    coreValues: Option<string>,
    forbiddenWords: Option<string>,
    targetAudience: Option<string>,
    toneFormal: Option<int>,
    toneLength: Option<int>
  )

  const Defaults := Settings(
    "Professional, Trustworthy, Innovative",
    "cheap, guarantee, best",
    "B2B professionals, C-level executives",
    70,
    60
  )

  /** The partial with no field present. */
  const NoChanges := Partial(None, None, None, None, None)

  /** The partial with every field of `s` present: what `JSON.stringify(settings)` saves. */
  function Full(s: Settings): Partial {
    Partial(Some(s.coreValues), Some(s.forbiddenWords), Some(s.targetAudience), Some(s.toneFormal), Some(s.toneLength))
  }

  /** `{ ...s, ...p }`: a field present in `p` replaces the one in `s`; every other field keeps its value. */
  function Merge(s: Settings, p: Partial): (r: Settings)
    ensures r.coreValues != s.coreValues ==> p.coreValues == Some(r.coreValues)
    ensures r.forbiddenWords != s.forbiddenWords ==> p.forbiddenWords == Some(r.forbiddenWords)
    ensures r.targetAudience != s.targetAudience ==> p.targetAudience == Some(r.targetAudience)
    ensures r.toneFormal != s.toneFormal ==> p.toneFormal == Some(r.toneFormal)
    ensures r.toneLength != s.toneLength ==> p.toneLength == Some(r.toneLength)
    ensures p.coreValues.Some? ==> r.coreValues == p.coreValues.value
    ensures p.forbiddenWords.Some? ==> r.forbiddenWords == p.forbiddenWords.value
    ensures p.targetAudience.Some? ==> r.targetAudience == p.targetAudience.value
    ensures p.toneFormal.Some? ==> r.toneFormal == p.toneFormal.value
    ensures p.toneLength.Some? ==> r.toneLength == p.toneLength.value
  {
    Settings(
      p.coreValues.GetOr(s.coreValues),
      p.forbiddenWords.GetOr(s.forbiddenWords),
      p.targetAudience.GetOr(s.targetAudience),
      p.toneFormal.GetOr(s.toneFormal),
      p.toneLength.GetOr(s.toneLength)
    )
  }

  /** `{ ...p, ...q }` on two partials: the later one wins where both have a field. */
  function Combine(p: Partial, q: Partial): Partial {
    Partial(
      if q.coreValues.Some? then q.coreValues else p.coreValues,
      if q.forbiddenWords.Some? then q.forbiddenWords else p.forbiddenWords,
      if q.targetAudience.Some? then q.targetAudience else p.targetAudience,
      if q.toneFormal.Some? then q.toneFormal else p.toneFormal,
      if q.toneLength.Some? then q.toneLength else p.toneLength
    )
  }

  /** Applying the same update twice is the same as applying it once. */
  lemma MergeIdempotent(s: Settings, p: Partial)
    ensures Merge(Merge(s, p), p) == Merge(s, p)
  {
  }

  /** An update with no fields changes nothing. */
  lemma MergeNoChanges(s: Settings)
    ensures Merge(s, NoChanges) == s
  {
  }

  /** Two updates in a row are one update with their fields combined, the later winning. */
  lemma MergeCombine(s: Settings, p: Partial, q: Partial)
    ensures Merge(Merge(s, p), q) == Merge(s, Combine(p, q))
  {
  }

  /** A complete record replaces every field. */
  lemma MergeFull(s: Settings, t: Settings)
    ensures Merge(s, Full(t)) == t
  {
  }

  /**
   * The load effect: nothing stored, an empty string or a text that does not
   * parse leave the defaults; a parsed record is spread over the defaults.
   */
  function LoadSettings(saved: Option<Item<Partial>>): (r: Settings)
    ensures !(saved.Some? && saved.value.Json?) ==> r == Defaults
    ensures saved.Some? && saved.value.Json? ==> r == Merge(Defaults, saved.value.value)
  {
    if Truthy(saved) then
      match saved.value
      case Json(p) => Merge(Defaults, p)
      case _ => Defaults
    else Defaults
  }

  /** Settings saved by the save effect load back unchanged. */
  lemma LoadSaved(s: Settings)
    ensures LoadSettings(Some(Json(Full(s)))) == s
  {
  }

  /** Fields missing from the stored record keep their default values. */
  lemma LoadKeepsMissingDefaults(p: Partial)
    ensures var r := LoadSettings(Some(Json(p)));
      && (p.coreValues.None? ==> r.coreValues == Defaults.coreValues)
      && (p.forbiddenWords.None? ==> r.forbiddenWords == Defaults.forbiddenWords)
      && (p.targetAudience.None? ==> r.targetAudience == Defaults.targetAudience)
      && (p.toneFormal.None? ==> r.toneFormal == Defaults.toneFormal)
      && (p.toneLength.None? ==> r.toneLength == Defaults.toneLength)
  {
  }

  /** The tone label: Formal from 70, Balanced from 40, Casual below. */
  function ToneLabel(toneFormal: int): (r: string)
    ensures r == "Formal" <==> toneFormal >= 70
    ensures r == "Balanced" <==> 40 <= toneFormal < 70
    ensures r == "Casual" <==> toneFormal < 40
  {
    if toneFormal >= 70 then "Formal" else if toneFormal >= 40 then "Balanced" else "Casual"
  }

  /** The length label: Long from 70, Medium from 40, Short below. */
  function LengthLabel(toneLength: int): (r: string)
    ensures r == "Long" <==> toneLength >= 70
    ensures r == "Medium" <==> 40 <= toneLength < 70
    ensures r == "Short" <==> toneLength < 40
  {
    if toneLength >= 70 then "Long" else if toneLength >= 40 then "Medium" else "Short"
  }

  /** `getVoiceLabel()`: the two labels joined by a bullet. */
  function VoiceLabel(s: Settings): string {
    ToneLabel(s.toneFormal) + " • " + LengthLabel(s.toneLength)
  }

  /** The label reads back both bands: two settings share a label exactly when they share both bands. */
  lemma VoiceLabelReadsBack(s: Settings, t: Settings)
    ensures VoiceLabel(s) == VoiceLabel(t) <==>
      ToneLabel(s.toneFormal) == ToneLabel(t.toneFormal) && LengthLabel(s.toneLength) == LengthLabel(t.toneLength)
  {
    var a, b := ToneLabel(s.toneFormal), ToneLabel(t.toneFormal);
    var x, y := LengthLabel(s.toneLength), LengthLabel(t.toneLength);
    if VoiceLabel(s) == VoiceLabel(t) {
      assert VoiceLabel(s)[0] == a[0] && VoiceLabel(t)[0] == b[0];
      assert a == b;
      assert VoiceLabel(s)[|a| + 3..] == x && VoiceLabel(t)[|b| + 3..] == y;
    }
  }

  /** The defaults read "Formal • Medium". */
  lemma DefaultVoiceLabel()
    ensures VoiceLabel(Defaults) == "Formal • Medium"
  {
  }

  /** The thresholds are inclusive: 70 is the first Formal/Long value, 40 the first Balanced/Medium one. */
  lemma LabelBoundaries()
    ensures ToneLabel(70) == "Formal" && ToneLabel(69) == "Balanced"
    ensures ToneLabel(40) == "Balanced" && ToneLabel(39) == "Casual"
    ensures LengthLabel(70) == "Long" && LengthLabel(69) == "Medium"
    ensures LengthLabel(40) == "Medium" && LengthLabel(39) == "Short"
  {
  }

  class BrandVoiceProvider {
    var settings: Settings
    /** What the save effect last wrote under `brandVoiceSettings`. */
    var persisted: Option<Settings>

    constructor ()
      ensures settings == Defaults && persisted == None
    {
      settings := Defaults;
      persisted := None;
    }

    /** Mount: the load effect, then the save effect writing the loaded settings back. */
    method Mount(saved: Option<Item<Partial>>)
      modifies this
      ensures settings == LoadSettings(saved)
      ensures persisted == Some(settings)
    {
      settings := LoadSettings(saved);
      persisted := Some(settings);
    }

    /** `updateSettings(newSettings)`, followed by the save effect. */
    method UpdateSettings(newSettings: Partial)
      modifies this
      ensures settings == Merge(old(settings), newSettings)
      ensures persisted == Some(settings)
    {
      settings := Merge(settings, newSettings);
      persisted := Some(settings);
    }

    function GetVoiceLabel(): string
      reads this
    {
      VoiceLabel(settings)
    }
  }
}

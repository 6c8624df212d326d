/**
 * The settings page's brand-voice tab. It keeps its own copy of the five
 * fields, starting from the same values as the context's defaults; the two
 * sliders are range inputs from 0 to 100, and "save" only toggles a flag around
 * a delay, writing nothing anywhere.
 */
module SettingsPage {
  import BrandVoice

  const SliderMin := 0
  const SliderMax := 100

  /** The value a range input with bounds 0 and 100 takes when asked for `requested`. */
  function Clamp(requested: int): (v: int)
    ensures SliderMin <= v <= SliderMax
    ensures SliderMin <= requested <= SliderMax ==> v == requested
    ensures requested < SliderMin ==> v == SliderMin
    ensures requested > SliderMax ==> v == SliderMax
  {
    if requested < SliderMin then SliderMin else if requested > SliderMax then SliderMax else requested
  }

  class SettingsPage {
    var coreValues: string
    var forbiddenWords: string
    var targetAudience: string
    var toneFormal: int
    var toneLength: int
    var isSaving: bool

    /** Both sliders stay within their bounds. */
    ghost predicate Valid()
      reads this
    {
      SliderMin <= toneFormal <= SliderMax && SliderMin <= toneLength <= SliderMax
    }

    /** The initial state: the context's default values, not saving. */
    constructor ()
      ensures Valid()
      ensures coreValues == BrandVoice.Defaults.coreValues
      ensures forbiddenWords == BrandVoice.Defaults.forbiddenWords
      ensures targetAudience == BrandVoice.Defaults.targetAudience
      ensures toneFormal == BrandVoice.Defaults.toneFormal && toneLength == BrandVoice.Defaults.toneLength
      ensures !isSaving
    {
      coreValues := "Professional, Trustworthy, Innovative";
      forbiddenWords := "cheap, guarantee, best";
      targetAudience := "B2B professionals, C-level executives";
      toneFormal := 70;
      toneLength := 60;
      isSaving := false;
    }

    /** The tone slider's `onChange`. */
    method SetToneFormal(requested: int)
      requires Valid()
      modifies this`toneFormal
      ensures Valid()
      ensures toneFormal == Clamp(requested)
    {
      toneFormal := Clamp(requested);
    }

    /** The length slider's `onChange`. */
    method SetToneLength(requested: int)
      requires Valid()
      modifies this`toneLength
      ensures Valid()
      ensures toneLength == Clamp(requested)
    {
      toneLength := Clamp(requested);
    }

    /** The caption next to the tone slider, the same thresholds as the context's tone label. */
    function ToneCaption(): (caption: string)
      reads this
      ensures caption == "Formal" <==> toneFormal >= 70
      ensures caption == "Balanced" <==> 40 <= toneFormal < 70
      ensures caption == "Casual" <==> toneFormal < 40
    {
      BrandVoice.ToneLabel(toneFormal)
    }

    /** The caption next to the length slider, the same thresholds as the context's length label. */
    function LengthCaption(): (caption: string)
      reads this
      ensures caption == "Long" <==> toneLength >= 70
      ensures caption == "Medium" <==> 40 <= toneLength < 70
      ensures caption == "Short" <==> toneLength < 40
    {
      BrandVoice.LengthLabel(toneLength)
    }

    /** The save button is disabled while saving. */
    predicate SaveDisabled()
      reads this
    {
      isSaving
    }

    /** The save button reads "Saving..." while saving, "Save Brand Voice" otherwise. */
    function SaveLabel(): (text: string)
      reads this
      ensures text == "Saving..." <==> SaveDisabled()
    {
      if isSaving then "Saving..." else "Save Brand Voice"
    }

    /** `handleSave` before its delay: only the flag changes. */
    method BeginSave()
      requires Valid()
      modifies this`isSaving
      ensures Valid()
      ensures isSaving && SaveDisabled() && SaveLabel() == "Saving..."
    {
      isSaving := true;
    }

    /** `handleSave` after its delay: only the flag changes back. */
    method FinishSave()
      requires Valid()
      modifies this`isSaving
      ensures Valid()
      ensures !isSaving && !SaveDisabled() && SaveLabel() == "Save Brand Voice"
    {
      isSaving := false;
    }
  }
}

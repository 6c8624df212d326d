/**
 * The editor's workbench page: the same phrase highlighting run over a fixed
 * demo document, and a success dialog opened by "complete" and closed again.
 */
module Redactie {
  import opened Wrappers
  import opened Highlight

  /** The demo text, written in two pieces around its first phrase. */
  const DemoDocumentContent := "Dit is een artikel over " + "digitale transformatie" + " in de moderne zakelijke wereld. Bedrijven moeten zich continu aanpassen aan nieuwe technologieën en veranderende klantverwachtingen. De sleutel tot succes ligt in het vinden van de juiste balans tussen innovatie en stabiliteit. Organisaties die succesvol zijn in deze transitie, investeren niet alleen in technologie, maar ook in hun mensen en processen."

  /** The demo text holds "digitale transformatie" right after "Dit is een artikel over ". */
  lemma DemoHoldsTransformatie()
    ensures Occurs(DemoDocumentContent, Transformatie.word)
  {
    OccursMiddle("Dit is een artikel over ", Transformatie.word, " in de moderne zakelijke wereld. Bedrijven moeten zich continu aanpassen aan nieuwe technologieën en veranderende klantverwachtingen. De sleutel tot succes ligt in het vinden van de juiste balans tussen innovatie en stabiliteit. Organisaties die succesvol zijn in deze transitie, investeren niet alleen in technologie, maar ook in hun mensen en processen.");
  }

  /** The highlighted demo text is never "" and is never the bare demo text: something is marked. */
  lemma DemoIsHighlighted()
    ensures Highlighted(DemoDocumentContent) != []
    ensures Highlighted(DemoDocumentContent) != DemoDocumentContent
  {
    HighlightedEmpty(DemoDocumentContent);
    DemoHoldsTransformatie();
    assert Transformatie in HighlightWords;
    HighlightedUnchanged(DemoDocumentContent);
  }

  class RedactiePage {
    var showSuccessModal: bool

    constructor ()
      ensures !showSuccessModal
    {
      showSuccessModal := false;
    }

    /** The workbench's `getHighlightedContent`, over the demo text. */
    method GetHighlightedContent() returns (r: string)
      ensures r == Highlighted(DemoDocumentContent)
      ensures r != [] && r != DemoDocumentContent
    {
      DemoIsHighlighted();
      r := HighlightedContent(DemoDocumentContent);
    }

    /** `handleComplete`: opens the success dialog. */
    method HandleComplete()
      modifies this
      ensures showSuccessModal
    {
      showSuccessModal := true;
    }

    /** `handleCloseSuccess`: closes the dialog and navigates nowhere. */
    method HandleCloseSuccess() returns (navigation: Option<string>)
      modifies this
      ensures !showSuccessModal
      ensures navigation == None
    {
      showSuccessModal := false;
      navigation := None;
    }
  }
}

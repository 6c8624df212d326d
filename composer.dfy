/**
 * The composer page: a chat whose replies are written word by word into an
 * editable document, and the request for editorial review.
 *
 * One tick of the reveal interval is one call of `ComposerPage.Tick`; the
 * 80 ms timer, the delays before a reply and all caret and scroll handling
 * are not modelled. Values a callback captured from an earlier render are
 * passed to it explicitly (`PendingReply`).
 */
module Composer {
  import opened Wrappers
  import opened Text
  import opened Store

  datatype Sender = System | User

  datatype Message = Message(id: int, sender: Sender, content: string, timestamp: string)

  datatype DocumentStatus = Draft | InReview | Approved | ChangesRequested

  const Greeting := Message(1, System, "Hallo! Het La Plume Intelligence platform is gereed. Wat wil je vandaag schrijven?", "10:50")

  const Acknowledgement := "Ik ga dit nu voor je schrijven..."

  // ---------------------------------------------------------------------------
  // generateContent: a keyword router over four templates
  // ---------------------------------------------------------------------------

  datatype Topic = Article | Social | Rewrite | General

  predicate Mentions(input: string, keyword: string) {
    Includes(ToLower(input), keyword)
  }

  /** The template group `generateContent` picks: the first whose keyword occurs in the lower-cased input. */
  function Route(input: string): (t: Topic)
    ensures t == Article <==> Mentions(input, "artikel") || Mentions(input, "article")
    ensures t == Social <==>
      !(Mentions(input, "artikel") || Mentions(input, "article"))
      && (Mentions(input, "social") || Mentions(input, "campaign"))
    ensures t == Rewrite <==>
      !(Mentions(input, "artikel") || Mentions(input, "article") || Mentions(input, "social") || Mentions(input, "campaign"))
      && (Mentions(input, "herschrijf") || Mentions(input, "rewrite"))
    ensures t == General <==>
      !(Mentions(input, "artikel") || Mentions(input, "article") || Mentions(input, "social")
        || Mentions(input, "campaign") || Mentions(input, "herschrijf") || Mentions(input, "rewrite"))
  {
    if Mentions(input, "artikel") || Mentions(input, "article") then Article
    else if Mentions(input, "social") || Mentions(input, "campaign") then Social
    else if Mentions(input, "herschrijf") || Mentions(input, "rewrite") then Rewrite
    else General
  }

  // The fixed parts of the four templates.
  const ArticleOpening := "In de hedendaagse wereld van digitale communicatie is het belang van weloverwogen geschreven content niet te onderschatten. "
  const SocialOpening := "Een effectieve social media campagne vereist meer dan alleen visuele aantrekkingskracht. Het gaat om het vertellen van een verhaal dat resoneert. "
  const RewriteOpening := "Herschrijven is een kunst die verder gaat dan simpelweg woorden vervangen. Het is een proces van verfijning, waarbij elke zin wordt geëvalueerd op helderheid, impact en authenticiteit. "
  const ArticleClosing := " vertegenwoordigt een kans om betekenisvolle verbindingen te leggen met je doelgroep. Door zorgvuldig te kiezen voor de juiste toon, structuur en boodschap, creëer je niet alleen informatie, maar ook waarde."
  const SocialClosing := " vormt de basis voor een strategie die niet alleen aandacht trekt, maar ook engagement genereert en duurzame relaties opbouwt."
  const RewriteClosing := " transformeren betekent de kern behouden terwijl de presentatie wordt geoptimaliseerd voor maximale effectiviteit."
  const GeneralClosing := " vormt het uitgangspunt voor een doordacht geschreven stuk. Door de essentie van je boodschap te distilleren en deze te presenteren met precisie en stijl, creëer je content die niet alleen informeert, maar ook inspireert en overtuigt."

  /** The template text before the embedded input. */
  function Opening(t: Topic): string {
    match t
    case Article => ArticleOpening
    case Social => SocialOpening
    case Rewrite => RewriteOpening
    case General => ""
  }

  /** The template text after the embedded input. */
  function Closing(t: Topic): string {
    match t
    case Article => ArticleClosing
    case Social => SocialClosing
    case Rewrite => RewriteClosing
    case General => GeneralClosing
  }

  /** `generateContent(input)`: every template embeds the input verbatim, between its opening and closing text. */
  function GenerateContent(input: string): (r: string)
    ensures Includes(r, input)
    ensures |r| > |input|
  {
    var t := Route(input);
    IncludesMiddle(Opening(t), input, Closing(t));
    Opening(t) + input + Closing(t)
  }

  /** The text `handleSend` asks the writer to reveal for the user's input. */
  function WritingPrompt(inputValue: string): (r: string)
    ensures Includes(r, inputValue) && |r| > |inputValue|
  {
    IncludesMiddle(PromptOpening, inputValue, PromptClosing);
    PromptOpening + inputValue + PromptClosing
  }

  const PromptOpening := "Dit is een voorbeeld van hoe de AI de tekst schrijft op basis van je input: \""
  const PromptClosing := "\". De tekst verschijnt geleidelijk in het document aan de rechterkant."

  /** The router looks only at the lower-cased input, so the case of the input never changes the template. */
  lemma RouteIgnoresCase(input: string)
    ensures Route(ToLower(input)) == Route(input)
  {
    assert ToLower(ToLower(input)) == ToLower(input);
  }

  // ---------------------------------------------------------------------------
  // The reveal loop of simulateAIWriting, as a specification
  // ---------------------------------------------------------------------------

  /** The separator one tick puts before its word: a space unless the text is empty or already ends with one. */
  function Separator(acc: string): (r: string)
    ensures r == "" || r == " "
    ensures r == " " ==> !EndsWith(acc, " ")
    ensures acc == "" ==> r == ""
    ensures acc != "" ==> EndsWith(acc + r, " ")
  {
    if acc != "" && !EndsWith(acc, " ") then " " else ""
  }

  /** One tick: the accumulated text with the next word appended. */
  function Append(acc: string, word: string): string {
    acc + Separator(acc) + word
  }

  /** The text after one tick per word of `words`, starting from `start`. */
  function Revealed(start: string, words: seq<string>): string
    decreases |words|
  {
    if words == [] then start
    else Append(Revealed(start, words[..|words| - 1]), words[|words| - 1])
  }

  /** The document a finished reveal of `text` leaves behind when it started from `start`. */
  function Expected(start: string, text: string): string {
    if start == "" then text
    else if EndsWith(start, " ") then start + text
    else start + " " + text
  }

  /** Every value the reveal publishes is a prefix of every later one: the document only grows. */
  lemma {:induction false} RevealedGrows(start: string, words: seq<string>, i: nat, j: nat)
    requires i <= j <= |words|
    ensures Revealed(start, words[..i]) <= Revealed(start, words[..j])
    decreases j
  {
    if i < j {
      RevealedGrows(start, words, i, j - 1);
      assert words[..j][..j - 1] == words[..j - 1];
    }
  }

  /** Appending to a finished reveal extends the text the reveal ends with. */
  lemma ExpectedSnoc(start: string, text: string, word: string)
    requires text != "" && text[|text| - 1] != ' '
    ensures Expected(start, text) != ""
    ensures Append(Expected(start, text), word) == Expected(start, text + " " + word)
  {
    var r := Expected(start, text);
    assert r[|r| - 1] == text[|text| - 1];
    assert !EndsWith(r, " ");
  }

  /** Revealing non-empty, space-free words one by one gives the words joined by single spaces after the start text. */
  lemma {:induction false} RevealedJoin(start: string, words: seq<string>)
    requires |words| >= 1
    requires forall w :: w in words ==> w != "" && ' ' !in w
    ensures Revealed(start, words) == Expected(start, Join(words, ' '))
    decreases |words|
  {
    var n := |words|;
    var last := words[n - 1];
    if n > 1 {
      var init := words[..n - 1];
      assert init + [last] == words;
      assert forall w :: w in init ==> w in words;
      RevealedJoin(start, init);
      assert init[|init| - 1] in words;
      JoinEndsWithLast(init, ' ');
      JoinSnoc(init, last, ' ');
      ExpectedSnoc(start, Join(init, ' '), last);
    }
  }

  /** A join ends with (the last character of) its last piece. */
  lemma {:induction false} JoinEndsWithLast(ws: seq<string>, sep: char)
    requires |ws| >= 1
    requires ws[|ws| - 1] != "" && sep !in ws[|ws| - 1]
    ensures var j := Join(ws, sep); j != "" && j[|j| - 1] == ws[|ws| - 1][|ws[|ws| - 1]| - 1] && j[|j| - 1] != sep
    decreases |ws|
  {
    if |ws| > 1 {
      JoinEndsWithLast(ws[1..], sep);
    }
  }

  /** One more tick extends the reveal of a prefix of the words by the next word. */
  lemma RevealedStep(start: string, words: seq<string>, i: nat)
    requires i < |words|
    ensures Revealed(start, words[..i + 1]) == Append(Revealed(start, words[..i]), words[i])
  {
    assert words[..i + 1][..i] == words[..i];
  }

  /**
   * The reveal of a text with no leading, trailing or doubled spaces ends with
   * exactly that text: on its own when the document was empty, after a single
   * separating space when the document did not end in one.
   */
  lemma RevealedText(start: string, text: string)
    requires WellSpaced(text, ' ')
    ensures Revealed(start, Split(text, ' ')) == Expected(start, text)
  {
    SplitWellSpaced(text, ' ');
    RevealedJoin(start, Split(text, ' '));
    JoinSplit(text, ' ');
  }

  // ---------------------------------------------------------------------------
  // The page
  // ---------------------------------------------------------------------------

  /** What `handleSend`'s delayed callbacks captured from the render in which it ran. */
  datatype PendingReply = PendingReply(input: string, messageCount: int, document: string)

  class ComposerPage {
    var messages: seq<Message>
    var inputValue: string
    var documentContent: string
    var isAIWriting: bool
    var documentStatus: DocumentStatus
    // the reveal started by the last call of simulateAIWriting
    var words: seq<string>
    var currentIndex: nat
    var accumulatedContent: string
    var intervalActive: bool
    ghost var origin: string

    /**
     * The reveal has written exactly the first `currentIndex` words after the
     * captured document, and the page counts as writing while the interval runs.
     */
    ghost predicate Valid()
      reads this
    {
      && currentIndex <= |words| && accumulatedContent == Revealed(origin, words[..currentIndex])
      && (intervalActive ==> isAIWriting)
    }

    constructor ()
      ensures Valid() && !intervalActive
      ensures messages == [Greeting] && inputValue == "" && documentContent == ""
      ensures !isAIWriting && documentStatus == Draft
    {
      messages := [Greeting];
      inputValue := "";
      documentContent := "";
      isAIWriting := false;
      documentStatus := Draft;
      words := [];
      currentIndex := 0;
      accumulatedContent := "";
      intervalActive := false;
      origin := "";
    }

    /** The editable surface accepts input only in `draft`. */
    predicate Editable()
      reads this
    {
      documentStatus == Draft
    }

    /** The send button is enabled for non-blank input while nothing is being written. */
    predicate SendEnabled()
      reads this
    {
      !IsBlank(inputValue) && !isAIWriting
    }

    /** The input field's `onChange`. */
    method SetInputValue(v: string)
      modifies this`inputValue
      ensures inputValue == v
    {
      inputValue := v;
    }

    /** `onInput` of the editable surface: the edit is kept only when nothing is being written and the status is `draft`. */
    method OnInput(text: string)
      modifies this`documentContent
      ensures documentContent == if !isAIWriting && documentStatus == Draft then text else old(documentContent)
      ensures Valid() && intervalActive ==> documentContent == old(documentContent)
    {
      if !isAIWriting && documentStatus == Draft {
        documentContent := text;
      }
    }

    /**
     * `handleSend`: blank input adds nothing; otherwise the user's message gets
     * id `messages.length + 1` and goes at the end, and the input is cleared.
     */
    method HandleSend(now: string) returns (pending: Option<PendingReply>)
      modifies this`messages, this`inputValue
      ensures IsBlank(old(inputValue)) ==>
        pending == None && messages == old(messages) && inputValue == old(inputValue)
      ensures !IsBlank(old(inputValue)) ==>
        && messages == old(messages) + [Message(|old(messages)| + 1, User, old(inputValue), now)]
        && inputValue == ""
        && pending == Some(PendingReply(old(inputValue), |old(messages)|, documentContent))
    {
      if IsBlank(inputValue) {
        return None;
      }
      pending := Some(PendingReply(inputValue, |messages|, documentContent));
      messages := messages + [Message(|messages| + 1, User, inputValue, now)];
      inputValue := "";
    }

    /** The first delayed callback of `handleSend`: the acknowledgement, numbered from the captured message count. */
    method Acknowledge(p: PendingReply, now: string)
      modifies this`messages
      ensures messages == old(messages) + [Message(p.messageCount + 2, System, Acknowledgement, now)]
    {
      messages := messages + [Message(p.messageCount + 2, System, Acknowledgement, now)];
    }

    /** `simulateAIWriting(userInput)`, with the document content its closure captured. */
    method SimulateAIWriting(userInput: string, capturedDocument: string)
      modifies this`isAIWriting, this`words, this`currentIndex, this`accumulatedContent,
        this`intervalActive, this`origin
      ensures Valid() && isAIWriting && intervalActive
      ensures words == Split(GenerateContent(userInput), ' ') && currentIndex == 0
      ensures origin == capturedDocument && accumulatedContent == capturedDocument
    {
      isAIWriting := true;
      var contentToWrite := GenerateContent(userInput);
      words := Split(contentToWrite, ' ');
      currentIndex := 0;
      accumulatedContent := capturedDocument;
      origin := capturedDocument;
      intervalActive := true;
    }

    /**
     * One tick of the interval: while words remain, append the next one (with a
     * separator only when needed) and publish the text; once they have run out,
     * clear the interval and stop writing.
     */
    method Tick()
      requires Valid() && intervalActive
      modifies this`accumulatedContent, this`documentContent, this`currentIndex,
        this`intervalActive, this`isAIWriting
      ensures Valid()
      ensures old(currentIndex) < |words| ==>
        && currentIndex == old(currentIndex) + 1
        && accumulatedContent == Append(old(accumulatedContent), words[old(currentIndex)])
        && documentContent == accumulatedContent
        && intervalActive && isAIWriting == old(isAIWriting)
      ensures old(currentIndex) == |words| ==>
        && currentIndex == old(currentIndex) && accumulatedContent == old(accumulatedContent)
        && documentContent == old(documentContent)
        && !intervalActive && !isAIWriting
      ensures old(accumulatedContent) <= accumulatedContent
    {
      if currentIndex < |words| {
        var word := words[currentIndex];
        accumulatedContent := accumulatedContent + Separator(accumulatedContent) + word;
        documentContent := accumulatedContent;
        RevealedStep(origin, words, currentIndex);
        currentIndex := currentIndex + 1;
      } else {
        intervalActive := false;
        isAIWriting := false;
      }
    }

    /**
     * Ticks until the interval is cleared: one tick per remaining word and one
     * more that stops, so the reveal always terminates, with every word written.
     */
    method RunToCompletion() returns (ticks: nat)
      requires Valid() && intervalActive
      modifies this`accumulatedContent, this`documentContent, this`currentIndex,
        this`intervalActive, this`isAIWriting
      ensures Valid() && !intervalActive && !isAIWriting
      ensures ticks == |words| - old(currentIndex) + 1
      ensures currentIndex == |words| && accumulatedContent == Revealed(origin, words)
      ensures old(currentIndex) < |words| ==> documentContent == accumulatedContent
      ensures old(accumulatedContent) <= accumulatedContent
    {
      ticks := 0;
      while intervalActive
        invariant Valid()
        invariant intervalActive ==> ticks == currentIndex - old(currentIndex)
        invariant !intervalActive ==> ticks == |words| - old(currentIndex) + 1 && currentIndex == |words|
        invariant old(currentIndex) <= currentIndex
        invariant !intervalActive ==> !isAIWriting
        invariant currentIndex > old(currentIndex) ==> documentContent == accumulatedContent
        invariant old(accumulatedContent) <= accumulatedContent
        decreases |words| - currentIndex, intervalActive
      {
        Tick();
        ticks := ticks + 1;
      }
      assert words[..|words|] == words;
    }

    /**
     * The whole reply: `handleSend`'s writing callback followed by every tick.
     * A generated text with no stray spaces ends up in the document after the
     * captured content, separated by one space when needed.
     */
    method WriteReply(p: PendingReply)
      modifies this`isAIWriting, this`words, this`currentIndex, this`accumulatedContent,
        this`intervalActive, this`origin, this`documentContent
      ensures Valid() && !intervalActive && !isAIWriting
      ensures documentContent == Revealed(p.document, Split(GenerateContent(WritingPrompt(p.input)), ' '))
      ensures WellSpaced(GenerateContent(WritingPrompt(p.input)), ' ') ==>
        documentContent == Expected(p.document, GenerateContent(WritingPrompt(p.input)))
    {
      SimulateAIWriting(WritingPrompt(p.input), p.document);
      var _ := RunToCompletion();
      var text := GenerateContent(WritingPrompt(p.input));
      if WellSpaced(text, ' ') {
        RevealedText(p.document, text);
      }
    }

    /** The "Request Editorial Review" button, shown only in `draft`: lock the document and store it for review. */
    method RequestReview(store: Storage, now: Instant)
      modifies this`documentStatus, store
      ensures old(documentStatus) == Draft ==>
        && documentStatus == InReview
        && store.items == old(store.items)[ReviewDocumentKey := Json(ReviewDocument(Some(documentContent), None, now))]
      ensures old(documentStatus) != Draft ==>
        documentStatus == old(documentStatus) && store.items == old(store.items)
    {
      if documentStatus == Draft {
        documentStatus := InReview;
        store.SetItem(ReviewDocumentKey, Json(ReviewDocument(Some(documentContent), None, now)));
      }
    }

    /** The "View in Review Panel" button, shown only while in review. */
    method ViewInReviewPanel() returns (navigation: Option<string>)
      ensures navigation.Some? <==> documentStatus == InReview
      ensures navigation.Some? ==> navigation.value == "/review"
    {
      navigation := if documentStatus == InReview then Some("/review") else None;
    }
  }
}

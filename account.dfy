/**
 * The account context: the account tier and the list of documents submitted
 * for editing, both loaded from storage on mount and written back after every
 * change. `Date.now()` is a parameter; ISO timestamps are kept as instants.
 */
module Account {
  import opened Wrappers
  import opened Text
  import opened Store

  datatype Tier = Basic | Premium

  /** The string the save effect stores under `accountTier`. */
  function TierName(t: Tier): string {
    match t
    case Basic => "basic"
    case Premium => "premium"
  }

  /**
   * The load effect for `accountTier`: only the two exact tier names are
   * adopted; anything else, or nothing stored, keeps the tier in state.
   */
  function LoadTier(saved: Option<string>, current: Tier): (t: Tier)
    ensures saved == Some("premium") ==> t == Premium
    ensures saved == Some("basic") ==> t == Basic
    ensures saved != Some("premium") && saved != Some("basic") ==> t == current
  {
    if saved == Some("premium") then Premium
    else if saved == Some("basic") then Basic
    else current
  }

  /** A stored tier name loads back as the tier that was saved, whatever the state held. */
  lemma LoadTierSaved(t: Tier, current: Tier)
    ensures LoadTier(Some(TierName(t)), current) == t
  {
  }

  datatype DocumentStatus = SubmittedForEditing | Completed

  datatype SubmittedDocument = SubmittedDocument(
    id: string,
    content: string,
    timestamp: Instant,
    status: DocumentStatus,
    editor: string
  )

  const Editor := "Saskia"

  const HourMs := 60 * 60 * 1000

  const Dummy1Content := "Dit is een artikel over digitale transformatie in de moderne zakelijke wereld. Bedrijven moeten zich continu aanpassen aan nieuwe technologieën en veranderende klantverwachtingen. De sleutel tot succes ligt in het vinden van de juiste balans tussen innovatie en stabiliteit."
  const Dummy2Content := "Social media strategieën voor 2025: een uitgebreide gids voor marketeers die willen excelleren in digitale communicatie. We bespreken de nieuwste trends, best practices en concrete tips voor het opbouwen van een sterke online aanwezigheid."
  const Dummy3Content := "Product launch campagne voor het nieuwe kwartaal. We focussen op het creëren van buzz en anticipatie door middel van strategische content marketing en influencer partnerships."
  const Dummy4Content := "Brand guidelines documentatie voor het herpositioneren van ons merk. Dit omvat tone of voice richtlijnen, visuele identiteit en communicatiestrategieën die consistentie waarborgen across alle kanalen."
  const Dummy5Content := "Website copy voor de nieuwe landingspagina. Focus op conversie-optimalisatie en het duidelijk communiceren van onze unique value proposition aan potentiële klanten."

  /** One of the demo documents, submitted `hoursAgo` hours before `now`. */
  function Dummy(id: string, content: string, now: int, hoursAgo: nat): (d: SubmittedDocument)
    ensures d.status == SubmittedForEditing && d.editor == Editor && d.timestamp.ms <= now
  {
    SubmittedDocument(id, content, Instant(now - hoursAgo * HourMs), SubmittedForEditing, Editor)
  }

  /** `getDummyDocuments()`: five demo documents, all submitted before `now` and awaiting the editor. */
  function DummyDocuments(now: int): (r: seq<SubmittedDocument>)
    ensures |r| == 5
    ensures forall d :: d in r ==> d.status == SubmittedForEditing && d.editor == Editor && d.timestamp.ms <= now
    ensures r[0].id == "doc-dummy-1" && r[1].id == "doc-dummy-2" && r[2].id == "doc-dummy-3"
    ensures r[3].id == "doc-dummy-4" && r[4].id == "doc-dummy-5"
  {
    [
      Dummy("doc-dummy-1", Dummy1Content, now, 30),
      Dummy("doc-dummy-2", Dummy2Content, now, 5),
      Dummy("doc-dummy-3", Dummy3Content, now, 1),
      Dummy("doc-dummy-4", Dummy4Content, now, 48),
      Dummy("doc-dummy-5", Dummy5Content, now, 3)
    ]
  }

  /**
   * The load effect for `submittedDocuments`: a parsed, non-empty list is
   * used as it is; nothing stored, an empty string, a text that does not parse
   * or an empty list all give the demo documents.
   */
  function LoadDocuments(saved: Option<Item<seq<SubmittedDocument>>>, now: int): (r: seq<SubmittedDocument>)
    ensures |r| > 0
    ensures (saved.Some? && saved.value.Json? && |saved.value.value| > 0) ==> r == saved.value.value
    ensures !(saved.Some? && saved.value.Json? && |saved.value.value| > 0) ==> r == DummyDocuments(now)
  {
    if Truthy(saved) then
      match saved.value
      case Json(docs) => if |docs| > 0 then docs else DummyDocuments(now)
      case _ => DummyDocuments(now)
    else DummyDocuments(now)
  }

  /** A list the save effect wrote loads back unchanged, unless it was empty. */
  lemma LoadDocumentsSaved(docs: seq<SubmittedDocument>, now: int)
    requires docs != []
    ensures LoadDocuments(Some(Json(docs)), now) == docs
  {
  }

  /** The record `submitDocumentForEditing(content)` creates at time `now`. */
  function NewSubmission(content: string, now: nat): (d: SubmittedDocument)
    ensures |d.id| > 4 && d.id[..4] == "doc-" && d.content == content
    ensures d.status == SubmittedForEditing && d.editor == Editor
  {
    SubmittedDocument("doc-" + Decimal(now), content, Instant(now), SubmittedForEditing, Editor)
  }

  /** Submissions made at different times get different ids, and the id tells the time back. */
  lemma NewSubmissionIds(c1: string, c2: string, t1: nat, t2: nat)
    ensures NewSubmission(c1, t1).id == NewSubmission(c2, t2).id <==> t1 == t2
  {
    var i1, i2 := NewSubmission(c1, t1).id, NewSubmission(c2, t2).id;
    if i1 == i2 {
      assert i1[4..] == Decimal(t1) && i2[4..] == Decimal(t2);
      DecimalInjective(t1, t2);
    }
  }

  /** `[...prev, newDocument]`: one record more, at the end, everything before it unchanged. */
  function AppendSubmission(docs: seq<SubmittedDocument>, content: string, now: nat): (r: seq<SubmittedDocument>)
    ensures |r| == |docs| + 1
    ensures r[..|docs|] == docs
    ensures r[|docs|].content == content && r[|docs|].status == SubmittedForEditing && r[|docs|].editor == Editor
  {
    docs + [NewSubmission(content, now)]
  }

  /** The record with its status replaced when its id matches, untouched otherwise. */
  function SetStatusIfId(doc: SubmittedDocument, id: string, status: DocumentStatus): SubmittedDocument {
    if doc.id == id then doc.(status := status) else doc
  }

  /** `prev.map(doc => doc.id === documentId ? { ...doc, status } : doc)`. */
  function WithStatus(docs: seq<SubmittedDocument>, id: string, status: DocumentStatus): (r: seq<SubmittedDocument>)
    ensures |r| == |docs|
    decreases |docs|
  {
    if docs == [] then [] else [SetStatusIfId(docs[0], id, status)] + WithStatus(docs[1..], id, status)
  }

  /**
   * The status update keeps length and order: a record whose id matches gets
   * the new status and keeps every other field; any other record is untouched.
   */
  lemma {:induction false} WithStatusAt(docs: seq<SubmittedDocument>, id: string, status: DocumentStatus, i: nat)
    requires i < |docs|
    ensures |WithStatus(docs, id, status)| == |docs|
    ensures var r := WithStatus(docs, id, status)[i];
      && (docs[i].id == id ==> r == docs[i].(status := status))
      && (docs[i].id != id ==> r == docs[i])
    decreases |docs|
  {
    if i > 0 {
      WithStatusAt(docs[1..], id, status, i - 1);
    } else if |docs| > 1 {
      WithStatusAt(docs[1..], id, status, 0);
    }
  }

  /** Updating to the same status twice is the same as once. */
  lemma {:induction false} WithStatusIdempotent(docs: seq<SubmittedDocument>, id: string, status: DocumentStatus)
    ensures WithStatus(WithStatus(docs, id, status), id, status) == WithStatus(docs, id, status)
    decreases |docs|
  {
    if docs != [] {
      WithStatusIdempotent(docs[1..], id, status);
      var r := WithStatus(docs, id, status);
      assert r[1..] == WithStatus(docs[1..], id, status);
    }
  }

  /** An id that no record carries leaves the list as it was. */
  lemma {:induction false} WithStatusAbsent(docs: seq<SubmittedDocument>, id: string, status: DocumentStatus)
    requires forall d :: d in docs ==> d.id != id
    ensures WithStatus(docs, id, status) == docs
    decreases |docs|
  {
    if docs != [] {
      assert forall d :: d in docs[1..] ==> d in docs;
      WithStatusAbsent(docs[1..], id, status);
    }
  }

  class AccountProvider {
    var accountTier: Tier
    var submittedDocuments: seq<SubmittedDocument>
    /** What the save effects last wrote under `accountTier` and `submittedDocuments`. */
    var persistedTier: Option<string>
    var persistedDocuments: Option<seq<SubmittedDocument>>

    constructor ()
      ensures accountTier == Basic && submittedDocuments == []
      ensures persistedTier == None && persistedDocuments == None
    {
      accountTier := Basic;
      submittedDocuments := [];
      persistedTier := None;
      persistedDocuments := None;
    }

    /** `isPremium`. */
    predicate IsPremium()
      reads this
    {
      accountTier == Premium
    }

    /** Mount: both load effects, then the save effects writing the loaded values back. */
    method Mount(savedTier: Option<string>, savedDocuments: Option<Item<seq<SubmittedDocument>>>, now: int)
      modifies this
      ensures accountTier == LoadTier(savedTier, old(accountTier))
      ensures submittedDocuments == LoadDocuments(savedDocuments, now)
      ensures persistedTier == Some(TierName(accountTier))
      ensures persistedDocuments == Some(submittedDocuments)
    {
      if savedTier == Some("premium") || savedTier == Some("basic") {
        accountTier := if savedTier == Some("premium") then Premium else Basic;
      }
      submittedDocuments := LoadDocuments(savedDocuments, now);
      persistedTier := Some(TierName(accountTier));
      persistedDocuments := Some(submittedDocuments);
    }

    method UpgradeToPremium()
      modifies this
      ensures accountTier == Premium && IsPremium()
      ensures persistedTier == Some("premium")
      ensures submittedDocuments == old(submittedDocuments) && persistedDocuments == old(persistedDocuments)
    {
      accountTier := Premium;
      persistedTier := Some(TierName(accountTier));
    }

    method DowngradeToBasic()
      modifies this
      ensures accountTier == Basic && !IsPremium()
      ensures persistedTier == Some("basic")
      ensures submittedDocuments == old(submittedDocuments) && persistedDocuments == old(persistedDocuments)
    {
      accountTier := Basic;
      persistedTier := Some(TierName(accountTier));
    }

    /** `submitDocumentForEditing(content)` at time `now`. */
    method SubmitDocumentForEditing(content: string, now: nat)
      modifies this
      ensures submittedDocuments == old(submittedDocuments) + [NewSubmission(content, now)]
      ensures persistedDocuments == Some(submittedDocuments)
      ensures accountTier == old(accountTier) && persistedTier == old(persistedTier)
    {
      submittedDocuments := AppendSubmission(submittedDocuments, content, now);
      persistedDocuments := Some(submittedDocuments);
    }

    /** `updateDocumentStatus(documentId, status)`. */
    method UpdateDocumentStatus(documentId: string, status: DocumentStatus)
      modifies this
      ensures submittedDocuments == WithStatus(old(submittedDocuments), documentId, status)
      ensures persistedDocuments == Some(submittedDocuments)
      ensures accountTier == old(accountTier) && persistedTier == old(persistedTier)
    {
      submittedDocuments := WithStatus(submittedDocuments, documentId, status);
      persistedDocuments := Some(submittedDocuments);
    }
  }
}

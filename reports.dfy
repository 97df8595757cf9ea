/** The report list endpoint (`GET /api/reports`): fetch the cards of the Trello
    list and project each one onto the few fields the dashboard shows. */
module Reports {
  import opened Wrappers

  /** An attachment of a fetched card; only its URL is read. */
  datatype RawAttachment = RawAttachment(url: string)

  /** A card as Trello returns it; `attachments` is `None` when the field is missing. */
  datatype RawCard = RawCard(
    id: string, name: string, desc: string, url: string,
    attachments: Option<seq<RawAttachment>>)

  /** A card as the endpoint returns it. */
  datatype Report = Report(id: string, name: string, desc: string, url: string, attachments: seq<string>)

  /** `card.attachments?.map((a) => a.url) || []`. */
  function AttachmentUrls(attachments: Option<seq<RawAttachment>>): (r: seq<string>)
    ensures attachments.None? ==> r == []
    ensures attachments.Some? ==> |r| == |attachments.value|
    ensures attachments.Some? ==> forall k :: 0 <= k < |r| ==> r[k] == attachments.value[k].url
  {
    match attachments
    case None => []
    case Some(a) => seq(|a|, k requires 0 <= k < |a| => a[k].url)
  }

  /** `cards.map(...)`: one report per card, in the same order, with the card's own
      fields and the URLs of its attachments. */
  function Project(cards: seq<RawCard>): (r: seq<Report>)
    ensures |r| == |cards|
    ensures forall i :: 0 <= i < |r| ==>
      && r[i].id == cards[i].id && r[i].name == cards[i].name
      && r[i].desc == cards[i].desc && r[i].url == cards[i].url
      && r[i].attachments == AttachmentUrls(cards[i].attachments)
  {
    seq(|cards|, i requires 0 <= i < |cards| =>
      Report(cards[i].id, cards[i].name, cards[i].desc, cards[i].url, AttachmentUrls(cards[i].attachments)))
  }

  /** Projecting a list is projecting its parts: the endpoint neither reorders, drops nor merges cards. */
  lemma {:induction false} ProjectAppend(a: seq<RawCard>, b: seq<RawCard>)
    ensures Project(a + b) == Project(a) + Project(b)
  {
    assert forall i :: 0 <= i < |a + b| ==> Project(a + b)[i] == (Project(a) + Project(b))[i];
  }

  /** Fetching the cards: the call itself threw; or a reply came back with its
      status and, once it is ok, its body read as a card list (or the error that
      reading or mapping it raised). */
  datatype CardsFetch =
    | FetchFailed(message: string)
    | CardsReply(ok: bool, cards: Result<seq<RawCard>>)

  /** The JSON response with its HTTP status. */
  datatype ReportsResponse = ReportsResponse(
    status: nat, success: bool, message: Option<string>, data: Option<seq<Report>>)

  const FetchFailedMessage: string := "Failed to fetch Trello cards"

  /** `GET`: the projected cards, or a failure with status 500 and no data. */
  function Get(fetch: CardsFetch): (r: ReportsResponse)
    ensures r.success <==> fetch.CardsReply? && fetch.ok && fetch.cards.Ok?
    ensures r.success ==> r.status == 200 && r.data == Some(Project(fetch.cards.value))
    ensures !r.success ==> r.status == 500 && r.data.None? && r.message.Some?
    ensures fetch.FetchFailed? ==> r.message == Some(fetch.message)
    ensures fetch.CardsReply? && !fetch.ok ==> r.message == Some(FetchFailedMessage)
    ensures fetch.CardsReply? && fetch.ok && fetch.cards.Err? ==> r.message == Some(fetch.cards.message)
  {
    match fetch
    case FetchFailed(m) => ReportsResponse(500, false, Some(m), None)
    case CardsReply(ok, cards) =>
      if !ok then ReportsResponse(500, false, Some(FetchFailedMessage), None)
      else match cards
        case Err(m) => ReportsResponse(500, false, Some(m), None)
        case Ok(cs) => ReportsResponse(200, true, None, Some(Project(cs)))
  }
}

/**
 * The admin route app/api/admin/responses/send-confirmation/route.ts: look a
 * response row up, reshape it into the key-value record form and send the
 * RSVP confirmation email for it. It never writes.
 */
module SendConfirmation {
  import opened Wrappers
  import opened Records
  import Email

  const MSG_ID_REQUIRED: string := "Response ID is required"
  const MSG_NOT_FOUND: string := "Response not found"
  const MSG_FAILED: string := "Failed to send RSVP confirmation email"
  const MSG_SENT: string := "RSVP confirmation email sent successfully"

  /** A route's JSON answer: a success message, or an error with its status and details. */
  datatype RouteReply = Success(message: string) | Failure(status: int, error: string, details: Option<string>)

  /** `{ haldi: Boolean(events?.haldi), ... }`: exactly the five keys, each read as a boolean. */
  function NormalisedEvents(events: Events): (ev: Events)
    ensures |ev| == |EVENT_KEYS|
    ensures forall i :: 0 <= i < |EVENT_KEYS| ==> ev[i] == Flag(EVENT_KEYS[i], Selected(events, EVENT_KEYS[i]))
  {
    [Flag(HALDI, Selected(events, HALDI)), Flag(SANGEET, Selected(events, SANGEET)),
     Flag(WEDDING, Selected(events, WEDDING)), Flag(RECEPTION, Selected(events, RECEPTION)),
     Flag(COLORADO_RECEPTION, Selected(events, COLORADO_RECEPTION))]
  }

  /** Normalising keeps every one of the five flags and drops everything else. */
  lemma NormalisedEventsKeepFlags(events: Events, key: string)
    ensures key in EVENT_KEYS ==> Selected(NormalisedEvents(events), key) == Selected(events, key)
    ensures key !in EVENT_KEYS ==> Lookup(NormalisedEvents(events), key) == None
  {
    var ev := NormalisedEvents(events);
    assert ev[0].key == HALDI && ev[1].key == SANGEET && ev[2].key == WEDDING;
    assert ev[3].key == RECEPTION && ev[4].key == COLORADO_RECEPTION;
  }

  /** Normalising a normalised object changes nothing. */
  lemma NormalisedEventsIdempotent(events: Events)
    ensures NormalisedEvents(NormalisedEvents(events)) == NormalisedEvents(events)
  {
    forall key | key in EVENT_KEYS
      ensures Selected(NormalisedEvents(events), key) == Selected(events, key)
    {
      NormalisedEventsKeepFlags(events, key);
    }
  }

  /** The `formattedResponse` built from a row: `inviteId` from `invite_id`, events normalised. */
  function Formatted(row: DbResponse): (r: Response)
    ensures r.id == row.id && r.name == row.name && r.email == row.email && r.phone == row.phone
    ensures r.inviteId == row.invite_id && r.additional_guests == Num(row.additional_guests)
    ensures r.events == Some(NormalisedEvents(row.events))
    ensures r.created_at == row.created_at && r.updated_at == row.updated_at
  {
    Response(row.id, row.name, row.email, row.phone, row.invite_id, Num(row.additional_guests),
             Some(NormalisedEvents(row.events)), row.created_at, row.updated_at, None)
  }

  /** `!responseId`: absent or empty. */
  predicate MissingId(responseId: Option<string>) {
    responseId.None? || responseId.value == ""
  }

  /**
   * `POST`: `rows` is the response table, `readError` is `Some(message)`
   * when the row lookup throws, `baseUrl` the configured site address and
   * `provider` the mail provider's outcome. Everything thrown after the id
   * check is answered with 500 and the thrown message.
   */
  function Confirm(rows: map<string, DbResponse>, responseId: Option<string>, readError: Option<string>,
                   baseUrl: Option<string>, provider: Email.Provider): (reply: RouteReply)
    ensures MissingId(responseId) ==> reply == Failure(400, MSG_ID_REQUIRED, None)
    ensures !MissingId(responseId) && readError.Some? ==> reply == Failure(500, MSG_FAILED, readError)
    ensures !MissingId(responseId) && readError.None? && responseId.value !in rows
            ==> reply == Failure(404, MSG_NOT_FOUND, None)
    ensures reply.Success? ==> reply == Success(MSG_SENT) && readError.None? && provider == Email.Accepted
  {
    if MissingId(responseId) then Failure(400, MSG_ID_REQUIRED, None)
    else if readError.Some? then Failure(500, MSG_FAILED, readError)
    else if responseId.value !in rows then Failure(404, MSG_NOT_FOUND, None)
    else match Email.SendConfirmation(Formatted(rows[responseId.value]), baseUrl, provider)
      case Err(m) => Failure(500, MSG_FAILED, Some(m))
      case Ok(_) => Success(MSG_SENT)
  }

  /**
   * There is no sent-flag guard: a stored row with an address and an attended
   * event gets a confirmation on every call the provider accepts, whatever
   * its `welcome_email_sent` says.
   */
  lemma ConfirmationNeverGuarded(rows: map<string, DbResponse>, id: string, baseUrl: Option<string>, key: string)
    requires id != "" && id in rows && rows[id].email != ""
    requires key in EVENT_KEYS && Selected(rows[id].events, key)
    ensures Confirm(rows, Some(id), None, baseUrl, Email.Accepted) == Success(MSG_SENT)
    ensures Confirm(rows[id := rows[id].(welcome_email_sent := !rows[id].welcome_email_sent)], Some(id), None, baseUrl,
                    Email.Accepted)
         == Success(MSG_SENT)
  {
    var r := Formatted(rows[id]);
    var ev := NormalisedEvents(rows[id].events);
    var i :| 0 <= i < |EVENT_KEYS| && EVENT_KEYS[i] == key;
    assert ev[i] == Flag(key, true);
    Email.SendSucceedsIff(r, baseUrl, Email.Accepted);
    var rows' := rows[id := rows[id].(welcome_email_sent := !rows[id].welcome_email_sent)];
    assert Formatted(rows'[id]) == r;
  }

  /**
   * A stored row whose email step fails is answered with 500 and the step's
   * message: the prefixed text for an error the provider reports, the thrown
   * text itself when the provider throws.
   */
  lemma SendFailureIs500(rows: map<string, DbResponse>, id: string, baseUrl: Option<string>, key: string, m: string)
    requires id != "" && id in rows && rows[id].email != ""
    requires key in EVENT_KEYS && Selected(rows[id].events, key)
    ensures Confirm(rows, Some(id), None, baseUrl, Email.Reported(m)) == Failure(500, MSG_FAILED, Some(Email.MSG_SEND_FAILED + m))
    ensures Confirm(rows, Some(id), None, baseUrl, Email.Threw(m)) == Failure(500, MSG_FAILED, Some(m))
  {
    var r := Formatted(rows[id]);
    var ev := NormalisedEvents(rows[id].events);
    var i :| 0 <= i < |EVENT_KEYS| && EVENT_KEYS[i] == key;
    assert ev[i] == Flag(key, true);
    Email.AttendingEventsMembers(ev, key);
    Email.ProviderErrorFails(r, baseUrl, m);
  }
}

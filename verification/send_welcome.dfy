/**
 * The admin route app/api/admin/responses/send-welcome/route.ts: send the
 * welcome email for one response row at most once, recording the send in
 * the row's `welcome_email_sent` flag after the mail has gone out.
 */
module SendWelcome {
  import opened Wrappers
  import opened Records
  import opened Stores
  import opened SendConfirmation

  const MSG_ALREADY_SENT: string := "Welcome email has already been sent to this recipient"
  const MSG_WELCOME_FAILED: string := "Failed to send welcome email"
  const MSG_WELCOME_SENT: string := "Welcome email sent successfully"

  /** One call's effect: the answer, the response table afterwards, and whether an email went out. */
  datatype WelcomeStep = WelcomeStep(reply: RouteReply, rows: map<string, DbResponse>, sent: bool)

  /**
   * `POST`. The database and the welcome mailer are oracles: `readError` is
   * `Some(message)` when the row lookup throws, `sendError` the same for the
   * mailer and `updateError` for the flag update.
   */
  function Welcome(rows: map<string, DbResponse>, responseId: Option<string>, readError: Option<string>,
                   sendError: Option<string>, updateError: Option<string>): (w: WelcomeStep)
    ensures w.rows.Keys == rows.Keys
    ensures forall k :: k in rows && (responseId.None? || k != responseId.value) ==> w.rows[k] == rows[k]
    ensures w.sent ==> !MissingId(responseId) && responseId.value in rows
                       && !rows[responseId.value].welcome_email_sent && readError.None? && sendError.None?
  {
    if MissingId(responseId) then WelcomeStep(Failure(400, MSG_ID_REQUIRED, None), rows, false)
    else if readError.Some? then WelcomeStep(Failure(500, MSG_WELCOME_FAILED, readError), rows, false)
    else
      var id := responseId.value;
      if id !in rows then WelcomeStep(Failure(404, MSG_NOT_FOUND, None), rows, false)
      else if rows[id].welcome_email_sent then WelcomeStep(Failure(400, MSG_ALREADY_SENT, None), rows, false)
      else if sendError.Some? then WelcomeStep(Failure(500, MSG_WELCOME_FAILED, sendError), rows, false)
      else if updateError.Some? then WelcomeStep(Failure(500, MSG_WELCOME_FAILED, updateError), rows, true)
      else WelcomeStep(Success(MSG_WELCOME_SENT), rows[id := rows[id].(welcome_email_sent := true)], true)
  }

  /** The route over the database: the same steps, with the flag written in place. */
  method SendWelcomeEmail(db: Database, responseId: Option<string>, readError: Option<string>,
                          sendError: Option<string>, updateError: Option<string>) returns (reply: RouteReply, sent: bool)
    modifies db
    ensures var w := Welcome(old(db.responses), responseId, readError, sendError, updateError);
      reply == w.reply && sent == w.sent && db.responses == w.rows
    ensures db.invites == old(db.invites)
  {
    sent := false;
    if responseId.None? || responseId.value == "" {
      return Failure(400, MSG_ID_REQUIRED, None), sent;
    }
    if readError.Some? {
      return Failure(500, MSG_WELCOME_FAILED, readError), sent;
    }
    var id := responseId.value;
    if id !in db.responses {
      return Failure(404, MSG_NOT_FOUND, None), sent;
    }
    var row := db.responses[id];
    if row.welcome_email_sent {
      return Failure(400, MSG_ALREADY_SENT, None), sent;
    }
    if sendError.Some? {
      return Failure(500, MSG_WELCOME_FAILED, sendError), sent;
    }
    sent := true;
    if updateError.Some? {
      return Failure(500, MSG_WELCOME_FAILED, updateError), sent;
    }
    db.responses := db.responses[id := row.(welcome_email_sent := true)];
    reply := Success(MSG_WELCOME_SENT);
  }

  /** The email the welcome mailer is handed: the normalised row, carrying its flag. */
  function WelcomeMessage(row: DbResponse): (r: Response)
    ensures r.welcome_email_sent == Some(row.welcome_email_sent)
    ensures r.inviteId == row.invite_id && r.events == Some(NormalisedEvents(row.events))
  {
    Formatted(row).(welcome_email_sent := Some(row.welcome_email_sent))
  }

  /** The flag only ever goes from false to true, and only on the call that sent the email. */
  lemma FlagFollowsSend(rows: map<string, DbResponse>, responseId: Option<string>, readError: Option<string>,
                        sendError: Option<string>, updateError: Option<string>, k: string)
    requires k in rows
    ensures var w := Welcome(rows, responseId, readError, sendError, updateError);
      (rows[k].welcome_email_sent ==> w.rows[k].welcome_email_sent)
      && (w.rows[k].welcome_email_sent && !rows[k].welcome_email_sent
          ==> w.sent && responseId == Some(k) && w.reply == Success(MSG_WELCOME_SENT))
  {
  }

  /**
   * A refused call (missing id, unknown id, flag already set) sends nothing
   * and writes nothing; neither does a call whose lookup throws.
   */
  lemma RefusedCallsAreInert(rows: map<string, DbResponse>, responseId: Option<string>, readError: Option<string>,
                             sendError: Option<string>, updateError: Option<string>)
    requires MissingId(responseId) || readError.Some? || responseId.value !in rows
             || rows[responseId.value].welcome_email_sent
    ensures var w := Welcome(rows, responseId, readError, sendError, updateError);
      !w.sent && w.rows == rows && w.reply.Failure?
      && (w.reply.status == 500 <==> !MissingId(responseId) && readError.Some?)
  {
  }

  /** A thrown send answers 500 and leaves the flag false. */
  lemma FailedSendLeavesFlag(rows: map<string, DbResponse>, id: string, m: string, updateError: Option<string>)
    requires id != "" && id in rows && !rows[id].welcome_email_sent
    ensures var w := Welcome(rows, Some(id), None, Some(m), updateError);
      w.reply == Failure(500, MSG_WELCOME_FAILED, Some(m)) && !w.rows[id].welcome_email_sent && !w.sent
  {
  }

  /**
   * When the flag update throws after the mail went out, the flag stays false,
   * so the next call sends the welcome email a second time.
   */
  lemma FailedUpdateSendsTwice(rows: map<string, DbResponse>, id: string, m: string)
    requires id != "" && id in rows && !rows[id].welcome_email_sent
    ensures var first := Welcome(rows, Some(id), None, None, Some(m));
      && first.sent && first.reply == Failure(500, MSG_WELCOME_FAILED, Some(m)) && first.rows == rows
      && var second := Welcome(first.rows, Some(id), None, None, None);
         second.sent && second.reply == Success(MSG_WELCOME_SENT)
  {
  }

  /**
   * Repeated calls for one response, each with the mailer's outcome and a
   * working update: the table afterwards and how many emails went out.
   */
  function Calls(rows: map<string, DbResponse>, id: string, sendErrors: seq<Option<string>>): (r: (map<string, DbResponse>, nat))
    ensures r.0.Keys == rows.Keys
  {
    if sendErrors == [] then (rows, 0)
    else
      var w := Welcome(rows, Some(id), None, sendErrors[0], None);
      var rest := Calls(w.rows, id, sendErrors[1..]);
      (rest.0, rest.1 + if w.sent then 1 else 0)
  }

  /** Over any series of calls for one response, at most one sends, and none once the flag is set. */
  lemma {:induction false} AtMostOneWelcome(rows: map<string, DbResponse>, id: string, sendErrors: seq<Option<string>>)
    ensures Calls(rows, id, sendErrors).1 <= if id != "" && id in rows && !rows[id].welcome_email_sent then 1 else 0
  {
    if sendErrors != [] {
      var w := Welcome(rows, Some(id), None, sendErrors[0], None);
      AtMostOneWelcome(w.rows, id, sendErrors[1..]);
      if w.sent {
        assert w.rows[id].welcome_email_sent;
      }
    }
  }
}

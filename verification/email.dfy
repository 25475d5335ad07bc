/**
 * The content of the RSVP confirmation email of lib/email.ts: which events are
 * listed and with what details, the guest figure, the edit link and its
 * label, and when the send fails. The HTML markup and the colours are not
 * part of this model; the mail provider is an oracle.
 */
module Email {
  import opened Wrappers
  import opened Records

  const MSG_EMAIL_REQUIRED: string := "Email is required to send confirmation"
  const MSG_NO_EVENTS: string := "No events selected for attendance"
  /** `Object.entries` of a missing events object throws a TypeError. */
  const MSG_NO_EVENTS_OBJECT: string := "Cannot convert undefined or null to object"
  const MSG_SEND_FAILED: string := "Failed to send email: "
  const DEFAULT_BASE_URL: string := "https://kaushalandpriyanka.love"
  const INVITE_PATH: string := "/invite/"
  const LABEL_UPDATE: string := "Update Your RSVP"
  const LABEL_EDIT: string := "Edit Your RSVP"

  /** The facts one event's block shows. */
  datatype EventDetail = EventDetail(name: string, date: string, address: string, time: string)

  /**
   * The block for `eventKey`: `WEDDING_EVENTS[EVENT_KEY_MAP[eventKey] || "WEDDING"]`
   * for the name and date, `EVENT_ADDRESSES` and `EVENT_TIMES` or "" for the rest.
   */
  function Detail(eventKey: string): (d: EventDetail)
    ensures eventKey !in EVENT_KEYS ==> d == EventDetail("Wedding", "March 6, 2025", "", "")
  {
    if eventKey == HALDI then
      EventDetail("Haldi", "March 4, 2025", "123 Haldi Venue, Houston, TX 77001", "10:00 AM - 12:00 PM")
    else if eventKey == SANGEET then
      EventDetail("Sangeet", "March 5, 2025", "456 Sangeet Venue, Houston, TX 77002", "6:00 PM - 10:00 PM")
    else if eventKey == WEDDING then
      EventDetail("Wedding", "March 6, 2025", "789 Wedding Venue, Houston, TX 77003", "11:00 AM - 2:00 PM")
    else if eventKey == RECEPTION then
      EventDetail("Reception", "March 6, 2025", "789 Reception Venue, Houston, TX 77003", "6:00 PM - 11:00 PM")
    else if eventKey == COLORADO_RECEPTION then
      EventDetail("Colorado Reception", "March 8, 2025", "101 Colorado Reception Venue, Denver, CO 80001",
                  "6:00 PM - 11:00 PM")
    else
      EventDetail("Wedding", "March 6, 2025", "", "")
  }

  /** `Object.entries(events).filter(([, on]) => on).map(([key]) => key)`. */
  function AttendingEvents(events: Events): (keys: seq<string>)
    ensures |keys| <= |events|
  {
    if events == [] then []
    else AttendingEvents(events[..|events| - 1])
         + (if events[|events| - 1].on then [events[|events| - 1].key] else [])
  }

  /** A key is listed exactly when some entry has it switched on. */
  lemma {:induction false} AttendingEventsMembers(events: Events, k: string)
    ensures k in AttendingEvents(events) <==> exists i :: 0 <= i < |events| && events[i] == Flag(k, true)
  {
    if events != [] {
      var init := events[..|events| - 1];
      AttendingEventsMembers(init, k);
      if exists i :: 0 <= i < |init| && init[i] == Flag(k, true) {
        var i :| 0 <= i < |init| && init[i] == Flag(k, true);
        assert events[i] == Flag(k, true);
      }
      if exists i :: 0 <= i < |events| && events[i] == Flag(k, true) {
        var i :| 0 <= i < |events| && events[i] == Flag(k, true);
        if i < |init| {
          assert init[i] == Flag(k, true);
        }
      }
    }
  }

  /** Listing keeps the entries' order: it distributes over concatenation. */
  lemma {:induction false} AttendingEventsOfConcat(a: Events, b: Events)
    ensures AttendingEvents(a + b) == AttendingEvents(a) + AttendingEvents(b)
  {
    if b != [] {
      assert (a + b)[..|a + b| - 1] == a + b[..|b| - 1];
      AttendingEventsOfConcat(a, b[..|b| - 1]);
    } else {
      assert a + b == a;
    }
  }

  /** `attendingEvents.map(...)`: one block per listed event, in the same order. */
  function Details(keys: seq<string>): (ds: seq<EventDetail>)
    ensures |ds| == |keys|
    ensures forall i :: 0 <= i < |keys| ==> ds[i] == Detail(keys[i])
  {
    if keys == [] then [] else [Detail(keys[0])] + Details(keys[1..])
  }

  /** The "Number of Guests" figure: a number, or the text `"1" + s` JavaScript builds from a string. */
  datatype GuestFigure = Count(n: int) | Concatenated(s: string)

  /** `1 + (response.additional_guests || 0)`. */
  function GuestFigureOf(g: Guests): (f: GuestFigure)
    ensures g.Num? ==> f == Count(1 + g.n)
    ensures g.Unset? || g == Text("") ==> f == Count(1)
    ensures g.Text? && g.s != "" ==> f == Concatenated("1" + g.s)
  {
    match g
    case Num(n) => Count(1 + n)
    case Unset => Count(1)
    case Text(s) => if s == "" then Count(1) else Concatenated("1" + s)
  }

  /** `(NEXT_PUBLIC_BASE_URL || "https://kaushalandpriyanka.love") + "/invite/" + inviteId`. */
  function EditLink(baseUrl: Option<string>, inviteId: string): (link: string)
    ensures (baseUrl.Some? && baseUrl.value != "" ==> link == baseUrl.value + INVITE_PATH + inviteId)
    ensures (baseUrl.None? || baseUrl.value == "" ==> link == DEFAULT_BASE_URL + INVITE_PATH + inviteId)
  {
    (if baseUrl.Some? && baseUrl.value != "" then baseUrl.value else DEFAULT_BASE_URL) + INVITE_PATH + inviteId
  }

  /** The label of the edit button. */
  function ButtonLabel(r: Response): (caption: string)
    ensures caption == LABEL_UPDATE <==> r.updated_at != r.created_at
    ensures caption == LABEL_EDIT <==> r.updated_at == r.created_at
  {
    if r.updated_at != r.created_at then LABEL_UPDATE else LABEL_EDIT
  }

  /** What the message carries. */
  datatype Message = Message(to: string, name: string, events: seq<EventDetail>, guests: GuestFigure,
                             link: string, button: string)

  /** The message built for `r`, once the events are known to be listed. */
  function Compose(r: Response, keys: seq<string>, baseUrl: Option<string>): Message {
    Message(r.email, r.name, Details(keys), GuestFigureOf(r.additional_guests), EditLink(baseUrl, r.inviteId),
            ButtonLabel(r))
  }

  /**
   * What the mail provider does with a message: accept it, answer with an
   * `error` object, or throw (a network failure, say).
   */
  datatype Provider = Accepted | Reported(message: string) | Threw(message: string)

  /**
   * `sendRsvpConfirmationEmail`. `provider` is the mail provider's outcome.
   * A reported error is rethrown with the "Failed to send email: " prefix;
   * a thrown error passes through the `catch` unchanged.
   */
  function SendConfirmation(r: Response, baseUrl: Option<string>, provider: Provider): (res: Result<Message>)
    ensures res.Ok? ==> r.email != "" && r.events.Some? && provider == Accepted
    ensures res.Ok? ==> res.value.to == r.email && res.value.events == Details(AttendingEvents(r.events.value))
  {
    if r.email == "" then Err(MSG_EMAIL_REQUIRED)
    else if r.events.None? then Err(MSG_NO_EVENTS_OBJECT)
    else
      var keys := AttendingEvents(r.events.value);
      if |keys| == 0 then Err(MSG_NO_EVENTS)
      else match provider
        case Reported(m) => Err(MSG_SEND_FAILED + m)
        case Threw(m) => Err(m)
        case Accepted => Ok(Compose(r, keys, baseUrl))
  }

  /** A missing address fails first, whatever else is wrong with the response. */
  lemma EmptyEmailFailsFirst(r: Response, baseUrl: Option<string>, provider: Provider)
    requires r.email == ""
    ensures SendConfirmation(r, baseUrl, provider) == Err(MSG_EMAIL_REQUIRED)
  {
  }

  /** A response attending nothing is refused before the provider is asked. */
  lemma NothingAttendedFails(r: Response, baseUrl: Option<string>, provider: Provider)
    requires r.email != "" && r.events.Some?
    requires forall i :: 0 <= i < |r.events.value| ==> !r.events.value[i].on
    ensures SendConfirmation(r, baseUrl, provider) == Err(MSG_NO_EVENTS)
  {
    var keys := AttendingEvents(r.events.value);
    if |keys| > 0 {
      AttendingEventsMembers(r.events.value, keys[0]);
    }
  }

  /**
   * The send succeeds exactly when there is an address, at least one event
   * switched on and no provider error; the message then lists one block per
   * attended event, in order, with the guest figure, link and label.
   */
  lemma SendSucceedsIff(r: Response, baseUrl: Option<string>, provider: Provider)
    ensures SendConfirmation(r, baseUrl, provider).Ok?
        <==> r.email != "" && r.events.Some? && provider == Accepted
             && exists i :: 0 <= i < |r.events.value| && r.events.value[i].on
    ensures SendConfirmation(r, baseUrl, provider).Ok? ==>
      var m := SendConfirmation(r, baseUrl, provider).value;
      var keys := AttendingEvents(r.events.value);
      && |m.events| == |keys| > 0
      && (forall j :: 0 <= j < |keys| ==> m.events[j] == Detail(keys[j]))
      && m.guests == GuestFigureOf(r.additional_guests)
      && m.link == EditLink(baseUrl, r.inviteId)
      && (m.button == LABEL_UPDATE <==> r.updated_at != r.created_at)
  {
    if r.events.Some? {
      var keys := AttendingEvents(r.events.value);
      if exists i :: 0 <= i < |r.events.value| && r.events.value[i].on {
        var i :| 0 <= i < |r.events.value| && r.events.value[i].on;
        AttendingEventsMembers(r.events.value, r.events.value[i].key);
      } else if |keys| > 0 {
        AttendingEventsMembers(r.events.value, keys[0]);
      }
    }
  }

  /**
   * A provider error surfaces as a failure carrying its message: prefixed
   * when the provider reports it, unchanged when the provider throws.
   */
  lemma ProviderErrorFails(r: Response, baseUrl: Option<string>, m: string)
    requires r.email != "" && r.events.Some? && |AttendingEvents(r.events.value)| > 0
    ensures SendConfirmation(r, baseUrl, Reported(m)) == Err(MSG_SEND_FAILED + m)
    ensures SendConfirmation(r, baseUrl, Threw(m)) == Err(m)
  {
  }
}

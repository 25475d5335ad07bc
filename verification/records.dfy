/**
 * The two record kinds of the RSVP system, in the shapes they are stored:
 * `Invite` and `Response` as kept in the key-value store (every optional
 * property of utils/interfaces/InviteType.ts is an `Option`), and the
 * database rows `DbInvite` and `DbResponse` that the migration creates.
 */
module Records {
  import opened Wrappers
  import Js

  /** One `[key, value]` entry of an events object. */
  datatype Flag = Flag(key: string, on: bool)

  /** An events object, as the list `Object.entries` yields (insertion order). */
  type Events = seq<Flag>

  /** `events[key]`: the value of the first entry with that key, if any. */
  function Lookup(events: Events, key: string): (v: Option<bool>)
    ensures v.Some? <==> exists i :: 0 <= i < |events| && events[i].key == key
    ensures v.Some? ==> exists i :: 0 <= i < |events| && events[i] == Flag(key, v.value)
  {
    if events == [] then None
    else if events[0].key == key then Some(events[0].on)
    else Lookup(events[1..], key)
  }

  /** `Boolean(events[key])`: a missing key reads as false. */
  predicate Selected(events: Events, key: string) {
    Lookup(events, key) == Some(true)
  }

  /** The five event keys, in the order the records declare them. */
  const HALDI := "haldi"
  const SANGEET := "sangeet"
  const WEDDING := "wedding"
  const RECEPTION := "reception"
  const COLORADO_RECEPTION := "coloradoReception"
  const EVENT_KEYS: seq<string> := [HALDI, SANGEET, WEDDING, RECEPTION, COLORADO_RECEPTION]

  /**
   * A stored `additional_guests` value: the interface says number, but the
   * guest form (components/InviteForm.tsx:255-273) keeps the raw input string
   * of its number field and submits it as it is (lines 218-221), and the
   * submission action stores it unchanged (app/actions/invite.ts:132).
   * Records may also lack the property.
   */
  datatype Guests = Num(n: int) | Text(s: string) | Unset

  /** `Number(additional_guests) || 0`. */
  function GuestsOrZero(g: Guests): (n: int)
    ensures g.Num? ==> n == g.n
    ensures g.Unset? ==> n == 0
    ensures g.Text? && n != 0 ==> Js.NumberOf(g.s) == Some(n)
  {
    match g
    case Num(n) => n
    case Text(s) => Js.NumberOrZero(s)
    case Unset => 0
  }

  /** `typeof g === "string" ? parseInt(g, 10) || 0 : g || 0`, the migration's reading. */
  function ParsedGuests(g: Guests): (n: int)
    ensures g.Num? ==> n == g.n
    ensures g.Unset? ==> n == 0
    ensures g.Text? && n != 0 ==> exists i :: 0 <= i < |g.s| && Js.IsDigit(g.s[i])
  {
    match g
    case Num(n) => n
    case Text(s) => Js.ParseIntOrZero(s)
    case Unset => 0
  }

  /** A guest's reply, as kept under `response:<id>`. Timestamps are milliseconds. */
  datatype Response = Response(
    id: string,
    name: string,
    email: string,
    phone: string,
    inviteId: string,
    additional_guests: Guests,
    events: Option<Events>,
    created_at: int,
    updated_at: int,
    welcome_email_sent: Option<bool>)

  /** An invitation, as kept under `invite:<id>`. */
  datatype Invite = Invite(
    id: string,
    name: Option<string>,
    email: Option<string>,
    phone: Option<string>,
    additional_guests: Guests,
    events: Option<Events>,
    created_at: int,
    response: Option<Response>,
    template_invite_id: Option<string>,
    responses: Option<seq<string>>,
    is_template: Option<bool>,
    location: Option<string>,
    template_name: Option<string>)

  /** `...(value && { field: value })`: the property is present only when truthy. */
  function PresentIfTruthy(value: Option<string>): (r: Option<string>)
    ensures r.Some? <==> value.Some? && value.value != ""
    ensures r.Some? ==> r == value
  {
    if value.Some? && value.value != "" then value else None
  }

  /** `invite.is_template` read as a boolean. */
  predicate IsTemplate(inv: Invite) {
    inv.is_template == Some(true)
  }

  /** An invite row of the relational database. */
  datatype DbInvite = DbInvite(
    id: string,
    name: Option<string>,
    email: Option<string>,
    phone: Option<string>,
    additional_guests: int,
    events: Events,
    created_at: int,
    updated_at: int,
    is_template: bool,
    template_name: Option<string>,
    location: Option<string>,
    template_invite_id: Option<string>)

  /** A response row of the relational database; `welcome_email_sent` defaults to false. */
  datatype DbResponse = DbResponse(
    id: string,
    name: string,
    email: string,
    phone: string,
    additional_guests: int,
    events: Events,
    created_at: int,
    updated_at: int,
    invite_id: string,
    welcome_email_sent: bool)
}

/**
 * The admin route app/api/admin/invites/route.ts: `GET` lists every stored
 * invite newest first; `POST` creates one invitation from the admin form,
 * refusing a request that selects no event.
 */
module AdminInvites {
  import opened Wrappers
  import opened Records
  import opened Stores
  import opened RecordLists

  const MSG_FETCH_FAILED: string := "Failed to fetch invites"
  const MSG_NO_EVENT: string := "At least one event must be selected"
  const MSG_GENERATE_FAILED: string := "Failed to generate invite"
  const MSG_STORE_FAILED: string := "Failed to store invite in database"
  /** The message of the `TypeError` that `Object.values(undefined)` throws. */
  const MSG_NO_EVENTS_OBJECT: string := "Cannot convert undefined or null to object"

  /** `GET`: `fetchFails` are the ids whose `get` throws. */
  function ListInvites(invites: map<string, Invite>, list: Listing, fetchFails: set<string>): (reply: ListReply<Invite>)
    ensures list.ListFailed? ==> reply == ServerError(MSG_FETCH_FAILED, list.message)
    ensures list == Listed([]) ==> reply == Records([])
  {
    ListRecords(invites, list, fetchFails, (inv: Invite) => inv.created_at, MSG_FETCH_FAILED)
  }

  /**
   * A listing that did not throw returns the invites of the listed ids that
   * are present and fetched without error, newest first, none lost and none added.
   */
  lemma ListedInvites(invites: map<string, Invite>, keys: seq<string>, fetchFails: set<string>, inv: Invite)
    ensures var reply := ListInvites(invites, Listed(keys), fetchFails);
      && reply.Records?
      && NewestFirst(reply.items, (i: Invite) => i.created_at)
      && multiset(reply.items) == multiset(Fetched(invites, keys, fetchFails))
      && (inv in reply.items <==>
            exists i :: 0 <= i < |keys| && keys[i] in invites && keys[i] !in fetchFails && invites[keys[i]] == inv)
  {
    ListedRecords(invites, keys, fetchFails, (i: Invite) => i.created_at, MSG_FETCH_FAILED, inv);
  }

  /** The `GenerateInviteRequest` body; `events` may be missing from the JSON. */
  datatype GenerateInviteRequest = GenerateInviteRequest(
    name: Option<string>,
    email: Option<string>,
    phone: Option<string>,
    events: Option<Events>)

  /** `Object.values(events).some(v => v)`. */
  predicate AnySelected(events: Events)
  {
    if events == [] then false else AnySelected(events[..|events| - 1]) || events[|events| - 1].on
  }

  /** Some event is selected exactly when one of the entries is true. */
  lemma {:induction false} AnySelectedIff(events: Events)
    ensures AnySelected(events) <==> exists i :: 0 <= i < |events| && events[i].on
  {
    if events != [] {
      var init := events[..|events| - 1];
      AnySelectedIff(init);
      if exists i :: 0 <= i < |init| && init[i].on {
        var i :| 0 <= i < |init| && init[i].on;
        assert events[i] == init[i];
      }
      if exists i :: 0 <= i < |events| && events[i].on {
        var i :| 0 <= i < |events| && events[i].on;
        if i < |init| {
          assert init[i] == events[i];
        }
      }
    }
  }

  /** What `POST` answers: the created invite, or an error with its status and details. */
  datatype InviteReply = Created(invite: Invite) | Refused(status: int, error: string, details: Option<string>)

  /** The invite built for a request: `id`, `events`, `created_at` and the truthy contact fields. */
  function NewInvite(data: GenerateInviteRequest, events: Events, id: string, now: int): (inv: Invite)
    ensures inv.id == id && inv.events == Some(events) && inv.created_at == now
    ensures inv.name == PresentIfTruthy(data.name) && inv.email == PresentIfTruthy(data.email)
    ensures inv.phone == PresentIfTruthy(data.phone)
    ensures inv.is_template.None? && inv.location.None? && inv.additional_guests.Unset?
    ensures inv.template_invite_id.None? && inv.responses.None? && inv.response.None?
  {
    Invite(id, PresentIfTruthy(data.name), PresentIfTruthy(data.email), PresentIfTruthy(data.phone), Unset,
           Some(events), now, None, None, None, None, None, None)
  }

  /**
   * `POST`: `freshId` is `crypto.randomUUID()`, `now` the clock and `putFails`
   * whether the store's `put` throws.
   */
  function GenerateInvite(data: GenerateInviteRequest, freshId: string, now: int, putFails: bool): (reply: InviteReply)
    ensures reply.Refused? ==> reply.status in {400, 500} && (reply.status == 400 <==> reply.error == MSG_NO_EVENT)
    ensures reply.Created? ==> reply.invite.id == freshId && reply.invite.created_at == now && !putFails
    ensures reply.Created? ==> data.events.Some? && reply.invite.events == data.events
  {
    if data.events.None? then Refused(500, MSG_GENERATE_FAILED, Some(MSG_NO_EVENTS_OBJECT))
    else if !AnySelected(data.events.value) then Refused(400, MSG_NO_EVENT, None)
    else if putFails then Refused(500, MSG_GENERATE_FAILED, Some(MSG_STORE_FAILED))
    else Created(NewInvite(data, data.events.value, freshId, now))
  }

  /** The route over the store: one `put` under `invite:<freshId>`, and only when the invite is created. */
  method PostInvite(store: KvStore, data: GenerateInviteRequest, freshId: string, now: int, putFails: bool)
    returns (reply: InviteReply)
    modifies store
    ensures reply == GenerateInvite(data, freshId, now, putFails)
    ensures store.invites == if reply.Created? then old(store.invites)[freshId := reply.invite] else old(store.invites)
    ensures store.responses == old(store.responses)
  {
    if data.events.None? {
      return Refused(500, MSG_GENERATE_FAILED, Some(MSG_NO_EVENTS_OBJECT));
    }
    var hasEvent := AnySelected(data.events.value);
    if !hasEvent {
      return Refused(400, MSG_NO_EVENT, None);
    }
    var invite := NewInvite(data, data.events.value, freshId, now);
    if putFails {
      return Refused(500, MSG_GENERATE_FAILED, Some(MSG_STORE_FAILED));
    }
    store.PutInvite(invite.id, invite);
    reply := Created(invite);
  }

  /** A request whose flags are all false is answered 400, and so nothing is stored. */
  lemma NoEventRejected(data: GenerateInviteRequest, freshId: string, now: int, putFails: bool)
    requires data.events.Some? && forall i :: 0 <= i < |data.events.value| ==> !data.events.value[i].on
    ensures GenerateInvite(data, freshId, now, putFails) == Refused(400, MSG_NO_EVENT, None)
  {
    AnySelectedIff(data.events.value);
  }

  /**
   * An invite is created exactly when the request has an events object with a
   * true entry and the `put` succeeds; it then carries the fresh id, exactly
   * the submitted events, and no template, location or guest fields.
   */
  lemma CreatedIff(data: GenerateInviteRequest, freshId: string, now: int, putFails: bool)
    ensures var reply := GenerateInvite(data, freshId, now, putFails);
      && (reply.Created? <==>
            data.events.Some? && (exists i :: 0 <= i < |data.events.value| && data.events.value[i].on) && !putFails)
      && (reply.Created? ==>
            && reply.invite.id == freshId && reply.invite.events == data.events
            && reply.invite.is_template.None? && reply.invite.location.None?
            && reply.invite.additional_guests.Unset?)
  {
    if data.events.Some? {
      AnySelectedIff(data.events.value);
    }
  }

  /** A throwing `put` is answered 500 with the storage message. */
  lemma StorageFailureIs500(data: GenerateInviteRequest, freshId: string, now: int)
    requires data.events.Some? && AnySelected(data.events.value)
    ensures GenerateInvite(data, freshId, now, true) == Refused(500, MSG_GENERATE_FAILED, Some(MSG_STORE_FAILED))
  {
  }
}

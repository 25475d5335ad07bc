/**
 * The guest-facing RSVP action of app/actions/invite.ts: `getInvite`,
 * `submitInviteResponse` and `generateInviteId`, over the key-value store.
 *
 * A successful submission always creates a fresh child invite and a fresh
 * response, then rewrites the target invite with the child's id appended to
 * its `responses` list and `is_template` forced to true. There is no branch
 * that updates an existing response in place.
 */
module Submission {
  import opened Wrappers
  import opened Records
  import opened Validation
  import opened Stores

  const MSG_NOT_FOUND := "Invalid invitation ID."
  const MSG_THANKS := "Thank you for your response! We look forward to celebrating with you."
  const MSG_FAILED := "Something went wrong. Please try again later."

  /** The action's `ApiResponse`. */
  datatype Reply = Reply(success: bool, message: string, data: Option<Response>)

  /** Which storage call throws during a submission, if any. */
  datatype Fault = NoFault | ReadFails | ChildPutFails | ResponsePutFails | TemplatePutFails

  /** The three readings of the clock: child `created_at`, response `created_at`, response `updated_at`. */
  datatype Clock = Clock(inviteCreated: int, responseCreated: int, responseUpdated: int)

  /** A reply together with the store contents after the call. */
  datatype Outcome = Outcome(reply: Reply, invites: map<string, Invite>, responses: map<string, Response>)

  /** `getInvite(id)`: the value under `invite:<id>`, or null. */
  function GetInvite(invites: map<string, Invite>, id: string): (r: Option<Invite>)
    ensures r.Some? <==> id in invites
    ensures r.Some? ==> r.value == invites[id]
  {
    if id in invites then Some(invites[id]) else None
  }

  /**
   * The eligibility filter on the loaded invite. Reading `events[event]` of an
   * invite without an events object throws, but only once some event is selected.
   */
  function EventCheck(selected: Events, target: Invite): (r: Result<seq<string>>)
    ensures target.events.Some? ==> r == Ok(InvalidEvents(selected, target.events.value))
    ensures r.Err? <==> target.events.None? && exists i :: 0 <= i < |selected| && selected[i].on
  {
    if target.events.Some? then Ok(InvalidEvents(selected, target.events.value))
    else if exists i :: 0 <= i < |selected| && selected[i].on then Err("TypeError")
    else Ok([])
  }

  /** The response record a submission stores (app/actions/invite.ts:126-136). */
  function NewResponse(f: Submission, childId: string, responseId: string, clock: Clock): Response {
    Response(responseId, f.name, f.email, PhoneDigits(f.phone), childId, Num(f.additional_guests),
             Some(f.events), clock.responseCreated, clock.responseUpdated, None)
  }

  /** The child invite a submission stores (app/actions/invite.ts:114-123, 139). */
  function ChildInvite(f: Submission, target: Invite, child: string, r: Response, clock: Clock): Invite {
    Invite(child, Some(f.name), Some(f.email), Some(PhoneDigits(f.phone)), Unset, target.events,
           clock.inviteCreated, Some(r), Some(f.inviteId), None, Some(false), None, None)
  }

  /** The target invite as rewritten (app/actions/invite.ts:148-152). */
  function UpdatedTarget(target: Invite, child: string): Invite {
    target.(responses := Some(target.responses.GetOr([]) + [child]), is_template := Some(true))
  }

  /** `submitInviteResponse`, as a function of the store before the call. */
  function Submit(invites: map<string, Invite>, responses: map<string, Response>, f: Submission,
                  childId: string, responseId: string, clock: Clock, fault: Fault): (o: Outcome)
    ensures o.reply.success <==> o.reply.data.Some?
    ensures o.reply.success ==>
      && fault.NoFault? && o.reply.message == MSG_THANKS
      && o.reply.data.value.id == responseId && o.reply.data.value.inviteId == childId
      && o.responses == responses[responseId := o.reply.data.value]
    ensures !o.reply.success ==> o.invites.Keys <= invites.Keys + {childId}
  {
    var failed := Reply(false, MSG_FAILED, None);
    match FieldError(f)
    case Some(msg) => Outcome(Reply(false, msg, None), invites, responses)
    case None =>
      if fault == ReadFails then Outcome(failed, invites, responses)
      else match GetInvite(invites, f.inviteId)
      case None => Outcome(Reply(false, MSG_NOT_FOUND, None), invites, responses)
      case Some(target) =>
        match EventCheck(f.events, target)
        case Err(_) => Outcome(failed, invites, responses)
        case Ok(bad) =>
          if bad != [] then Outcome(Reply(false, NotInvitedMessage(bad), None), invites, responses)
          else
            var r := NewResponse(f, childId, responseId, clock);
            var withChild := invites[childId := ChildInvite(f, target, childId, r, clock)];
            var withResponse := responses[responseId := r];
            if fault == ChildPutFails then Outcome(failed, invites, responses)
            else if fault == ResponsePutFails then Outcome(failed, withChild, responses)
            else if fault == TemplatePutFails then Outcome(failed, withChild, withResponse)
            else Outcome(Reply(true, MSG_THANKS, Some(r)),
                         withChild[f.inviteId := UpdatedTarget(target, childId)], withResponse)
  }

  /** `submitInviteResponse`: validate, load the target, then three puts in order. */
  method SubmitInviteResponse(store: KvStore, f: Submission, childId: string, responseId: string,
                              clock: Clock, fault: Fault) returns (reply: Reply)
    modifies store
    ensures var o := Submit(old(store.invites), old(store.responses), f, childId, responseId, clock, fault);
      reply == o.reply && store.invites == o.invites && store.responses == o.responses
  {
    var failed := Reply(false, MSG_FAILED, None);
    var err := FieldError(f);
    if err.Some? {
      return Reply(false, err.value, None);
    }
    if fault == ReadFails {
      return failed;
    }
    var found := GetInvite(store.invites, f.inviteId);
    if found.None? {
      return Reply(false, MSG_NOT_FOUND, None);
    }
    var target := found.value;
    var check := EventCheck(f.events, target);
    if check.Err? {
      return failed;
    }
    if check.value != [] {
      return Reply(false, NotInvitedMessage(check.value), None);
    }
    var r := NewResponse(f, childId, responseId, clock);
    if fault == ChildPutFails {
      return failed;
    }
    store.PutInvite(childId, ChildInvite(f, target, childId, r, clock));
    if fault == ResponsePutFails {
      return failed;
    }
    store.PutResponse(responseId, r);
    if fault == TemplatePutFails {
      return failed;
    }
    store.PutInvite(f.inviteId, UpdatedTarget(target, childId));
    reply := Reply(true, MSG_THANKS, Some(r));
  }

  // ---------------------------------------------------------------- properties

  /** All the conditions under which the three puts are attempted. */
  predicate Admissible(invites: map<string, Invite>, f: Submission) {
    && FieldError(f).None?
    && f.inviteId in invites
    && EventCheck(f.events, invites[f.inviteId]) == Ok([])
  }

  /** A submission succeeds exactly when it is admissible and no storage call throws. */
  lemma SuccessIff(invites: map<string, Invite>, responses: map<string, Response>, f: Submission,
                   childId: string, responseId: string, clock: Clock, fault: Fault)
    ensures Submit(invites, responses, f, childId, responseId, clock, fault).reply.success
      <==> Admissible(invites, f) && fault == NoFault
  {
  }

  /** A rejected submission, or one whose read throws, writes nothing. */
  lemma RejectionWritesNothing(invites: map<string, Invite>, responses: map<string, Response>, f: Submission,
                               childId: string, responseId: string, clock: Clock, fault: Fault)
    requires !Admissible(invites, f) || fault == ReadFails || fault == ChildPutFails
    ensures var o := Submit(invites, responses, f, childId, responseId, clock, fault);
      !o.reply.success && o.reply.data.None? && o.invites == invites && o.responses == responses
  {
  }

  /** An empty name, e-mail, phone or invite id is reported first, and nothing is written. */
  lemma MissingFieldReportedFirst(invites: map<string, Invite>, responses: map<string, Response>, f: Submission,
                                  childId: string, responseId: string, clock: Clock, fault: Fault)
    requires f.name == "" || f.email == "" || f.phone == "" || f.inviteId == ""
    ensures Submit(invites, responses, f, childId, responseId, clock, fault)
      == Outcome(Reply(false, MSG_REQUIRED, None), invites, responses)
  {
  }

  /** An id that names no invite is reported as an invalid invitation. */
  lemma UnknownInviteRejected(invites: map<string, Invite>, responses: map<string, Response>, f: Submission,
                              childId: string, responseId: string, clock: Clock)
    requires FieldError(f).None? && f.inviteId !in invites
    ensures Submit(invites, responses, f, childId, responseId, clock, NoFault)
      == Outcome(Reply(false, MSG_NOT_FOUND, None), invites, responses)
  {
  }

  /**
   * Selecting an event the invite does not mark true is rejected with a
   * message naming that event among all the offenders, and nothing is written.
   */
  lemma IneligibleEventRejected(invites: map<string, Invite>, responses: map<string, Response>, f: Submission,
                                childId: string, responseId: string, clock: Clock, fault: Fault, i: nat)
    requires FieldError(f).None? && fault != ReadFails && f.inviteId in invites
    requires invites[f.inviteId].events.Some?
    requires i < |f.events| && f.events[i].on && !Selected(invites[f.inviteId].events.value, f.events[i].key)
    ensures var o := Submit(invites, responses, f, childId, responseId, clock, fault);
      var bad := InvalidEvents(f.events, invites[f.inviteId].events.value);
      && f.events[i].key in bad
      && o == Outcome(Reply(false, NotInvitedMessage(bad), None), invites, responses)
  {
    var allowed := invites[f.inviteId].events.value;
    assert f.events[i] == Flag(f.events[i].key, true);
    InvalidEventsMembers(f.events, allowed, f.events[i].key);
  }

  /**
   * What a successful submission writes: a child invite under the fresh id
   * with the target's events, a response linked to the child and carrying the
   * submitted events, and the target with the child appended to `responses`
   * and `is_template` forced true. Nothing else changes.
   */
  lemma SuccessfulSubmission(invites: map<string, Invite>, responses: map<string, Response>, f: Submission,
                             childId: string, responseId: string, clock: Clock)
    requires Admissible(invites, f) && childId != f.inviteId
    ensures var o := Submit(invites, responses, f, childId, responseId, clock, NoFault);
      var target := invites[f.inviteId];
      && o.reply.success && o.reply.data == Some(o.responses[responseId])
      && o.invites.Keys == invites.Keys + {childId}
      && o.responses.Keys == responses.Keys + {responseId}
      && (forall id :: id in invites && id != childId && id != f.inviteId ==> o.invites[id] == invites[id])
      && (forall id :: id in responses && id != responseId ==> o.responses[id] == responses[id])
      && o.invites[childId].id == childId
      && o.invites[childId].events == target.events
      && o.invites[childId].template_invite_id == Some(f.inviteId)
      && o.invites[childId].is_template == Some(false)
      && o.invites[childId].phone == Some(PhoneDigits(f.phone))
      && o.invites[childId].response == Some(o.responses[responseId])
      && o.responses[responseId].id == responseId
      && o.responses[responseId].inviteId == childId
      && o.responses[responseId].events == Some(f.events)
      && o.responses[responseId].additional_guests == Num(f.additional_guests)
      && o.responses[responseId].phone == PhoneDigits(f.phone)
      && o.invites[f.inviteId].responses == Some(target.responses.GetOr([]) + [childId])
      && IsTemplate(o.invites[f.inviteId])
      && o.invites[f.inviteId] == target.(responses := o.invites[f.inviteId].responses, is_template := Some(true))
  {
  }

  /**
   * Whatever happens, a submission touches only the child invite, the target
   * invite and the new response: every other record is kept as it was.
   */
  lemma SubmitKeepsOtherRecords(invites: map<string, Invite>, responses: map<string, Response>, f: Submission,
                                childId: string, responseId: string, clock: Clock, fault: Fault)
    ensures var o := Submit(invites, responses, f, childId, responseId, clock, fault);
      && (forall k :: k in responses && k != responseId ==> k in o.responses && o.responses[k] == responses[k])
      && (forall k :: k in invites && k != childId && k != f.inviteId ==> k in o.invites && o.invites[k] == invites[k])
  {
  }

  /** Every stored response points at a stored invite. */
  ghost predicate ResponsesLinked(invites: map<string, Invite>, responses: map<string, Response>) {
    forall id :: id in responses ==> responses[id].inviteId in invites
  }

  /** Only invites marked as templates carry a `responses` list. */
  ghost predicate ListsOnTemplatesOnly(invites: map<string, Invite>) {
    forall id :: id in invites && invites[id].responses.Some? ==> IsTemplate(invites[id])
  }

  /**
   * Because the child invite is written before the response, no response ever
   * points at a missing invite, even when a later put throws; and `responses`
   * lists stay on template invites.
   */
  lemma SubmitKeepsStoreInvariants(invites: map<string, Invite>, responses: map<string, Response>, f: Submission,
                                   childId: string, responseId: string, clock: Clock, fault: Fault)
    requires ResponsesLinked(invites, responses) && ListsOnTemplatesOnly(invites)
    ensures var o := Submit(invites, responses, f, childId, responseId, clock, fault);
      ResponsesLinked(o.invites, o.responses) && ListsOnTemplatesOnly(o.invites)
  {
  }

  /**
   * A put that throws after the child invite is stored leaves the child (and
   * perhaps its response) in the store while the target's list misses it.
   */
  lemma PartialWriteUndercounts(invites: map<string, Invite>, responses: map<string, Response>, f: Submission,
                                childId: string, responseId: string, clock: Clock, fault: Fault)
    requires Admissible(invites, f) && childId != f.inviteId
    requires fault == ResponsePutFails || fault == TemplatePutFails
    ensures var o := Submit(invites, responses, f, childId, responseId, clock, fault);
      && !o.reply.success
      && childId in o.invites && o.invites[childId].template_invite_id == Some(f.inviteId)
      && o.invites[f.inviteId] == invites[f.inviteId]
      && (fault == TemplatePutFails ==> responseId in o.responses)
  {
  }

  /**
   * Submitting twice with the same data is not idempotent: the second call
   * creates a second child and a second response, and the target lists both.
   */
  lemma RepeatedSubmissionCreatesAnotherChild(invites: map<string, Invite>, responses: map<string, Response>,
                                              f: Submission, c1: string, r1: string, c2: string, r2: string,
                                              k1: Clock, k2: Clock)
    requires Admissible(invites, f)
    requires c1 != f.inviteId && c2 != f.inviteId && c1 != c2 && r1 != r2
    requires c1 !in invites && c2 !in invites && r1 !in responses && r2 !in responses
    ensures var o1 := Submit(invites, responses, f, c1, r1, k1, NoFault);
      var o2 := Submit(o1.invites, o1.responses, f, c2, r2, k2, NoFault);
      var before := invites[f.inviteId].responses.GetOr([]);
      && o1.reply.success && o2.reply.success
      && |o2.invites| == |invites| + 2 && |o2.responses| == |responses| + 2
      && o2.invites[f.inviteId].responses == Some(before + [c1, c2])
  {
    var o1 := Submit(invites, responses, f, c1, r1, k1, NoFault);
    SubmissionGrowth(invites, responses, f, c1, r1, k1);
    var before := invites[f.inviteId].responses.GetOr([]);
    assert o1.invites[f.inviteId].responses.GetOr([]) == before + [c1];
    SubmissionGrowth(o1.invites, o1.responses, f, c2, r2, k2);
    assert before + [c1] + [c2] == before + [c1, c2];
  }

  /** One successful submission adds one invite and one response and appends one child id. */
  lemma SubmissionGrowth(invites: map<string, Invite>, responses: map<string, Response>, f: Submission,
                         childId: string, responseId: string, clock: Clock)
    requires Admissible(invites, f) && childId != f.inviteId && childId !in invites && responseId !in responses
    ensures var o := Submit(invites, responses, f, childId, responseId, clock, NoFault);
      && o.reply.success && Admissible(o.invites, f)
      && o.invites.Keys == invites.Keys + {childId} && |o.invites| == |invites| + 1
      && o.responses.Keys == responses.Keys + {responseId} && |o.responses| == |responses| + 1
      && o.invites[f.inviteId].responses == Some(invites[f.inviteId].responses.GetOr([]) + [childId])
  {
    var o := Submit(invites, responses, f, childId, responseId, clock, NoFault);
    SuccessfulSubmission(invites, responses, f, childId, responseId, clock);
    StillAdmissible(invites, responses, f, childId, responseId, clock);
    OneMoreKey(invites, o.invites, childId);
    OneMoreKey(responses, o.responses, responseId);
  }

  /** A successful submission leaves the same submission admissible: the target's events are kept. */
  lemma StillAdmissible(invites: map<string, Invite>, responses: map<string, Response>, f: Submission,
                        childId: string, responseId: string, clock: Clock)
    requires Admissible(invites, f) && childId != f.inviteId
    ensures Admissible(Submit(invites, responses, f, childId, responseId, clock, NoFault).invites, f)
  {
    var o := Submit(invites, responses, f, childId, responseId, clock, NoFault);
    SuccessfulSubmission(invites, responses, f, childId, responseId, clock);
    assert o.invites[f.inviteId].events == invites[f.inviteId].events;
    assert EventCheck(f.events, o.invites[f.inviteId]) == EventCheck(f.events, invites[f.inviteId]);
  }

  lemma OneMoreKey<V>(a: map<string, V>, b: map<string, V>, k: string)
    requires b.Keys == a.Keys + {k} && k !in a
    ensures |b| == |a| + 1
  {
    assert |b.Keys| == |a.Keys| + 1;
  }

  /**
   * The confirmation e-mail links to the child invite. Submitting again from
   * that link turns the child into a template that still carries its
   * `template_invite_id`, and gives it a child of its own.
   */
  lemma ResubmittingThroughChildMakesItATemplate(invites: map<string, Invite>, responses: map<string, Response>,
                                                 f: Submission, child: string, grandchild: string,
                                                 responseId: string, clock: Clock)
    requires Admissible(invites, f) && f.inviteId in invites
    requires invites[f.inviteId].template_invite_id.Some? && !IsTemplate(invites[f.inviteId])
    requires grandchild != f.inviteId
    ensures var o := Submit(invites, responses, f, grandchild, responseId, clock, NoFault);
      && IsTemplate(o.invites[f.inviteId])
      && o.invites[f.inviteId].template_invite_id == invites[f.inviteId].template_invite_id
      && o.invites[grandchild].template_invite_id == Some(f.inviteId)
  {
  }

  // ---------------------------------------------------------------- generateInviteId

  /** The admin's request to `generateInviteId`. */
  datatype InviteRequest = InviteRequest(
    name: Option<string>, email: Option<string>, phone: Option<string>,
    events: Events, is_template: Option<bool>)

  /** The invite `generateInviteId` stores (app/actions/invite.ts:177-186). */
  function GeneratedInvite(data: InviteRequest, id: string, now: int): Invite {
    var template := data.is_template == Some(true);
    Invite(id, PresentIfTruthy(data.name), PresentIfTruthy(data.email), PresentIfTruthy(data.phone), Unset,
           Some(data.events), now, None, None, if template then Some([]) else None, Some(template), None, None)
  }

  /** `generateInviteId`: store a new invite under a fresh id and return the id. */
  method GenerateInviteId(store: KvStore, data: InviteRequest, freshId: string, now: int) returns (id: string)
    modifies store
    ensures id == freshId
    ensures store.invites == old(store.invites)[id := GeneratedInvite(data, id, now)]
    ensures store.responses == old(store.responses)
  {
    id := freshId;
    store.PutInvite(id, GeneratedInvite(data, id, now));
  }

  /**
   * A generated invite is a template exactly when requested, a template starts
   * with an empty `responses` list, and storing it keeps both store invariants.
   */
  lemma GeneratedInviteKeepsInvariants(invites: map<string, Invite>, responses: map<string, Response>,
                                       data: InviteRequest, id: string, now: int)
    requires ResponsesLinked(invites, responses) && ListsOnTemplatesOnly(invites)
    ensures var inv := GeneratedInvite(data, id, now);
      && (IsTemplate(inv) <==> data.is_template == Some(true))
      && (IsTemplate(inv) ==> inv.responses == Some([]))
      && inv.events == Some(data.events)
      && ResponsesLinked(invites[id := inv], responses)
      && ListsOnTemplatesOnly(invites[id := inv])
  {
  }
}

/**
 * The attendance figures of components/admin/StatsOverview.tsx: the response
 * count, the guest total, the per-event guest counts built by a loop over the
 * responses, the list filtered by the selected event and the figures shown.
 */
module Stats {
  import opened Wrappers
  import opened Records

  /** `1 + (Number(r.additional_guests) || 0)`: the guest plus the people they bring. */
  function PartySize(r: Response): int {
    1 + GuestsOrZero(r.additional_guests)
  }

  /** `rs.reduce((total, r) => total + PartySize(r), 0)`. */
  function SumGuests(rs: seq<Response>): int {
    if rs == [] then 0 else SumGuests(rs[..|rs| - 1]) + PartySize(rs[|rs| - 1])
  }

  /** A response counts for `key` when it has an events object whose `key` flag is true. */
  predicate CountsFor(r: Response, key: string) {
    r.events.Some? && Selected(r.events.value, key)
  }

  /** The responses that count for `key`, in their original order. */
  function Attending(rs: seq<Response>, key: string): (a: seq<Response>)
    ensures |a| <= |rs|
  {
    if rs == [] then []
    else Attending(rs[..|rs| - 1], key) + (if CountsFor(rs[|rs| - 1], key) then [rs[|rs| - 1]] else [])
  }

  /** The guests attending `key`. */
  function EventGuests(rs: seq<Response>, key: string): int {
    SumGuests(Attending(rs, key))
  }

  /** The `stats` object. */
  datatype Tally = Tally(haldi: int, sangeet: int, wedding: int, reception: int, coloradoReception: int,
                         total: int, totalGuests: int)

  /** The `stats` computation: the totals, then one pass adding each party to its events. */
  method ComputeStats(rs: seq<Response>) returns (s: Tally)
    ensures s.total == |rs| && s.totalGuests == SumGuests(rs)
    ensures s.haldi == EventGuests(rs, HALDI) && s.sangeet == EventGuests(rs, SANGEET)
    ensures s.wedding == EventGuests(rs, WEDDING) && s.reception == EventGuests(rs, RECEPTION)
    ensures s.coloradoReception == EventGuests(rs, COLORADO_RECEPTION)
  {
    s := Tally(0, 0, 0, 0, 0, |rs|, SumGuests(rs));
    for i := 0 to |rs|
      invariant s.total == |rs| && s.totalGuests == SumGuests(rs)
      invariant s.haldi == EventGuests(rs[..i], HALDI) && s.sangeet == EventGuests(rs[..i], SANGEET)
      invariant s.wedding == EventGuests(rs[..i], WEDDING) && s.reception == EventGuests(rs[..i], RECEPTION)
      invariant s.coloradoReception == EventGuests(rs[..i], COLORADO_RECEPTION)
    {
      var r := rs[i];
      ghost var before := s;
      if r.events.Some? {
        var guestCount := PartySize(r);
        var ev := r.events.value;
        if Selected(ev, HALDI) { s := s.(haldi := s.haldi + guestCount); }
        if Selected(ev, SANGEET) { s := s.(sangeet := s.sangeet + guestCount); }
        if Selected(ev, WEDDING) { s := s.(wedding := s.wedding + guestCount); }
        if Selected(ev, RECEPTION) { s := s.(reception := s.reception + guestCount); }
        if Selected(ev, COLORADO_RECEPTION) {
          s := s.(coloradoReception := s.coloradoReception + guestCount);
        }
      }
      AddsParty(before.haldi, s.haldi, rs, i, HALDI);
      AddsParty(before.sangeet, s.sangeet, rs, i, SANGEET);
      AddsParty(before.wedding, s.wedding, rs, i, WEDDING);
      AddsParty(before.reception, s.reception, rs, i, RECEPTION);
      AddsParty(before.coloradoReception, s.coloradoReception, rs, i, COLORADO_RECEPTION);
    }
    assert rs[..|rs|] == rs;
  }

  /** A running count that grew by the party exactly when the response counts stays equal to the event's total. */
  lemma AddsParty(before: int, after: int, rs: seq<Response>, i: nat, key: string)
    requires i < |rs| && before == EventGuests(rs[..i], key)
    requires after == before + (if CountsFor(rs[i], key) then PartySize(rs[i]) else 0)
    ensures after == EventGuests(rs[..i + 1], key)
  {
    EventGuestsStep(rs, i, key);
  }

  /** One more response adds its party to an event exactly when it counts for it. */
  lemma EventGuestsStep(rs: seq<Response>, i: nat, key: string)
    requires i < |rs|
    ensures EventGuests(rs[..i + 1], key)
      == EventGuests(rs[..i], key) + (if CountsFor(rs[i], key) then PartySize(rs[i]) else 0)
  {
    var pre := rs[..i + 1];
    assert pre[..|pre| - 1] == rs[..i] && pre[|pre| - 1] == rs[i];
    assert Attending(pre, key) == Attending(rs[..i], key) + (if CountsFor(rs[i], key) then [rs[i]] else []);
    if CountsFor(rs[i], key) {
      SumGuestsOfConcat(Attending(rs[..i], key), [rs[i]]);
      assert SumGuests([rs[i]]) == PartySize(rs[i]) by {
        assert [rs[i]][..0] == [];
      }
    } else {
      assert Attending(pre, key) == Attending(rs[..i], key);
    }
  }

  lemma {:induction false} SumGuestsOfConcat(a: seq<Response>, b: seq<Response>)
    ensures SumGuests(a + b) == SumGuests(a) + SumGuests(b)
  {
    if b != [] {
      assert (a + b)[..|a + b| - 1] == a + b[..|b| - 1];
      SumGuestsOfConcat(a, b[..|b| - 1]);
    } else {
      assert a + b == a;
    }
  }

  /** Filtering by an event distributes over concatenation, so it keeps the original order. */
  lemma {:induction false} AttendingOfConcat(a: seq<Response>, b: seq<Response>, key: string)
    ensures Attending(a + b, key) == Attending(a, key) + Attending(b, key)
  {
    if b != [] {
      assert (a + b)[..|a + b| - 1] == a + b[..|b| - 1];
      AttendingOfConcat(a, b[..|b| - 1], key);
    } else {
      assert a + b == a;
    }
  }

  /** A response is in the filtered list iff it is in the list and counts for the event. */
  lemma {:induction false} AttendingMembers(rs: seq<Response>, key: string, r: Response)
    ensures r in Attending(rs, key) <==> r in rs && CountsFor(r, key)
  {
    if rs != [] {
      AttendingMembers(rs[..|rs| - 1], key, r);
      assert rs == rs[..|rs| - 1] + [rs[|rs| - 1]];
    }
  }

  /** When nobody brings a negative count, no event has more guests than the total. */
  lemma {:induction false} EventGuestsAtMostTotal(rs: seq<Response>, key: string)
    requires forall i :: 0 <= i < |rs| ==> GuestsOrZero(rs[i].additional_guests) >= 0
    ensures 0 <= EventGuests(rs, key) <= SumGuests(rs)
  {
    if rs != [] {
      var n := |rs| - 1;
      var init := rs[..n];
      assert forall i :: 0 <= i < |init| ==> init[i] == rs[i];
      EventGuestsAtMostTotal(init, key);
      EventGuestsStep(rs, n, key);
      assert rs[..n + 1] == rs;
      assert PartySize(rs[n]) >= 1;
    }
  }

  predicate AllHaveEvents(rs: seq<Response>) {
    forall i :: 0 <= i < |rs| ==> rs[i].events.Some?
  }

  /**
   * `filteredResponses`: the whole list when no event is selected, otherwise
   * the responses whose flag for it is true. Reading the flag of a response
   * without an events object throws, so a selection needs every response to have one.
   */
  function FilteredResponses(rs: seq<Response>, selected: Option<string>): (f: seq<Response>)
    requires selected.Some? && selected.value != "" ==> AllHaveEvents(rs)
    ensures selected.None? || selected.value == "" ==> f == rs
  {
    if selected.None? || selected.value == "" then rs else Attending(rs, selected.value)
  }

  /** The "Total Guests" figure: the filtered sum when an event is selected, else the stored total. */
  function ShownTotalGuests(rs: seq<Response>, selected: Option<string>, s: Tally): (g: int)
    requires selected.Some? && selected.value != "" ==> AllHaveEvents(rs)
    ensures selected.None? || selected.value == "" ==> g == s.totalGuests
    ensures selected.Some? && selected.value != "" ==> g == EventGuests(rs, selected.value)
  {
    if selected.Some? && selected.value != "" then SumGuests(FilteredResponses(rs, selected)) else s.totalGuests
  }

  /** The "Total Responses" figure. */
  function ShownTotalResponses(rs: seq<Response>, selected: Option<string>, s: Tally): (n: int)
    requires selected.Some? && selected.value != "" ==> AllHaveEvents(rs)
    ensures selected.None? || selected.value == "" ==> n == s.total
    ensures selected.Some? && selected.value != "" ==> 0 <= n <= |rs|
  {
    if selected.Some? && selected.value != "" then |FilteredResponses(rs, selected)| else s.total
  }

  /** The guest count on event `key`'s card: `responses.filter(r => r.events[key])` summed. */
  function CardGuestCount(rs: seq<Response>, key: string): (n: int)
    requires AllHaveEvents(rs)
    ensures n == EventGuests(rs, key)
    ensures key != "" ==> n == SumGuests(FilteredResponses(rs, Some(key)))
  {
    SumGuests(Attending(rs, key))
  }

  /**
   * The figures agree: a card's count, the "Total Guests" shown while its event
   * is selected, and the event's entry in `stats` are the same number; without
   * a selection the summary shows the stored totals.
   */
  lemma ShownFiguresAgree(rs: seq<Response>, key: string, s: Tally)
    requires AllHaveEvents(rs) && key != ""
    requires s.total == |rs| && s.totalGuests == SumGuests(rs)
    ensures CardGuestCount(rs, key) == ShownTotalGuests(rs, Some(key), s) == EventGuests(rs, key)
    ensures ShownTotalGuests(rs, None, s) == SumGuests(rs) && ShownTotalResponses(rs, None, s) == |rs|
    ensures ShownTotalResponses(rs, Some(key), s) <= |rs|
  {
  }
}

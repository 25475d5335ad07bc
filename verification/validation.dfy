/**
 * The checks `submitInviteResponse` runs on a guest's submission before it
 * touches the store (app/actions/invite.ts): required fields, the guest count,
 * the e-mail pattern `^[^\s@]+@[^\s@]+\.[^\s@]+$`, the phone's digits, and the
 * events the guest may select.
 */
module Validation {
  import opened Wrappers
  import opened Records
  import Js

  const MSG_REQUIRED := "All fields are required"
  const MSG_GUESTS := "Additional guests must be between 0 and 5"
  const MSG_EMAIL := "Please enter a valid email address"
  const MSG_PHONE := "Please enter a valid phone number"
  const MSG_NOT_INVITED := "You are not invited to the following events: "

  const MAX_ADDITIONAL_GUESTS := 5
  const MIN_PHONE_DIGITS := 10

  /** What the guest's form submits. */
  datatype Submission = Submission(
    name: string,
    email: string,
    phone: string,
    inviteId: string,
    additional_guests: int,
    events: Events)

  // ---------------------------------------------------------------- phone

  /** `phone.replace(/\D/g, "")`: the digits of `s`, in order. */
  function PhoneDigits(s: string): (d: string)
    ensures Js.AllDigits(d) && |d| <= |s|
  {
    if s == [] then []
    else if Js.IsDigit(s[0]) then [s[0]] + PhoneDigits(s[1..])
    else PhoneDigits(s[1..])
  }

  /** The projection keeps exactly the digits of its input, in their order. */
  lemma {:induction false} PhoneDigitsOfConcat(a: string, b: string)
    ensures PhoneDigits(a + b) == PhoneDigits(a) + PhoneDigits(b)
  {
    if a != [] {
      assert (a + b)[1..] == a[1..] + b;
      PhoneDigitsOfConcat(a[1..], b);
    } else {
      assert a + b == b;
    }
  }

  /** A string of digits is its own projection. */
  lemma {:induction false} PhoneDigitsOfDigits(s: string)
    requires Js.AllDigits(s)
    ensures PhoneDigits(s) == s
  {
    if s != [] {
      assert Js.IsDigit(s[0]);
      PhoneDigitsOfDigits(s[1..]);
    }
  }

  /** Normalising a phone number twice is the same as once. */
  lemma PhoneDigitsIdempotent(s: string)
    ensures PhoneDigits(PhoneDigits(s)) == PhoneDigits(s)
  {
    PhoneDigitsOfDigits(PhoneDigits(s));
  }

  /** A string without digits projects to nothing. */
  lemma {:induction false} PhoneDigitsOfNonDigits(s: string)
    requires forall i :: 0 <= i < |s| ==> !Js.IsDigit(s[i])
    ensures PhoneDigits(s) == []
  {
    if s != [] {
      PhoneDigitsOfNonDigits(s[1..]);
    }
  }

  /** Separators between groups of digits drop out of the projection. */
  lemma GroupedPhoneDigits(open: string, p1: string, sep: string, p2: string, dash: string, p3: string)
    requires Js.AllDigits(p1) && Js.AllDigits(p2) && Js.AllDigits(p3)
    requires PhoneDigits(open) == [] && PhoneDigits(sep) == [] && PhoneDigits(dash) == []
    ensures PhoneDigits(open + p1 + sep + p2 + dash + p3) == p1 + p2 + p3
  {
    var s1 := open + p1;
    var s2 := s1 + sep;
    var s3 := s2 + p2;
    var s4 := s3 + dash;
    assert PhoneDigits(s1) == p1 by {
      PhoneDigitsOfConcat(open, p1);
      PhoneDigitsOfDigits(p1);
    }
    assert PhoneDigits(s2) == p1 by {
      PhoneDigitsOfConcat(s1, sep);
    }
    assert PhoneDigits(s3) == p1 + p2 by {
      PhoneDigitsOfConcat(s2, p2);
      PhoneDigitsOfDigits(p2);
    }
    assert PhoneDigits(s4) == p1 + p2 by {
      PhoneDigitsOfConcat(s3, dash);
    }
    PhoneDigitsOfConcat(s4, p3);
    PhoneDigitsOfDigits(p3);
  }

  // ---------------------------------------------------------------- email

  /** A character of `[^\s@]`. */
  predicate Plain(c: char) {
    !Js.IsWhitespace(c) && c != '@'
  }

  /** A word of `[^\s@]+`. */
  predicate PlainRun(s: string) {
    s != [] && forall i :: 0 <= i < |s| ==> Plain(s[i])
  }

  /** The language of `^[^\s@]+@[^\s@]+\.[^\s@]+$`, stated as the regex reads. */
  ghost predicate MatchesEmailPattern(s: string) {
    exists a: string, b: string, c: string ::
      PlainRun(a) && PlainRun(b) && PlainRun(c) && s == a + "@" + b + "." + c
  }

  /** The index of the first `ch` in `s`, or `|s|` when there is none. */
  function IndexOf(s: string, ch: char): (p: nat)
    ensures p <= |s|
    ensures p < |s| ==> s[p] == ch
    ensures forall j :: 0 <= j < p ==> s[j] != ch
  {
    if s == [] then 0 else if s[0] == ch then 0 else 1 + IndexOf(s[1..], ch)
  }

  predicate NoWhitespace(s: string) {
    forall i :: 0 <= i < |s| ==> !Js.IsWhitespace(s[i])
  }

  predicate NoAt(s: string) {
    forall i :: 0 <= i < |s| ==> s[i] != '@'
  }

  /** A '.' with at least one character on each side of it. */
  predicate HasInnerDot(d: string) {
    exists i :: 1 <= i < |d| - 1 && d[i] == '.'
  }

  /**
   * The e-mail check by its three conditions: no white space, exactly one '@'
   * with a non-empty local part, and a domain holding an inner '.'.
   */
  predicate IsValidEmail(s: string) {
    var p := IndexOf(s, '@');
    && NoWhitespace(s)
    && 0 < p < |s|
    && NoAt(s[p + 1..])
    && HasInnerDot(s[p + 1..])
  }

  /** The three conditions accept exactly the strings the regular expression matches. */
  lemma EmailCheckMatchesPattern(s: string)
    ensures IsValidEmail(s) <==> MatchesEmailPattern(s)
  {
    if IsValidEmail(s) {
      var p := IndexOf(s, '@');
      var d := s[p + 1..];
      var i :| 1 <= i < |d| - 1 && d[i] == '.';
      var a, b, c := s[..p], d[..i], d[i + 1..];
      assert s == a + "@" + b + "." + c by {
        assert d == b + "." + c;
        assert s == s[..p] + [s[p]] + d;
      }
      assert PlainRun(a) && PlainRun(b) && PlainRun(c);
    }
    if MatchesEmailPattern(s) {
      var a: string, b: string, c: string :|
        PlainRun(a) && PlainRun(b) && PlainRun(c) && s == a + "@" + b + "." + c;
      PatternImpliesCheck(s, a, b, c);
    }
  }

  lemma PatternImpliesCheck(s: string, a: string, b: string, c: string)
    requires PlainRun(a) && PlainRun(b) && PlainRun(c) && s == a + "@" + b + "." + c
    ensures IsValidEmail(s)
  {
    var p := |a|;
    assert s[p] == '@';
    assert forall j :: 0 <= j < p ==> s[j] == a[j];
    assert IndexOf(s, '@') == p;
    var d := s[p + 1..];
    assert d == b + "." + c;
    assert d[|b|] == '.';
    assert forall j :: 0 <= j < |d| ==> d[j] == '.' || Plain(d[j]) by {
      forall j | 0 <= j < |d|
        ensures d[j] == '.' || Plain(d[j])
      {
        if j < |b| { assert d[j] == b[j]; }
        else if j > |b| { assert d[j] == c[j - |b| - 1]; }
      }
    }
    assert forall j :: 0 <= j < |s| ==> !Js.IsWhitespace(s[j]) by {
      forall j | 0 <= j < |s|
        ensures !Js.IsWhitespace(s[j])
      {
        if j < p { assert s[j] == a[j]; }
        else if j > p { assert s[j] == d[j - p - 1]; }
      }
    }
  }

  // ---------------------------------------------------------------- events

  /**
   * `Object.entries(events).filter(([e, sel]) => sel && !allowed[e])`, keeping
   * the keys: every selected event the invite does not grant, in submission order.
   */
  function InvalidEvents(selected: Events, allowed: Events): (bad: seq<string>)
    ensures |bad| <= |selected|
  {
    if selected == [] then []
    else
      var rest := InvalidEvents(selected[1..], allowed);
      if selected[0].on && !Selected(allowed, selected[0].key) then [selected[0].key] + rest else rest
  }

  /** An event is reported iff the guest selected it and the invite does not mark it true. */
  lemma {:induction false} InvalidEventsMembers(selected: Events, allowed: Events, k: string)
    ensures k in InvalidEvents(selected, allowed) <==>
      (exists i :: 0 <= i < |selected| && selected[i] == Flag(k, true)) && !Selected(allowed, k)
  {
    if selected != [] {
      InvalidEventsMembers(selected[1..], allowed, k);
      if exists i :: 0 <= i < |selected| && selected[i] == Flag(k, true) {
        var i :| 0 <= i < |selected| && selected[i] == Flag(k, true);
        if i > 0 { assert selected[1..][i - 1] == selected[i]; }
      }
      if exists i :: 0 <= i < |selected[1..]| && selected[1..][i] == Flag(k, true) {
        var i :| 0 <= i < |selected[1..]| && selected[1..][i] == Flag(k, true);
        assert selected[i + 1] == selected[1..][i];
      }
    }
  }

  /** The offenders of a longer submission are those of its parts, in order. */
  lemma {:induction false} InvalidEventsOfConcat(a: Events, b: Events, allowed: Events)
    ensures InvalidEvents(a + b, allowed) == InvalidEvents(a, allowed) + InvalidEvents(b, allowed)
  {
    if a != [] {
      assert (a + b)[1..] == a[1..] + b;
      InvalidEventsOfConcat(a[1..], b, allowed);
    } else {
      assert a + b == b;
    }
  }

  /** `names.join(", ")`. */
  function JoinComma(names: seq<string>): string
  {
    if names == [] then []
    else if |names| == 1 then names[0]
    else names[0] + ", " + JoinComma(names[1..])
  }

  /** `w` appears in `s` starting at position `k`. */
  predicate OccursAt(w: string, s: string, k: int) {
    0 <= k && k + |w| <= |s| && s[k..k + |w|] == w
  }

  /** Every joined name appears in the joined text, in its own place. */
  lemma {:induction false} JoinCommaListsEach(names: seq<string>, i: int)
    requires 0 <= i < |names|
    ensures exists k :: OccursAt(names[i], JoinComma(names), k)
  {
    if |names| == 1 {
      assert OccursAt(names[0], JoinComma(names), 0);
    } else if i == 0 {
      var j := JoinComma(names);
      assert j == names[0] + (", " + JoinComma(names[1..]));
      assert j[0..|names[0]|] == names[0];
      assert OccursAt(names[0], j, 0);
    } else {
      var rest := JoinComma(names[1..]);
      JoinCommaListsEach(names[1..], i - 1);
      var k' :| OccursAt(names[1..][i - 1], rest, k');
      var head := names[0] + ", ";
      var k := |head| + k';
      assert JoinComma(names) == head + rest;
      assert (head + rest)[k..k + |names[i]|] == rest[k'..k' + |names[i]|];
      assert OccursAt(names[i], JoinComma(names), k);
    }
  }

  /** The rejection message for a non-empty list of offending events. */
  function NotInvitedMessage(bad: seq<string>): (msg: string)
    ensures MSG_NOT_INVITED <= msg
  {
    MSG_NOT_INVITED + JoinComma(bad)
  }

  /** The rejection message names every offending event after its fixed prefix. */
  lemma NotInvitedMessageNamesEach(bad: seq<string>, i: int)
    requires 0 <= i < |bad|
    ensures exists k :: |MSG_NOT_INVITED| <= k && OccursAt(bad[i], NotInvitedMessage(bad), k)
  {
    JoinCommaListsEach(bad, i);
    var j := JoinComma(bad);
    var k' :| OccursAt(bad[i], j, k');
    var k := |MSG_NOT_INVITED| + k';
    assert (MSG_NOT_INVITED + j)[k..k + |bad[i]|] == j[k'..k' + |bad[i]|];
    assert OccursAt(bad[i], NotInvitedMessage(bad), k);
  }

  // ---------------------------------------------------------------- the chain

  /**
   * The checks of app/actions/invite.ts:53-84, in their order: the message of
   * the first that fails, or None.
   */
  function FieldError(f: Submission): (err: Option<string>)
    ensures err.Some? ==> err.value in [MSG_REQUIRED, MSG_GUESTS, MSG_EMAIL, MSG_PHONE]
    ensures err.None? ==>
      && f.name != "" && f.email != "" && f.phone != "" && f.inviteId != ""
      && 0 <= f.additional_guests <= MAX_ADDITIONAL_GUESTS
      && |PhoneDigits(f.phone)| >= MIN_PHONE_DIGITS
  {
    if f.name == "" || f.email == "" || f.phone == "" || f.inviteId == "" then Some(MSG_REQUIRED)
    else if f.additional_guests < 0 || f.additional_guests > MAX_ADDITIONAL_GUESTS then Some(MSG_GUESTS)
    else if !IsValidEmail(f.email) then Some(MSG_EMAIL)
    else if |PhoneDigits(f.phone)| < MIN_PHONE_DIGITS then Some(MSG_PHONE)
    else None
  }

  /** An empty required field is reported as such, whatever else is wrong. */
  lemma RequiredFieldsCheckedFirst(f: Submission)
    requires f.name == "" || f.email == "" || f.phone == "" || f.inviteId == ""
    ensures FieldError(f) == Some(MSG_REQUIRED)
  {
  }

  /** With the fields present, the guest check rejects exactly the counts outside 0..5. */
  lemma GuestCountBounds(f: Submission)
    requires f.name != "" && f.email != "" && f.phone != "" && f.inviteId != ""
    ensures FieldError(f) == Some(MSG_GUESTS) <==> (f.additional_guests < 0 || f.additional_guests > 5)
  {
  }

  /** A submission passes all field checks iff each condition holds. */
  lemma FieldsAcceptedIff(f: Submission)
    ensures FieldError(f).None? <==>
      && f.name != "" && f.email != "" && f.phone != "" && f.inviteId != ""
      && 0 <= f.additional_guests <= 5
      && MatchesEmailPattern(f.email)
      && |PhoneDigits(f.phone)| >= 10
  {
    EmailCheckMatchesPattern(f.email);
  }
}

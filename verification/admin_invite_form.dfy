/**
 * The admin's invite form, components/admin/InviteForm.tsx: the form state,
 * the change handler every input shares, the reset after a submission, and
 * which event checkboxes are shown for the chosen location.
 */
module AdminInviteForm {
  import opened Wrappers
  import opened Records
  import Js

  /** A form property's value: an input's string, `Number(value)` (`None` is NaN), or a checkbox's state. */
  datatype FormValue = Entered(s: string) | Numeric(n: Option<int>) | Checked(on: bool)

  /** The form state: every top-level property by name, and the `events` object. */
  datatype FormData = FormData(fields: map<string, FormValue>, events: Events)

  /** The input that fired: its `name`, `value`, `type` and `checked`. */
  datatype Target = Target(name: string, value: string, kind: string, checked: bool)

  const EVENT_PREFIX: string := "event_"
  const HOUSTON: string := "houston"
  const COLORADO: string := "colorado"

  /** The five event keys, all unchecked, in the order the form declares them. */
  const NO_EVENTS: Events :=
    [Flag(HALDI, false), Flag(SANGEET, false), Flag(WEDDING, false), Flag(RECEPTION, false),
     Flag(COLORADO_RECEPTION, false)]

  /** The initial state, and the state `handleSubmit` resets to. */
  const BLANK_FORM: FormData := FormData(
    map["name" := Entered(""), "email" := Entered(""), "phone" := Entered(""), "additional_guests" := Numeric(Some(5)),
        "is_template" := Checked(false), "location" := Entered(HOUSTON), "template_name" := Entered("")],
    NO_EVENTS)

  /** `{ ...events, [key]: on }`: an existing key keeps its place, a new one goes last. */
  function SetFlag(events: Events, key: string, on: bool): (r: Events)
    ensures Lookup(r, key) == Some(on)
    ensures forall k :: k != key ==> Lookup(r, k) == Lookup(events, k)
  {
    if events == [] then [Flag(key, on)]
    else if events[0].key == key then [Flag(key, on)] + events[1..]
    else [events[0]] + SetFlag(events[1..], key, on)
  }

  predicate StartsWith(s: string, prefix: string) {
    |prefix| <= |s| && s[..|prefix|] == prefix
  }

  /**
   * `handleChange`. No input of the form is named `events`; one that were
   * would overwrite the events object itself.
   */
  function HandleChange(prev: FormData, t: Target): (next: FormData)
    requires t.name != "events"
    ensures next.events == prev.events || next.fields == prev.fields
    ensures next.events != prev.events ==> t.kind == "checkbox" && StartsWith(t.name, EVENT_PREFIX)
    ensures forall k :: k in prev.fields && k != t.name ==> k in next.fields && next.fields[k] == prev.fields[k]
    ensures next.fields.Keys <= prev.fields.Keys + {t.name}
  {
    if t.kind == "checkbox" then
      if StartsWith(t.name, EVENT_PREFIX) then prev.(events := SetFlag(prev.events, t.name[|EVENT_PREFIX|..], t.checked))
      else prev.(fields := prev.fields[t.name := Checked(t.checked)])
    else if t.kind == "number" then prev.(fields := prev.fields[t.name := Numeric(Js.NumberOf(t.value))])
    else prev.(fields := prev.fields[t.name := Entered(t.value)])
  }

  /** An `event_X` checkbox sets the flag of `X` alone; no other flag and no other property changes. */
  lemma EventCheckboxSetsOnlyItsEvent(prev: FormData, key: string, checked: bool, value: string, k: string)
    ensures EVENT_PREFIX + key != "events"
    ensures var next := HandleChange(prev, Target(EVENT_PREFIX + key, value, "checkbox", checked));
      && Lookup(next.events, key) == Some(checked)
      && (k != key ==> Lookup(next.events, k) == Lookup(prev.events, k))
      && next.fields == prev.fields
  {
    assert (EVENT_PREFIX + key)[5] != "events"[5];
    assert (EVENT_PREFIX + key)[..|EVENT_PREFIX|] == EVENT_PREFIX;
    assert (EVENT_PREFIX + key)[|EVENT_PREFIX|..] == key;
  }

  /**
   * Every other input sets the property of its own name, to the checkbox state,
   * `Number(value)` or the raw string; the event flags stay as they were.
   */
  lemma OtherInputSetsItsField(prev: FormData, t: Target, f: string)
    requires t.name != "events"
    requires t.kind != "checkbox" || !StartsWith(t.name, EVENT_PREFIX)
    ensures var next := HandleChange(prev, t);
      && next.events == prev.events
      && t.name in next.fields
      && next.fields[t.name] == (if t.kind == "checkbox" then Checked(t.checked)
                                 else if t.kind == "number" then Numeric(Js.NumberOf(t.value))
                                 else Entered(t.value))
      && (f != t.name && f in prev.fields ==> f in next.fields && next.fields[f] == prev.fields[f])
  {
  }

  /** Typing digits into the guests field stores their value as a number. */
  lemma GuestCountIsNumeric(prev: FormData, digits: string)
    requires digits != [] && Js.AllDigits(digits)
    ensures HandleChange(prev, Target("additional_guests", digits, "number", false)).fields["additional_guests"]
         == Numeric(Some(Js.DigitsValue(digits)))
  {
    Js.NumberOfDigits(digits);
  }

  /** Whether the checkbox of event `key` is rendered for the form's location. */
  predicate Visible(location: FormValue, key: string) {
    !((location == Entered(HOUSTON) && key == COLORADO_RECEPTION) || (location == Entered(COLORADO) && key != COLORADO_RECEPTION))
  }

  /** The keys whose checkboxes are shown, in the events object's order. */
  function VisibleEvents(form: FormData): (keys: seq<string>)
    ensures |keys| <= |form.events|
  {
    VisibleKeys(form.events, if "location" in form.fields then form.fields["location"] else Entered(""))
  }

  function VisibleKeys(events: Events, location: FormValue): (keys: seq<string>)
    ensures |keys| <= |events|
  {
    if events == [] then []
    else VisibleKeys(events[..|events| - 1], location)
         + (if Visible(location, events[|events| - 1].key) then [events[|events| - 1].key] else [])
  }

  /** A key is shown exactly when the events object has it and the location does not hide it. */
  lemma {:induction false} VisibleKeysMembers(events: Events, location: FormValue, key: string)
    ensures key in VisibleKeys(events, location)
       <==> (exists i :: 0 <= i < |events| && events[i].key == key) && Visible(location, key)
  {
    if events != [] {
      var init := events[..|events| - 1];
      VisibleKeysMembers(init, location, key);
      if exists i :: 0 <= i < |init| && init[i].key == key {
        var i :| 0 <= i < |init| && init[i].key == key;
        assert events[i] == init[i];
      }
      if exists i :: 0 <= i < |events| && events[i].key == key {
        var i :| 0 <= i < |events| && events[i].key == key;
        if i < |init| {
          assert init[i] == events[i];
        }
      }
    }
  }

  /**
   * For the five events: Houston shows all but the Colorado reception,
   * Colorado shows only it, and no location shows all five.
   */
  lemma VisibilityByLocation(events: Events, key: string)
    requires key in EVENT_KEYS && exists i :: 0 <= i < |events| && events[i].key == key
    ensures key in VisibleKeys(events, Entered(HOUSTON)) <==> key != COLORADO_RECEPTION
    ensures key in VisibleKeys(events, Entered(COLORADO)) <==> key == COLORADO_RECEPTION
    ensures key in VisibleKeys(events, Entered(""))
  {
    VisibleKeysMembers(events, Entered(HOUSTON), key);
    VisibleKeysMembers(events, Entered(COLORADO), key);
    VisibleKeysMembers(events, Entered(""), key);
  }

  /**
   * Choosing a location only hides checkboxes: every flag keeps its value,
   * hidden ones included, and is submitted as it stands.
   */
  lemma LocationKeepsFlags(prev: FormData, location: string)
    ensures var next := HandleChange(prev, Target("location", location, "select-one", false));
      && next.events == prev.events
      && next.fields["location"] == Entered(location)
      && VisibleEvents(next) == VisibleKeys(prev.events, Entered(location))
  {
  }

  /** `handleSubmit`: the state is handed over as it is, then the form starts blank. */
  function HandleSubmit(form: FormData): (r: (FormData, FormData))
    ensures r.0 == form && r.1 == BLANK_FORM
  {
    (form, BLANK_FORM)
  }

  /**
   * After a submission every event is unchecked, the location is Houston,
   * the guest allowance is 5 and nothing is a template; the four Houston
   * events are the ones shown.
   */
  lemma ResetForm(form: FormData, key: string)
    ensures var blank := HandleSubmit(form).1;
      && Lookup(blank.events, key) == (if key in EVENT_KEYS then Some(false) else None)
      && !Selected(blank.events, key)
      && blank.fields["location"] == Entered(HOUSTON)
      && blank.fields["additional_guests"] == Numeric(Some(5))
      && blank.fields["is_template"] == Checked(false)
      && blank.fields["name"] == Entered("") && blank.fields["email"] == Entered("") && blank.fields["phone"] == Entered("")
      && VisibleEvents(blank) == [HALDI, SANGEET, WEDDING, RECEPTION]
  {
    NoEventsLookup(key);
    HoustonShowsFour();
    assert BLANK_FORM.fields["location"] == Entered(HOUSTON);
  }

  lemma NoEventsLookup(key: string)
    ensures Lookup(NO_EVENTS, key) == (if key in EVENT_KEYS then Some(false) else None)
  {
    if key != HALDI {
      assert Lookup(NO_EVENTS, key) == Lookup(NO_EVENTS[1..], key);
      if key != SANGEET {
        assert Lookup(NO_EVENTS[1..], key) == Lookup(NO_EVENTS[2..], key);
        if key != WEDDING {
          assert Lookup(NO_EVENTS[2..], key) == Lookup(NO_EVENTS[3..], key);
          if key != RECEPTION {
            assert Lookup(NO_EVENTS[3..], key) == Lookup(NO_EVENTS[4..], key);
            if key != COLORADO_RECEPTION {
              assert Lookup(NO_EVENTS[4..], key) == Lookup([], key);
            }
          }
        }
      }
    }
  }

  lemma HoustonShowsFour()
    ensures VisibleKeys(NO_EVENTS, Entered(HOUSTON)) == [HALDI, SANGEET, WEDDING, RECEPTION]
  {
    assert VisibleKeys(NO_EVENTS[..4], Entered(HOUSTON)) == [HALDI, SANGEET, WEDDING, RECEPTION] by {
      assert VisibleKeys(NO_EVENTS[..3], Entered(HOUSTON)) == [HALDI, SANGEET, WEDDING] by {
        assert VisibleKeys(NO_EVENTS[..2], Entered(HOUSTON)) == [HALDI, SANGEET] by {
          assert VisibleKeys(NO_EVENTS[..1], Entered(HOUSTON)) == [HALDI] by {
            assert NO_EVENTS[..1][..0] == [];
          }
          assert NO_EVENTS[..2][..1] == NO_EVENTS[..1];
        }
        assert NO_EVENTS[..3][..2] == NO_EVENTS[..2];
      }
      assert NO_EVENTS[..4][..3] == NO_EVENTS[..3];
    }
    assert NO_EVENTS[..4] == NO_EVENTS[..|NO_EVENTS| - 1];
  }
}

/**
 * `migrateInvitesFromKV` of lib/migration.ts: copy the key-value store's
 * invites and responses into the database. A first pass creates the invites
 * that are not there yet and records which of them are templates, a second
 * pass links invites to their templates, and a third pass creates the
 * responses whose invite made it across. Every key is counted once per pass.
 *
 * The key listings and each key's processing may throw; those are the
 * oracles `Listing` and `Faults`. The store read under key `invite:<id>`
 * is `kv.invites[id]` and the listing yields the ids.
 */
module Migration {
  import opened Wrappers
  import opened Records
  import opened Stores
  import Js

  const MSG_NOTHING: string := "No invites found in KV to migrate"
  const MSG_FAILED: string := "Migration failed: "

  /** The keys whose processing throws inside the `try` of each pass. */
  datatype Faults = Faults(invitePass: set<string>, templatePass: set<string>, responsePass: set<string>)

  /** The `stats` object. */
  datatype Counts = Counts(invites: nat, responses: nat, errors: nat, skipped: nat)

  /** The database tables, the `templateIdMap` and the counters, as the loops leave them. */
  datatype MigState = MigState(invites: map<string, DbInvite>, responses: map<string, DbResponse>,
                               templateIds: map<string, string>, stats: Counts)

  datatype Summary = Summary(success: bool, message: string, stats: Counts)

  /** The result and the tables afterwards. */
  datatype Migration = Migration(summary: Summary, invites: map<string, DbInvite>,
                                 responses: map<string, DbResponse>)

  /** The decimal text of `n`, as a template literal prints it. */
  function NatToString(n: nat): (s: string)
    ensures s != [] && Js.AllDigits(s)
  {
    var d := ['0' + (n % 10) as char];
    if n < 10 then d else NatToString(n / 10) + d
  }

  /** Reading the printed number back gives the number. */
  lemma {:induction false} NatToStringRoundTrip(n: nat)
    ensures Js.DigitsValue(NatToString(n)) == n
  {
    var s := NatToString(n);
    if n >= 10 {
      NatToStringRoundTrip(n / 10);
      assert s[..|s| - 1] == NatToString(n / 10);
    }
  }

  function CompletedMessage(c: Counts): string {
    "Migration completed: " + NatToString(c.invites) + " invites and " + NatToString(c.responses)
      + " responses migrated, " + NatToString(c.skipped) + " items skipped, " + NatToString(c.errors) + " errors"
  }

  /** The row `prisma.invite.create` is given for a key-value invite, with its defaults. */
  function NewDbInvite(inv: Invite, now: int): (row: DbInvite)
    ensures row.id == inv.id && row.template_invite_id.None?
    ensures row.is_template <==> IsTemplate(inv)
    ensures row.additional_guests == ParsedGuests(inv.additional_guests)
    ensures inv.events.None? ==> row.events == []
    ensures row.name.Some? <==> inv.name.Some? && inv.name.value != ""
  {
    DbInvite(inv.id, PresentIfTruthy(inv.name), PresentIfTruthy(inv.email), PresentIfTruthy(inv.phone),
             ParsedGuests(inv.additional_guests), inv.events.GetOr([]), inv.created_at, now,
             IsTemplate(inv), PresentIfTruthy(inv.template_name), PresentIfTruthy(inv.location), None)
  }

  /** The row `prisma.response.create` is given; it belongs to the response's invite. */
  function NewDbResponse(r: Response): (row: DbResponse)
    ensures row.id == r.id && row.invite_id == r.inviteId && !row.welcome_email_sent
    ensures row.additional_guests == ParsedGuests(r.additional_guests)
    ensures r.events.None? ==> row.events == []
  {
    DbResponse(r.id, r.name, r.email, r.phone, ParsedGuests(r.additional_guests), r.events.GetOr([]),
               r.created_at, r.updated_at, r.inviteId, false)
  }

  function AddTemplate(templateIds: map<string, string>, inv: Invite): map<string, string> {
    if IsTemplate(inv) then templateIds[inv.id := inv.id] else templateIds
  }

  /** One iteration of the first loop. */
  function InviteStep(kv: map<string, Invite>, key: string, st: MigState, fails: set<string>, now: int): (r: MigState)
    ensures r.responses == st.responses
    ensures forall id :: id in st.invites ==> id in r.invites && r.invites[id] == st.invites[id]
  {
    if key in fails then st.(stats := st.stats.(errors := st.stats.errors + 1))
    else if key !in kv then st.(stats := st.stats.(skipped := st.stats.skipped + 1))
    else
      var inv := kv[key];
      if inv.id in st.invites then
        st.(templateIds := AddTemplate(st.templateIds, inv), stats := st.stats.(skipped := st.stats.skipped + 1))
      else
        st.(invites := st.invites[inv.id := NewDbInvite(inv, now)], templateIds := AddTemplate(st.templateIds, inv),
            stats := st.stats.(invites := st.stats.invites + 1))
  }

  /** The first loop over a prefix of the keys. */
  function InvitePass(kv: map<string, Invite>, keys: seq<string>, st: MigState, fails: set<string>, now: int): (r: MigState)
    ensures r.responses == st.responses
    ensures forall id :: id in st.invites ==> id in r.invites && r.invites[id] == st.invites[id]
  {
    if keys == [] then st
    else InviteStep(kv, keys[|keys| - 1], InvitePass(kv, keys[..|keys| - 1], st, fails, now), fails, now)
  }

  /** One iteration of the second loop: the template link, when its template was recorded. */
  function TemplateStep(kv: map<string, Invite>, key: string, st: MigState, fails: set<string>): (r: MigState)
    ensures r.invites.Keys == st.invites.Keys && r.responses == st.responses && r.templateIds == st.templateIds
  {
    if key in fails then st.(stats := st.stats.(errors := st.stats.errors + 1))
    else if key !in kv || kv[key].template_invite_id.None? || kv[key].template_invite_id.value == "" then st
    else
      var inv := kv[key];
      var template := inv.template_invite_id.value;
      if template !in st.templateIds then st
      else if inv.id !in st.invites then st.(stats := st.stats.(errors := st.stats.errors + 1))
      else st.(invites := st.invites[inv.id := st.invites[inv.id].(template_invite_id := Some(st.templateIds[template]))])
  }

  function TemplatePass(kv: map<string, Invite>, keys: seq<string>, st: MigState, fails: set<string>): (r: MigState)
    ensures r.invites.Keys == st.invites.Keys && r.responses == st.responses && r.templateIds == st.templateIds
  {
    if keys == [] then st
    else TemplateStep(kv, keys[|keys| - 1], TemplatePass(kv, keys[..|keys| - 1], st, fails), fails)
  }

  /** One iteration of the response loop. */
  function ResponseStep(kv: map<string, Response>, key: string, st: MigState, fails: set<string>): (r: MigState)
    ensures r.invites == st.invites && r.templateIds == st.templateIds
    ensures forall id :: id in st.responses ==> id in r.responses && r.responses[id] == st.responses[id]
  {
    if key in fails then st.(stats := st.stats.(errors := st.stats.errors + 1))
    else if key !in kv then st.(stats := st.stats.(skipped := st.stats.skipped + 1))
    else
      var r := kv[key];
      if r.id in st.responses || r.inviteId !in st.invites then st.(stats := st.stats.(skipped := st.stats.skipped + 1))
      else st.(responses := st.responses[r.id := NewDbResponse(r)], stats := st.stats.(responses := st.stats.responses + 1))
  }

  function ResponsePass(kv: map<string, Response>, keys: seq<string>, st: MigState, fails: set<string>): (r: MigState)
    ensures r.invites == st.invites && r.templateIds == st.templateIds
    ensures forall id :: id in st.responses ==> id in r.responses && r.responses[id] == st.responses[id]
  {
    if keys == [] then st
    else ResponseStep(kv, keys[|keys| - 1], ResponsePass(kv, keys[..|keys| - 1], st, fails), fails)
  }

  const ZERO: Counts := Counts(0, 0, 0, 0)

  /** `migrateInvitesFromKV` over the two stores' contents. */
  function Migrate(kvInvites: map<string, Invite>, kvResponses: map<string, Response>,
                   invites: map<string, DbInvite>, responses: map<string, DbResponse>,
                   inviteList: Listing, responseList: Listing, faults: Faults, now: int): (m: Migration)
    ensures !m.summary.success ==> m.summary.stats == Counts(0, 0, 1, 0)
    ensures !m.summary.success ==> m.invites == invites && m.responses == responses
  {
    match inviteList
    case ListFailed(e) => Migration(Summary(false, MSG_FAILED + e, Counts(0, 0, 1, 0)), invites, responses)
    case Listed(inviteKeys) =>
      if inviteKeys == [] then Migration(Summary(true, MSG_NOTHING, ZERO), invites, responses)
      else match responseList
        case ListFailed(e) => Migration(Summary(false, MSG_FAILED + e, Counts(0, 0, 1, 0)), invites, responses)
        case Listed(responseKeys) =>
          var st := RunPasses(kvInvites, kvResponses, invites, responses, inviteKeys, responseKeys, faults, now);
          Migration(Summary(true, CompletedMessage(st.stats), st.stats), st.invites, st.responses)
  }

  /** The three loops one after the other, from empty counters and an empty `templateIdMap`. */
  function RunPasses(kvInvites: map<string, Invite>, kvResponses: map<string, Response>,
                     invites: map<string, DbInvite>, responses: map<string, DbResponse>,
                     inviteKeys: seq<string>, responseKeys: seq<string>, faults: Faults, now: int): MigState
  {
    var st1 := InvitePass(kvInvites, inviteKeys, MigState(invites, responses, map[], ZERO), faults.invitePass, now);
    var st2 := TemplatePass(kvInvites, inviteKeys, st1, faults.templatePass);
    ResponsePass(kvResponses, responseKeys, st2, faults.responsePass)
  }

  /** The migration over the database object: three loops writing one row at a time. */
  method MigrateInvitesFromKv(kv: KvStore, db: Database, inviteList: Listing, responseList: Listing,
                              faults: Faults, now: int) returns (result: Summary)
    modifies db
    ensures var m := Migrate(kv.invites, kv.responses, old(db.invites), old(db.responses),
                             inviteList, responseList, faults, now);
      result == m.summary && db.invites == m.invites && db.responses == m.responses
  {
    if inviteList.ListFailed? {
      return Summary(false, MSG_FAILED + inviteList.message, Counts(0, 0, 1, 0));
    }
    var inviteKeys := inviteList.keys;
    if |inviteKeys| == 0 {
      return Summary(true, MSG_NOTHING, ZERO);
    }
    if responseList.ListFailed? {
      return Summary(false, MSG_FAILED + responseList.message, Counts(0, 0, 1, 0));
    }
    var templateIdMap, stats := CopyInvites(kv, db, inviteKeys, faults.invitePass, now);
    stats := LinkTemplates(kv, db, inviteKeys, faults.templatePass, templateIdMap, stats);
    stats := CopyResponses(kv, db, responseList.keys, faults.responsePass, templateIdMap, stats);
    result := Summary(true, CompletedMessage(stats), stats);
  }

  /** First pass: create the invites that are not there yet, recording the templates. */
  method CopyInvites(kv: KvStore, db: Database, inviteKeys: seq<string>, fails: set<string>, now: int)
    returns (templateIdMap: map<string, string>, stats: Counts)
    modifies db
    ensures MigState(db.invites, db.responses, templateIdMap, stats)
         == InvitePass(kv.invites, inviteKeys, MigState(old(db.invites), old(db.responses), map[], ZERO), fails, now)
  {
    stats := ZERO;
    templateIdMap := map[];
    ghost var start := MigState(db.invites, db.responses, map[], ZERO);
    for i := 0 to |inviteKeys|
      invariant MigState(db.invites, db.responses, templateIdMap, stats)
             == InvitePass(kv.invites, inviteKeys[..i], start, fails, now)
    {
      assert inviteKeys[..i + 1][..i] == inviteKeys[..i];
      var key := inviteKeys[i];
      if key in fails {
        stats := stats.(errors := stats.errors + 1);
        continue;
      }
      if key !in kv.invites {
        stats := stats.(skipped := stats.skipped + 1);
        continue;
      }
      var kvInvite := kv.invites[key];
      if kvInvite.id in db.invites {
        stats := stats.(skipped := stats.skipped + 1);
        if IsTemplate(kvInvite) {
          templateIdMap := templateIdMap[kvInvite.id := kvInvite.id];
        }
        continue;
      }
      db.invites := db.invites[kvInvite.id := NewDbInvite(kvInvite, now)];
      if IsTemplate(kvInvite) {
        templateIdMap := templateIdMap[kvInvite.id := kvInvite.id];
      }
      stats := stats.(invites := stats.invites + 1);
    }
    assert inviteKeys[..|inviteKeys|] == inviteKeys;
  }

  /** Second pass: link invites to the templates recorded by the first. */
  method LinkTemplates(kv: KvStore, db: Database, inviteKeys: seq<string>, fails: set<string>,
                       templateIdMap: map<string, string>, statsBefore: Counts) returns (stats: Counts)
    modifies db
    ensures MigState(db.invites, db.responses, templateIdMap, stats)
         == TemplatePass(kv.invites, inviteKeys, MigState(old(db.invites), old(db.responses), templateIdMap, statsBefore), fails)
  {
    stats := statsBefore;
    ghost var start := MigState(db.invites, db.responses, templateIdMap, stats);
    for i := 0 to |inviteKeys|
      invariant MigState(db.invites, db.responses, templateIdMap, stats)
             == TemplatePass(kv.invites, inviteKeys[..i], start, fails)
    {
      assert inviteKeys[..i + 1][..i] == inviteKeys[..i];
      var key := inviteKeys[i];
      if key in fails {
        stats := stats.(errors := stats.errors + 1);
        continue;
      }
      if key !in kv.invites || kv.invites[key].template_invite_id.None?
         || kv.invites[key].template_invite_id.value == "" {
        continue;
      }
      var kvInvite := kv.invites[key];
      var template := kvInvite.template_invite_id.value;
      if template !in templateIdMap {
        continue;
      }
      if kvInvite.id !in db.invites {
        // `prisma.invite.update` of a missing row throws.
        stats := stats.(errors := stats.errors + 1);
        continue;
      }
      db.invites := db.invites[kvInvite.id := db.invites[kvInvite.id].(template_invite_id := Some(templateIdMap[template]))];
    }
    assert inviteKeys[..|inviteKeys|] == inviteKeys;
  }

  /** Third pass: create the responses whose invite exists. */
  method CopyResponses(kv: KvStore, db: Database, responseKeys: seq<string>, fails: set<string>,
                       templateIdMap: map<string, string>, statsBefore: Counts) returns (stats: Counts)
    modifies db
    ensures MigState(db.invites, db.responses, templateIdMap, stats)
         == ResponsePass(kv.responses, responseKeys, MigState(old(db.invites), old(db.responses), templateIdMap, statsBefore), fails)
  {
    stats := statsBefore;
    ghost var start := MigState(db.invites, db.responses, templateIdMap, stats);
    for i := 0 to |responseKeys|
      invariant MigState(db.invites, db.responses, templateIdMap, stats)
             == ResponsePass(kv.responses, responseKeys[..i], start, fails)
    {
      assert responseKeys[..i + 1][..i] == responseKeys[..i];
      var key := responseKeys[i];
      if key in fails {
        stats := stats.(errors := stats.errors + 1);
        continue;
      }
      if key !in kv.responses {
        stats := stats.(skipped := stats.skipped + 1);
        continue;
      }
      var kvResponse := kv.responses[key];
      if kvResponse.id in db.responses || kvResponse.inviteId !in db.invites {
        stats := stats.(skipped := stats.skipped + 1);
        continue;
      }
      db.responses := db.responses[kvResponse.id := NewDbResponse(kvResponse)];
      stats := stats.(responses := stats.responses + 1);
    }
    assert responseKeys[..|responseKeys|] == responseKeys;
  }

  /** With no invite keys the migration reports success with zero counts and writes nothing. */
  lemma NothingToMigrate(kvInvites: map<string, Invite>, kvResponses: map<string, Response>,
                         invites: map<string, DbInvite>, responses: map<string, DbResponse>,
                         responseList: Listing, faults: Faults, now: int)
    ensures Migrate(kvInvites, kvResponses, invites, responses, Listed([]), responseList, faults, now)
         == Migration(Summary(true, MSG_NOTHING, Counts(0, 0, 0, 0)), invites, responses)
  {
  }

  /** Every recorded template maps to itself and names a row of the invite table. */
  predicate TemplatesResolved(st: MigState) {
    forall t :: t in st.templateIds ==> st.templateIds[t] == t && t in st.invites
  }

  /**
   * The first pass counts every key exactly once (as created, skipped or
   * failed), creates one row per count, never touches an existing row or
   * the response table, and records only templates that have a row.
   */
  lemma {:induction false} InvitePassAccounting(kv: map<string, Invite>, keys: seq<string>, st: MigState,
                                                fails: set<string>, now: int)
    requires TemplatesResolved(st)
    ensures var r := InvitePass(kv, keys, st, fails, now);
      && r.responses == st.responses && r.stats.responses == st.stats.responses
      && r.stats.invites + r.stats.skipped + r.stats.errors
         == st.stats.invites + st.stats.skipped + st.stats.errors + |keys|
      && |r.invites| + st.stats.invites == |st.invites| + r.stats.invites
      && TemplatesResolved(r)
      && (forall id :: id in st.invites ==> id in r.invites && r.invites[id] == st.invites[id])
  {
    if keys != [] {
      InvitePassAccounting(kv, keys[..|keys| - 1], st, fails, now);
      InviteStepAccounting(kv, keys[|keys| - 1], InvitePass(kv, keys[..|keys| - 1], st, fails, now), fails, now);
    }
  }

  /** One key of the first pass: counted once, at most one new row, existing rows kept. */
  lemma InviteStepAccounting(kv: map<string, Invite>, key: string, p: MigState, fails: set<string>, now: int)
    requires TemplatesResolved(p)
    ensures var r := InviteStep(kv, key, p, fails, now);
      && r.responses == p.responses && r.stats.responses == p.stats.responses
      && r.stats.invites + r.stats.skipped + r.stats.errors == p.stats.invites + p.stats.skipped + p.stats.errors + 1
      && |r.invites| + p.stats.invites == |p.invites| + r.stats.invites
      && TemplatesResolved(r)
      && (forall id :: id in p.invites ==> id in r.invites && r.invites[id] == p.invites[id])
  {
    if key !in fails && key in kv {
      var inv := kv[key];
      var r := InviteStep(kv, key, p, fails, now);
      if inv.id in p.invites {
        assert r == p.(templateIds := AddTemplate(p.templateIds, inv), stats := p.stats.(skipped := p.stats.skipped + 1));
      } else {
        var invites' := p.invites[inv.id := NewDbInvite(inv, now)];
        assert |invites'| == |p.invites| + 1;
        assert r == p.(invites := invites', templateIds := AddTemplate(p.templateIds, inv),
                       stats := p.stats.(invites := p.stats.invites + 1));
      }
    }
  }

  /** Every row the first pass adds is the default row of an invite read under one of its keys. */
  lemma {:induction false} InvitePassCreates(kv: map<string, Invite>, keys: seq<string>, st: MigState,
                                             fails: set<string>, now: int, id: string)
    requires id in InvitePass(kv, keys, st, fails, now).invites && id !in st.invites
    ensures exists i :: (0 <= i < |keys| && keys[i] in kv && kv[keys[i]].id == id
                         && InvitePass(kv, keys, st, fails, now).invites[id] == NewDbInvite(kv[keys[i]], now))
  {
    var n := |keys| - 1;
    var init := keys[..n];
    var prev := InvitePass(kv, init, st, fails, now);
    if id in prev.invites {
      InvitePassCreates(kv, init, st, fails, now, id);
      var i :| 0 <= i < |init| && init[i] in kv && kv[init[i]].id == id && prev.invites[id] == NewDbInvite(kv[init[i]], now);
      assert keys[i] == init[i];
    } else {
      assert keys[n] in kv && kv[keys[n]].id == id;
    }
  }

  /** A key that does not fail leaves its invite in the table, and recorded when it is a template. */
  lemma {:induction false} InvitePassCovers(kv: map<string, Invite>, keys: seq<string>, st: MigState,
                                            fails: set<string>, now: int)
    ensures var r := InvitePass(kv, keys, st, fails, now);
      forall i :: 0 <= i < |keys| && keys[i] !in fails && keys[i] in kv ==>
        kv[keys[i]].id in r.invites && (IsTemplate(kv[keys[i]]) ==> kv[keys[i]].id in r.templateIds)
  {
    if keys != [] {
      var n := |keys| - 1;
      var init := keys[..n];
      InvitePassCovers(kv, init, st, fails, now);
      forall i | 0 <= i < n
        ensures keys[i] == init[i]
      {
      }
    }
  }

  /** When every listed invite already has a row, the first pass only skips. */
  lemma {:induction false} InvitePassIdle(kv: map<string, Invite>, keys: seq<string>, st: MigState,
                                          fails: set<string>, now: int)
    requires forall i :: 0 <= i < |keys| && keys[i] in kv ==> kv[keys[i]].id in st.invites
    ensures var r := InvitePass(kv, keys, st, fails, now);
      r.invites == st.invites && r.responses == st.responses && r.stats.invites == st.stats.invites
      && r.stats.responses == st.stats.responses
      && (fails == {} ==> r.stats == st.stats.(skipped := st.stats.skipped + |keys|))
  {
    if keys != [] {
      var n := |keys| - 1;
      InvitePassIdle(kv, keys[..n], st, fails, now);
    }
  }

  /**
   * `after` is `before` linked by the record under `key`: that record was read,
   * has the row's id, and names a recorded template, whose row id `after`
   * takes as its template link.
   */
  predicate LinkedBy(kv: map<string, Invite>, key: string, fails: set<string>, templateIds: map<string, string>,
                     id: string, before: DbInvite, after: DbInvite)
  {
    && key !in fails && key in kv && kv[key].id == id
    && kv[key].template_invite_id.Some? && kv[key].template_invite_id.value in templateIds
    && after == before.(template_invite_id := Some(templateIds[kv[key].template_invite_id.value]))
  }

  /**
   * The second pass changes nothing but `template_invite_id`, sets it only to
   * the row id of the template a listed record of that invite names, and
   * counts only errors.
   */
  lemma {:induction false} TemplatePassLinksOnly(kv: map<string, Invite>, keys: seq<string>, st: MigState,
                                                 fails: set<string>)
    ensures var r := TemplatePass(kv, keys, st, fails);
      && r.invites.Keys == st.invites.Keys && r.responses == st.responses && r.templateIds == st.templateIds
      && r.stats == st.stats.(errors := r.stats.errors)
      && st.stats.errors <= r.stats.errors <= st.stats.errors + |keys|
      && forall id :: id in st.invites && r.invites[id] != st.invites[id] ==>
           exists i :: 0 <= i < |keys| && LinkedBy(kv, keys[i], fails, st.templateIds, id, st.invites[id], r.invites[id])
  {
    if keys != [] {
      var n := |keys| - 1;
      var prev := TemplatePass(kv, keys[..n], st, fails);
      var r := TemplatePass(kv, keys, st, fails);
      TemplatePassLinksOnly(kv, keys[..n], st, fails);
      TemplateStepLinksOnly(kv, keys[n], prev, fails);
      forall id | id in st.invites && r.invites[id] != st.invites[id]
        ensures exists i :: 0 <= i < |keys| && LinkedBy(kv, keys[i], fails, st.templateIds, id, st.invites[id], r.invites[id])
      {
        if r.invites[id] != prev.invites[id] {
          assert LinkedBy(kv, keys[n], fails, st.templateIds, id, st.invites[id], r.invites[id]);
        } else {
          var i :| 0 <= i < n && LinkedBy(kv, keys[..n][i], fails, st.templateIds, id, st.invites[id], prev.invites[id]);
          assert keys[..n][i] == keys[i];
        }
      }
    }
  }

  /** One key of the second pass: at most its own invite's row is linked to the template it names, or one error is counted. */
  lemma TemplateStepLinksOnly(kv: map<string, Invite>, key: string, p: MigState, fails: set<string>)
    ensures var r := TemplateStep(kv, key, p, fails);
      && r.invites.Keys == p.invites.Keys && r.responses == p.responses && r.templateIds == p.templateIds
      && r.stats == p.stats.(errors := r.stats.errors)
      && p.stats.errors <= r.stats.errors <= p.stats.errors + 1
      && forall id :: id in p.invites && r.invites[id] != p.invites[id] ==>
           LinkedBy(kv, key, fails, p.templateIds, id, p.invites[id], r.invites[id])
  {
    if key !in fails && key in kv && kv[key].template_invite_id.Some? && kv[key].template_invite_id.value != "" {
      var inv := kv[key];
      var t := inv.template_invite_id.value;
      if t in p.templateIds && inv.id in p.invites {
        var r := TemplateStep(kv, key, p, fails);
        assert r.invites == p.invites[inv.id := p.invites[inv.id].(template_invite_id := Some(p.templateIds[t]))];
      }
    }
  }

  /**
   * The converse: a listed, readable record that names a recorded template
   * gets its row linked to that template, when its row is stored and no other
   * listed record has the same id.
   */
  lemma {:induction false} TemplatePassLinks(kv: map<string, Invite>, keys: seq<string>, st: MigState,
                                             fails: set<string>, i: int)
    requires 0 <= i < |keys| && keys[i] in kv && keys[i] !in fails
    requires kv[keys[i]].template_invite_id.Some? && kv[keys[i]].template_invite_id.value != ""
    requires kv[keys[i]].template_invite_id.value in st.templateIds && kv[keys[i]].id in st.invites
    requires forall j :: 0 <= j < |keys| && j != i && keys[j] in kv ==> kv[keys[j]].id != kv[keys[i]].id
    ensures var r := TemplatePass(kv, keys, st, fails);
      kv[keys[i]].id in r.invites
      && r.invites[kv[keys[i]].id].template_invite_id == Some(st.templateIds[kv[keys[i]].template_invite_id.value])
  {
    var n := |keys| - 1;
    var prev := TemplatePass(kv, keys[..n], st, fails);
    TemplatePassLinksOnly(kv, keys[..n], st, fails);
    var id := kv[keys[i]].id;
    if i == n {
      var t := kv[keys[i]].template_invite_id.value;
      assert TemplateStep(kv, keys[n], prev, fails).invites
          == prev.invites[id := prev.invites[id].(template_invite_id := Some(prev.templateIds[t]))];
    } else {
      assert keys[..n][i] == keys[i];
      forall j | 0 <= j < n && j != i && keys[..n][j] in kv
        ensures kv[keys[..n][j]].id != kv[keys[..n][i]].id
      {
        assert keys[..n][j] == keys[j];
      }
      TemplatePassLinks(kv, keys[..n], st, fails, i);
      TemplateStepLinksOnly(kv, keys[n], prev, fails);
    }
  }

  /** Without faults, and with every listed invite in the table, the second pass raises no error. */
  lemma {:induction false} TemplatePassClean(kv: map<string, Invite>, keys: seq<string>, st: MigState)
    requires forall i :: 0 <= i < |keys| && keys[i] in kv ==> kv[keys[i]].id in st.invites
    ensures TemplatePass(kv, keys, st, {}).stats == st.stats
  {
    if keys != [] {
      var n := |keys| - 1;
      TemplatePassLinksOnly(kv, keys[..n], st, {});
      TemplatePassClean(kv, keys[..n], st);
    }
  }

  /**
   * The response pass counts every key exactly once, keeps existing rows and
   * the invite table, and creates one row per count.
   */
  lemma {:induction false} ResponsePassAccounting(kv: map<string, Response>, keys: seq<string>, st: MigState,
                                                  fails: set<string>)
    ensures var r := ResponsePass(kv, keys, st, fails);
      && r.invites == st.invites && r.templateIds == st.templateIds && r.stats.invites == st.stats.invites
      && r.stats.responses + r.stats.skipped + r.stats.errors
         == st.stats.responses + st.stats.skipped + st.stats.errors + |keys|
      && |r.responses| + st.stats.responses == |st.responses| + r.stats.responses
      && (forall id :: id in st.responses ==> id in r.responses && r.responses[id] == st.responses[id])
  {
    if keys != [] {
      ResponsePassAccounting(kv, keys[..|keys| - 1], st, fails);
      ResponseStepAccounting(kv, keys[|keys| - 1], ResponsePass(kv, keys[..|keys| - 1], st, fails), fails);
    }
  }

  /** One key of the response pass: counted once, at most one new row, existing rows kept. */
  lemma ResponseStepAccounting(kv: map<string, Response>, key: string, p: MigState, fails: set<string>)
    ensures var r := ResponseStep(kv, key, p, fails);
      && r.invites == p.invites && r.templateIds == p.templateIds && r.stats.invites == p.stats.invites
      && r.stats.responses + r.stats.skipped + r.stats.errors
         == p.stats.responses + p.stats.skipped + p.stats.errors + 1
      && |r.responses| + p.stats.responses == |p.responses| + r.stats.responses
      && (forall id :: id in p.responses ==> id in r.responses && r.responses[id] == p.responses[id])
  {
    if key !in fails && key in kv {
      var resp := kv[key];
      var r := ResponseStep(kv, key, p, fails);
      if !(resp.id in p.responses || resp.inviteId !in p.invites) {
        var responses' := p.responses[resp.id := NewDbResponse(resp)];
        assert |responses'| == |p.responses| + 1;
        assert r == p.(responses := responses', stats := p.stats.(responses := p.stats.responses + 1));
      }
    }
  }

  /** A response row is created only for a response whose invite is in the table, keeping its id. */
  lemma {:induction false} ResponsePassCreates(kv: map<string, Response>, keys: seq<string>, st: MigState,
                                               fails: set<string>, id: string)
    requires id in ResponsePass(kv, keys, st, fails).responses && id !in st.responses
    ensures exists i :: (0 <= i < |keys| && keys[i] in kv && kv[keys[i]].id == id && kv[keys[i]].inviteId in st.invites
                         && ResponsePass(kv, keys, st, fails).responses[id] == NewDbResponse(kv[keys[i]]))
  {
    var n := |keys| - 1;
    var init := keys[..n];
    var prev := ResponsePass(kv, init, st, fails);
    ResponsePassAccounting(kv, init, st, fails);
    if id in prev.responses {
      ResponsePassCreates(kv, init, st, fails, id);
      var i :| 0 <= i < |init| && init[i] in kv && kv[init[i]].id == id && kv[init[i]].inviteId in st.invites
        && prev.responses[id] == NewDbResponse(kv[init[i]]);
      assert keys[i] == init[i];
    } else {
      assert keys[n] in kv && kv[keys[n]].id == id;
    }
  }

  /** After the pass, each response that did not fail has a row, unless its invite is missing. */
  lemma {:induction false} ResponsePassCovers(kv: map<string, Response>, keys: seq<string>, st: MigState,
                                              fails: set<string>)
    ensures var r := ResponsePass(kv, keys, st, fails);
      forall i :: 0 <= i < |keys| && keys[i] !in fails && keys[i] in kv ==>
        kv[keys[i]].id in r.responses || kv[keys[i]].inviteId !in st.invites
  {
    if keys != [] {
      var n := |keys| - 1;
      var init := keys[..n];
      ResponsePassCovers(kv, init, st, fails);
      ResponsePassAccounting(kv, init, st, fails);
      forall i | 0 <= i < n
        ensures keys[i] == init[i]
      {
      }
    }
  }

  /** When every listed response has a row or lacks its invite, the response pass only skips. */
  lemma {:induction false} ResponsePassIdle(kv: map<string, Response>, keys: seq<string>, st: MigState,
                                            fails: set<string>)
    requires forall i :: 0 <= i < |keys| && keys[i] in kv ==>
      kv[keys[i]].id in st.responses || kv[keys[i]].inviteId !in st.invites
    ensures var r := ResponsePass(kv, keys, st, fails);
      r.responses == st.responses && r.stats.responses == st.stats.responses
      && (fails == {} ==> r.stats == st.stats.(skipped := st.stats.skipped + |keys|))
  {
    if keys != [] {
      var n := |keys| - 1;
      ResponsePassIdle(kv, keys[..n], st, fails);
      ResponsePassAccounting(kv, keys[..n], st, fails);
    }
  }

  /**
   * Over a whole run each key is counted once per pass that counts it: the
   * invite keys once or twice (the second pass counts only errors), the
   * response keys once; and the counters match the rows actually created.
   */
  lemma RunAccounting(kvInvites: map<string, Invite>, kvResponses: map<string, Response>,
                      invites: map<string, DbInvite>, responses: map<string, DbResponse>,
                      inviteKeys: seq<string>, responseKeys: seq<string>, faults: Faults, now: int)
    ensures var st := RunPasses(kvInvites, kvResponses, invites, responses, inviteKeys, responseKeys, faults, now);
      var total := st.stats.invites + st.stats.responses + st.stats.skipped + st.stats.errors;
      && |inviteKeys| + |responseKeys| <= total <= 2 * |inviteKeys| + |responseKeys|
      && |st.invites| == |invites| + st.stats.invites
      && |st.responses| == |responses| + st.stats.responses
  {
    var st0 := MigState(invites, responses, map[], ZERO);
    var st1 := InvitePass(kvInvites, inviteKeys, st0, faults.invitePass, now);
    InvitePassAccounting(kvInvites, inviteKeys, st0, faults.invitePass, now);
    var st2 := TemplatePass(kvInvites, inviteKeys, st1, faults.templatePass);
    TemplatePassLinksOnly(kvInvites, inviteKeys, st1, faults.templatePass);
    assert |st2.invites| == |st2.invites.Keys| == |st1.invites.Keys| == |st1.invites|;
    ResponsePassAccounting(kvResponses, responseKeys, st2, faults.responsePass);
  }

  /** The tables hold every listed invite, and every listed response whose invite they hold. */
  ghost predicate Settled(kvInvites: map<string, Invite>, kvResponses: map<string, Response>,
                          inviteKeys: seq<string>, responseKeys: seq<string>,
                          invites: map<string, DbInvite>, responses: map<string, DbResponse>) {
    && (forall i :: 0 <= i < |inviteKeys| && inviteKeys[i] in kvInvites ==> kvInvites[inviteKeys[i]].id in invites)
    && (forall i :: 0 <= i < |responseKeys| && responseKeys[i] in kvResponses ==>
          kvResponses[responseKeys[i]].id in responses || kvResponses[responseKeys[i]].inviteId !in invites)
  }

  /** A run without faults leaves the tables settled. */
  lemma CleanRunSettles(kvInvites: map<string, Invite>, kvResponses: map<string, Response>,
                        invites: map<string, DbInvite>, responses: map<string, DbResponse>,
                        inviteKeys: seq<string>, responseKeys: seq<string>, now: int)
    ensures var st := RunPasses(kvInvites, kvResponses, invites, responses, inviteKeys, responseKeys,
                                Faults({}, {}, {}), now);
      Settled(kvInvites, kvResponses, inviteKeys, responseKeys, st.invites, st.responses)
  {
    var st0 := MigState(invites, responses, map[], ZERO);
    var st1 := InvitePass(kvInvites, inviteKeys, st0, {}, now);
    var st2 := TemplatePass(kvInvites, inviteKeys, st1, {});
    InvitePassCovers(kvInvites, inviteKeys, st0, {}, now);
    TemplatePassLinksOnly(kvInvites, inviteKeys, st1, {});
    ResponsePassAccounting(kvResponses, responseKeys, st2, {});
    ResponsePassCovers(kvResponses, responseKeys, st2, {});
  }

  /** A run over settled tables creates nothing; without faults it skips every key. */
  lemma SettledRunIdle(kvInvites: map<string, Invite>, kvResponses: map<string, Response>,
                       invites: map<string, DbInvite>, responses: map<string, DbResponse>,
                       inviteKeys: seq<string>, responseKeys: seq<string>, faults: Faults, now: int)
    requires Settled(kvInvites, kvResponses, inviteKeys, responseKeys, invites, responses)
    ensures var st := RunPasses(kvInvites, kvResponses, invites, responses, inviteKeys, responseKeys, faults, now);
      && st.stats.invites == 0 && st.stats.responses == 0
      && st.invites.Keys == invites.Keys && st.responses == responses
      && (faults == Faults({}, {}, {}) ==> st.stats == Counts(0, 0, 0, |inviteKeys| + |responseKeys|))
  {
    var u0 := MigState(invites, responses, map[], ZERO);
    var u1 := InvitePass(kvInvites, inviteKeys, u0, faults.invitePass, now);
    InvitePassIdle(kvInvites, inviteKeys, u0, faults.invitePass, now);
    var u2 := TemplatePass(kvInvites, inviteKeys, u1, faults.templatePass);
    TemplatePassLinksOnly(kvInvites, inviteKeys, u1, faults.templatePass);
    ResponsePassIdle(kvResponses, responseKeys, u2, faults.responsePass);
    var u3 := ResponsePass(kvResponses, responseKeys, u2, faults.responsePass);
    assert RunPasses(kvInvites, kvResponses, invites, responses, inviteKeys, responseKeys, faults, now) == u3;
    ResponsePassAccounting(kvResponses, responseKeys, u2, faults.responsePass);
    if faults == Faults({}, {}, {}) {
      TemplatePassClean(kvInvites, inviteKeys, u1);
    }
  }

  /**
   * Running the migration again over unchanged key-value data creates no
   * invite and no response; without faults every key is counted as skipped.
   */
  lemma SecondRunCreatesNothing(kvInvites: map<string, Invite>, kvResponses: map<string, Response>,
                                invites: map<string, DbInvite>, responses: map<string, DbResponse>,
                                inviteKeys: seq<string>, responseKeys: seq<string>, faults: Faults,
                                now1: int, now2: int)
    requires inviteKeys != []
    ensures var m1 := Migrate(kvInvites, kvResponses, invites, responses, Listed(inviteKeys), Listed(responseKeys),
                              Faults({}, {}, {}), now1);
      var m2 := Migrate(kvInvites, kvResponses, m1.invites, m1.responses, Listed(inviteKeys), Listed(responseKeys),
                        faults, now2);
      && m2.summary.stats.invites == 0 && m2.summary.stats.responses == 0
      && m2.invites.Keys == m1.invites.Keys && m2.responses == m1.responses
      && (faults == Faults({}, {}, {}) ==> m2.summary.stats == Counts(0, 0, 0, |inviteKeys| + |responseKeys|))
  {
    var st := RunPasses(kvInvites, kvResponses, invites, responses, inviteKeys, responseKeys, Faults({}, {}, {}), now1);
    CleanRunSettles(kvInvites, kvResponses, invites, responses, inviteKeys, responseKeys, now1);
    SettledRunIdle(kvInvites, kvResponses, st.invites, st.responses, inviteKeys, responseKeys, faults, now2);
  }
}

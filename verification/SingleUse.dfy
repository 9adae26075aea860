/** How late an insertion may commit before its ticket can make a second note. */
module SingleUse {
  import opened Base
  import opened Base64Url
  import opened Json
  import opened Tickets
  import opened NoteStore
  import opened Interleavings

  /** `actions` lead from `w` to `v`, and no insertion for `id` on the way commits after `limit`. */
  ghost predicate Leads(settings: Settings, w: World, actions: seq<Action>, v: World, id: NoteID, limit: Time) {
    Run(settings, w, actions) && PromptRun(settings, w, actions, id, limit) && Final(settings, w, actions) == v
  }

  lemma LeadsByOne(settings: Settings, w: World, a: Action, id: NoteID, limit: Time)
    requires Enabled(settings, w, a) && Prompt(w, a, id, limit)
    ensures Leads(settings, w, [a], Apply(settings, w, a), id, limit)
  {
    hide Enabled, Apply, Prompt;
    var v := Apply(settings, w, a);
    assert [a][1..] == [];
    assert Run(settings, v, []) && PromptRun(settings, v, [], id, limit) && Final(settings, v, []) == v;
  }

  lemma {:induction false} LeadsOn(settings: Settings, u: World, a: seq<Action>, v: World, b: seq<Action>, w: World,
                                   id: NoteID, limit: Time)
    requires Leads(settings, u, a, v, id, limit) && Leads(settings, v, b, w, id, limit)
    ensures Leads(settings, u, a + b, w, id, limit)
    decreases |a|
  {
    hide Enabled, Apply, Prompt;
    if a == [] {
      assert a + b == b;
    } else {
      assert (a + b)[1..] == a[1..] + b;
      LeadsOn(settings, Apply(settings, u, a[0]), a[1..], v, b, w, id, limit);
    }
  }

  /** The request with which a holder of the ticket asks for a note of an hour at the very last valid instant. */
  function LastRequest(settings: Settings, secret: Bytes, d: TicketData, token: BurnToken, payload: Bytes)
    : CreateRequest
  {
    var ticket := Sealed(settings.crypto, secret, TextBytes(MarshalTicket(settings.json, d)));
    CreateRequest(d.id, ticket, token, payload, MIN_NOTE_LIFETIME, d.exp, d.exp, d.exp, Commits, Commits, Commits)
  }

  /** The insertion that comes of it, brought up to its transaction. */
  function LastInstant(settings: Settings, secret: Bytes, d: TicketData, token: BurnToken, payload: Bytes): Pending {
    Ready(LastRequest(settings, secret, d, token, payload),
          Admitted(d.id, d.exp, Metadata(BurnVerifier(settings.crypto, secret, token), d.exp,
                                         d.exp + MIN_NOTE_LIFETIME)),
          false)
  }

  ghost predicate Holder(settings: Settings, w: World, id: NoteID, token: BurnToken, payload: Bytes) {
    && id in w.issued && GetRootKey(w.store.rootKey).Ok?
    && w.issued[id].burnVerifier == Encode(BurnVerifier(settings.crypto, GetRootKey(w.store.rootKey).value.secret,
                                                        token))
    && 1 <= |payload| <= settings.maxSize && settings.maxLifetime >= MIN_NOTE_LIFETIME
    && JsonTime(w.issued[id].exp + MIN_NOTE_LIFETIME)
  }

  lemma ValidAtTheEnd(settings: Settings, secret: Bytes, d: TicketData, token: BurnToken)
    requires CryptoLaws(settings.crypto) && IssuedData(settings.crypto, secret, d) && d.issuedAt > 0
    requires d.burnVerifier == Encode(BurnVerifier(settings.crypto, secret, token))
    ensures ValidatePayload(d, d.id, d.exp) == Ok(BurnVerifier(settings.crypto, secret, token))
  {
    hide Encode, StrictDecode, IssuedData;
    assert d.v == 1 && d.exp == d.issuedAt + TICKET_TIMEOUT by { IssuedTimes(settings.crypto, secret, d); }
    StrictDecodeIsInverse(d.burnVerifier, BurnVerifier(settings.crypto, secret, token));
  }

  /** Any ticket holder can get an insertion ready at the last valid instant. */
  lemma GetReady(settings: Settings, w: World, rq: nat, id: NoteID, token: BurnToken, payload: Bytes, limit: Time)
    returns (actions: seq<Action>)
    requires Laws(settings) && Sound(settings, w) && Holder(settings, w, id, token, payload)
    requires rq !in w.pending && w.clock == w.issued[id].exp
    ensures var ready := LastInstant(settings, GetRootKey(w.store.rootKey).value.secret, w.issued[id], token, payload);
            Leads(settings, w, actions, Waiting(w, rq, ready), id, limit)
  {
    hide Encode, Sealed, MarshalTicket, VerifyTicket, TextBytes, ValidatePayload, IssuedData, GetRootKey, BurnVerifier,
         StoreSound, Conserved, Marked, RequestsSound, Run, Final, PromptRun;
    var secret := GetRootKey(w.store.rootKey).value.secret;
    var d := w.issued[id];
    assert d.id == id && IssuedData(settings.crypto, secret, d);
    IssuedTimes(settings.crypto, secret, d);
    IssuedDataParses(settings.crypto, settings.json, secret, d);
    IssuedTicketLength(settings.crypto, settings.json, secret, d);
    ValidAtTheEnd(settings, secret, d, token);
    var p := TextBytes(MarshalTicket(settings.json, d));
    SealedIsTakenApart(settings.crypto, settings.json, w.store.rootKey, p, id, token, w.clock);
    var ticket := Sealed(settings.crypto, secret, p);
    assert Unforged(settings.crypto, settings.json, secret, w.issued, ticket) by {
      forall q | WellSigned(settings.crypto, secret, ticket, q)
        ensures id in w.issued && SignedText(q) == SignedText(TextBytes(MarshalTicket(settings.json, w.issued[id])))
      {
        OneTextPerPayload(settings.crypto, secret, q, p);
      }
    }
    var req := LastRequest(settings, secret, d, token, payload);
    var verify := Verify(rq, req);
    var checked := Waiting(w, rq, Verified(req, Accepted(d, BurnVerifier(settings.crypto, secret, token))));
    assert Apply(settings, w, verify) == checked;
    LeadsByOne(settings, w, verify, id, limit);
    LeadsByOne(settings, checked, ReadClock(rq), id, limit);
    var ready := Waiting(w, rq, LastInstant(settings, secret, d, token, payload));
    assert Apply(settings, checked, ReadClock(rq)) == ready by {
      assert checked.pending[rq := LastInstant(settings, secret, d, token, payload)] == ready.pending;
    }
    LeadsOn(settings, w, [verify], checked, [ReadClock(rq)], ready, id, limit);
    actions := [verify] + [ReadClock(rq)];
  }

  /** The first phase: after a crash, two insertions of the same ticket stand ready at its last valid instant. */
  lemma TwoReady(settings: Settings, w: World, id: NoteID, token: BurnToken, payload: Bytes, limit: Time)
    returns (actions: seq<Action>, v: World)
    requires Laws(settings) && Sound(settings, w) && Holder(settings, w, id, token, payload)
    requires w.clock <= w.issued[id].exp
    ensures Leads(settings, w, actions, v, id, limit)
    ensures var ready := LastInstant(settings, GetRootKey(w.store.rootKey).value.secret, w.issued[id], token, payload);
            v == w.(clock := w.issued[id].exp, pending := map[1 := ready, 2 := ready])
  {
    hide Sound, Laws, Run, Final, PromptRun, LastInstant, GetRootKey;
    var ready := LastInstant(settings, GetRootKey(w.store.rootKey).value.secret, w.issued[id], token, payload);
    var crashed := w.(pending := map[]);
    var late := crashed.(clock := w.issued[id].exp);
    LeadsByOne(settings, w, Crash, id, limit);
    LeadsByOne(settings, crashed, Advance(w.issued[id].exp), id, limit);
    LeadsOn(settings, w, [Crash], crashed, [Advance(w.issued[id].exp)], late, id, limit);
    CrashKeeps(settings, w);
    AdvanceKeeps(settings, crashed, w.issued[id].exp);
    var first := GetReady(settings, late, 1, id, token, payload, limit);
    var one := Waiting(late, 1, ready);
    LeadsOn(settings, w, [Crash] + [Advance(w.issued[id].exp)], late, first, one, id, limit);
    LeadsKeeps(settings, late, first, one, id, limit);
    var second := GetReady(settings, one, 2, id, token, payload, limit);
    v := Waiting(one, 2, ready);
    assert v.pending == map[1 := ready, 2 := ready];
    LeadsOn(settings, w, [Crash] + [Advance(w.issued[id].exp)] + first, one, second, v, id, limit);
    actions := [Crash] + [Advance(w.issued[id].exp)] + first + second;
  }

  lemma LeadsKeeps(settings: Settings, w: World, actions: seq<Action>, v: World, id: NoteID, limit: Time)
    requires Laws(settings) && Sound(settings, w) && Leads(settings, w, actions, v, id, limit)
    ensures Sound(settings, v)
  {
    hide Sound, Laws, Run, Final, PromptRun;
    RunKeeps(settings, w, actions);
  }

  /** A ready insertion of an identifier that the buckets do not know goes through. */
  lemma InsertGoesThrough(settings: Settings, w: World, rq: nat, limit: Time) returns (v: World)
    requires Laws(settings) && Sound(settings, w) && rq in w.pending && w.pending[rq].Ready? && w.clock <= limit
    requires OutcomeOf(w.pending[rq]) == Commits
    requires var id := w.pending[rq].admitted.id; id !in w.store.metadata && id !in w.store.usedTickets
    ensures Sound(settings, v)
    ensures var p := w.pending[rq];
            && Leads(settings, w, [Insert(rq)], v, p.admitted.id, limit)
            && v.clock == w.clock && v.issued == w.issued && v.pending == w.pending - {rq}
               && v.store.rootKey == w.store.rootKey
            && v.log[Made(p.admitted.id)] == w.log[Made(p.admitted.id)] + 1
            && p.admitted.id in v.store.metadata && v.store.metadata[p.admitted.id] == Parsed(p.admitted.metadata)
  {
    hide Run, Final, PromptRun, Laws, RequestsSound, TicketsSound, Conserved, Marked, Readable;
    LeadsByOne(settings, w, Insert(rq), w.pending[rq].admitted.id, limit);
    ActionKeeps(settings, w, Insert(rq));
    v := Apply(settings, w, Insert(rq));
  }

  /** The holder opens the note the moment it is stored. */
  lemma OpenAtOnce(settings: Settings, w: World, id: NoteID, token: BurnToken, limit: Time)
    returns (actions: seq<Action>, v: World)
    requires Laws(settings) && Sound(settings, w) && 1 !in w.pending
    requires id in w.store.metadata && w.store.metadata[id].Parsed? && w.store.metadata[id].value.expiresAt >= w.clock
    requires w.store.metadata[id].value.burnVerifier
             == BurnVerifier(settings.crypto, GetRootKey(w.store.rootKey).value.secret, token)
    ensures Sound(settings, v) && Leads(settings, w, actions, v, id, limit)
    ensures v.clock == w.clock && v.issued == w.issued && v.pending == w.pending
    ensures v.log[Made(id)] == w.log[Made(id)] && id !in v.store.metadata && v.store.usedTickets == w.store.usedTickets
    ensures v.log[Handed(id)] == w.log[Handed(id)] + 1
  {
    hide Run, Final, PromptRun, Laws, RequestsSound, Conserved, Marked, IssuedTable, ValidMetadata;
    var waiting := Waiting(w, 1, OpeningAt(id, token, w.clock));
    LeadsByOne(settings, w, StartOpen(1, id, token), id, limit);
    ActionKeeps(settings, w, StartOpen(1, id, token));
    LeadsByOne(settings, waiting, CommitOpen(1, Commits), id, limit);
    ActionKeeps(settings, waiting, CommitOpen(1, Commits));
    v := Apply(settings, waiting, CommitOpen(1, Commits));
    assert Answered(waiting, 1).pending == w.pending;
    LeadsOn(settings, w, [StartOpen(1, id, token)], waiting, [CommitOpen(1, Commits)], v, id, limit);
    actions := [StartOpen(1, id, token)] + [CommitOpen(1, Commits)];
  }

  /** A cleanup after the ticket's expiry forgets its marker. */
  lemma ForgetMarker(settings: Settings, w: World, id: NoteID, limit: Time) returns (actions: seq<Action>, v: World)
    requires Laws(settings) && Sound(settings, w) && 1 !in w.pending && w.clock <= limit
    requires id in w.issued && w.issued[id].exp < limit && id !in w.store.metadata
    ensures Sound(settings, v) && Leads(settings, w, actions, v, id, limit)
    ensures v.clock == limit && v.issued == w.issued && v.pending == w.pending
    ensures v.log[Made(id)] == w.log[Made(id)] && id !in v.store.metadata && id !in v.store.usedTickets
  {
    hide Run, Final, PromptRun, Laws, RequestsSound, Conserved, Marked, TicketsSound, StaleNotes;
    var later := w.(clock := limit);
    var waiting := Waiting(later, 1, CleaningAt(limit));
    LeadsByOne(settings, w, Advance(limit), id, limit);
    ActionKeeps(settings, w, Advance(limit));
    LeadsByOne(settings, later, StartCleanup(1), id, limit);
    ActionKeeps(settings, later, StartCleanup(1));
    LeadsByOne(settings, waiting, CommitCleanup(1, Commits), id, limit);
    ActionKeeps(settings, waiting, CommitCleanup(1, Commits));
    v := Apply(settings, waiting, CommitCleanup(1, Commits));
    CleanupCounts(settings, Answered(waiting, 1), limit, id);
    assert Answered(waiting, 1).pending == w.pending;
    LeadsOn(settings, w, [Advance(limit)], later, [StartCleanup(1)], waiting, id, limit);
    LeadsOn(settings, w, [Advance(limit)] + [StartCleanup(1)], waiting, [CommitCleanup(1, Commits)], v, id, limit);
    actions := [Advance(limit)] + [StartCleanup(1)] + [CommitCleanup(1, Commits)];
  }

  /** If an insertion may commit any later than its ticket's expiry, a ticket can make two notes: both insertions are
      verified in time, the first note is made and opened, a cleanup forgets the expired ticket, the second note is
      made. */
  lemma LateInsertionMakesTwo(settings: Settings, w: World, id: NoteID, token: BurnToken, payload: Bytes, limit: Time)
    returns (actions: seq<Action>, v: World)
    requires Laws(settings) && Sound(settings, w) && Holder(settings, w, id, token, payload)
    requires w.log[Made(id)] == 0 && w.clock <= w.issued[id].exp < limit
    ensures Leads(settings, w, actions, v, id, limit) && v.log[Made(id)] == 2
  {
    hide Run, Final, PromptRun, Laws, RequestsSound, StoreSound, TicketsSound, GetRootKey, BurnVerifier;
    var a, u := TwoReady(settings, w, id, token, payload, limit);
    LeadsKeeps(settings, w, a, u, id, limit);
    assert id !in u.store.metadata && id !in u.store.usedTickets;
    assert w.issued[id].id == id by { IssuedUnderItsName(settings, w, id); }
    var u1 := InsertGoesThrough(settings, u, 1, limit);
    var acts := a + [Insert(1)];
    LeadsOn(settings, w, a, u, [Insert(1)], u1, id, limit);
    var b, u2 := OpenAtOnce(settings, u1, id, token, limit);
    LeadsOn(settings, w, acts, u1, b, u2, id, limit);
    var c, u3 := ForgetMarker(settings, u2, id, limit);
    LeadsOn(settings, w, acts + b, u2, c, u3, id, limit);
    v := InsertGoesThrough(settings, u3, 2, limit);
    LeadsOn(settings, w, acts + b + c, u3, [Insert(2)], v, id, limit);
    actions := acts + b + c + [Insert(2)];
  }

  lemma IssuedUnderItsName(settings: Settings, w: World, id: NoteID)
    requires Sound(settings, w) && id in w.issued
    ensures w.issued[id].id == id
  {
    hide RequestsSound, StoreSound, Conserved, Marked;
  }

  /** Whatever the interleaving, at most one note comes from the ticket of `id`. */
  ghost predicate SingleUseUpTo(settings: Settings, w: World, id: NoteID, limit: Time) {
    forall actions, v :: Leads(settings, w, actions, v, id, limit) ==> v.log[Made(id)] <= 1
  }

  /** Exactly when tickets are single-use: no insertion of the ticket may commit after its expiry, not even by a
      nanosecond. */
  lemma SingleUseExactly(settings: Settings, w: World, id: NoteID, token: BurnToken, payload: Bytes, limit: Time)
    requires Laws(settings) && Sound(settings, w) && Holder(settings, w, id, token, payload)
    requires w.log[Made(id)] == 0 && w.clock <= w.issued[id].exp
    ensures SingleUseUpTo(settings, w, id, limit) <==> limit <= w.issued[id].exp
  {
    hide Run, Final, PromptRun, Laws, Sound, GetRootKey;
    if limit <= w.issued[id].exp {
      forall actions, v | Leads(settings, w, actions, v, id, limit) ensures v.log[Made(id)] <= 1 {
        PromptTicketsAreSingleUse(settings, w, actions, id, limit);
      }
    } else {
      var actions, v := LateInsertionMakesTwo(settings, w, id, token, payload, limit);
    }
  }
}

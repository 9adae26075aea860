/** The note service as the program runs it: buckets updated in place, transactions that commit or roll back. */
module NoteService {
  import opened Base
  import opened Tickets
  import opened NoteStore

  class NoteService {
    const settings: Settings
    var metadata: map<NoteID, Stored<Metadata>>
    var payloads: map<NoteID, Bytes>
    var usedTickets: map<NoteID, Stored<Marker>>
    var rootKey: Option<Stored<RootKey>>

    ghost function Contents(): Store
      reads this
    {
      Store(metadata, payloads, usedTickets, rootKey)
    }

    /** `NewNoteService` over a freshly created database file. */
    constructor (crypto: Crypto, json: TicketJson, maxSize: int)
      ensures Contents() == Store(map[], map[], map[], None)
      ensures settings == Settings(crypto, json, maxSize, MAX_NOTE_LIFETIME)
    {
      settings := Settings(crypto, json, maxSize, MAX_NOTE_LIFETIME);
      metadata := map[];
      payloads := map[];
      usedTickets := map[];
      rootKey := None;
    }

    method CreateTicket(now: Time, id: NoteID, burnToken: BurnToken) returns (r: Result<Ticket>)
      ensures r == Tickets.CreateTicket(settings.crypto, settings.json, rootKey, now, id, burnToken)
    {
      var key := GetRootKey(rootKey);
      if key.Err? {
        return Err(key.error);
      }
      var data := FreshTicketData(settings.crypto, key.value.secret, now, id, burnToken);
      var value := SignTicket(settings.crypto, settings.json, key.value.secret, data);
      if value.Err? {
        return Err(value.error);
      }
      return Ok(Ticket(value.value, data, burnToken));
    }

    method CreateNote(req: CreateRequest) returns (r: Result<NoteID>)
      modifies this
      ensures CreateStep(settings, old(Contents()), req) == Step(Contents(), r)
    {
      var admitted := Prepare(req);
      if admitted.Err? {
        return Err(admitted.error);
      }
      var id := admitted.value.id;
      var attempt := Insert(id, admitted.value.metadata, req.payload, admitted.value.ticketExp, req.first);
      if attempt == Err(MaxSizeReached) {
        var cleaned := Cleanup(req.cleanedAt, req.cleaning);
        if cleaned.Err? {
          return Err(cleaned.error);
        }
        attempt := Insert(id, admitted.value.metadata, req.payload, admitted.value.ticketExp, req.second);
      }
      if attempt == Err(MaxSizeReached) {
        return Err(StorageFull);
      }
      if attempt.Err? {
        return Err(attempt.error);
      }
      return Ok(id);
    }

    /** The checks of `CreateNote` up to its first transaction. */
    method Prepare(req: CreateRequest) returns (r: Result<Admitted>)
      ensures r == Admit(settings, rootKey, req)
    {
      hide VerifyTicket;
      if |req.ticket| > MAX_TICKET_LENGTH {
        return Err(TicketInvalid);
      }
      if req.payload == [] {
        return Err(PayloadEmpty);
      }
      if |req.payload| > settings.maxSize {
        return Err(PayloadTooLarge);
      }
      if req.lifetime < MIN_NOTE_LIFETIME || req.lifetime > settings.maxLifetime {
        return Err(LifetimeInvalid);
      }
      var accepted := VerifyTicket(settings.crypto, settings.json, rootKey, req.ticket, req.pathID, req.burnToken,
                                   req.verifiedAt);
      if accepted.Err? {
        return Err(accepted.error);
      }
      var data := accepted.value.data;
      var expiresAt := req.createdAt + req.lifetime;
      if !JsonTime(req.createdAt) || !JsonTime(expiresAt) || !JsonTime(data.exp) {
        return Err(MarshalFailed);
      }
      return Ok(Admitted(data.id, data.exp, Metadata(accepted.value.verifier, req.createdAt, expiresAt)));
    }

    /** The `create` transaction of `CreateNote`. */
    method Insert(id: NoteID, record: Metadata, payload: Bytes, ticketExp: Time, outcome: Outcome)
      returns (r: Result<()>)
      modifies this
      ensures InsertStep(old(Contents()), id, record, payload, ticketExp, outcome) == Step(Contents(), r)
    {
      if id in usedTickets {
        return Err(TicketUnusable);
      }
      if id in metadata || id in payloads {
        return Err(TicketUnusable);
      }
      var before := (metadata, payloads, usedTickets);
      metadata := metadata[id := Parsed(record)];
      payloads := payloads[id := payload];
      usedTickets := usedTickets[id := Parsed(Marker(ticketExp))];
      if outcome != Commits {
        metadata, payloads, usedTickets := before.0, before.1, before.2;
      }
      return Reported(outcome);
    }

    method OpenNote(id: NoteID, burnToken: BurnToken, now: Time, outcome: Outcome) returns (r: Result<Note>)
      modifies this
      ensures OpenStep(settings, old(Contents()), id, burnToken, now, outcome) == Step(Contents(), r)
    {
      var before := (metadata, payloads);
      var note: Option<Note> := None;
      if id in metadata && id in payloads {
        if metadata[id].Corrupt? || !ValidMetadata(settings.maxLifetime, metadata[id].value) {
          DeleteNoteRecords(id);
        } else {
          var record := metadata[id].value;
          var key := GetRootKey(rootKey);
          if key.Err? {
            return Err(key.error);
          }
          if BurnVerifier(settings.crypto, key.value.secret, burnToken) == record.burnVerifier {
            if !(record.expiresAt < now) {
              note := Some(Note(payloads[id], record));
            }
            DeleteNoteRecords(id);
          }
        }
      }
      var done := Reported(outcome);
      if done.Err? {
        metadata, payloads := before.0, before.1;
        return Err(done.error);
      }
      if note.None? {
        return Err(NoteOpenFailed);
      }
      return Ok(note.value);
    }

    method DeleteNoteRecords(id: NoteID)
      modifies this`metadata, this`payloads
      ensures Contents() == DeleteNote(old(Contents()), id)
    {
      payloads := payloads - {id};
      metadata := metadata - {id};
    }

    method Cleanup(now: Time, outcome: Outcome) returns (r: Result<()>)
      modifies this
      ensures CleanupStep(settings, old(Contents()), now, outcome) == Step(Contents(), r)
    {
      var before := (metadata, payloads, usedTickets);
      DropStaleNotes(now);
      DropStaleMarkers(now);
      if outcome != Commits {
        metadata, payloads, usedTickets := before.0, before.1, before.2;
      }
      return Reported(outcome);
    }

    /** The first pass of `Cleanup`: the notes that are unreadable, invalid or expired. */
    method FindStaleNotes(now: Time) returns (deleteIDs: seq<NoteID>)
      ensures forall id :: id in deleteIDs <==> id in StaleNotes(settings.maxLifetime, Contents(), now)
    {
      deleteIDs := [];
      var unseen := metadata.Keys;
      while unseen != {}
        invariant unseen <= metadata.Keys
        invariant forall id ::
                    id in deleteIDs <==>
                      id in metadata && id !in unseen && StaleNote(settings.maxLifetime, metadata[id], now)
        decreases |unseen|
      {
        var id :| id in unseen;
        if metadata[id].Corrupt? || !ValidMetadata(settings.maxLifetime, metadata[id].value)
          || metadata[id].value.expiresAt < now {
          deleteIDs := deleteIDs + [id];
        }
        unseen := unseen - {id};
      }
    }

    method DropStaleNotes(now: Time)
      modifies this`metadata, this`payloads
      ensures metadata == old(metadata) - StaleNotes(settings.maxLifetime, old(Contents()), now)
      ensures payloads == old(payloads) - StaleNotes(settings.maxLifetime, old(Contents()), now)
    {
      ghost var stale := StaleNotes(settings.maxLifetime, Contents(), now);
      var deleteIDs := FindStaleNotes(now);
      ghost var left := stale;
      for i := 0 to |deleteIDs|
        invariant left <= stale
        invariant forall id :: id in left ==> id in deleteIDs[i..]
        invariant metadata == old(metadata) - (stale - left)
        invariant payloads == old(payloads) - (stale - left)
      {
        DeleteNoteRecords(deleteIDs[i]);
        left := left - {deleteIDs[i]};
      }
    }

    /** The second pass of `Cleanup`: the markers that are unreadable or expired. */
    method FindStaleMarkers(now: Time) returns (expiredTickets: seq<NoteID>)
      ensures forall id :: id in expiredTickets <==> id in StaleMarkers(Contents(), now)
    {
      expiredTickets := [];
      var unseen := usedTickets.Keys;
      while unseen != {}
        invariant unseen <= usedTickets.Keys
        invariant forall id ::
                    id in expiredTickets <==>
                      id in usedTickets && id !in unseen && StaleMarker(usedTickets[id], now)
        decreases |unseen|
      {
        var id :| id in unseen;
        if usedTickets[id].Corrupt? || usedTickets[id].value.expiresAt < now {
          expiredTickets := expiredTickets + [id];
        }
        unseen := unseen - {id};
      }
    }

    method DropStaleMarkers(now: Time)
      modifies this`usedTickets
      ensures usedTickets == old(usedTickets) - StaleMarkers(old(Contents()), now)
    {
      ghost var stale := StaleMarkers(Contents(), now);
      var expiredTickets := FindStaleMarkers(now);
      ghost var left := stale;
      for i := 0 to |expiredTickets|
        invariant left <= stale
        invariant forall id :: id in left ==> id in expiredTickets[i..]
        invariant usedTickets == old(usedTickets) - (stale - left)
      {
        usedTickets := usedTickets - {expiredTickets[i]};
        left := left - {expiredTickets[i]};
      }
    }

    method EnsureRootKeys(now: Time, secret: Bytes32, outcome: Outcome) returns (r: Result<()>)
      modifies this`rootKey
      ensures EnsureRootKeysStep(old(Contents()), now, secret, outcome) == Step(Contents(), r)
    {
      if rootKey.Some? {
        var key := GetRootKey(rootKey);
        if key.Err? {
          return Err(key.error);
        }
        return Reported(outcome);
      }
      if now == 0 {
        return Err(RootKeyUnavailable);
      }
      if !JsonTime(now) {
        return Err(MarshalFailed);
      }
      rootKey := Some(Parsed(RootKey(now, secret)));
      if outcome != Commits {
        rootKey := None;
      }
      return Reported(outcome);
    }

    method StartupMaintenance(start: Startup) returns (r: Result<()>)
      modifies this
      ensures StartupStep(settings, old(Contents()), start) == Step(Contents(), r)
    {
      r := EnsureRootKeys(start.keysAt, start.secret, start.keys);
      if r.Ok? {
        r := Cleanup(start.cleanedAt, start.cleaning);
      }
    }
  }
}

/** Any number of pages and clients after one note: the client protocol of `view-note.js` against the service. */
module Viewers {
  import opened Base
  import opened Base64Url
  import opened JsonObjects
  import opened SecretLink
  import opened Envelopes
  import opened Tickets
  import opened NoteStore
  import opened Traces
  import opened Runs

  /** What a page sees of one request. A lost request or response looks like a refusal that may be retried; a successful
      response whose body breaks off, or is not what it should be, is garbled and ends the opening. */
  datatype Response = Payload(payload: Bytes) | Refused(retryable: bool) | Garbled

  datatype Phase =
    | Asking                       // the confirmation is shown and its button works
    | Waiting(arrived: Option<Response>)   // a request is under way and the button is busy
    | Shown(text: string)
    | Failed

  /** A loaded page: the fragment in its location, `openState`, what it shows, and the tokens it has sent so far. */
  datatype Viewer = Viewer(fragment: string, started: bool, read: string, secret: Option<Secret>, phase: Phase,
                           sent: seq<string>)

  datatype Context = Context(settings: Settings, aead: Aead, parse: string -> Option<JsonValue>, id: NoteID)

  /** The service, the pages, how many opens of the note have been answered with its payload, and which page got it. */
  datatype World = World(store: Store, viewers: map<nat, Viewer>, payloads: nat, winner: Option<nat>)

  datatype Action =
    | Arrive(v: nat, fragment: string)          // a page is loaded or reloaded
    | Navigate(v: nat, fragment: string)        // the location's fragment changes under the page
    | Click(v: nat)
    | Handle(v: nat, now: Time, outcome: Outcome)
    | Refuse(v: nat, retryable: bool)           // rate limiting, a failing proxy, a lost request
    | Lose(v: nat)                              // the response does not arrive
    | Break(v: nat)                             // its body does not
    | Deliver(v: nat)
    | Elsewhere(op: Operation)                  // anything else that the service does

  /** When an action can happen. No insertion of the note's identifier succeeds once more; that it cannot is the
      ledger's doing (PossibleRunsRun). */
  predicate Enabled(c: Context, w: World, a: Action) {
    PageCan(w, a) && (a.Elsewhere? ==> Serve(c.settings, w.store, a.op).answer != Creating(Ok(c.id)))
  }

  predicate PageCan(w: World, a: Action) {
    match a
    case Arrive(v, _) => v !in w.viewers
    case Navigate(v, _) => v in w.viewers
    case Click(v) => v in w.viewers && w.viewers[v].phase.Asking?
    case Handle(v, _, _) => v in w.viewers && w.viewers[v].phase == Waiting(None) && w.viewers[v].sent != []
    case Refuse(v, _) => v in w.viewers && w.viewers[v].phase == Waiting(None)
    case Lose(v) => v in w.viewers && w.viewers[v].phase.Waiting?
    case Break(v) =>
      v in w.viewers && w.viewers[v].phase.Waiting? && w.viewers[v].phase.arrived.Some?
      && w.viewers[v].phase.arrived.value.Payload?
    case Deliver(v) => v in w.viewers && w.viewers[v].phase.Waiting? && w.viewers[v].phase.arrived.Some?
    case Elsewhere(_) => true
  }

  /** `beginOpening`: the fragment is read and cleared once, at the first click. */
  function Begun(c: Context, viewer: Viewer): Viewer {
    if viewer.started then viewer
    else viewer.(started := true, read := viewer.fragment, fragment := "",
                 secret := if viewer.fragment == "" then None else ParseFragment(c.parse, viewer.fragment))
  }

  /** `beginOpening` and the start of `retrieveNote`. */
  function Clicked(c: Context, viewer: Viewer): Viewer {
    var begun := Begun(c, viewer);
    if begun.secret.None? then begun.(phase := Failed)
    else begun.(phase := Waiting(None), sent := begun.sent + [begun.secret.value.burnToken])
  }

  /** The open handler: a token text that does not parse is answered like any other failed open. */
  function Opened(c: Context, s: Store, tokenText: string, now: Time, outcome: Outcome): (Store, Response) {
    var token := ParseBytes32(tokenText);
    if token.None? then (s, Refused(false))
    else
      var done := OpenStep(c.settings, s, c.id, token.value, now, outcome);
      (done.store,
       if done.answer.Ok? then Payload(done.answer.value.payload)
       else Refused(done.answer.error != NoteOpenFailed))
  }

  /** Payload bytes as the text they were uploaded as. */
  function BytesText(b: Bytes): string {
    seq(|b|, i requires 0 <= i < |b| => b[i] as char)
  }

  /** The end of `retrieveNote`. */
  function Received(c: Context, viewer: Viewer, response: Response): Viewer {
    match response
    case Refused(retryable) => viewer.(phase := if retryable then Asking else Failed)
    case Garbled => viewer.(phase := Failed)
    case Payload(payload) =>
      if viewer.secret.None? then viewer.(phase := Failed)
      else
        var text := DecryptPayload(c.aead, c.parse, BytesText(payload), viewer.secret.value.keyBytes, c.id);
        viewer.(phase := if text.Some? then Shown(text.value) else Failed)
  }

  // ---- one page, step by step ----

  function Loaded(fragment: string): Viewer {
    Viewer(fragment, false, "", None, Asking, [])
  }

  /** The first click reads the fragment and clears it. A secret in it sends its token; without one the opening ends,
      and nothing is sent. */
  lemma FirstClick(c: Context, fragment: string)
    ensures var page := Clicked(c, Loaded(fragment));
            && page.started && page.read == fragment && page.fragment == ""
            && if fragment == "" || ParseFragment(c.parse, fragment).None? then page.phase == Failed && page.sent == []
               else page.phase == Waiting(None) && page.secret == ParseFragment(c.parse, fragment)
                    && page.sent == [page.secret.value.burnToken]
  {
    hide ParseFragment;
  }

  /** A refusal that may be retried leaves the button, and the next click sends the same token again, whatever stands in
      the location by then. Any other refusal, and a garbled response, end the opening. */
  lemma RetriesWithTheSameToken(c: Context, page: Viewer, fragment: string)
    requires page.started && page.secret.Some? && page.phase.Waiting?
    ensures var refused := Received(c, page, Refused(true));
            var again := Clicked(c, refused.(fragment := fragment));
            && refused == page.(phase := Asking)
            && again.phase == Waiting(None) && again.secret == page.secret
            && again.sent == page.sent + [page.secret.value.burnToken]
    ensures Received(c, page, Refused(false)) == page.(phase := Failed)
    ensures Received(c, page, Garbled) == page.(phase := Failed)
  {
  }

  /** A payload is shown as what it decrypts to under the secret's key, and ends the opening if it does not decrypt. */
  lemma PayloadIsShown(c: Context, page: Viewer, payload: Bytes)
    requires page.secret.Some?
    ensures var text := DecryptPayload(c.aead, c.parse, BytesText(payload), page.secret.value.keyBytes, c.id);
            Received(c, page, Payload(payload)).phase == if text.Some? then Shown(text.value) else Failed
  {
    hide DecryptPayload;
  }

  /** What the open handler makes of the service's answers: the payload, a terminal refusal for a token that does not
      parse or a note that cannot be opened, and a refusal that may be retried for a failure of its own. */
  lemma HandlerAnswers(c: Context, s: Store, text: string, now: Time, outcome: Outcome)
    ensures var (after, response) := Opened(c, s, text, now, outcome);
            if ParseBytes32(text).None? then after == s && response == Refused(false)
            else
              var done := OpenStep(c.settings, s, c.id, ParseBytes32(text).value, now, outcome);
              && after == done.store
              && (done.answer.Ok? ==> response == Payload(done.answer.value.payload))
              && (done.answer == Err(NoteOpenFailed) ==> response == Refused(false))
              && (done.answer.Err? && done.answer != Err(NoteOpenFailed) ==> response == Refused(true))
  {
    hide OpenStep, ParseBytes32;
  }

  // ---- the page as the browser runs it ----

  /** A page's `openState` and what it shows. */
  class NotePage {
    const context: Context
    var fragment: string
    var started: bool
    var secret: Option<Secret>
    var secretError: bool
    var phase: Phase
    ghost var read: string
    ghost var sent: seq<string>

    ghost function Contents(): Viewer
      reads this
    {
      Viewer(fragment, started, read, secret, phase, sent)
    }

    ghost predicate Valid()
      reads this
    {
      (!started ==> secret.None? && !secretError) && (secretError ==> secret.None?)
    }

    constructor (context: Context, fragment: string)
      ensures Valid() && this.context == context && Contents() == Loaded(fragment)
    {
      this.context := context;
      this.fragment := fragment;
      started := false;
      secret := None;
      secretError := false;
      phase := Asking;
      read := "";
      sent := [];
    }

    method BeginOpening()
      requires Valid()
      modifies this
      ensures Valid() && Contents() == Begun(context, old(Contents()))
    {
      if started {
        return;
      }
      started := true;
      read := fragment;
      if fragment != "" {
        secret := ParseFragment(context.parse, fragment);
        secretError := secret.None?;
      }
      fragment := "";
    }

    /** The button: the request that goes out, if one does. */
    method Click() returns (request: Option<string>)
      requires Valid()
      modifies this
      ensures Valid() && Contents() == Clicked(context, old(Contents()))
      ensures sent == old(sent) + if request.Some? then [request.value] else []
    {
      BeginOpening();
      if secretError || secret.None? {
        phase := Failed;
        return None;
      }
      phase := Waiting(None);
      sent := sent + [secret.value.burnToken];
      return Some(secret.value.burnToken);
    }

    method Receive(response: Response)
      requires Valid() && secret.Some?
      modifies this`phase
      ensures Valid() && Contents() == Received(context, old(Contents()), response)
    {
      match response
      case Refused(retryable) =>
        if retryable {
          phase := Asking;
        } else {
          phase := Failed;
        }
      case Garbled =>
        phase := Failed;
      case Payload(payload) =>
        var text := DecryptPayload(context.aead, context.parse, BytesText(payload), secret.value.keyBytes, context.id);
        if text.Some? {
          phase := Shown(text.value);
        } else {
          phase := Failed;
        }
    }
  }

  function With(w: World, v: nat, viewer: Viewer): World {
    w.(viewers := w.viewers[v := viewer])
  }

  function HandsOut(c: Context, w: World, op: Operation): bool {
    op.Open? && op.id == c.id && Serve(c.settings, w.store, op).answer.Opening?
      && Serve(c.settings, w.store, op).answer.note.Ok?
  }

  function Apply(c: Context, w: World, a: Action): World
    requires PageCan(w, a)
  {
    match a
    case Arrive(v, fragment) => With(w, v, Loaded(fragment))
    case Navigate(v, fragment) => With(w, v, w.viewers[v].(fragment := fragment))
    case Click(v) => With(w, v, Clicked(c, w.viewers[v]))
    case Handle(v, now, outcome) => AfterHandle(c, w, v, now, outcome)
    case Refuse(v, retryable) => With(w, v, w.viewers[v].(phase := Waiting(Some(Refused(retryable)))))
    case Lose(v) => With(w, v, w.viewers[v].(phase := Asking))
    case Break(v) => With(w, v, w.viewers[v].(phase := Waiting(Some(Garbled))))
    case Deliver(v) => With(w, v, Received(c, w.viewers[v], w.viewers[v].phase.arrived.value))
    case Elsewhere(op) =>
      w.(store := Serve(c.settings, w.store, op).store, payloads := w.payloads + if HandsOut(c, w, op) then 1 else 0)
  }

  function AfterHandle(c: Context, w: World, v: nat, now: Time, outcome: Outcome): World
    requires v in w.viewers && w.viewers[v].sent != []
  {
    var viewer := w.viewers[v];
    var (store, response) := Opened(c, w.store, viewer.sent[|viewer.sent| - 1], now, outcome);
    var answered := With(w, v, viewer.(phase := Waiting(Some(response)))).(store := store);
    if response.Payload? then answered.(payloads := w.payloads + 1, winner := Some(v)) else answered
  }

  ghost predicate Run(c: Context, w: World, actions: seq<Action>)
    decreases |actions|
  {
    actions == [] || (Enabled(c, w, actions[0]) && Run(c, Apply(c, w, actions[0]), actions[1..]))
  }

  function Final(c: Context, w: World, actions: seq<Action>): World
    requires Run(c, w, actions)
    decreases |actions|
  {
    if actions == [] then w else Final(c, Apply(c, w, actions[0]), actions[1..])
  }

  // ---- an opening from beginning to end ----

  /** A page is loaded and clicked, the open is handled, and its response arrives. */
  function WholeOpening(v: nat, fragment: string, now: Time, outcome: Outcome): seq<Action> {
    [Arrive(v, fragment), Click(v), Handle(v, now, outcome), Deliver(v)]
  }

  lemma OnlyThePhase(c: Context, page: Viewer, response: Response)
    ensures Received(c, page, response) == page.(phase := Received(c, page, response).phase)
  {
    hide DecryptPayload;
  }

  /** The page after three of them, with the response on its way. */
  ghost function Answering(c: Context, w: World, v: nat, fragment: string, now: Time, outcome: Outcome): World {
    var page := Clicked(c, Loaded(fragment));
    if page.sent == [] then w
    else
      var (store, response) := Opened(c, w.store, page.sent[0], now, outcome);
      var waiting := With(w, v, page.(phase := Waiting(Some(response)))).(store := store);
      if response.Payload? then waiting.(payloads := w.payloads + 1, winner := Some(v)) else waiting
  }

  lemma PageIsAnswered(c: Context, w: World, v: nat, fragment: string, now: Time, outcome: Outcome)
    requires v !in w.viewers && fragment != "" && ParseFragment(c.parse, fragment).Some?
    ensures Enabled(c, w, Arrive(v, fragment))
    ensures var arrived := Apply(c, w, Arrive(v, fragment));
            && Enabled(c, arrived, Click(v))
            && var clicked := Apply(c, arrived, Click(v));
            && Enabled(c, clicked, Handle(v, now, outcome))
            && Apply(c, clicked, Handle(v, now, outcome)) == Answering(c, w, v, fragment, now, outcome)
    ensures Clicked(c, Loaded(fragment)).sent == [ParseFragment(c.parse, fragment).value.burnToken]
  {
    hide ParseFragment, Opened, Clicked;
    FirstClick(c, fragment);
    var page := Clicked(c, Loaded(fragment));
    var arrived := Apply(c, w, Arrive(v, fragment));
    var clicked := Apply(c, arrived, Click(v));
    assert arrived == With(w, v, Loaded(fragment));
    assert clicked == With(arrived, v, page) == With(w, v, page);
  }

  /** It is a run, and what the page ends with is what the service answers to the token in the fragment. */
  lemma OpeningRuns(c: Context, w: World, v: nat, fragment: string, now: Time, outcome: Outcome)
    requires v !in w.viewers && fragment != "" && ParseFragment(c.parse, fragment).Some?
    ensures var page := Clicked(c, Loaded(fragment));
            var (store, response) :=
              Opened(c, w.store, ParseFragment(c.parse, fragment).value.burnToken, now, outcome);
            && Run(c, w, WholeOpening(v, fragment, now, outcome))
            && var end := Final(c, w, WholeOpening(v, fragment, now, outcome));
            && end.viewers == w.viewers[v := Received(c, page, response)] && end.store == store
            && end.payloads == w.payloads + if response.Payload? then 1 else 0
  {
    hide ParseFragment, Opened, Clicked, DecryptPayload, Run, Final;
    PageIsAnswered(c, w, v, fragment, now, outcome);
    FourSteps(c, w, Arrive(v, fragment), Click(v), Handle(v, now, outcome), Deliver(v));
  }

  /** If the response is lost on its way, the next click sends the same token, whatever stands in the location then. */
  lemma LostResponseIsRetried(c: Context, w: World, v: nat, fragment: string, other: string, now: Time,
                              outcome: Outcome)
    requires v !in w.viewers && fragment != "" && ParseFragment(c.parse, fragment).Some?
    ensures var token := ParseFragment(c.parse, fragment).value.burnToken;
            var steps := [Arrive(v, fragment), Click(v), Handle(v, now, outcome), Lose(v)];
            && Run(c, w, steps)
            && var lost := Final(c, w, steps);
            && v in lost.viewers && Enabled(c, lost, Navigate(v, other))
            && var elsewhere := Apply(c, lost, Navigate(v, other));
            && Enabled(c, elsewhere, Click(v))
            && var page := Apply(c, elsewhere, Click(v)).viewers[v];
            && page.phase == Waiting(None) && page.sent == [token, token]
  {
    hide ParseFragment, Opened, Clicked, Run, Final;
    PageIsAnswered(c, w, v, fragment, now, outcome);
    FirstClick(c, fragment);
    FourSteps(c, w, Arrive(v, fragment), Click(v), Handle(v, now, outcome), Lose(v));
    RetriesWithTheSameToken(c, Clicked(c, Loaded(fragment)), other);
  }

  lemma OneMore(c: Context, w: World, a: Action, rest: seq<Action>)
    requires Enabled(c, w, a) && Run(c, Apply(c, w, a), rest)
    ensures Run(c, w, [a] + rest) && Final(c, w, [a] + rest) == Final(c, Apply(c, w, a), rest)
  {
    hide Enabled, Apply;
    assert ([a] + rest)[1..] == rest;
  }

  lemma FourSteps(c: Context, w: World, a0: Action, a1: Action, a2: Action, a3: Action)
    requires Enabled(c, w, a0)
    requires var w1 := Apply(c, w, a0);
             && Enabled(c, w1, a1)
             && var w2 := Apply(c, w1, a1);
             && Enabled(c, w2, a2) && Enabled(c, Apply(c, w2, a2), a3)
    ensures Run(c, w, [a0, a1, a2, a3])
    ensures Final(c, w, [a0, a1, a2, a3]) == Apply(c, Apply(c, Apply(c, Apply(c, w, a0), a1), a2), a3)
  {
    hide PageCan, Serve, Apply, Run, Final;
    var w1 := Apply(c, w, a0);
    var w2 := Apply(c, w1, a1);
    var w3 := Apply(c, w2, a2);
    var w4 := Apply(c, w3, a3);
    NoMore(c, w4);
    OneMore(c, w3, a3, []);
    OneMore(c, w2, a2, [a3] + []);
    OneMore(c, w1, a1, [a2] + ([a3] + []));
    OneMore(c, w, a0, [a1] + ([a2] + ([a3] + [])));
    assert [a0] + ([a1] + ([a2] + ([a3] + []))) == [a0, a1, a2, a3];
  }

  lemma NoMore(c: Context, w: World)
    ensures Run(c, w, []) && Final(c, w, []) == w
  {
  }

  // ---- the invariant ----

  predicate HasPayload(viewer: Viewer) {
    viewer.phase.Shown? || (viewer.phase.Waiting? && viewer.phase.arrived.Some? && viewer.phase.arrived.value.Payload?)
  }

  predicate Stored(s: Store, id: NoteID) {
    id in s.metadata && id in s.payloads
  }

  /** The payload is in one place at most: in the buckets, or with the one open that got it. */
  ghost predicate OneOpening(c: Context, w: World, original: Bytes) {
    && w.payloads + (if Stored(w.store, c.id) then 1 else 0) <= 1
    && (c.id in w.store.payloads ==> w.store.payloads[c.id] == original)
    && (w.winner.Some? ==> w.payloads >= 1)
    && (forall v :: v in w.viewers && HasPayload(w.viewers[v]) ==> w.winner == Some(v))
  }

  predicate OnlySent(sent: seq<string>, token: string) {
    forall i :: 0 <= i < |sent| ==> sent[i] == token
  }

  /** A page keeps to the secret that it read at its first click, and shows only what that secret decrypts. */
  ghost predicate Faithful(c: Context, original: Bytes, viewer: Viewer) {
    && (!viewer.started ==> viewer.sent == [] && viewer.phase.Asking?)
    && (viewer.started ==> viewer.secret == if viewer.read == "" then None else ParseFragment(c.parse, viewer.read))
    && (if viewer.secret.Some? then OnlySent(viewer.sent, viewer.secret.value.burnToken) else viewer.sent == [])
    && (viewer.phase.Waiting? ==> viewer.started && viewer.secret.Some? && viewer.sent != [])
    && (viewer.phase.Waiting? && viewer.phase.arrived.Some? && viewer.phase.arrived.value.Payload? ==>
          viewer.phase.arrived.value.payload == original)
    && (viewer.phase.Shown? ==>
          viewer.started && viewer.secret.Some?
          && DecryptPayload(c.aead, c.parse, BytesText(original), viewer.secret.value.keyBytes, c.id)
             == Some(viewer.phase.text))
  }

  ghost predicate Sound(c: Context, w: World, original: Bytes) {
    OneOpening(c, w, original) && forall v :: v in w.viewers ==> Faithful(c, original, w.viewers[v])
  }

  // ---- what the service does to one note ----

  /** Without an insertion of `id`, an operation can only take the note away. */
  ghost predicate OnlyTakes(s: Store, t: Store, id: NoteID) {
    && (id in t.metadata ==> id in s.metadata)
    && (id in t.payloads ==> id in s.payloads && t.payloads[id] == s.payloads[id])
  }

  lemma OpenTakes(settings: Settings, s: Store, id: NoteID, other: NoteID, token: BurnToken, now: Time,
                  outcome: Outcome)
    ensures var done := OpenStep(settings, s, other, token, now, outcome);
            && OnlyTakes(s, done.store, id)
            && (done.answer.Ok? ==>
                  Stored(s, other) && !Stored(done.store, other) && done.answer.value.payload == s.payloads[other])
  {
    hide Readable, BurnVerifier, GetRootKey;
  }

  lemma CleanupTakes(settings: Settings, s: Store, id: NoteID, now: Time, outcome: Outcome)
    ensures OnlyTakes(s, CleanupStep(settings, s, now, outcome).store, id)
  {
    hide StaleNotes, StaleMarkers;
  }

  lemma InsertTakes(s: Store, id: NoteID, other: NoteID, metadata: Metadata, payload: Bytes, exp: Time,
                    outcome: Outcome)
    requires id != other
    ensures OnlyTakes(s, InsertStep(s, other, metadata, payload, exp, outcome).store, id)
  {
  }

  /** A creation of the very identifier that does not succeed. */
  lemma FailedCreateTakes(settings: Settings, s: Store, id: NoteID, req: CreateRequest)
    requires CreateStep(settings, s, req).answer.Err?
    ensures OnlyTakes(s, CreateStep(settings, s, req).store, id)
  {
    hide Admit, CleanedUp;
    CleanupTakes(settings, s, id, req.cleanedAt, req.cleaning);
  }

  lemma CreateTakes(settings: Settings, s: Store, id: NoteID, req: CreateRequest)
    requires CreateStep(settings, s, req).answer != Ok(id)
    ensures OnlyTakes(s, CreateStep(settings, s, req).store, id)
  {
    hide Admit, InsertStep, CleanupStep, OnlyTakes;
    var admitted := Admit(settings, s.rootKey, req);
    if CreateStep(settings, s, req).answer.Err? {
      FailedCreateTakes(settings, s, id, req);
    } else {
      assert admitted.value.id != id;
      OtherCreateTakes(settings, s, id, req);
    }
  }

  lemma OtherCreateTakes(settings: Settings, s: Store, id: NoteID, req: CreateRequest)
    requires Admit(settings, s.rootKey, req).Ok? && Admit(settings, s.rootKey, req).value.id != id
    ensures OnlyTakes(s, CreateStep(settings, s, req).store, id)
  {
    hide Admit, InsertStep, CleanupStep;
    var a := Admit(settings, s.rootKey, req).value;
    var first := InsertStep(s, a.id, a.metadata, req.payload, a.ticketExp, req.first).store;
    InsertTakes(s, id, a.id, a.metadata, req.payload, a.ticketExp, req.first);
    var cleaned := CleanupStep(settings, first, req.cleanedAt, req.cleaning).store;
    CleanupTakes(settings, first, id, req.cleanedAt, req.cleaning);
    InsertTakes(cleaned, id, a.id, a.metadata, req.payload, a.ticketExp, req.second);
  }

  lemma ServeTakes(settings: Settings, s: Store, id: NoteID, op: Operation)
    requires Serve(settings, s, op).answer != Creating(Ok(id))
    ensures OnlyTakes(s, Serve(settings, s, op).store, id)
    ensures op.Open? && op.id == id && Serve(settings, s, op).answer.Opening?
            && Serve(settings, s, op).answer.note.Ok? ==>
              Stored(s, id) && !Stored(Serve(settings, s, op).store, id)
  {
    hide CreateStep, OpenStep, CleanupStep, CreateTicket;
    match op
    case Issue(_, _, _) =>
    case Create(request) => CreateTakes(settings, s, id, request);
    case Open(other, token, now, outcome) => OpenTakes(settings, s, id, other, token, now, outcome);
    case Sweep(now, outcome) => CleanupTakes(settings, s, id, now, outcome);
    case Restart(start) =>
      var keys := EnsureRootKeysStep(s, start.keysAt, start.secret, start.keys);
      CleanupTakes(settings, keys.store, id, start.cleanedAt, start.cleaning);
  }

  // ---- what each action keeps ----

  lemma ViewerKeeps(c: Context, w: World, v: nat, viewer: Viewer, original: Bytes)
    requires Sound(c, w, original) && Faithful(c, original, viewer) && (HasPayload(viewer) ==> w.winner == Some(v))
    ensures Sound(c, With(w, v, viewer), original)
  {
    hide Faithful;
  }

  lemma ArrivesFaithful(c: Context, fragment: string, original: Bytes)
    ensures Faithful(c, original, Loaded(fragment))
  {
    hide ParseFragment, DecryptPayload;
  }

  lemma ClickKeeps(c: Context, viewer: Viewer, original: Bytes)
    requires Faithful(c, original, viewer) && viewer.phase.Asking?
    ensures Faithful(c, original, Clicked(c, viewer)) && !HasPayload(Clicked(c, viewer))
  {
    hide ParseFragment, DecryptPayload;
  }

  lemma DeliverKeeps(c: Context, viewer: Viewer, original: Bytes)
    requires Faithful(c, original, viewer) && viewer.phase.Waiting? && viewer.phase.arrived.Some?
    ensures var after := Received(c, viewer, viewer.phase.arrived.value);
            Faithful(c, original, after) && (HasPayload(after) ==> HasPayload(viewer))
  {
    hide ParseFragment, DecryptPayload;
  }

  lemma HandleKeeps(c: Context, w: World, v: nat, now: Time, outcome: Outcome, original: Bytes)
    requires Sound(c, w, original) && v in w.viewers && w.viewers[v].phase == Waiting(None) && w.viewers[v].sent != []
    ensures Sound(c, AfterHandle(c, w, v, now, outcome), original)
  {
    hide ParseFragment, DecryptPayload, OpenStep, ParseBytes32;
    var viewer := w.viewers[v];
    assert Faithful(c, original, viewer);
    var token := ParseBytes32(viewer.sent[|viewer.sent| - 1]);
    if token.Some? {
      OpenTakes(c.settings, w.store, c.id, c.id, token.value, now, outcome);
    }
  }

  lemma PageFacts(c: Context, w: World, v: nat, original: Bytes)
    requires Sound(c, w, original) && v in w.viewers
    ensures Faithful(c, original, w.viewers[v]) && (HasPayload(w.viewers[v]) ==> w.winner == Some(v))
  {
    hide Faithful;
  }

  lemma NavigateKeeps(c: Context, viewer: Viewer, fragment: string, original: Bytes)
    requires Faithful(c, original, viewer)
    ensures Faithful(c, original, viewer.(fragment := fragment))
  {
    hide ParseFragment, DecryptPayload;
  }

  /** A request that ends without a payload. */
  lemma RefusalKeeps(c: Context, viewer: Viewer, phase: Phase, original: Bytes)
    requires Faithful(c, original, viewer) && viewer.phase.Waiting?
    requires phase == Asking || (phase.Waiting? && phase.arrived.Some? && !phase.arrived.value.Payload?)
    ensures Faithful(c, original, viewer.(phase := phase)) && !HasPayload(viewer.(phase := phase))
  {
    hide ParseFragment, DecryptPayload;
  }

  lemma ActionKeeps(c: Context, w: World, a: Action, original: Bytes)
    requires Sound(c, w, original) && Enabled(c, w, a)
    ensures Sound(c, Apply(c, w, a), original)
  {
    hide Faithful, Serve, AfterHandle, Clicked, Received;
    if !a.Arrive? && !a.Elsewhere? {
      PageFacts(c, w, a.v, original);
    }
    match a
    case Arrive(v, fragment) =>
      ArrivesFaithful(c, fragment, original);
      ViewerKeeps(c, w, v, Loaded(fragment), original);
    case Navigate(v, fragment) =>
      NavigateKeeps(c, w.viewers[v], fragment, original);
      ViewerKeeps(c, w, v, w.viewers[v].(fragment := fragment), original);
    case Click(v) =>
      ClickKeeps(c, w.viewers[v], original);
      ViewerKeeps(c, w, v, Clicked(c, w.viewers[v]), original);
    case Handle(v, now, outcome) => HandleKeeps(c, w, v, now, outcome, original);
    case Refuse(v, retryable) =>
      RefusalKeeps(c, w.viewers[v], Waiting(Some(Refused(retryable))), original);
      ViewerKeeps(c, w, v, w.viewers[v].(phase := Waiting(Some(Refused(retryable)))), original);
    case Lose(v) =>
      RefusalKeeps(c, w.viewers[v], Asking, original);
      ViewerKeeps(c, w, v, w.viewers[v].(phase := Asking), original);
    case Break(v) =>
      RefusalKeeps(c, w.viewers[v], Waiting(Some(Garbled)), original);
      ViewerKeeps(c, w, v, w.viewers[v].(phase := Waiting(Some(Garbled))), original);
    case Deliver(v) =>
      DeliverKeeps(c, w.viewers[v], original);
      ViewerKeeps(c, w, v, Received(c, w.viewers[v], w.viewers[v].phase.arrived.value), original);
    case Elsewhere(op) => ServeTakes(c.settings, w.store, c.id, op);
  }

  lemma {:induction false} RunKeeps(c: Context, w: World, actions: seq<Action>, original: Bytes)
    requires Sound(c, w, original) && Run(c, w, actions)
    ensures Sound(c, Final(c, w, actions), original)
    decreases |actions|
  {
    hide Sound, PageCan, Serve, Apply;
    if actions != [] {
      ActionKeeps(c, w, actions[0], original);
      RunKeeps(c, Apply(c, w, actions[0]), actions[1..], original);
    }
  }

  // ---- the theorem ----

  /** Once a note is stored and as long as it is not made again, whatever pages and clients do, whatever is
      lost and retried: at most one open is answered with the payload; at most one page shows the note; every request of
      a page carries the one token that the page read before its first request; and what a page shows is what the stored
      payload decrypts to under the key that it read. */
  lemma AtMostOneViewerShows(c: Context, s: Store, original: Bytes, actions: seq<Action>, u: nat, v: nat)
    requires c.id in s.payloads ==> s.payloads[c.id] == original
    requires Run(c, World(s, map[], 0, None), actions)
    ensures var w := Final(c, World(s, map[], 0, None), actions);
            && w.payloads <= 1
            && (u in w.viewers && v in w.viewers && w.viewers[u].phase.Shown? && w.viewers[v].phase.Shown? ==> u == v)
            && (v in w.viewers ==>
                  var viewer := w.viewers[v];
                  && (forall i :: 0 <= i < |viewer.sent| ==>
                        ParseFragment(c.parse, viewer.read).Some?
                        && viewer.sent[i] == ParseFragment(c.parse, viewer.read).value.burnToken)
                  && (viewer.phase.Shown? ==>
                        ParseFragment(c.parse, viewer.read).Some?
                        && DecryptPayload(c.aead, c.parse, BytesText(original),
                                          ParseFragment(c.parse, viewer.read).value.keyBytes, c.id)
                           == Some(viewer.phase.text)))
  {
    hide ParseFragment, DecryptPayload, Run, Final, Faithful;
    RunKeeps(c, World(s, map[], 0, None), actions, original);
    var w := Final(c, World(s, map[], 0, None), actions);
    if v in w.viewers {
      FaithfulMeans(c, original, w.viewers[v]);
    }
  }

  lemma FaithfulMeans(c: Context, original: Bytes, viewer: Viewer)
    requires Faithful(c, original, viewer)
    ensures viewer.sent != [] ==> viewer.started && viewer.secret.Some?
    ensures viewer.started && viewer.secret.Some? ==> ParseFragment(c.parse, viewer.read) == viewer.secret
    ensures forall i :: 0 <= i < |viewer.sent| ==> viewer.sent[i] == viewer.secret.value.burnToken
    ensures viewer.phase.Shown? ==>
              viewer.started && viewer.secret.Some?
              && DecryptPayload(c.aead, c.parse, BytesText(original), viewer.secret.value.keyBytes, c.id)
                 == Some(viewer.phase.text)
  {
    hide ParseFragment, DecryptPayload;
    assert viewer.started && viewer.secret.Some? ==> ParseFragment(c.parse, viewer.read) == viewer.secret;
  }

  // ---- why no second insertion succeeds ----

  /** What an action asks of the service, if anything. */
  function Asked(c: Context, w: World, a: Action): Option<Operation>
    requires PageCan(w, a)
  {
    match a
    case Handle(v, now, outcome) =>
      var sent := w.viewers[v].sent;
      var token := ParseBytes32(sent[|sent| - 1]);
      if token.Some? then Some(Open(c.id, token.value, now, outcome)) else None
    case Elsewhere(op) => Some(op)
    case _ => None
  }

  function LedgerAfter(c: Context, w: World, l: Ledger, a: Action): Ledger
    requires PageCan(w, a)
  {
    if Asked(c, w, a).Some? then Record(c.settings, l, Asked(c, w, a).value).ledger else l
  }

  function ClockAfterAction(c: Context, w: World, a: Action, clock: Time): Time
    requires PageCan(w, a)
  {
    if Asked(c, w, a).Some? then LastReading(Asked(c, w, a).value) else clock
  }

  /** The runs that can happen: pages do what they can, and the operations they cause, and all others, are possible
      ones. Any identifier may be tried again, the note's own included. */
  ghost predicate PossibleActions(c: Context, w: World, l: Ledger, actions: seq<Action>, clock: Time)
    decreases |actions|
  {
    actions == [] ||
    (var a := actions[0];
     && PageCan(w, a)
     && (Asked(c, w, a).Some? ==> Possible(c.settings, l, Asked(c, w, a).value, clock))
     && PossibleActions(c, Apply(c, w, a), LedgerAfter(c, w, l, a), actions[1..], ClockAfterAction(c, w, a, clock)))
  }

  lemma HandleIsServe(c: Context, w: World, v: nat, now: Time, outcome: Outcome)
    requires PageCan(w, Handle(v, now, outcome))
    ensures var asked := Asked(c, w, Handle(v, now, outcome));
            Apply(c, w, Handle(v, now, outcome)).store
            == if asked.Some? then Serve(c.settings, w.store, asked.value).store else w.store
  {
    hide OpenStep, ParseBytes32;
  }

  lemma ActionAgrees(c: Context, w: World, l: Ledger, a: Action, clock: Time)
    requires NoteStore.Laws(c.settings) && Agree(c.settings, w.store, l, clock) && c.id in l.notes
    requires PageCan(w, a) && (Asked(c, w, a).Some? ==> Possible(c.settings, l, Asked(c, w, a).value, clock))
    ensures Enabled(c, w, a)
    ensures Agree(c.settings, Apply(c, w, a).store, LedgerAfter(c, w, l, a), ClockAfterAction(c, w, a, clock))
    ensures c.id in LedgerAfter(c, w, l, a).notes
  {
    hide NoteStore.Laws, Agree, Possible, Serve, Record, LastReading, AfterHandle, Clicked, Received;
    var asked := Asked(c, w, a);
    if asked.Some? {
      OperationAgrees(c.settings, w.store, l, asked.value, clock);
      RecordKeeps(c.settings, l, asked.value, c.id);
    }
    if a.Handle? {
      HandleIsServe(c, w, a.v, a.now, a.outcome);
    }
  }

  /** A note that was made once is not made again, whoever tries: every possible run is one of those that the theorem
      above speaks about. */
  lemma {:induction false} PossibleRunsRun(c: Context, w: World, l: Ledger, actions: seq<Action>, clock: Time)
    requires NoteStore.Laws(c.settings) && Agree(c.settings, w.store, l, clock) && c.id in l.notes
    requires PossibleActions(c, w, l, actions, clock)
    ensures Run(c, w, actions)
    decreases |actions|
  {
    hide NoteStore.Laws, Agree, Possible, PageCan, Serve, Apply, Asked, LedgerAfter, ClockAfterAction;
    if actions != [] {
      ActionAgrees(c, w, l, actions[0], clock);
      PossibleRunsRun(c, Apply(c, w, actions[0]), LedgerAfter(c, w, l, actions[0]), actions[1..],
                      ClockAfterAction(c, w, actions[0], clock));
    }
  }

  /** From the creation of a note on: at most one open of it gets the payload, at most one page shows it, and what that
      page shows is what the uploaded bytes decrypt to. */
  lemma CreatedNoteIsShownOnce(c: Context, s: Store, l: Ledger, clock: Time, req: CreateRequest, actions: seq<Action>,
                               u: nat, v: nat)
    requires NoteStore.Laws(c.settings) && Agree(c.settings, s, l, clock) && Possible(c.settings, l, Create(req), clock)
    requires CreateStep(c.settings, s, req).answer.Ok? && c.id == req.pathID
    requires var stored := World(CreateStep(c.settings, s, req).store, map[], 0, None);
             PossibleActions(c, stored, RecordCreate(c.settings, l, req).ledger, actions, req.cleanedAt)
    ensures var stored := World(CreateStep(c.settings, s, req).store, map[], 0, None);
            && Run(c, stored, actions)
            && var w := Final(c, stored, actions);
            && w.payloads <= 1
            && (u in w.viewers && v in w.viewers && w.viewers[u].phase.Shown? && w.viewers[v].phase.Shown? ==> u == v)
            && (v in w.viewers && w.viewers[v].phase.Shown? ==>
                  ParseFragment(c.parse, w.viewers[v].read).Some?
                  && DecryptPayload(c.aead, c.parse, BytesText(req.payload),
                                    ParseFragment(c.parse, w.viewers[v].read).value.keyBytes, c.id)
                     == Some(w.viewers[v].phase.text))
  {
    hide NoteStore.Laws, Agree, Possible, PossibleActions, CreateStep, RecordCreate, Run, Final, ParseFragment,
         DecryptPayload,
         BurnVerifier;
    var store, k := CreateStep(c.settings, s, req).store, RecordCreate(c.settings, l, req).ledger;
    CreateAgrees(c.settings, s, l, req, clock);
    AgreementIsSound(c.settings, s, l, clock);
    NewEntry(c.settings, l, req, clock);
    StoredNote(c.settings, store, k, c.id, req.cleanedAt);
    PossibleRunsRun(c, World(store, map[], 0, None), k, actions, req.cleanedAt);
    AtMostOneViewerShows(c, store, req.payload, actions, u, v);
  }
}

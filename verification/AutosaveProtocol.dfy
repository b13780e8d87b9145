/** The save loop against a server with optimistic concurrency and other writers, over every interleaving of
    edits, timers, saves, failures, forced overwrites and foreign writes between two adoptions.  */
module AutosaveProtocol {
  import opened Optional
  import opened Autosave

  /** Whose document a row holds: one this client adopted or wrote, or one another writer put there since. */
  datatype Writer = Us | Others

  datatype Row = Row(doc: Doc, stamp: Stamp, writer: Writer)

  /** Where an open save is: under way, applied under a stamp but not yet read back, answered with a stamp, refused,
      or broken. */
  datatype Stage = Travelling | Applied(stamp: Stamp) | Answered(stamp: Stamp) | Rejected | Broken

  datatype Open = Open(req: Request, stage: Stage)

  /** One read-back: the stamp the save wrote, the stamp the client was answered with, and whose document that is. */
  datatype Heard = Heard(written: Stamp, answered: Stamp, writer: Writer)

  /** The whole system.  Strays are saves reported failed that may still reach the server.  The last four fields only
      record history: what the client last heard was accepted, every read-back, whether a save has been refused since
      the last forced one, and how many of this client's saves have landed. */
  datatype System = System(client: Client, wire: seq<Open>, strays: seq<Request>, row: Option<Row>, next: Stamp,
                           device: Option<Doc>, backedUp: bool, accepted: Doc, heard: set<Heard>, refused: bool,
                           landings: nat)

  datatype Event =
    | Edit(doc: Doc) | TimerFires | Flush | Overwrite | Persist(ok: bool) | DiscardLocal
    | Land(k: nat) | ReadBack(k: nat) | Deliver(k: nat) | Drop(k: nat) | LandStray(j: nat)
    | ForeignWrite(doc: Doc) | ForeignDiscard

  /** A freshly adopted document: the working copy with its stamp, or one without a row yet. */
  predicate Initial(s: System) {
    && s.client == Adopted(s.accepted, if s.row.Some? then Some(s.row.value.stamp) else None)
    && s.wire == [] && s.strays == [] && s.device.None? && s.backedUp && !s.refused && s.landings == 0 && s.heard == {}
    && (s.row.Some? ==> s.row.value.doc == s.accepted && s.row.value.stamp < s.next && s.row.value.writer == Us)
  }

  // ------------------------------------------------------------------------------------------------------
  // Steps
  // ------------------------------------------------------------------------------------------------------

  function Apply(s: System, c: Client, effect: Effect): System {
    match effect
    case Nothing => s.(client := c)
    case Send(req) => s.(client := c, wire := s.wire + [Open(req, Travelling)])
    case ClearLocal => s.(client := c, device := None)
    case PutLocal(doc) => s.(client := c, device := Some(doc), backedUp := true)
  }

  function Without<T>(q: seq<T>, k: nat): seq<T>
    requires k < |q|
  {
    q[..k] + q[k + 1..]
  }

  /** The server takes a stamped request only if the stamp is current, and any request without a stamp. */
  predicate Accepts(s: System, req: Request) {
    req.token.None? || (s.row.Some? && s.row.value.stamp == req.token.value)
  }

  /** Every accepted write gets a fresh stamp. */
  function Written(s: System, req: Request): System {
    s.(row := Some(Row(req.doc, s.next, Us)), next := s.next + 1, landings := s.landings + 1)
  }

  /** The server handles an open request.  The unconditional upsert returns its own stamp; the conditional update is
      read back afterwards. */
  function Landed(s: System, k: nat): System
    requires k < |s.wire|
  {
    var req := s.wire[k].req;
    if !Accepts(s, req) then s.(wire := s.wire[k := Open(req, Rejected)], refused := true)
    else
      var stage := if req.token.None? then Answered(s.next) else Applied(s.next);
      Written(s, req).(wire := s.wire[k := Open(req, stage)])
  }

  function ReadBackAt(s: System, k: nat): System
    requires k < |s.wire| && s.wire[k].stage.Applied?
  {
    var open := s.wire[k];
    if s.row.None? then s.(wire := s.wire[k := Open(open.req, Broken)])
    else
      var r := s.row.value;
      s.(wire := s.wire[k := Open(open.req, Answered(r.stamp))],
         heard := s.heard + {Heard(open.stage.stamp, r.stamp, r.writer)})
  }

  predicate Arrived(open: Open) {
    open.stage.Answered? || open.stage.Rejected? || open.stage.Broken?
  }

  function Delivered(s: System, k: nat): System
    requires k < |s.wire|
  {
    var open := s.wire[k];
    var s := s.(wire := Without(s.wire, k));
    match open.stage
    case Answered(stamp) =>
      var (c, effect) := Succeeded(s.client, open.req.doc, stamp);
      Apply(s.(accepted := open.req.doc), c, effect)
    case Rejected => s.(client := Refused(s.client, open.req.doc, true))
    case _ => s.(client := Refused(s.client, open.req.doc, false))
  }

  /** The client is told its save failed.  One that has not reached the server yet goes on travelling. */
  function Dropped(s: System, k: nat): System
    requires k < |s.wire|
  {
    var open := s.wire[k];
    s.(wire := Without(s.wire, k), client := Refused(s.client, open.req.doc, false),
       strays := if open.stage.Travelling? then s.strays + [open.req] else s.strays)
  }

  /** A save reported failed reaches the server after all; nobody hears the answer. */
  function StrayLanded(s: System, j: nat): System
    requires j < |s.strays|
  {
    var req, t := s.strays[j], s.(strays := Without(s.strays, j));
    if Accepts(s, req) then Written(t, req) else t
  }

  function Step(s: System, e: Event): System {
    match e
    case Edit(doc) => s.(client := Edited(s.client, doc), backedUp := true)
    case TimerFires => if s.client.timer then var (c, eff) := Flushed(s.client); Apply(s, c, eff) else s
    case Flush => var (c, eff) := Flushed(s.client); Apply(s, c, eff)
    case Overwrite =>
      var (c, eff) := Overwritten(s.client);
      Apply(s.(refused := if eff.Send? then false else s.refused), c, eff)
    case Persist(ok) =>
      var (c, eff) := Persisted(s.client);
      if eff.PutLocal? && !ok then s.(client := c, backedUp := false) else Apply(s, c, eff)
    case DiscardLocal => s.(client := Discarded(s.client), device := None, backedUp := false)
    case Land(k) => if k < |s.wire| && s.wire[k].stage.Travelling? then Landed(s, k) else s
    case ReadBack(k) => if k < |s.wire| && s.wire[k].stage.Applied? then ReadBackAt(s, k) else s
    case Deliver(k) => if k < |s.wire| && Arrived(s.wire[k]) then Delivered(s, k) else s
    case Drop(k) => if k < |s.wire| then Dropped(s, k) else s
    case LandStray(j) => if j < |s.strays| then StrayLanded(s, j) else s
    case ForeignWrite(doc) => s.(row := Some(Row(doc, s.next, Others)), next := s.next + 1)
    case ForeignDiscard => s.(row := None)
  }

  function Run(s: System, es: seq<Event>): System
    decreases |es|
  {
    if es == [] then s else Run(Step(s, es[0]), es[1..])
  }

  // ------------------------------------------------------------------------------------------------------
  // Invariants
  // ------------------------------------------------------------------------------------------------------

  /** At most one save is open, and it is the one the client believes is in flight. */
  ghost predicate OneSave(s: System) {
    && |s.wire| <= 1
    && (s.wire == [] <==> s.client.inFlight.None?)
    && (s.wire != [] ==> s.client.inFlight == Some(s.wire[0].req.doc))
  }

  /** The document on screen is queued, in flight, or the last one the client heard was accepted. */
  ghost predicate NewestIsHeld(s: System) {
    s.client.screen ==
    if s.client.pending.Some? then s.client.pending.value
    else if s.client.inFlight.Some? then s.client.inFlight.value
    else s.accepted
  }

  /** `clean` means nothing is queued or in flight. */
  ghost predicate CleanMeansDone(s: System) {
    s.client.status == Clean ==> s.client.pending.None? && s.client.inFlight.None?
  }

  /** A queued document waits for a timer or an open save, or the user has been shown the failure. */
  ghost predicate NothingStranded(s: System) {
    s.client.pending.Some? && s.client.inFlight.None? ==>
      s.client.timer || s.client.status == Failed || s.client.status == Conflict
  }

  /** Unless the device refused a write or the copy was discarded since the last edit or device write, the document on
      screen is about to be written to the device, is on the device, or has been accepted by the server. */
  ghost predicate Recoverable(s: System) {
    && (s.client.unpersisted.Some? <==> s.client.persistTimer)
    && (s.client.unpersisted.Some? ==> s.client.unpersisted.value == s.client.screen)
    && (s.backedUp ==>
         || s.client.unpersisted.Some?
         || s.device == Some(s.client.screen)
         || (s.accepted == s.client.screen && (s.client.pending.None? || s.client.inFlight.None?)))
  }

  /** What only concerns the client, its open save and the device. */
  ghost predicate ClientInv(s: System) {
    OneSave(s) && NewestIsHeld(s) && CleanMeansDone(s) && NothingStranded(s) && Recoverable(s)
  }

  /** The stamp `t` was answered in place of the one a save wrote, because another writer had overtaken it. */
  ghost predicate Overtaken(s: System, t: Stamp) {
    exists h :: h in s.heard && h.answered == t && h.written != t && h.writer == Others
  }

  /** The row holds another writer's document under this very stamp. */
  predicate OthersHold(s: System, t: Stamp) {
    s.row.Some? && s.row.value.stamp == t && s.row.value.writer == Others
  }

  predicate AtLeast(s: System, t: Stamp) {
    s.row.Some? ==> s.row.value.stamp >= t
  }

  /** A stamp in this client's hands: no newer than the row, and another writer's only by an overtaken read-back. */
  ghost predicate Held(s: System, t: Stamp) {
    t < s.next && AtLeast(s, t) && (OthersHold(s, t) ==> Overtaken(s, t))
  }

  /** Stamps are older than the next fresh one, and each keeps the writer it was read under. */
  ghost predicate StampsOld(s: System) {
    && (s.row.Some? ==> s.row.value.stamp < s.next)
    && (forall h :: h in s.heard ==> h.answered < s.next)
    && (forall h :: h in s.heard && s.row.Some? && s.row.value.stamp == h.answered ==> s.row.value.writer == h.writer)
  }

  ghost predicate OpenKnown(s: System, open: Open) {
    && (open.req.token.Some? ==> open.req.token == s.client.token)
    && match open.stage
       case Applied(w) =>
         w < s.next && AtLeast(s, w) && !OthersHold(s, w) && (s.client.token.Some? ==> s.client.token.value < w)
       case Answered(t) => Held(s, t) && (s.client.token.Some? ==> s.client.token.value < t)
       case _ => true
  }

  /** A stray's stamp was the client's when it was sent. */
  ghost predicate StrayKnown(s: System, req: Request) {
    req.token.Some? ==> s.client.token.Some? && req.token.value <= s.client.token.value && Held(s, req.token.value)
  }

  ghost predicate TokensKnown(s: System) {
    && (s.client.token.Some? ==> Held(s, s.client.token.value))
    && (forall k :: 0 <= k < |s.wire| ==> OpenKnown(s, s.wire[k]))
    && (forall j :: 0 <= j < |s.strays| ==> StrayKnown(s, s.strays[j]))
  }

  /** After a refusal the client's stamp is stale for good, and all it has open carries that stamp. */
  ghost predicate StaleWhenRefused(s: System) {
    s.refused ==>
      && s.client.token.Some?
      && !(s.row.Some? && s.row.value.stamp == s.client.token.value)
      && forall k :: 0 <= k < |s.wire| ==> s.wire[k].req.token == s.client.token && NotTaken(s.wire[k].stage)
  }

  predicate NotTaken(stage: Stage) {
    stage.Travelling? || stage.Rejected?
  }

  ghost predicate StampInv(s: System) {
    StampsOld(s) && TokensKnown(s) && StaleWhenRefused(s)
  }

  ghost predicate Inv(s: System) {
    ClientInv(s) && StampInv(s)
  }

  lemma InitialInv(s: System)
    requires Initial(s)
    ensures Inv(s)
  {
  }

  /** With one save open, its completion leaves none. */
  lemma OnlyOpen(s: System, k: nat)
    requires OneSave(s) && k < |s.wire|
    ensures k == 0 && s.wire == [s.wire[0]] && Without(s.wire, k) == []
    ensures s.client.inFlight == Some(s.wire[0].req.doc)
  {
  }

  // ------------------------------------------------------------------------------------------------------
  // The client's half is kept
  // ------------------------------------------------------------------------------------------------------

  lemma SendKeepsClient(s: System, e: Event)
    requires ClientInv(s) && (e.TimerFires? || e.Flush? || e.Overwrite?)
    ensures ClientInv(Step(s, e))
  {
  }

  lemma EditKeepsClient(s: System, e: Event)
    requires ClientInv(s) && (e.Edit? || e.Persist? || e.DiscardLocal?)
    ensures ClientInv(Step(s, e))
  {
  }

  /** What the client's half does not look at may change: the row, the strays, and how far its open save has got. */
  predicate SameClient(s: System, t: System) {
    && t.client == s.client && t.device == s.device && t.backedUp == s.backedUp && t.accepted == s.accepted
    && |t.wire| == |s.wire| && forall k :: 0 <= k < |s.wire| ==> t.wire[k].req == s.wire[k].req
  }

  lemma SameClientKeeps(s: System, t: System)
    requires ClientInv(s) && SameClient(s, t)
    ensures ClientInv(t)
  {
  }

  lemma LandIsSameClient(s: System, e: Event)
    requires e.Land? || e.ReadBack?
    ensures SameClient(s, Step(s, e))
  {
  }

  lemma RowIsSameClient(s: System, e: Event)
    requires e.LandStray? || e.ForeignWrite? || e.ForeignDiscard?
    ensures SameClient(s, Step(s, e))
  {
  }

  lemma WireKeepsClient(s: System, e: Event)
    requires ClientInv(s) && (e.Land? || e.ReadBack? || e.LandStray? || e.ForeignWrite? || e.ForeignDiscard?)
    ensures ClientInv(Step(s, e))
  {
    hide Step, ClientInv, SameClient;
    if e.Land? || e.ReadBack? {
      LandIsSameClient(s, e);
    } else {
      RowIsSameClient(s, e);
    }
    SameClientKeeps(s, Step(s, e));
  }

  /** The open save ends with an answer: its document is accepted, and a queued one goes out. */
  lemma AnswerKeepsClient(s: System, doc: Doc, stamp: Stamp)
    requires ClientInv(s) && s.client.inFlight == Some(doc)
    ensures var (c, effect) := Succeeded(s.client, doc, stamp);
            ClientInv(Apply(s.(wire := [], accepted := doc), c, effect))
  {
  }

  /** The open save ends without one: its document is queued again, unless a newer one already is. */
  lemma FailureKeepsClient(s: System, doc: Doc, conflict: bool, strays: seq<Request>)
    requires ClientInv(s) && s.client.inFlight == Some(doc)
    ensures ClientInv(s.(wire := [], client := Refused(s.client, doc, conflict), strays := strays))
  {
  }

  lemma EndKeepsClient(s: System, e: Event)
    requires ClientInv(s) && (e.Deliver? || e.Drop?)
    ensures ClientInv(Step(s, e))
  {
    if e.k < |s.wire| {
      OnlyOpen(s, e.k);
      var open := s.wire[0];
      hide ClientInv, Succeeded, Refused;
      if open.stage.Answered? {
        AnswerKeepsClient(s, open.req.doc, open.stage.stamp);
      }
      FailureKeepsClient(s, open.req.doc, e.Deliver? && open.stage.Rejected?, Step(s, e).strays);
    }
  }

  // ------------------------------------------------------------------------------------------------------
  // The stamps' half is kept
  // ------------------------------------------------------------------------------------------------------

  /** What no step undoes: read-backs stay on record, and the row stays, goes, or takes a fresh stamp. */
  predicate Progress(s: System, t: System) {
    && s.heard <= t.heard && s.next <= t.next
    && (t.row == s.row || t.row.None? || (t.row.value.stamp == s.next && s.next < t.next))
  }

  lemma HeldStays(s: System, t: System, x: Stamp)
    requires Held(s, x) && Progress(s, t)
    ensures Held(t, x)
  {
    if OthersHold(t, x) {
      assert OthersHold(s, x);
    }
  }

  lemma OpenStaysKnown(s: System, t: System, open: Open)
    requires OpenKnown(s, open) && Progress(s, t) && t.client.token == s.client.token
    ensures OpenKnown(t, open)
  {
    hide Held;
    if open.stage.Answered? {
      HeldStays(s, t, open.stage.stamp);
    }
  }

  lemma StrayStaysKnown(s: System, t: System, req: Request)
    requires StrayKnown(s, req) && Progress(s, t)
    requires s.client.token.Some? ==> t.client.token.Some? && s.client.token.value <= t.client.token.value
    ensures StrayKnown(t, req)
  {
    hide Held;
    if req.token.Some? {
      HeldStays(s, t, req.token.value);
    }
  }

  /** Whatever is new on the wire or astray is known by itself; the rest stays known. */
  lemma TokensStayKnown(s: System, t: System)
    requires TokensKnown(s) && Progress(s, t) && t.client.token == s.client.token
    requires forall k :: 0 <= k < |t.wire| ==> t.wire[k] in s.wire || OpenKnown(t, t.wire[k])
    requires forall j :: 0 <= j < |t.strays| ==> t.strays[j] in s.strays || StrayKnown(t, t.strays[j])
    ensures TokensKnown(t)
  {
    if t.client.token.Some? {
      HeldStays(s, t, t.client.token.value);
    }
    hide Held, OpenKnown, StrayKnown, Progress;
    forall k | 0 <= k < |t.wire| ensures OpenKnown(t, t.wire[k]) {
      if t.wire[k] in s.wire {
        OpenStaysKnown(s, t, t.wire[k]);
      }
    }
    forall j | 0 <= j < |t.strays| ensures StrayKnown(t, t.strays[j]) {
      if t.strays[j] in s.strays {
        StrayStaysKnown(s, t, t.strays[j]);
      }
    }
  }

  /** A refusal stands: the stamp stays stale, and all that is sent carries it. */
  lemma RefusalStands(s: System, t: System)
    requires StampInv(s) && Progress(s, t) && t.client.token == s.client.token && (t.refused ==> s.refused)
    requires forall k :: 0 <= k < |t.wire| && t.refused ==>
               t.wire[k] in s.wire || (t.wire[k].req.token == t.client.token && NotTaken(t.wire[k].stage))
    ensures StaleWhenRefused(t)
  {
    if t.refused {
      assert Held(s, s.client.token.value);
    }
  }

  lemma StampsStayOld(s: System, t: System)
    requires StampsOld(s) && Progress(s, t) && t.heard == s.heard
    ensures StampsOld(t)
  {
  }

  /** Edits, timers, the device and other writers. */
  lemma OutsideKeepsStamps(s: System, e: Event)
    requires StampInv(s)
    requires e.Edit? || e.Persist? || e.DiscardLocal? || e.ForeignWrite? || e.ForeignDiscard?
    ensures StampInv(Step(s, e))
  {
    var t := Step(s, e);
    assert t.wire == s.wire && t.strays == s.strays && Progress(s, t);
    hide Step, Progress, Held, OpenKnown, StrayKnown;
    TokensStayKnown(s, t);
    RefusalStands(s, t);
    StampsStayOld(s, t);
  }

  /** Nothing is sent, or one save that carries the client's stamp; a forced one carries none and lifts a refusal. */
  predicate SendsAtMostOne(s: System, t: System) {
    && t.row == s.row && t.next == s.next && t.heard == s.heard && t.strays == s.strays
    && t.client.token == s.client.token
    && if t.wire == s.wire then t.refused == s.refused
       else
         && |t.wire| == |s.wire| + 1
         && var open := t.wire[|s.wire|];
            && t.wire == s.wire + [open] && open.stage == Travelling
            && ((t.refused == s.refused && open.req.token == s.client.token) || (!t.refused && open.req.token.None?))
  }

  lemma SendsOne(s: System, e: Event)
    requires e.TimerFires? || e.Flush? || e.Overwrite?
    ensures SendsAtMostOne(s, Step(s, e))
  {
  }

  lemma SendKeepsStamps(s: System, e: Event)
    requires StampInv(s) && (e.TimerFires? || e.Flush? || e.Overwrite?)
    ensures StampInv(Step(s, e))
  {
    SendsOne(s, e);
    hide Step;
    var t := Step(s, e);
    hide Held, StrayKnown;
    TokensStayKnown(s, t);
    RefusalStands(s, t);
    StampsStayOld(s, t);
  }

  /** The server takes or refuses the open save; taking it puts this client's document under a fresh stamp. */
  lemma LandKeepsStamps(s: System, e: Event)
    requires Inv(s) && e.Land?
    ensures StampInv(Step(s, e))
  {
    if e.k < |s.wire| && s.wire[e.k].stage.Travelling? {
      var t := Step(s, e);
      var open := s.wire[e.k];
      assert t.strays == s.strays && Progress(s, t);
      assert OpenKnown(s, open);
      assert OpenKnown(t, t.wire[e.k]) by {
        if Accepts(s, open.req) && open.req.token.Some? {
          assert Held(s, open.req.token.value);
        }
      }
      LandKeepsStale(s, e);
      hide Step, Progress, Held, StrayKnown, StaleWhenRefused;
      assert forall k :: 0 <= k < |t.wire| ==> t.wire[k] in s.wire || OpenKnown(t, t.wire[k]);
      TokensStayKnown(s, t);
      StampsStayOld(s, t);
    }
  }

  lemma LandKeepsStale(s: System, e: Event)
    requires Inv(s) && e.Land?
    ensures StaleWhenRefused(Step(s, e))
  {
    if e.k < |s.wire| {
      OnlyOpen(s, e.k);
      assert OpenKnown(s, s.wire[0]);
    }
  }

  /** The stamp answered is the row's: the one written, or a newer one after other writes. */
  lemma ReadBackKeepsStamps(s: System, e: Event)
    requires StampInv(s) && e.ReadBack?
    ensures StampInv(Step(s, e))
  {
    if e.k < |s.wire| && s.wire[e.k].stage.Applied? {
      var t := Step(s, e);
      var open := s.wire[e.k];
      assert OpenKnown(s, open);
      if s.row.Some? {
        var h := Heard(open.stage.stamp, s.row.value.stamp, s.row.value.writer);
        assert h in t.heard;
      }
      assert OpenKnown(t, t.wire[e.k]);
      assert StampsOld(t) && Progress(s, t);
      RefusalStands(s, t);
      hide Step, Progress, Held, StrayKnown, StampsOld;
      assert forall k :: 0 <= k < |t.wire| ==> t.wire[k] in s.wire || OpenKnown(t, t.wire[k]);
      TokensStayKnown(s, t);
    }
  }

  /** A failure: the stamp stays, and a save that had not reached the server goes astray. */
  lemma FailureKeepsStamps(s: System, t: System)
    requires Inv(s) && s.wire != []
    requires t == s.(wire := [], client := t.client, strays := t.strays) && t.client.token == s.client.token
    requires t.strays == s.strays || t.strays == s.strays + [s.wire[0].req]
    ensures StampInv(t)
  {
    assert OpenKnown(s, s.wire[0]);
    assert StrayKnown(t, s.wire[0].req);
    assert Progress(s, t);
    hide Progress, Held, OpenKnown, StrayKnown;
    TokensStayKnown(s, t);
    RefusalStands(s, t);
    StampsStayOld(s, t);
  }

  /** An answer moves the client's stamp forward. */
  lemma AnswerKeepsStamps(s: System, t: System, stamp: Stamp)
    requires Inv(s) && s.wire != [] && s.wire[0].stage == Answered(stamp)
    requires SameServer(s, t) && t.client.token == Some(stamp)
    requires t.wire == [] || (|t.wire| == 1 && t.wire[0] == Open(Request(t.wire[0].req.doc, Some(stamp)), Travelling))
    ensures StampInv(t)
  {
    assert OpenKnown(s, s.wire[0]);
    assert Progress(s, t) && !s.refused;
    HeldStays(s, t, stamp);
    hide Progress, Held;
    forall j | 0 <= j < |t.strays| ensures StrayKnown(t, t.strays[j]) {
      StrayStaysKnown(s, t, s.strays[j]);
    }
  }

  predicate SameServer(s: System, t: System) {
    t.strays == s.strays && t.row == s.row && t.next == s.next && t.heard == s.heard && t.refused == s.refused
  }

  lemma DeliverKeepsStamps(s: System, e: Event)
    requires Inv(s) && e.Deliver?
    ensures StampInv(Step(s, e))
  {
    if e.k < |s.wire| && Arrived(s.wire[e.k]) {
      OnlyOpen(s, e.k);
      var t := Step(s, e);
      if s.wire[0].stage.Answered? {
        hide Inv;
        assert t.wire == [] || t.wire == [t.wire[0]];
        AnswerKeepsStamps(s, t, s.wire[0].stage.stamp);
      } else {
        hide Inv;
        FailureKeepsStamps(s, t);
      }
    }
  }

  lemma DropKeepsStamps(s: System, e: Event)
    requires Inv(s) && e.Drop?
    ensures StampInv(Step(s, e))
  {
    if e.k < |s.wire| {
      OnlyOpen(s, e.k);
      hide Inv;
      FailureKeepsStamps(s, Step(s, e));
    }
  }

  /** A stray save reaches the server: a write like any other, or nothing. */
  lemma StrayKeepsStamps(s: System, e: Event)
    requires StampInv(s) && e.LandStray?
    ensures StampInv(Step(s, e))
  {
    if e.j < |s.strays| {
      var t := Step(s, e);
      assert t.wire == s.wire && Progress(s, t);
      assert forall j :: 0 <= j < |t.strays| ==> t.strays[j] in s.strays;
      hide Step, Progress, Held, OpenKnown, StrayKnown;
      TokensStayKnown(s, t);
      RefusalStands(s, t);
      StampsStayOld(s, t);
    }
  }

  lemma StepKeepsInv(s: System, e: Event)
    requires Inv(s)
    ensures Inv(Step(s, e))
  {
    hide ClientInv, StampInv, Step;
    match e
    case Edit(_) => OutsideKeepsStamps(s, e); EditKeepsClient(s, e);
    case Persist(_) => OutsideKeepsStamps(s, e); EditKeepsClient(s, e);
    case DiscardLocal => OutsideKeepsStamps(s, e); EditKeepsClient(s, e);
    case TimerFires => SendKeepsStamps(s, e); SendKeepsClient(s, e);
    case Flush => SendKeepsStamps(s, e); SendKeepsClient(s, e);
    case Overwrite => SendKeepsStamps(s, e); SendKeepsClient(s, e);
    case Land(_) => LandKeepsStamps(s, e); WireKeepsClient(s, e);
    case ReadBack(_) => ReadBackKeepsStamps(s, e); WireKeepsClient(s, e);
    case LandStray(_) => StrayKeepsStamps(s, e); WireKeepsClient(s, e);
    case Deliver(_) => DeliverKeepsStamps(s, e); EndKeepsClient(s, e);
    case Drop(_) => DropKeepsStamps(s, e); EndKeepsClient(s, e);
    case ForeignWrite(_) => OutsideKeepsStamps(s, e); WireKeepsClient(s, e);
    case ForeignDiscard => OutsideKeepsStamps(s, e); WireKeepsClient(s, e);
  }

  lemma {:induction false} RunKeepsInv(s: System, es: seq<Event>)
    requires Inv(s)
    ensures Inv(Run(s, es))
    decreases |es|
  {
    if es != [] {
      StepKeepsInv(s, es[0]);
      RunKeepsInv(Step(s, es[0]), es[1..]);
    }
  }
}

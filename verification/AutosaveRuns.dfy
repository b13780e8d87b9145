/** What holds over every run of the save loop: no edit lost, nothing erased too early, which saves can replace a
    document this client has not seen, and what still lands after a refusal. */
module AutosaveRuns {
  import opened Optional
  import opened Autosave
  import opened AutosaveProtocol

  /** Over every run: one save at a time, no edit lost, and `clean` only for the accepted document on screen. */
  lemma NoEditIsLost(s: System, es: seq<Event>)
    requires Initial(s)
    ensures var t := Run(s, es);
            var c := t.client;
            && |t.wire| <= 1
            && (c.screen == t.accepted || c.pending == Some(c.screen) || c.inFlight == Some(c.screen))
            && (c.status == Clean ==> c.screen == t.accepted && t.wire == [])
            && (c.pending.Some? ==> c.timer || t.wire != [] || c.status == Failed || c.status == Conflict)
  {
    InitialInv(s);
    RunKeepsInv(s, es);
  }

  /** Over every run, however often the device refused a write before: unless it refused one, or the copy was
      discarded, after the last edit or stored copy, the document on screen can be had back from somewhere. */
  lemma ScreenIsRecoverable(s: System, es: seq<Event>)
    requires Initial(s) && Run(s, es).backedUp
    ensures var t := Run(s, es);
            t.client.persistTimer || t.device == Some(t.client.screen) || t.accepted == t.client.screen
  {
    InitialInv(s);
    RunKeepsInv(s, es);
  }

  /** A completed save erases the device copy only when the document accepted is the one on screen and nothing waits. */
  lemma EraseOnlyWhenSafe(s: System, es: seq<Event>, k: nat)
    requires Initial(s)
    ensures var t := Run(s, es);
            var u := Step(t, Deliver(k));
            t.device.Some? && u.device.None? ==>
              u.client.status == Clean && u.accepted == u.client.screen && u.client.pending.None? && u.wire == []
  {
    InitialInv(s);
    RunKeepsInv(s, es);
    StepKeepsInv(Run(s, es), Deliver(k));
  }

  // ------------------------------------------------------------------------------------------------------
  // What the status tells
  // ------------------------------------------------------------------------------------------------------

  /** `saving` means a save is open; `dirty`, that an edit waits; `failed` and `conflict`, that a save ended badly and
      its document waits; and `conflict` only that the server has refused a save since the last forced one. */
  predicate StatusTells(s: System) {
    && (s.client.status == Saving ==> s.wire != [])
    && (s.client.status == Dirty ==> s.client.pending.Some?)
    && (s.client.status == Failed ==> s.wire == [] && s.client.pending.Some?)
    && (s.client.status == Conflict ==> s.wire == [] && s.client.pending.Some? && s.refused)
    && (forall k :: 0 <= k < |s.wire| && s.wire[k].stage.Rejected? ==> s.refused)
  }

  lemma SendKeepsStatus(s: System, e: Event)
    requires OneSave(s) && StatusTells(s) && (e.TimerFires? || e.Flush? || e.Overwrite?)
    ensures StatusTells(Step(s, e))
  {
  }

  lemma EditKeepsStatus(s: System, e: Event)
    requires OneSave(s) && StatusTells(s) && (e.Edit? || e.Persist? || e.DiscardLocal?)
    ensures StatusTells(Step(s, e))
  {
  }

  lemma ServerKeepsStatus(s: System, e: Event)
    requires OneSave(s) && StatusTells(s)
    requires e.Land? || e.ReadBack? || e.LandStray? || e.ForeignWrite? || e.ForeignDiscard?
    ensures StatusTells(Step(s, e))
  {
  }

  lemma DeliverKeepsStatus(s: System, e: Event)
    requires OneSave(s) && StatusTells(s) && e.Deliver?
    ensures StatusTells(Step(s, e))
  {
    if e.k < |s.wire| && Arrived(s.wire[e.k]) {
      OnlyOpen(s, e.k);
      if s.wire[0].stage.Answered? {
        AnsweredStatus(s.client, s.wire[0].req.doc, s.wire[0].stage.stamp);
        hide Succeeded;
      } else {
        FailedStatus(s.client, s.wire[0].req.doc, s.wire[0].stage.Rejected?);
        hide Refused;
      }
    }
  }

  lemma AnsweredStatus(c: Client, doc: Doc, stamp: Stamp)
    ensures var (d, effect) := Succeeded(c, doc, stamp);
            if effect.Send? then d.status == Saving else effect == ClearLocal && d.status == Clean
  {
  }

  lemma FailedStatus(c: Client, doc: Doc, conflict: bool)
    ensures var d := Refused(c, doc, conflict); d.pending.Some? && d.status == if conflict then Conflict else Failed
  {
  }

  lemma DropKeepsStatus(s: System, e: Event)
    requires OneSave(s) && StatusTells(s) && e.Drop?
    ensures StatusTells(Step(s, e))
  {
    if e.k < |s.wire| {
      OnlyOpen(s, e.k);
    }
  }

  lemma {:induction false} RunKeepsStatus(s: System, es: seq<Event>)
    requires Inv(s) && StatusTells(s)
    ensures StatusTells(Run(s, es))
    decreases |es|
  {
    if es != [] {
      var e := es[0];
      assert OneSave(s);
      StepKeepsInv(s, e);
      hide Inv, OneSave, StatusTells, Step;
      if e.TimerFires? || e.Flush? || e.Overwrite? {
        SendKeepsStatus(s, e);
      } else if e.Edit? || e.Persist? || e.DiscardLocal? {
        EditKeepsStatus(s, e);
      } else if e.Deliver? {
        DeliverKeepsStatus(s, e);
      } else if e.Drop? {
        DropKeepsStatus(s, e);
      } else {
        ServerKeepsStatus(s, e);
      }
      RunKeepsStatus(Step(s, e), es[1..]);
    }
  }

  /** Over every run the status tells the truth; in particular a conflict is shown only after the server refused a save,
      and not since the last forced one. */
  lemma StatusIsTrue(s: System, es: seq<Event>)
    requires Initial(s)
    ensures StatusTells(Run(s, es))
  {
    InitialInv(s);
    RunKeepsStatus(s, es);
  }

  /** However a save fails to be answered, an error is shown; a refusal shows a conflict, which stays, whatever is
      edited, stored or heard, until something is sent. */
  lemma EndingsAreShown(s: System, es: seq<Event>, k: nat)
    requires Initial(s) && k < |Run(s, es).wire|
    ensures var t := Run(s, es);
            && Step(t, Drop(k)).client.status == Failed
            && (t.wire[k].stage.Broken? ==> Step(t, Deliver(k)).client.status == Failed)
            && (t.wire[k].stage.Rejected? ==> Step(t, Deliver(k)).client.status == Conflict)
  {
  }

  lemma ConflictStays(s: System, es: seq<Event>, e: Event)
    requires Initial(s) && Run(s, es).client.status == Conflict && Step(Run(s, es), e).wire == []
    ensures Step(Run(s, es), e).client.status == Conflict
  {
    StatusIsTrue(s, es);
    hide Run;
  }

  // ------------------------------------------------------------------------------------------------------
  // Documents this client has not seen
  // ------------------------------------------------------------------------------------------------------

  /** A save the server may still handle: the open one under way, or one reported failed. */
  predicate MayLand(s: System, req: Request) {
    Open(req, Travelling) in s.wire || req in s.strays
  }

  /** Landing now, this stamped save would replace another writer's document: one that came after all this client
      adopted or wrote, and that no answer shows to it. */
  predicate ReplacesUnseen(s: System, req: Request) {
    MayLand(s, req) && req.token.Some? && Accepts(s, req) && s.row.value.writer == Others
  }

  /** A stamped save the server would take replaces an unseen document exactly when the stamp it carries was answered
      to an earlier save in place of the stamp that save wrote, another writer having overtaken it. */
  lemma UnseenExactlyWhenOvertaken(s: System, es: seq<Event>, req: Request)
    requires Initial(s) && MayLand(Run(s, es), req) && req.token.Some? && Accepts(Run(s, es), req)
    ensures ReplacesUnseen(Run(s, es), req) <==> Overtaken(Run(s, es), req.token.value)
  {
    InitialInv(s);
    RunKeepsInv(s, es);
    LandingHeld(Run(s, es), req);
  }

  lemma LandingHeld(s: System, req: Request)
    requires StampInv(s) && MayLand(s, req) && req.token.Some?
    ensures Held(s, req.token.value)
  {
    hide Held;
    if Open(req, Travelling) in s.wire {
      var k :| 0 <= k < |s.wire| && s.wire[k] == Open(req, Travelling);
      assert OpenKnown(s, s.wire[k]);
    } else {
      var j :| 0 <= j < |s.strays| && s.strays[j] == req;
      assert StrayKnown(s, s.strays[j]);
    }
  }

  /** A save has been applied and its stamp is not yet read back. */
  predicate InWindow(s: System) {
    exists k :: 0 <= k < |s.wire| && s.wire[k].stage.Applied?
  }

  /** No other writer writes between the conditional update of a save and its read-back. */
  predicate Quiet(s: System, es: seq<Event>)
    decreases |es|
  {
    es == [] || (!(es[0].ForeignWrite? && InWindow(s)) && Quiet(Step(s, es[0]), es[1..]))
  }

  /** All that was read back is this client's own, and so is the row of a save waiting to be read back. */
  predicate OwnReadBacks(s: System) {
    && (forall h :: h in s.heard ==> h.writer == Us)
    && (InWindow(s) && s.row.Some? ==> s.row.value.writer == Us)
  }

  lemma ServerKeepsOwn(s: System, e: Event)
    requires Inv(s) && OwnReadBacks(s) && (e.Land? || e.ReadBack?)
    ensures OwnReadBacks(Step(s, e))
  {
    if e.k < |s.wire| {
      OnlyOpen(s, e.k);
      hide Inv;
    }
  }

  /** A step that opens no window, and within one brings in no other writer's document. */
  predicate Unread(s: System, t: System) {
    && t.heard == s.heard
    && (forall k :: 0 <= k < |t.wire| && t.wire[k].stage.Applied? ==> t.wire[k] in s.wire)
    && (t.row == s.row || t.row.None? || t.row.value.writer == Us || !InWindow(s))
  }

  lemma UnreadKeepsOwn(s: System, t: System)
    requires OwnReadBacks(s) && Unread(s, t)
    ensures OwnReadBacks(t)
  {
    if InWindow(t) {
      var k :| 0 <= k < |t.wire| && t.wire[k].stage.Applied?;
      var i :| 0 <= i < |s.wire| && s.wire[i] == t.wire[k];
      assert InWindow(s);
    }
  }

  lemma OutsideIsUnread(s: System, e: Event)
    requires e.Edit? || e.Persist? || e.DiscardLocal? || e.ForeignDiscard? || (e.ForeignWrite? && !InWindow(s))
    ensures Unread(s, Step(s, e))
  {
    hide InWindow;
  }

  lemma SendIsUnread(s: System, e: Event)
    requires e.TimerFires? || e.Flush? || e.Overwrite? || e.LandStray?
    ensures Unread(s, Step(s, e))
  {
    hide InWindow;
  }

  /** The open save ends: nothing is left on the wire, or the queued document, freshly sent. */
  predicate Ended(s: System, t: System) {
    && t.row == s.row && t.heard == s.heard
    && (forall k :: 0 <= k < |t.wire| ==> t.wire[k].stage == Travelling)
  }

  lemma DeliverEnds(s: System, k: nat)
    requires OneSave(s) && k < |s.wire| && Arrived(s.wire[k])
    ensures Ended(s, Step(s, Deliver(k))) && Step(s, Deliver(k)).strays == s.strays
  {
    OnlyOpen(s, k);
  }

  lemma DropEnds(s: System, k: nat)
    requires OneSave(s) && k < |s.wire|
    ensures Ended(s, Step(s, Drop(k)))
    ensures var t := Step(s, Drop(k));
            t.strays == if s.wire[k].stage.Travelling? then s.strays + [s.wire[k].req] else s.strays
  {
    OnlyOpen(s, k);
  }

  lemma EndIsUnread(s: System, e: Event)
    requires OneSave(s) && (e.Deliver? || e.Drop?)
    ensures Unread(s, Step(s, e))
  {
    hide InWindow;
    if e.Drop? && e.k < |s.wire| {
      DropEnds(s, e.k);
    } else if e.Deliver? && e.k < |s.wire| && Arrived(s.wire[e.k]) {
      DeliverEnds(s, e.k);
    } else {
      assert Step(s, e) == s;
    }
  }

  lemma StepKeepsOwn(s: System, e: Event)
    requires Inv(s) && OwnReadBacks(s) && !(e.ForeignWrite? && InWindow(s))
    ensures OwnReadBacks(Step(s, e))
  {
    assert OneSave(s);
    hide Inv, OneSave, OwnReadBacks, Unread, Step;
    if e.Land? || e.ReadBack? {
      ServerKeepsOwn(s, e);
    } else {
      if e.Deliver? || e.Drop? {
        EndIsUnread(s, e);
      } else if e.TimerFires? || e.Flush? || e.Overwrite? || e.LandStray? {
        SendIsUnread(s, e);
      } else {
        OutsideIsUnread(s, e);
      }
      UnreadKeepsOwn(s, Step(s, e));
    }
  }

  lemma {:induction false} QuietKeepsOwn(s: System, es: seq<Event>)
    requires Inv(s) && OwnReadBacks(s) && Quiet(s, es)
    ensures OwnReadBacks(Run(s, es))
    decreases |es|
  {
    if es != [] {
      StepKeepsOwn(s, es[0]);
      StepKeepsInv(s, es[0]);
      QuietKeepsOwn(Step(s, es[0]), es[1..]);
    }
  }

  /** Where no write falls between an update and its read-back, as on a server that does both at once, no stamped
      save ever replaces a document this client has not seen, whatever else other writers do. */
  lemma QuietRunsReplaceNothingUnseen(s: System, es: seq<Event>, req: Request)
    requires Initial(s) && Quiet(s, es)
    ensures !ReplacesUnseen(Run(s, es), req)
  {
    InitialInv(s);
    RunKeepsInv(s, es);
    QuietKeepsOwn(s, es);
    if MayLand(Run(s, es), req) && req.token.Some? {
      LandingHeld(Run(s, es), req);
    }
  }

  /** No forced save is given up while it may still reach the server. */
  predicate KeepsForced(s: System, e: Event) {
    e.Drop? && e.k < |s.wire| && s.wire[e.k].stage.Travelling? ==> s.wire[e.k].req.token.Some?
  }

  predicate ForcedSavesEnd(s: System, es: seq<Event>)
    decreases |es|
  {
    es == [] || (KeepsForced(s, es[0]) && ForcedSavesEnd(Step(s, es[0]), es[1..]))
  }

  /** A read-back that answers another stamp than the save wrote, or will, shows another writer at work. */
  predicate OthersOvertake(s: System) {
    && (forall j :: 0 <= j < |s.strays| ==> s.strays[j].token.Some?)
    && (forall h :: h in s.heard && h.written != h.answered ==> h.writer == Others)
    && (forall k :: 0 <= k < |s.wire| && Passed(s, s.wire[k]) ==> s.row.value.writer == Others)
  }

  /** The row has moved on since this save was applied. */
  predicate Passed(s: System, open: Open) {
    open.stage.Applied? && s.row.Some? && s.row.value.stamp != open.stage.stamp
  }

  /** A stamped stray never lands in the window. */
  lemma StrayMissesWindow(s: System, j: nat)
    requires Inv(s) && InWindow(s) && j < |s.strays| && s.strays[j].token.Some?
    ensures !Accepts(s, s.strays[j])
  {
    var k :| 0 <= k < |s.wire| && s.wire[k].stage.Applied?;
    assert OpenKnown(s, s.wire[k]) && StrayKnown(s, s.strays[j]);
  }

  lemma StrayKeepsOvertake(s: System, e: Event)
    requires Inv(s) && OthersOvertake(s) && e.LandStray?
    ensures OthersOvertake(Step(s, e))
  {
    if e.j < |s.strays| {
      if InWindow(s) {
        StrayMissesWindow(s, e.j);
      }
      hide Inv;
    }
  }

  lemma OutsideKeepsOvertake(s: System, e: Event)
    requires OthersOvertake(s) && (e.Edit? || e.Persist? || e.DiscardLocal? || e.ForeignWrite? || e.ForeignDiscard?)
    ensures OthersOvertake(Step(s, e))
  {
  }

  lemma SendKeepsOvertake(s: System, e: Event)
    requires OthersOvertake(s) && (e.TimerFires? || e.Flush? || e.Overwrite?)
    ensures OthersOvertake(Step(s, e))
  {
    SendsOne(s, e);
    hide Step;
  }

  lemma ServerKeepsOvertake(s: System, e: Event)
    requires Inv(s) && OthersOvertake(s) && (e.Land? || e.ReadBack?)
    ensures OthersOvertake(Step(s, e))
  {
    if e.k < |s.wire| {
      OnlyOpen(s, e.k);
      hide Inv;
    }
  }

  lemma EndKeepsOvertake(s: System, e: Event)
    requires OneSave(s) && OthersOvertake(s) && (e.Deliver? || e.Drop?) && KeepsForced(s, e)
    ensures OthersOvertake(Step(s, e))
  {
    if e.Drop? && e.k < |s.wire| {
      DropEnds(s, e.k);
    } else if e.Deliver? && e.k < |s.wire| && Arrived(s.wire[e.k]) {
      DeliverEnds(s, e.k);
    } else {
      assert Step(s, e) == s;
    }
    hide Step, OneSave;
  }

  lemma {:induction false} RunKeepsOvertake(s: System, es: seq<Event>)
    requires Inv(s) && OthersOvertake(s) && ForcedSavesEnd(s, es)
    ensures OthersOvertake(Run(s, es))
    decreases |es|
  {
    if es != [] {
      var e := es[0];
      assert OneSave(s);
      hide Inv, OneSave, OthersOvertake, Step;
      if e.Land? || e.ReadBack? {
        ServerKeepsOvertake(s, e);
      } else if e.Deliver? || e.Drop? {
        EndKeepsOvertake(s, e);
      } else if e.TimerFires? || e.Flush? || e.Overwrite? {
        SendKeepsOvertake(s, e);
      } else if e.LandStray? {
        StrayKeepsOvertake(s, e);
      } else {
        OutsideKeepsOvertake(s, e);
      }
      StepKeepsInv(s, e);
      RunKeepsOvertake(Step(s, e), es[1..]);
    }
  }

  /** The server can see it coming: where no forced save was given up, a stamped save it would take replaces an
      unseen document exactly when the stamp it carries is one some read-back answered for another. */
  lemma UnseenExactlyWhenAnswerDiffers(s: System, es: seq<Event>, req: Request)
    requires Initial(s) && ForcedSavesEnd(s, es)
    requires MayLand(Run(s, es), req) && req.token.Some? && Accepts(Run(s, es), req)
    ensures ReplacesUnseen(Run(s, es), req) <==>
            exists h :: h in Run(s, es).heard && h.answered == req.token.value && h.written != h.answered
  {
    UnseenExactlyWhenOvertaken(s, es, req);
    InitialInv(s);
    RunKeepsOvertake(s, es);
  }

  /** A single foreign write in that window is enough: once the stamp is read back and delivered, the next ordinary
      save replaces the foreign document, and this client has never seen it. */
  lemma WriteInWindowIsLost(s: System, es: seq<Event>, theirs: Doc, mine: Doc)
    requires Initial(s) && InWindow(Run(s, es))
    ensures var t := Run(s, es);
            var u := Run(t, [ForeignWrite(theirs), ReadBack(0), Deliver(0), Edit(mine), Flush]);
            && |u.wire| == 1 && ReplacesUnseen(u, u.wire[0].req) && u.row.value.doc == theirs
            && Step(u, Land(0)).row == Some(Row(u.wire[0].req.doc, u.next, Us))
  {
    InitialInv(s);
    RunKeepsInv(s, es);
    var t := Run(s, es);
    assert OneSave(t);
    hide Run;
    ReadOvertaken(t, theirs);
    var m := Step(Step(Step(t, ForeignWrite(theirs)), ReadBack(0)), Deliver(0));
    StampSpent(m, mine);
    RunOfFive(t, ForeignWrite(theirs), ReadBack(0), Deliver(0), Edit(mine), Flush);
  }

  /** The save's answer is the stamp of the foreign write. */
  lemma ReadOvertaken(t: System, theirs: Doc)
    requires OneSave(t) && InWindow(t)
    ensures var m := Step(Step(Step(t, ForeignWrite(theirs)), ReadBack(0)), Deliver(0));
            && m.row == Some(Row(theirs, t.next, Others)) && m.client.token == Some(t.next)
            && OneSave(m) && (m.wire != [] ==> m.wire[0] == Open(Request(m.wire[0].req.doc, Some(t.next)), Travelling))
  {
    var doc := t.wire[0].req.doc;
    var a := Step(t, ForeignWrite(theirs));
    assert a.wire == t.wire;
    var b := Step(a, ReadBack(0));
    assert b.wire == [Open(t.wire[0].req, Answered(t.next))];
    OnlyOpen(b, 0);
  }

  lemma StampSpent(m: System, mine: Doc)
    requires m.row.Some? && m.row.value.writer == Others && m.client.token == Some(m.row.value.stamp)
    requires OneSave(m)
    requires m.wire != [] ==> m.wire[0] == Open(Request(m.wire[0].req.doc, m.client.token), Travelling)
    ensures var u := Step(Step(m, Edit(mine)), Flush);
            && |u.wire| == 1 && ReplacesUnseen(u, u.wire[0].req) && u.row == m.row
            && Step(u, Land(0)).row == Some(Row(u.wire[0].req.doc, u.next, Us))
  {
    var u := Step(Step(m, Edit(mine)), Flush);
    assert u.wire[0] in u.wire;
  }

  lemma RunOfFive(s: System, a: Event, b: Event, c: Event, d: Event, e: Event)
    ensures Run(s, [a, b, c, d, e]) == Step(Step(Step(Step(Step(s, a), b), c), d), e)
  {
    hide Step;
    var s1, s2, s3 := Step(s, a), Step(Step(s, a), b), Step(Step(Step(s, a), b), c);
    var s4 := Step(s3, d);
    assert [a, b, c, d, e][1..] == [b, c, d, e] && [b, c, d, e][1..] == [c, d, e] && [c, d, e][1..] == [d, e];
    assert [d, e][1..] == [e] && [e][1..] == [];
    assert Run(Step(s4, e), []) == Step(s4, e);
    assert Run(s4, [e]) == Step(s4, e);
    assert Run(s3, [d, e]) == Step(s4, e);
    assert Run(s2, [c, d, e]) == Step(s4, e);
    assert Run(s1, [b, c, d, e]) == Step(s4, e);
  }

  /** The window is reached by any first edit, so the loss does happen. */
  lemma WindowIsReached(s: System, doc: Doc)
    requires Initial(s) && s.row.Some?
    ensures InWindow(Run(s, [Edit(doc), Flush, Land(0)]))
  {
    hide Run;
    var t := Step(Step(s, Edit(doc)), Flush);
    assert t.wire == [Open(Request(doc, s.client.token), Travelling)] && Accepts(t, t.wire[0].req);
    hide Initial;
    assert Step(t, Land(0)).wire[0].stage.Applied?;
    RunOfThree(s, Edit(doc), Flush, Land(0));
  }

  lemma RunOfThree(s: System, a: Event, b: Event, c: Event)
    ensures Run(s, [a, b, c]) == Step(Step(Step(s, a), b), c)
  {
    hide Step;
    var s1, s2 := Step(s, a), Step(Step(s, a), b);
    assert [a, b, c][1..] == [b, c] && [b, c][1..] == [c] && [c][1..] == [];
    assert Run(Step(s2, c), []) == Step(s2, c);
    assert Run(s2, [c]) == Step(s2, c);
    assert Run(s1, [b, c]) == Step(s2, c);
  }

  // ------------------------------------------------------------------------------------------------------
  // After a refusal
  // ------------------------------------------------------------------------------------------------------

  /** How many of these saves are forced ones, which the server takes whatever the row. */
  function Forced(q: seq<Request>): nat {
    if q == [] then 0 else (if q[0].token.None? then 1 else 0) + Forced(q[1..])
  }

  lemma {:induction false} ForcedSplit(p: seq<Request>, q: seq<Request>)
    ensures Forced(p + q) == Forced(p) + Forced(q)
  {
    if p == [] {
      assert p + q == q;
    } else {
      ForcedSplit(p[1..], q);
      assert (p + q)[1..] == p[1..] + q;
    }
  }

  lemma ForcedWithout(q: seq<Request>, j: nat)
    requires j < |q|
    ensures Forced(q) == Forced(Without(q, j)) + if q[j].token.None? then 1 else 0
  {
    var p, r := q[..j], q[j + 1..];
    ForcedSplit(p, r);
    ForcedSplit(p, q[j..]);
    assert q == p + q[j..] && q[j..][1..] == r;
    assert Forced(q[j..]) == (if q[j].token.None? then 1 else 0) + Forced(r);
    hide Forced;
  }

  /** Landed or still astray: the forced saves the client has given up on. */
  function Late(s: System): nat {
    s.landings + Forced(s.strays)
  }

  /** While a refusal stands only a stray forced save lands; a stray ordinary one carries a stamp that has passed. */
  lemma StrayAfterRefusal(s: System, e: Event)
    requires Inv(s) && s.refused && e.LandStray?
    ensures Late(Step(s, e)) == Late(s) && Step(s, e).landings >= s.landings
  {
    if e.j < |s.strays| {
      ForcedWithout(s.strays, e.j);
      assert StrayKnown(s, s.strays[e.j]);
      assert Held(s, s.client.token.value);
      hide OpenKnown, ClientInv;
    }
  }

  lemma DropAfterRefusal(s: System, e: Event)
    requires Inv(s) && s.refused && e.Drop?
    ensures Late(Step(s, e)) == Late(s) && Step(s, e).refused
  {
    if e.k < |s.wire| {
      ForcedSplit(s.strays, [s.wire[e.k].req]);
      assert Forced([s.wire[e.k].req]) == 0;
    }
  }

  lemma RefusalHolds(s: System, e: Event)
    requires Inv(s) && s.refused && e != Overwrite
    ensures Late(Step(s, e)) == Late(s) && Step(s, e).refused && Step(s, e).landings >= s.landings
  {
    if e.LandStray? {
      StrayAfterRefusal(s, e);
    } else if e.Drop? {
      DropAfterRefusal(s, e);
    } else {
      assert Step(s, e).strays == s.strays && Step(s, e).landings == s.landings;
    }
  }

  lemma {:induction false} LateIsConserved(s: System, es: seq<Event>)
    requires Inv(s) && s.refused && Overwrite !in es
    ensures Late(Run(s, es)) == Late(s) && Run(s, es).refused && Run(s, es).landings >= s.landings
    decreases |es|
  {
    if es != [] {
      assert es[0] in es && forall e :: e in es[1..] ==> e in es;
      hide Late;
      RefusalHolds(s, es[0]);
      StepKeepsInv(s, es[0]);
      LateIsConserved(Step(s, es[0]), es[1..]);
    }
  }

  /** After a refusal, until the next forced save and however many edits, timers and retries follow, each landing of
      this client's is that of a forced save given up before; without such a save nothing lands. */
  lemma NothingLandsAfterRefusal(s: System, es: seq<Event>, fs: seq<Event>)
    requires Initial(s) && Run(s, es).refused && Overwrite !in fs
    ensures var t := Run(s, es);
            var u := Run(t, fs);
            && u.refused && u.landings - t.landings == Forced(t.strays) - Forced(u.strays)
            && (Forced(t.strays) == 0 ==> u.landings == t.landings)
  {
    InitialInv(s);
    RunKeepsInv(s, es);
    LateIsConserved(Run(s, es), fs);
  }

  /** And this is exact: if one is still astray, its arrival is a landing after the refusal. */
  lemma LandsAfterRefusalExactlyWhen(s: System, es: seq<Event>)
    requires Initial(s) && Run(s, es).refused
    ensures var t := Run(s, es);
            (forall fs :: Overwrite !in fs ==> Run(t, fs).landings == t.landings) <==> Forced(t.strays) == 0
  {
    var t := Run(s, es);
    if Forced(t.strays) == 0 {
      forall fs | Overwrite !in fs ensures Run(t, fs).landings == t.landings {
        NothingLandsAfterRefusal(s, es, fs);
      }
    } else {
      var j := SomeForced(t.strays);
      assert Run(Step(t, LandStray(j)), []) == Step(t, LandStray(j));
      assert [LandStray(j)][1..] == [];
      assert Run(t, [LandStray(j)]).landings == t.landings + 1;
    }
  }

  lemma {:induction false} SomeForced(q: seq<Request>) returns (j: nat)
    requires Forced(q) > 0
    ensures j < |q| && q[j].token.None?
  {
    if q[0].token.None? {
      j := 0;
    } else {
      var i := SomeForced(q[1..]);
      j := i + 1;
    }
  }

  /** It does happen: a forced save whose connection breaks arrives after a later ordinary save was refused. */
  lemma ForcedSaveLandsLate(s: System, theirs: Doc)
    requires Initial(s) && s.row.Some?
    ensures var t := Run(s, [Overwrite, Drop(0), ForeignWrite(theirs), Flush, Land(0)]);
            t.refused && t.strays == [Request(s.client.screen, None)]
            && Step(t, LandStray(0)).row == Some(Row(s.client.screen, t.next, Us))
  {
    ForcedSaveDropped(s);
    hide Initial, Run;
    var s2 := Step(Step(s, Overwrite), Drop(0));
    var s4 := Step(Step(s2, ForeignWrite(theirs)), Flush);
    assert s4.wire == [Open(Request(s.client.screen, s.client.token), Travelling)];
    RunOfFive(s, Overwrite, Drop(0), ForeignWrite(theirs), Flush, Land(0));
  }

  lemma ForcedSaveDropped(s: System)
    requires Initial(s) && s.row.Some?
    ensures s.client.token == Some(s.row.value.stamp) && s.row.value.stamp < s.next
    ensures var t := Step(Step(s, Overwrite), Drop(0));
            && t.wire == [] && t.strays == [Request(s.client.screen, None)] && t.row == s.row && t.next == s.next
            && t.client.pending == Some(s.client.screen) && t.client.inFlight.None? && t.client.token == s.client.token
  {
    assert Step(s, Overwrite).wire == [Open(Request(s.client.screen, None), Travelling)];
  }

  lemma AnswerIsNewer(s: System, k: nat)
    requires Inv(s) && k < |s.wire| && s.wire[k].stage.Answered? && s.client.token.Some?
    ensures s.client.token.value < s.wire[k].stage.stamp
  {
    assert OpenKnown(s, s.wire[k]);
  }

  lemma ServerKeepsClient(s: System, e: Event)
    requires e.Land? || e.ReadBack? || e.LandStray? || e.ForeignWrite? || e.ForeignDiscard?
    ensures Step(s, e).client == s.client
  {
  }

  lemma FailureKeepsStamp(s: System, k: nat)
    ensures Step(s, Drop(k)).client.token == s.client.token
  {
  }

  lemma EditKeepsStamp(s: System, e: Event)
    requires e.Edit? || e.Persist? || e.DiscardLocal?
    ensures Step(s, e).client.token == s.client.token
  {
  }

  lemma StampKept(s: System, e: Event)
    requires !e.Deliver?
    ensures Step(s, e).client.token == s.client.token
  {
    hide Step;
    if e.TimerFires? || e.Flush? || e.Overwrite? {
      SendsOne(s, e);
    } else if e.Drop? {
      FailureKeepsStamp(s, e.k);
    } else if e.Edit? || e.Persist? || e.DiscardLocal? {
      EditKeepsStamp(s, e);
    } else {
      ServerKeepsClient(s, e);
    }
  }

  lemma SucceededStamp(c: Client, doc: Doc, stamp: Stamp)
    ensures Succeeded(c, doc, stamp).0.token == Some(stamp)
  {
  }

  lemma StampDelivered(s: System, k: nat)
    ensures var t := Step(s, Deliver(k)).client.token;
            if k < |s.wire| && s.wire[k].stage.Answered? then t == Some(s.wire[k].stage.stamp) else t == s.client.token
  {
    if k < |s.wire| && s.wire[k].stage.Answered? {
      SucceededStamp(s.client, s.wire[k].req.doc, s.wire[k].stage.stamp);
      hide Succeeded;
    }
  }

  /** Only the answer to an open save changes the client's stamp, and never back. */
  lemma StampOnlyGrows(s: System, e: Event)
    requires Inv(s) && s.client.token.Some?
    ensures Step(s, e).client.token.Some? && s.client.token.value <= Step(s, e).client.token.value
  {
    hide Inv, Step;
    if e.Deliver? {
      StampDelivered(s, e.k);
      if e.k < |s.wire| && s.wire[e.k].stage.Answered? {
        AnswerIsNewer(s, e.k);
      }
    } else {
      StampKept(s, e);
    }
  }

  /** A stamp older than the client's is refused from now on. */
  lemma {:induction false} OlderStaysOut(s: System, es: seq<Event>, req: Request)
    requires Inv(s) && s.client.token.Some? && req.token.Some? && req.token.value < s.client.token.value
    ensures !Accepts(Run(s, es), req)
    decreases |es|
  {
    if es == [] {
      assert Held(s, s.client.token.value);
    } else {
      StampOnlyGrows(s, es[0]);
      StepKeepsInv(s, es[0]);
      OlderStaysOut(Step(s, es[0]), es[1..], req);
    }
  }

  lemma StrayIsOlder(s: System, req: Request)
    requires Inv(s) && req in s.strays && req.token.Some?
    ensures s.client.token.Some? && req.token.value <= s.client.token.value
  {
    var j :| 0 <= j < |s.strays| && s.strays[j] == req;
    assert StrayKnown(s, s.strays[j]);
  }

  /** Once a save is accepted and answered, no ordinary save given up before it can replace it, then or later. */
  lemma AcceptedIsNotUndone(s: System, es: seq<Event>, k: nat, fs: seq<Event>, req: Request)
    requires Initial(s)
    requires var t := Run(s, es); k < |t.wire| && t.wire[k].stage.Answered? && req in t.strays && req.token.Some?
    ensures !Accepts(Run(Step(Run(s, es), Deliver(k)), fs), req)
  {
    InitialInv(s);
    RunKeepsInv(s, es);
    var t := Run(s, es);
    hide Inv, Run;
    StrayIsOlder(t, req);
    AnswerIsNewer(t, k);
    StepKeepsInv(t, Deliver(k));
    OlderStaysOut(Step(t, Deliver(k)), fs, req);
  }

  /** Every refusal the user is shown is one of these: the save that was refused is queued again, so a forced save
      has a document to send. */
  lemma RefusedSaveCanBeForced(s: System, es: seq<Event>, k: nat)
    requires Initial(s)
    ensures var t := Run(s, es);
            k < |t.wire| && t.wire[k].stage.Rejected? ==>
              var u := Step(t, Deliver(k));
              var v := Step(u, Overwrite);
              u.client.status == Conflict && u.client.pending == Some(u.client.screen)
              && v.wire == [Open(Request(u.client.screen, None), Travelling)]
              && Step(v, Land(0)).row == Some(Row(u.client.screen, v.next, Us))
  {
    InitialInv(s);
    RunKeepsInv(s, es);
    var t := Run(s, es);
    if k < |t.wire| && t.wire[k].stage.Rejected? {
      StepKeepsInv(t, Deliver(k));
    }
  }
}

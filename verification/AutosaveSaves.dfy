/** What becomes of a save: undisturbed it brings everything to rest, overtaken it is refused, and what the client takes
    for accepted was stored.  */
module AutosaveSaves {
  import opened Optional
  import opened Autosave
  import opened AutosaveProtocol
  import opened AutosaveRuns

  // ------------------------------------------------------------------------------------------------------
  // At rest
  // ------------------------------------------------------------------------------------------------------

  /** An adopted document is at rest: nothing is due, and asked for nothing happens. */
  lemma AdoptedIsAtRest(s: System, ok: bool)
    requires Initial(s)
    ensures s.client.status == Clean && s.client.screen == s.accepted
    ensures Step(s, TimerFires) == Step(s, Flush) == Step(s, Persist(ok)) == s
  {
  }

  /** The device copy: when the timer is due it becomes the document on screen, and then nothing is due; a refused write
      leaves it as it was. */
  lemma PersistStores(s: System, es: seq<Event>)
    requires Initial(s)
    ensures var t := Run(s, es);
            var u, v := Step(t, Persist(true)), Step(t, Persist(false));
            && u.device == (if t.client.persistTimer then Some(t.client.screen) else t.device)
            && !u.client.persistTimer && u.client.unpersisted == None && Step(u, Persist(true)) == u
            && v.device == t.device && v.client == u.client
  {
    InitialInv(s);
    RunKeepsInv(s, es);
    hide Run;
  }

  /** A discarded copy stays gone until the next edit. */
  lemma DiscardForgets(s: System, ok: bool)
    ensures var t := Step(s, DiscardLocal); t.device == None && Step(t, Persist(ok)) == t
  {
  }

  /** The timer's save, when nothing is open and no other writer has been there since the stamp was read: landed, read
      back and delivered undisturbed, it leaves the document on screen stored under a fresh stamp, which the client
      holds, and nothing due anywhere. */
  lemma CalmSaveSettles(s: System, es: seq<Event>)
    requires Initial(s)
    requires var t := Run(s, es);
             && t.wire == [] && t.client.timer && t.client.pending.Some?
             && (t.client.token.Some? ==> t.row.Some? && t.row.value.stamp == t.client.token.value)
    ensures var t := Run(s, es);
            var u := Step(Step(Step(Step(t, TimerFires), Land(0)), ReadBack(0)), Deliver(0));
            && u.row == Some(Row(t.client.screen, t.next, Us))
            && u.client == Client(t.client.screen, None, None, Some(t.next), false, None, false, Clean)
            && u.accepted == t.client.screen && u.device == None && u.wire == [] && u.strays == t.strays
  {
    InitialInv(s);
    RunKeepsInv(s, es);
    var t := Run(s, es);
    assert OneSave(t) && NewestIsHeld(t);
    hide Run, Inv;
    CalmSave(t);
  }

  lemma CalmSave(t: System)
    requires OneSave(t) && NewestIsHeld(t) && t.wire == [] && t.client.timer && t.client.pending.Some?
    requires t.client.token.Some? ==> t.row.Some? && t.row.value.stamp == t.client.token.value
    ensures var u := Step(Step(Step(Step(t, TimerFires), Land(0)), ReadBack(0)), Deliver(0));
            && u.row == Some(Row(t.client.screen, t.next, Us))
            && u.client == Client(t.client.screen, None, None, Some(t.next), false, None, false, Clean)
            && u.accepted == t.client.screen && u.device == None && u.wire == [] && u.strays == t.strays
  {
    var req := Request(t.client.screen, t.client.token);
    var a := Step(t, TimerFires);
    assert a.wire == [Open(req, Travelling)];
    var b := Step(a, Land(0));
    assert b.row == Some(Row(t.client.screen, t.next, Us)) && b.client == a.client;
    var c := Step(b, ReadBack(0));
    assert c.wire == [Open(req, Answered(t.next))] && c.row == b.row && c.client == a.client;
    assert Without(c.wire, 0) == [];
  }

  /** Another write or a discard on the server is enough: the stamped save under way is refused and changes nothing
      there. */
  lemma OvertakenIsRefused(s: System, es: seq<Event>, e: Event)
    requires Initial(s) && (e.ForeignWrite? || e.ForeignDiscard?)
    requires var t := Run(s, es); t.wire != [] && t.wire[0].stage.Travelling? && t.wire[0].req.token.Some?
    ensures var t := Run(s, es);
            var u := Step(Step(t, e), Land(0));
            && u.wire[0].stage.Rejected? && u.client == t.client && u.landings == t.landings
            && u.row == if e.ForeignWrite? then Some(Row(e.doc, t.next, Others)) else None
  {
    InitialInv(s);
    RunKeepsInv(s, es);
    var t := Run(s, es);
    assert OpenKnown(t, t.wire[0]);
  }

  /** A forced save is answered with the stamp it wrote, whatever is written before the answer is heard. */
  lemma ForcedSaveHearsItself(s: System, es: seq<Event>, theirs: Doc)
    requires Initial(s)
    requires var t := Run(s, es); t.wire != [] && t.wire[0].stage.Travelling? && t.wire[0].req.token == None
    ensures var t := Run(s, es);
            var u := Step(Step(Step(t, Land(0)), ForeignWrite(theirs)), Deliver(0));
            u.client.token == Some(t.next) && u.row == Some(Row(theirs, t.next + 1, Others))
  {
    InitialInv(s);
    RunKeepsInv(s, es);
    var t := Run(s, es);
    hide Run, Inv;
    var b := Step(Step(t, Land(0)), ForeignWrite(theirs));
    assert b.wire[0] == Open(t.wire[0].req, Answered(t.next));
    TakesStamp(b);
  }

  lemma TakesStamp(s: System)
    requires s.wire != [] && s.wire[0].stage.Answered?
    ensures Step(s, Deliver(0)).client.token == Some(s.wire[0].stage.stamp) && Step(s, Deliver(0)).row == s.row
  {
  }

  /** An answered save: its document is the accepted one and its stamp the client's; another document queued meanwhile
      is sent at once under that stamp, and otherwise the device copy is erased. */
  lemma AnswerMovesOn(s: System, es: seq<Event>)
    requires Initial(s)
    requires var t := Run(s, es); t.wire != [] && t.wire[0].stage.Answered?
    ensures var t := Run(s, es);
            var doc, stamp := t.wire[0].req.doc, t.wire[0].stage.stamp;
            var u := Step(t, Deliver(0));
            && u.accepted == doc && u.client.token == Some(stamp) && u.client.pending == None
            && if t.client.pending in {None, Some(doc)} then u.wire == [] && u.device == None
               else u.wire == [Open(Request(t.client.pending.value, Some(stamp)), Travelling)] && u.device == t.device
  {
    InitialInv(s);
    RunKeepsInv(s, es);
    var t := Run(s, es);
    hide Run;
    OnlyOpen(t, 0);
  }

  // ------------------------------------------------------------------------------------------------------
  // Accepted means stored
  // ------------------------------------------------------------------------------------------------------

  /** At some moment of the run the server's row held this document, written by this client. */
  ghost predicate WasStored(s: System, es: seq<Event>, doc: Doc) {
    exists k :: 0 <= k <= |es| && Stored(Run(s, es[..k]), doc)
  }

  ghost predicate Stored(s: System, doc: Doc) {
    s.row.Some? && s.row.value.doc == doc && s.row.value.writer == Us
  }

  ghost predicate KnownStored(s: System, es: seq<Event>) {
    var t := Run(s, es);
    && (t.accepted == s.accepted || WasStored(s, es, t.accepted))
    && (forall k :: 0 <= k < |t.wire| && (t.wire[k].stage.Applied? || t.wire[k].stage.Answered?) ==>
          WasStored(s, es, t.wire[k].req.doc))
  }

  lemma {:induction false} RunOneMore(s: System, es: seq<Event>, e: Event)
    ensures Run(s, es + [e]) == Step(Run(s, es), e)
    decreases |es|
  {
    hide Step;
    if es == [] {
      assert Run(Step(s, e), []) == Step(s, e);
      assert ([] + [e])[1..] == [];
    } else {
      RunOneMore(Step(s, es[0]), es[1..], e);
      assert (es + [e])[1..] == es[1..] + [e];
    }
  }

  lemma StoredStays(s: System, es: seq<Event>, e: Event, doc: Doc)
    ensures WasStored(s, es, doc) ==> WasStored(s, es + [e], doc)
    ensures Stored(Run(s, es + [e]), doc) ==> WasStored(s, es + [e], doc)
  {
    hide Run, Stored;
    var more := es + [e];
    if WasStored(s, es, doc) {
      var k :| 0 <= k <= |es| && Stored(Run(s, es[..k]), doc);
      assert more[..k] == es[..k];
    }
    assert more[..|more|] == more;
  }

  /** A step accepts only what was answered, and marks as applied or answered only what was so before or has just been
      stored. */
  ghost predicate StoresOnly(t: System, u: System) {
    && (u.accepted == t.accepted
        || (t.wire != [] && t.wire[0].stage.Answered? && u.accepted == t.wire[0].req.doc))
    && forall k :: 0 <= k < |u.wire| && (u.wire[k].stage.Applied? || u.wire[k].stage.Answered?) ==>
        || Stored(u, u.wire[k].req.doc)
        || (k < |t.wire| && u.wire[k].req == t.wire[k].req
            && (t.wire[k].stage.Applied? || t.wire[k].stage.Answered?))
  }

  lemma SendStores(t: System, e: Event)
    requires OneSave(t) && (e.TimerFires? || e.Flush? || e.Overwrite?)
    ensures StoresOnly(t, Step(t, e))
  {
  }

  lemma EndStores(t: System, e: Event)
    requires OneSave(t) && (e.Deliver? || e.Drop?)
    ensures StoresOnly(t, Step(t, e))
  {
    if e.Deliver? && e.k < |t.wire| && Arrived(t.wire[e.k]) {
      OnlyOpen(t, e.k);
    } else if e.Drop? && e.k < |t.wire| {
      OnlyOpen(t, e.k);
    }
  }

  lemma ServerStores(t: System, e: Event)
    requires OneSave(t) && (e.Land? || e.ReadBack?)
    ensures StoresOnly(t, Step(t, e))
  {
  }

  lemma OtherStores(t: System, e: Event)
    requires e.Edit? || e.Persist? || e.DiscardLocal? || e.LandStray? || e.ForeignWrite? || e.ForeignDiscard?
    ensures StoresOnly(t, Step(t, e))
  {
  }

  lemma StepStores(t: System, e: Event)
    requires OneSave(t)
    ensures StoresOnly(t, Step(t, e))
  {
    hide StoresOnly, OneSave, Step;
    if e.TimerFires? || e.Flush? || e.Overwrite? {
      SendStores(t, e);
    } else if e.Deliver? || e.Drop? {
      EndStores(t, e);
    } else if e.Land? || e.ReadBack? {
      ServerStores(t, e);
    } else {
      OtherStores(t, e);
    }
  }

  lemma {:induction false} RunStores(s: System, es: seq<Event>)
    requires Initial(s)
    ensures KnownStored(s, es)
  {
    if es != [] {
      var init, e := es[..|es| - 1], es[|es| - 1];
      assert es == init + [e];
      RunStores(s, init);
      InitialInv(s);
      RunKeepsInv(s, init);
      var t := Run(s, init);
      assert OneSave(t);
      RunOneMore(s, init, e);
      hide Run, Step, Inv, OneSave, WasStored, Stored, Initial;
      StepStores(t, e);
      StoredStays(s, init, e, Step(t, e).accepted);
      forall k | 0 <= k < |Step(t, e).wire|
        ensures var doc := Step(t, e).wire[k].req.doc;
                (WasStored(s, init, doc) || Stored(Step(t, e), doc)) ==> WasStored(s, es, doc)
      {
        StoredStays(s, init, e, Step(t, e).wire[k].req.doc);
      }
    }
  }

  /** Over every run: the document taken for accepted is the one adopted, or one this client stored on the server. */
  lemma AcceptedWasStored(s: System, es: seq<Event>)
    requires Initial(s)
    ensures Run(s, es).accepted == s.accepted || WasStored(s, es, Run(s, es).accepted)
  {
    RunStores(s, es);
  }

  // ------------------------------------------------------------------------------------------------------
  // The device copy over a run
  // ------------------------------------------------------------------------------------------------------

  /** The copy is disturbed by a refused device write or a discard, until the next edit. */
  ghost predicate Undisturbed(es: seq<Event>) {
    forall k :: 0 <= k < |es| && (es[k] == Persist(false) || es[k].DiscardLocal?) ==>
      exists j :: k < j < |es| && es[j].Edit?
  }

  lemma {:induction false} StaysBackedUp(s: System, es: seq<Event>)
    requires s.backedUp && Undisturbed(es)
    ensures Run(s, es).backedUp
  {
    if es != [] {
      var init, e := es[..|es| - 1], es[|es| - 1];
      assert es == init + [e];
      RunOneMore(s, init, e);
      if !e.Edit? {
        assert e != Persist(false) && !e.DiscardLocal? by {
          assert e == es[|es| - 1];
        }
        assert Undisturbed(init) by {
          assert forall k :: 0 <= k < |init| ==> init[k] == es[k];
        }
        StaysBackedUp(s, init);
        KeepsBackUp(Run(s, init), e);
      }
    }
  }

  lemma KeepsBackUp(s: System, e: Event)
    requires s.backedUp && e != Persist(false) && !e.DiscardLocal?
    ensures Step(s, e).backedUp
  {
  }

  /** Over every run in which no device write was refused and nothing discarded since the last edit, the document on
      screen is due to be stored, stored on the device, or accepted. */
  lemma ScreenIsKept(s: System, es: seq<Event>)
    requires Initial(s) && Undisturbed(es)
    ensures var t := Run(s, es);
            t.client.persistTimer || t.device == Some(t.client.screen) || t.accepted == t.client.screen
  {
    StaysBackedUp(s, es);
    ScreenIsRecoverable(s, es);
  }
}

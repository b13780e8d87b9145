/** The editor's save loop on the client: one mutable record of what is edited, queued, in flight and kept on the
    device.  Each callback is a method proved against a function on the record's value.  */
module Autosave {
  import opened Optional

  /** Documents by identity: two edits never share one. */
  type Doc = nat

  /** A row's version as the server reports it. */
  type Stamp = nat

  datatype Status = Clean | Dirty | Saving | Conflict | Failed

  /** A save request; without a stamp it is unconditional. */
  datatype Request = Request(doc: Doc, token: Option<Stamp>)

  /** What a callback asks of the network and of the device store. */
  datatype Effect = Nothing | Send(req: Request) | ClearLocal | PutLocal(doc: Doc)

  /** The client between two adoptions of a document.  `screen` is the document shown. */
  datatype Client = Client(screen: Doc, pending: Option<Doc>, inFlight: Option<Doc>, token: Option<Stamp>,
                           timer: bool, unpersisted: Option<Doc>, persistTimer: bool, status: Status)

  /** Adoption of an opened project whose device copy is not waiting to be written. */
  function Adopted(doc: Doc, token: Option<Stamp>): Client {
    Client(doc, None, None, token, false, None, false, Clean)
  }

  function Sending(c: Client, doc: Doc): Client {
    c.(inFlight := Some(doc), status := Saving)
  }

  function Edited(c: Client, doc: Doc): Client {
    c.(screen := doc, pending := Some(doc), timer := true, unpersisted := Some(doc), persistTimer := true,
       status := if c.status == Conflict then Conflict else Dirty)
  }

  function Flushed(c: Client): (Client, Effect) {
    var c := c.(timer := false);
    if c.pending.None? || c.inFlight.Some? then (c, Nothing)
    else (Sending(c.(pending := None), c.pending.value), Send(Request(c.pending.value, c.token)))
  }

  function Overwritten(c: Client): (Client, Effect) {
    if c.inFlight.Some? then (c, Nothing)
    else
      var doc := if c.pending.Some? then c.pending.value else c.screen;
      (Sending(c.(pending := None), doc), Send(Request(doc, None)))
  }

  function Succeeded(c: Client, doc: Doc, stamp: Stamp): (Client, Effect) {
    var c := c.(token := Some(stamp), inFlight := None);
    var queued := c.pending;
    var c := c.(pending := None);
    if queued.Some? && queued.value != doc then (Sending(c, queued.value), Send(Request(queued.value, c.token)))
    else (c.(status := Clean, unpersisted := None, persistTimer := false), ClearLocal)
  }

  function Refused(c: Client, doc: Doc, conflict: bool): Client {
    var c := if c.inFlight == Some(doc) then c.(inFlight := None) else c;
    var c := if c.pending.None? then c.(pending := Some(doc)) else c;
    c.(status := if conflict then Conflict else Failed)
  }

  function Persisted(c: Client): (Client, Effect) {
    if c.unpersisted.None? then (c.(persistTimer := false), Nothing)
    else (c.(persistTimer := false, unpersisted := None), PutLocal(c.unpersisted.value))
  }

  function Discarded(c: Client): Client {
    c.(unpersisted := None, persistTimer := false)
  }

  /** The mutable record behind the editor hook. */
  class DocumentHook {
    var screen: Doc
    var pending: Option<Doc>
    var inFlight: Option<Doc>
    var token: Option<Stamp>
    var timer: bool
    var unpersisted: Option<Doc>
    var persistTimer: bool
    var status: Status

    function State(): Client
      reads this
    {
      Client(screen, pending, inFlight, token, timer, unpersisted, persistTimer, status)
    }

    constructor (doc: Doc, stamp: Option<Stamp>)
      ensures State() == Adopted(doc, stamp)
    {
      screen, token := doc, stamp;
      pending, inFlight, unpersisted := None, None, None;
      timer, persistTimer := false, false;
      status := Clean;
    }

    /** Open one save.  The token is an argument: forcing a save sends none. */
    method SendFor(doc: Doc, stamp: Option<Stamp>) returns (effect: Effect)
      modifies this`inFlight, this`status
      ensures State() == Sending(old(State()), doc) && effect == Send(Request(doc, stamp))
    {
      inFlight := Some(doc);
      status := Saving;
      effect := Send(Request(doc, stamp));
    }

    method Flush() returns (effect: Effect)
      modifies this
      ensures (State(), effect) == Flushed(old(State()))
    {
      timer := false;
      if pending.None? {
        return Nothing;
      }
      if inFlight.Some? {
        return Nothing;
      }
      var doc := pending.value;
      pending := None;
      effect := SendFor(doc, token);
    }

    method Schedule(doc: Doc)
      modifies this
      ensures State() == Edited(old(State()), doc)
    {
      screen := doc;
      pending := Some(doc);
      if status != Conflict {
        status := Dirty;
      }
      timer := true;
      unpersisted := Some(doc);
      persistTimer := true;
    }

    method OverwriteWithMine() returns (effect: Effect)
      modifies this
      ensures (State(), effect) == Overwritten(old(State()))
    {
      var doc := if pending.Some? then pending.value else if inFlight.Some? then inFlight.value else screen;
      if inFlight.Some? {
        return Nothing;
      }
      pending := None;
      effect := SendFor(doc, None);
    }

    /** The open save of `doc` was accepted. */
    method OnSaved(doc: Doc, stamp: Stamp) returns (effect: Effect)
      modifies this
      ensures (State(), effect) == Succeeded(old(State()), doc, stamp)
    {
      token := Some(stamp);
      inFlight := None;
      var queued := pending;
      pending := None;
      if queued.Some? && queued.value != doc {
        effect := SendFor(queued.value, token);
      } else {
        status := Clean;
        unpersisted := None;
        persistTimer := false;
        effect := ClearLocal;
      }
    }

    /** The open save of `doc` failed, by a conflict or otherwise: the document goes back in the queue. */
    method OnFailed(doc: Doc, conflict: bool)
      modifies this
      ensures State() == Refused(old(State()), doc, conflict)
    {
      if inFlight == Some(doc) {
        inFlight := None;
      }
      if pending.None? {
        pending := Some(doc);
      }
      status := if conflict then Conflict else Failed;
    }

    method PersistNow() returns (effect: Effect)
      modifies this
      ensures (State(), effect) == Persisted(old(State()))
    {
      persistTimer := false;
      if unpersisted.None? {
        return Nothing;
      }
      effect := PutLocal(unpersisted.value);
      unpersisted := None;
    }

    method DiscardLocal() returns (effect: Effect)
      modifies this
      ensures State() == Discarded(old(State())) && effect == ClearLocal
    {
      unpersisted := None;
      persistTimer := false;
      effect := ClearLocal;
    }
  }
}

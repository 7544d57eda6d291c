/** Closing a Relay connection: one reason, each OnClose callback once, and a registry from which a
    connection removes only itself. */
module RelayClosing {
  import opened RelayTypes

  /** Callbacks and reasons are opaque; callbacks are told apart by identity. */
  type Callback = nat
  type Reason = nat

  datatype Call = Call(callback: Callback, reason: Reason)

  /** `due` are calls decided on but not yet made: the batch copied by closeWithSource and the late
      registrations that call back at once. `registered` and `made` are histories. */
  datatype Callbacks = Callbacks(
    closeErr: Option<Reason>, onClose: seq<Callback>, due: multiset<Call>,
    registered: seq<Callback>, made: multiset<Call>)

  const InitialCallbacks := Callbacks(None, [], multiset{}, [], multiset{})

  datatype Event = Register(callback: Callback) | CloseFor(reason: Reason) | CallBack(call: Call)

  function CallsFor(callbacks: seq<Callback>, reason: Reason): (calls: multiset<Call>)
    ensures |calls| == |callbacks|
  {
    if callbacks == [] then multiset{}
    else CallsFor(callbacks[..|callbacks| - 1], reason) + multiset{Call(callbacks[|callbacks| - 1], reason)}
  }

  /** The same calls in registration order, as one notification makes them. */
  function Calls(callbacks: seq<Callback>, reason: Reason): seq<Call> {
    seq(|callbacks|, i requires 0 <= i < |callbacks| => Call(callbacks[i], reason))
  }

  lemma {:induction false} CallsAreOneEach(callbacks: seq<Callback>, reason: Reason)
    ensures multiset(Calls(callbacks, reason)) == CallsFor(callbacks, reason)
  {
    if callbacks != [] {
      var last := |callbacks| - 1;
      CallsAreOneEach(callbacks[..last], reason);
      assert Calls(callbacks, reason) == Calls(callbacks[..last], reason) + [Call(callbacks[last], reason)];
    }
  }

  function Step(s: Callbacks, e: Event): Callbacks {
    match e
    case Register(cb) =>
      var t := s.(registered := s.registered + [cb]);
      if s.closeErr.Some? then t.(due := t.due + multiset{Call(cb, s.closeErr.value)})
      else t.(onClose := s.onClose + [cb])
    case CloseFor(reason) =>
      if s.closeErr.Some? then s
      else s.(closeErr := Some(reason), due := s.due + CallsFor(s.onClose, reason))
    case CallBack(call) =>
      if call in s.due then s.(due := s.due - multiset{call}, made := s.made + multiset{call}) else s
  }

  function Exec(run: seq<Event>): Callbacks {
    if run == [] then InitialCallbacks else Step(Exec(run[..|run| - 1]), run[|run| - 1])
  }

  /** Before the close no callback is called; after it, the calls made and due are one for each
      registration, whenever it came, all with the reason of the first close. */
  lemma {:induction false} EachCallbackOnce(run: seq<Event>)
    ensures var s := Exec(run);
            match s.closeErr
            case None => s.due == s.made == multiset{} && s.onClose == s.registered
            case Some(reason) => s.due + s.made == CallsFor(s.registered, reason)
  {
    if run != [] {
      EachCallbackOnce(run[..|run| - 1]);
      var s := Exec(run[..|run| - 1]);
      match run[|run| - 1]
      case Register(cb) => assert (s.registered + [cb])[..|s.registered|] == s.registered;
      case CloseFor(_) =>
      case CallBack(call) =>
        if call in s.due { assert s.due - multiset{call} + (s.made + multiset{call}) == s.due + s.made; }
    }
  }

  /** A close records its reason if and only if it is the first, and makes one call due for every callback
      registered so far; a registration after that makes its own call due. */
  lemma CloseRecordsIff(s: Callbacks, reason: Reason, cb: Callback)
    ensures Step(s, CloseFor(reason)).closeErr == if s.closeErr.None? then Some(reason) else s.closeErr
    ensures s.closeErr.None? ==> Step(s, CloseFor(reason)).due == s.due + CallsFor(s.onClose, reason)
    ensures s.closeErr.Some? ==> Step(s, Register(cb)).due == s.due + multiset{Call(cb, s.closeErr.value)}
    ensures Step(s, Register(cb)).registered == s.registered + [cb]
  {
  }

  /** Every call that is due can be made: some continuation, of calls only, makes all of them. */
  lemma {:induction false} AllCallsCanBeMade(run: seq<Event>) returns (next: seq<Event>)
    ensures run <= next && Exec(next).due == multiset{}
    ensures Exec(next).made == Exec(run).made + Exec(run).due && Exec(next).closeErr == Exec(run).closeErr
    decreases |Exec(run).due|
  {
    var s := Exec(run);
    if s.due == multiset{} {
      next := run;
    } else {
      var call :| call in s.due;
      var longer := run + [CallBack(call)];
      assert longer[..|run|] == run;
      next := AllCallsCanBeMade(longer);
      assert s.made + multiset{call} + (s.due - multiset{call}) == s.made + s.due;
    }
  }

  /** The first reason is never replaced. */
  lemma {:induction false} FirstReasonStays(run: seq<Event>, more: seq<Event>)
    requires Exec(run).closeErr.Some?
    ensures Exec(run + more).closeErr == Exec(run).closeErr
  {
    if more == [] {
      assert run + more == run;
    } else {
      FirstReasonStays(run, more[..|more| - 1]);
      assert (run + more)[..|run + more| - 1] == run + more[..|more| - 1];
    }
  }

  /** The fields of a connection that OnClose and closeWithSource share. */
  class CloseState {
    var state: ConnState
    var closeErr: Reason
    var remoteClosed: bool
    var onClose: seq<Callback>
    ghost var made: seq<Call>

    constructor ()
      ensures state == Opening && !remoteClosed && onClose == [] && made == []
    {
      state, closeErr, remoteClosed, onClose, made := Opening, 0, false, [], [];
    }

    /** Registers a callback, or calls it at once with the recorded reason. */
    method OnClose(cb: Callback)
      modifies this`onClose, this`made
      ensures state == Closed ==> onClose == old(onClose) && made == old(made) + [Call(cb, closeErr)]
      ensures state != Closed ==> onClose == old(onClose) + [cb] && made == old(made)
    {
      if state == Closed {
        made := made + [Call(cb, closeErr)];
        return;
      }
      onClose := onClose + [cb];
    }

    /** The first close records its reason and source and calls every registered callback once, in order. */
    method CloseWithSource(reason: Reason, remoteClose: bool)
      modifies this`state, this`closeErr, this`remoteClosed, this`made
      ensures state == Closed
      ensures old(state) == Closed ==>
                closeErr == old(closeErr) && remoteClosed == old(remoteClosed) && made == old(made)
      ensures old(state) != Closed ==>
                closeErr == reason && remoteClosed == remoteClose && made == old(made) + Calls(onClose, reason)
    {
      if state == Closed {
        return;
      }
      state := Closed;
      closeErr := reason;
      remoteClosed := remoteClose;
      var callbacks := onClose;
      var i := 0;
      while i < |callbacks|
        invariant 0 <= i <= |callbacks|
        invariant made == old(made) + Calls(callbacks[..i], reason)
        invariant state == Closed && closeErr == reason && remoteClosed == remoteClose
      {
        assert Calls(callbacks[..i + 1], reason) == Calls(callbacks[..i], reason) + [Call(callbacks[i], reason)];
        made := made + [Call(callbacks[i], reason)];
        i := i + 1;
      }
      assert callbacks[..i] == callbacks;
    }
  }

  // The registry

  type Conn = nat

  datatype RegistryEvent =
    | Connect(id: string, conn: Conn)
    | AcceptOpen(id: string, conn: Conn)
    | Remove(id: string, conn: Conn)

  /** Connect registers under a new identifier, an incoming OPEN only where there is no owner, and a
      closing connection removes the entry only while it owns it. */
  function RegistryStep(conns: map<string, Conn>, e: RegistryEvent): map<string, Conn> {
    match e
    case Connect(id, conn) => conns[id := conn]
    case AcceptOpen(id, conn) => if id in conns then conns else conns[id := conn]
    case Remove(id, conn) => if id in conns && conns[id] == conn then conns - {id} else conns
  }

  function RegistryRun(conns: map<string, Conn>, run: seq<RegistryEvent>): map<string, Conn>
    decreases run
  {
    if run == [] then conns else RegistryRun(RegistryStep(conns, run[0]), run[1..])
  }

  /** Connect draws a fresh random identifier. */
  ghost predicate FreshIds(conns: map<string, Conn>, run: seq<RegistryEvent>)
    decreases run
  {
    run != [] ==>
      && (run[0].Connect? ==> run[0].id !in conns)
      && FreshIds(RegistryStep(conns, run[0]), run[1..])
  }

  /** An owner stays registered through any run that does not contain its own removal: neither a
      repeated OPEN nor the late close of an earlier connection takes its place. */
  lemma {:induction false} OwnerStays(conns: map<string, Conn>, run: seq<RegistryEvent>, id: string)
    requires id in conns && FreshIds(conns, run) && Remove(id, conns[id]) !in run
    ensures id in RegistryRun(conns, run) && RegistryRun(conns, run)[id] == conns[id]
    decreases run
  {
    if run != [] {
      assert run[0] in run;
      OwnerStays(RegistryStep(conns, run[0]), run[1..], id);
    }
  }

  /** Connect registers its connection, and an OPEN is registered if and only if its identifier is free. */
  lemma Registers(conns: map<string, Conn>, id: string, conn: Conn)
    ensures RegistryStep(conns, Connect(id, conn)) == conns[id := conn]
    ensures RegistryStep(conns, AcceptOpen(id, conn)) == if id in conns then conns else conns[id := conn]
  {
  }

  /** The owner's removal frees its identifier and no other, the removal by anyone else frees none, and a
      free identifier goes to the next OPEN. */
  lemma RemovalFrees(conns: map<string, Conn>, id: string, conn: Conn, next: Conn)
    ensures var left := RegistryStep(conns, Remove(id, conn));
            && (id in left <==> id in conns && conns[id] != conn)
            && (forall k :: k != id ==> (k in left <==> k in conns) && (k in conns ==> left[k] == conns[k]))
            && (id in conns ==> id in left ==> left[id] == conns[id])
            && (id !in left ==> RegistryStep(left, AcceptOpen(id, next)) == left[id := next])
  {
  }

  class Registry {
    var conns: map<string, Conn>

    constructor ()
      ensures conns == map[]
    {
      conns := map[];
    }

    /** acceptIncoming: the connection that owns the identifier afterwards, and whether it is new. */
    method Accept(id: string, conn: Conn) returns (owner: Conn, created: bool)
      modifies this
      ensures conns == RegistryStep(old(conns), AcceptOpen(id, conn))
      ensures id in conns && owner == conns[id] && (created <==> id !in old(conns))
    {
      if id in conns {
        return conns[id], false;
      }
      conns := conns[id := conn];
      return conn, true;
    }

    method RemoveConnection(id: string, conn: Conn)
      modifies this
      ensures conns == RegistryStep(old(conns), Remove(id, conn))
    {
      if id in conns && conns[id] == conn {
        conns := conns - {id};
      }
    }
  }
}

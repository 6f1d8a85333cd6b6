/**
  LAN discovery over UDP multicast. A Mirror listens on the first bindable
  port of its list and answers every datagram equal to its key with its
  `info` payload; a Beacon sends its key to every port of the group and
  records every reply by sender. Both share one lifecycle: `start` and `stop`
  are guarded transitions with result codes, the worker loop keeps an error
  budget, and `_cleanstop` tears everything down.

  Sockets are abstract. Whether socket creation succeeds is a boolean, whether
  binding a port or sending a probe to a port succeeds is an oracle function,
  the addresses a Mirror's reply cannot be sent to are a set, and what the
  worker's receive calls return is a list of events. Successful sends
  are appended to `wire`; callback invocations are appended to `callbacks`.
*/
module Discovery {
  import opened Options

  /** A UDP address: (host, port). */
  datatype Address = Address(host: string, port: int)

  /** What one receive call of the worker loop returns. */
  datatype RecvEvent =
    | Timeout                                     // socket.timeout
    | TransportError                              // any other exception
    | Datagram(msg: seq<bv8>, peer: Address)      // the bytes returned and the sender

  /** An open socket: the Mirror's is bound to a port, the Beacon's is ephemeral. */
  datatype Socket = Unbound | BoundTo(port: int)

  /** A datagram handed to a successful `sendto`. */
  datatype Outgoing = Outgoing(payload: seq<bv8>, dest: Address)

  /** What the Mirror's reply `sendto` does, when it makes one. */
  datatype SendResult = Sent | SendTimedOut | SendFailed

  /**
    One iteration of the Mirror's loop: what the receive returned, and what
    the reply `sendto` would do should the datagram equal the key.
  */
  datatype MirrorStep = MirrorStep(recv: RecvEvent, reply: SendResult)

  /** A call `cb(code, self)`, with the value `stopping` had when it was made. */
  datatype Invocation = Invocation(callback: nat, code: int, whileStopping: bool)

  /** How one iteration of the receive loop ended, as far as the error budget is concerned. */
  datatype Outcome = Received | TimedOut | Failed

  /** The end of a worker run: the connect step failed, or the loop served its events. */
  datatype WorkerRun = ConnectFailed | Served(emCnt: int, backoffs: nat)

  // ---------------------------------------------------------------------------
  // Error budget
  // ---------------------------------------------------------------------------

  /**
    One iteration of the budget: a successful receive resets the counter to
    `retries` (exc[0]), a timeout leaves it alone, an error decrements it and,
    on reaching 0, sets it to 1 and backs off once.
  */
  function BudgetStep(retries: int, emCnt: int, o: Outcome): (r: (int, bool))
  {
    match o
    case Received => (retries, false)
    case TimedOut => (emCnt, false)
    case Failed => if emCnt - 1 == 0 then (1, true) else (emCnt - 1, false)
  }

  /** The (counter, backoffs) pair after one more outcome. */
  function BudgetThen(b: (int, nat), retries: int, o: Outcome): (int, nat)
  {
    var step := BudgetStep(retries, b.0, o);
    (step.0, b.1 + if step.1 then 1 else 0)
  }

  /** The counter and the number of backoffs after a run of outcomes, starting from `retries`. */
  function BudgetAfter(retries: int, os: seq<Outcome>): (int, nat)
  {
    if os == [] then (retries, 0)
    else BudgetThen(BudgetAfter(retries, os[..|os| - 1]), retries, os[|os| - 1])
  }

  /** With exc[0] >= 1 the counter stays within 1..exc[0] between iterations. */
  lemma {:induction false} BudgetInRange(retries: int, os: seq<Outcome>)
    requires retries >= 1
    ensures 1 <= BudgetAfter(retries, os).0 <= retries
  {
    if os != [] {
      BudgetInRange(retries, os[..|os| - 1]);
    }
  }

  /** Only errors back off: a run with at most k failures backs off at most k times. */
  lemma {:induction false} BackoffsOnlyOnErrors(retries: int, os: seq<Outcome>)
    ensures BudgetAfter(retries, os).1 <= multiset(os)[Failed]
  {
    if os != [] {
      BackoffsOnlyOnErrors(retries, os[..|os| - 1]);
      assert os == os[..|os| - 1] + [os[|os| - 1]];
    }
  }

  /**
    A run of n consecutive errors starting from a counter em >= 1: the first
    em - 1 errors only decrement, and every later one backs off, leaving the
    counter at 1.
  */
  lemma {:induction false} ConsecutiveErrors(retries: int, em: int, n: nat)
    requires em >= 1
    ensures Errors(retries, em, n) == (if n < em then (em - n, 0) else (1, n - em + 1))
  {
    if n > 0 {
      ConsecutiveErrors(retries, em, n - 1);
    }
  }

  /** The budget after n errors in a row, starting from the counter value em. */
  function Errors(retries: int, em: int, n: nat): (int, nat)
  {
    if n == 0 then (em, 0) else BudgetThen(Errors(retries, em, n - 1), retries, Failed)
  }

  /** From a fresh budget, errors back off from the exc[0]-th one on: every further one backs off. */
  lemma FreshBudgetUnderErrors(retries: int, n: nat)
    requires retries >= 1
    ensures BudgetAfter(retries, seq(n, _ => Failed)) == Errors(retries, retries, n)
    ensures n >= retries ==> BudgetAfter(retries, seq(n, _ => Failed)) == (1, n - retries + 1)
    ensures n < retries ==> BudgetAfter(retries, seq(n, _ => Failed)) == (retries - n, 0)
  {
    ErrorsFromStart(retries, n);
    ConsecutiveErrors(retries, retries, n);
  }

  lemma {:induction false} ErrorsFromStart(retries: int, n: nat)
    ensures BudgetAfter(retries, seq(n, _ => Failed)) == Errors(retries, retries, n)
  {
    if n > 0 {
      var os := seq(n, _ => Failed);
      assert os[..n - 1] == seq(n - 1, _ => Failed);
      ErrorsFromStart(retries, n - 1);
    }
  }

  // ---------------------------------------------------------------------------
  // Mirror: reply filter and bind
  // ---------------------------------------------------------------------------

  /**
    What the Mirror sends in answer to one iteration: `info` to the sender
    exactly when the received bytes equal the key and the reply goes out,
    nothing else.
  */
  function MirrorReply(key: seq<bv8>, info: seq<bv8>, st: MirrorStep): (sent: seq<Outgoing>)
    ensures sent != [] <==> st.recv.Datagram? && st.recv.msg == key && st.reply == Sent
    ensures sent != [] ==> sent == [Outgoing(info, st.recv.peer)]
  {
    if st.recv.Datagram? && st.recv.msg == key && st.reply == Sent then [Outgoing(info, st.recv.peer)] else []
  }

  /**
    The budget outcome of one Mirror iteration. A receive timeout, or a reply
    `sendto` that times out, is caught by `except socket.timeout`; a transport
    error, or a reply `sendto` that raises anything else, is an error; every
    other pass is successful.
  */
  function MirrorOutcome(key: seq<bv8>, st: MirrorStep): Outcome
  {
    match st.recv
    case Timeout => TimedOut
    case TransportError => Failed
    case Datagram(msg, _) =>
      if msg != key then Received
      else match st.reply
        case Sent => Received
        case SendTimedOut => TimedOut
        case SendFailed => Failed
  }

  /** All replies sent over a run of iterations, in order. */
  function MirrorReplies(key: seq<bv8>, info: seq<bv8>, sts: seq<MirrorStep>): seq<Outgoing>
  {
    if sts == [] then []
    else MirrorReplies(key, info, sts[..|sts| - 1]) + MirrorReply(key, info, sts[|sts| - 1])
  }

  /** The budget outcomes of a run of iterations, in order. */
  function MirrorOutcomes(key: seq<bv8>, sts: seq<MirrorStep>): (os: seq<Outcome>)
    ensures |os| == |sts|
  {
    if sts == [] then []
    else MirrorOutcomes(key, sts[..|sts| - 1]) + [MirrorOutcome(key, sts[|sts| - 1])]
  }

  /**
    Authenticated probes only: every reply carries `info` and goes to the
    sender of a key-equal datagram whose reply went out.
  */
  lemma {:induction false} MirrorRepliesAuthenticated(key: seq<bv8>, info: seq<bv8>, sts: seq<MirrorStep>)
    ensures |MirrorReplies(key, info, sts)| <= |sts|
    ensures forall o :: o in MirrorReplies(key, info, sts) ==>
      o.payload == info && MirrorStep(Datagram(key, o.dest), Sent) in sts
  {
    if sts != [] {
      var init := sts[..|sts| - 1];
      MirrorRepliesAuthenticated(key, info, init);
      assert forall e :: e in init ==> e in sts;
    }
  }

  /** Datagrams that differ from the key are never answered. */
  lemma {:induction false} MirrorIgnoresOthers(key: seq<bv8>, info: seq<bv8>, sts: seq<MirrorStep>)
    requires forall e :: e in sts ==> e.recv.Datagram? ==> e.recv.msg != key
    ensures MirrorReplies(key, info, sts) == []
  {
    if sts != [] {
      assert forall e :: e in sts[..|sts| - 1] ==> e in sts;
      MirrorIgnoresOthers(key, info, sts[..|sts| - 1]);
    }
  }

  /** The index of the first port, in list order, that binds. */
  function FirstBindable(ports: seq<int>, bindOk: int -> bool): (r: Option<nat>)
    ensures r.Some? ==> r.value < |ports| && bindOk(ports[r.value])
    ensures r.Some? ==> forall j :: 0 <= j < r.value ==> !bindOk(ports[j])
    ensures r.None? ==> forall j :: 0 <= j < |ports| ==> !bindOk(ports[j])
  {
    if ports == [] then None
    else if bindOk(ports[0]) then Some(0)
    else match FirstBindable(ports[1..], bindOk)
      case None => None
      case Some(i) => Some(i + 1)
  }

  // ---------------------------------------------------------------------------
  // Beacon: probes and the responses map
  // ---------------------------------------------------------------------------

  /** The number of ports whose send fails. */
  function FailedSends(ports: seq<int>, sendOk: int -> bool): nat
  {
    if ports == [] then 0
    else FailedSends(ports[..|ports| - 1], sendOk) + if sendOk(ports[|ports| - 1]) then 0 else 1
  }

  /** The probes that go out when the key is sent to every port of the group. */
  function ProbesSent(group: string, key: seq<bv8>, ports: seq<int>, sendOk: int -> bool): seq<Outgoing>
  {
    if ports == [] then []
    else
      ProbesSent(group, key, ports[..|ports| - 1], sendOk)
        + if sendOk(ports[|ports| - 1]) then [Outgoing(key, Address(group, ports[|ports| - 1]))] else []
  }

  /**
    `ping`'s result: every port is tried once, so failures plus sent probes
    account for every port, the count lies in 0..len(port), and it is 0
    exactly when every send succeeds.
  */
  lemma {:induction false} PingAccounting(group: string, key: seq<bv8>, ports: seq<int>, sendOk: int -> bool)
    ensures FailedSends(ports, sendOk) + |ProbesSent(group, key, ports, sendOk)| == |ports|
    ensures 0 <= FailedSends(ports, sendOk) <= |ports|
    ensures FailedSends(ports, sendOk) == 0 <==> forall j :: 0 <= j < |ports| ==> sendOk(ports[j])
  {
    if ports != [] {
      PingAccounting(group, key, ports[..|ports| - 1], sendOk);
    }
  }

  /** The responses map after one event: a datagram overwrites the entry of its sender. */
  function RecordOne(m: map<Address, seq<bv8>>, ev: RecvEvent): map<Address, seq<bv8>>
  {
    match ev
    case Datagram(msg, peer) => m[peer := msg]
    case _ => m
  }

  /** The responses map after the worker has stored every datagram of a list of events. */
  function Record(m: map<Address, seq<bv8>>, evs: seq<RecvEvent>): map<Address, seq<bv8>>
  {
    if evs == [] then m else RecordOne(Record(m, evs[..|evs| - 1]), evs[|evs| - 1])
  }

  /** The last payload received from a peer in a list of events, if any. */
  function LastFrom(peer: Address, evs: seq<RecvEvent>): Option<seq<bv8>>
  {
    if evs == [] then None
    else if evs[|evs| - 1].Datagram? && evs[|evs| - 1].peer == peer then Some(evs[|evs| - 1].msg)
    else LastFrom(peer, evs[..|evs| - 1])
  }

  /**
    Each peer that replied maps to its latest reply, overwriting any earlier
    one; every other entry is as it was.
  */
  lemma {:induction false} RecordKeepsLatest(m: map<Address, seq<bv8>>, evs: seq<RecvEvent>, peer: Address)
    ensures LastFrom(peer, evs).Some? ==> peer in Record(m, evs) && Record(m, evs)[peer] == LastFrom(peer, evs).value
    ensures LastFrom(peer, evs).None? ==> (peer in Record(m, evs) <==> peer in m)
    ensures LastFrom(peer, evs).None? && peer in m ==> Record(m, evs)[peer] == m[peer]
  {
    if evs != [] {
      RecordKeepsLatest(m, evs[..|evs| - 1], peer);
    }
  }

  /** The responses map only grows while the worker runs. */
  lemma {:induction false} RecordOnlyGrows(m: map<Address, seq<bv8>>, evs: seq<RecvEvent>)
    ensures m.Keys <= Record(m, evs).Keys
  {
    if evs != [] {
      RecordOnlyGrows(m, evs[..|evs| - 1]);
    }
  }

  /** The budget outcome of one Beacon iteration: every datagram is a successful receive. */
  function BeaconOutcome(ev: RecvEvent): Outcome
  {
    match ev
    case Timeout => TimedOut
    case TransportError => Failed
    case Datagram(_, _) => Received
  }

  /** The budget outcomes of the Beacon's iterations, in order. */
  function BeaconOutcomes(evs: seq<RecvEvent>): (os: seq<Outcome>)
    ensures |os| == |evs|
  {
    if evs == [] then [] else BeaconOutcomes(evs[..|evs| - 1]) + [BeaconOutcome(evs[|evs| - 1])]
  }

  /** The budget after one more outcome, in terms of the budget before it. */
  lemma BudgetAfterSnoc(retries: int, os: seq<Outcome>, o: Outcome)
    ensures BudgetAfter(retries, os + [o]) == BudgetThen(BudgetAfter(retries, os), retries, o)
  {
    assert (os + [o])[..|os|] == os;
  }

  /** One more iteration of the Mirror's loop: one more reply (or none) and one more budget step. */
  lemma MirrorLoopStep(key: seq<bv8>, info: seq<bv8>, retries: int, sts: seq<MirrorStep>, i: nat)
    requires i < |sts|
    ensures MirrorReplies(key, info, sts[..i + 1]) == MirrorReplies(key, info, sts[..i]) + MirrorReply(key, info, sts[i])
    ensures BudgetAfter(retries, MirrorOutcomes(key, sts[..i + 1]))
      == BudgetThen(BudgetAfter(retries, MirrorOutcomes(key, sts[..i])), retries, MirrorOutcome(key, sts[i]))
  {
    assert sts[..i + 1][..i] == sts[..i];
    BudgetAfterSnoc(retries, MirrorOutcomes(key, sts[..i]), MirrorOutcome(key, sts[i]));
  }

  /** One more event of the Beacon's loop: one more map update (or none) and one more budget step. */
  lemma BeaconLoopStep(m: map<Address, seq<bv8>>, retries: int, evs: seq<RecvEvent>, i: nat)
    requires i < |evs|
    ensures Record(m, evs[..i + 1]) == RecordOne(Record(m, evs[..i]), evs[i])
    ensures BudgetAfter(retries, BeaconOutcomes(evs[..i + 1]))
      == BudgetThen(BudgetAfter(retries, BeaconOutcomes(evs[..i])), retries, BeaconOutcome(evs[i]))
  {
    assert evs[..i + 1][..i] == evs[..i];
    BudgetAfterSnoc(retries, BeaconOutcomes(evs[..i]), BeaconOutcome(evs[i]));
  }

  /**
    One pass of the Beacon's `try` block: a datagram is stored under its
    sender and resets the budget, a timeout leaves the budget, and a transport
    error spends one unit and backs off when the budget runs out.
  */
  method BeaconIteration(m: map<Address, seq<bv8>>, retries: int, ev: RecvEvent, emCnt: int, backoffs: nat)
    returns (m': map<Address, seq<bv8>>, emCnt': int, backoffs': nat)
    ensures m' == RecordOne(m, ev)
    ensures (emCnt', backoffs') == BudgetThen((emCnt, backoffs), retries, BeaconOutcome(ev))
  {
    m', emCnt', backoffs' := m, emCnt, backoffs;
    match ev {
      case Timeout =>
      case TransportError =>
        emCnt' := emCnt' - 1;
        if emCnt' == 0 {
          emCnt', backoffs' := 1, backoffs' + 1;
        }
      case Datagram(msg, peer) =>
        m' := m'[peer := msg];
        emCnt' := retries;
    }
  }

  /**
    One pass of the Mirror's `try` block: reply with `info` when the received
    bytes equal the key. A successful pass resets the budget; a timeout, of
    the receive or of the reply, leaves it; an error, of the receive or of the
    reply, spends one unit and backs off when the budget runs out.
  */
  method MirrorIteration(key: seq<bv8>, info: seq<bv8>, retries: int, st: MirrorStep, emCnt: int, backoffs: nat)
    returns (sent: seq<Outgoing>, emCnt': int, backoffs': nat)
    ensures sent == MirrorReply(key, info, st)
    ensures (emCnt', backoffs') == BudgetThen((emCnt, backoffs), retries, MirrorOutcome(key, st))
  {
    sent, emCnt', backoffs' := [], emCnt, backoffs;
    var failed := false;
    match st.recv {
      case Timeout =>
      case TransportError =>
        failed := true;
      case Datagram(msg, peer) =>
        if msg == key && st.reply == SendTimedOut {
          // `continue`: the budget is left alone
        } else if msg == key && st.reply == SendFailed {
          failed := true;
        } else {
          if msg == key {
            sent := [Outgoing(info, peer)];
          }
          emCnt' := retries;
        }
    }
    if failed {
      emCnt' := emCnt' - 1;
      if emCnt' == 0 {
        emCnt', backoffs' := 1, backoffs' + 1;
      }
    }
  }

  // ---------------------------------------------------------------------------
  // Mirror
  // ---------------------------------------------------------------------------

  class Mirror {
    const mgroup: string
    const port: seq<int>
    const key: seq<bv8>
    const info: seq<bv8>
    const retries: int            // exc[0]

    var sock: Option<Socket>
    var status: int
    var hasThread: bool           // `thread is not None`
    var running: bool
    var stopping: bool
    var reflecting: bool
    var wire: seq<Outgoing>
    var callbacks: seq<Invocation>
    var stopCb: Option<nat>       // the callback `stop` hands to `_cleanstop`

    /** The lifecycle invariant that start, stop and _cleanstop maintain. */
    ghost predicate Valid()
      reads this
    {
      && (stopping ==> running)
      && hasThread == running
      && (sock.Some? ==> running)
      && reflecting == sock.Some?
      && (status == 0 || status == 1)
    }

    /** `Mirror.__init__` without autostart: idle, no socket, no thread. */
    constructor (mgroup: string, port: seq<int>, key: seq<bv8>, info: seq<bv8>, retries: int)
      ensures Valid()
      ensures this.mgroup == mgroup && this.port == port && this.key == key && this.info == info && this.retries == retries
      ensures sock == None && status == 0 && !hasThread && !running && !stopping && !reflecting
      ensures wire == [] && callbacks == [] && stopCb == None
    {
      this.mgroup, this.port, this.key, this.info, this.retries := mgroup, port, key, info, retries;
      sock, status := None, 0;
      hasThread, running, stopping, reflecting := false, false, false, false;
      wire, callbacks, stopCb := [], [], None;
    }

    /** `start`: refused with 1 while running or stopping; otherwise marks running, spawns the worker, returns 0. */
    method Start() returns (code: int)
      requires Valid()
      modifies this
      ensures Valid()
      ensures old(running || stopping) ==> code == 1 && unchanged(this)
      ensures !old(running || stopping) ==> code == 0 && running && hasThread
      ensures !old(running || stopping) ==>
        && stopping == old(stopping) && sock == old(sock) && status == old(status)
        && reflecting == old(reflecting) && wire == old(wire) && callbacks == old(callbacks)
      ensures stopCb == old(stopCb)
    {
      if running || stopping {
        return 1;
      }
      running := true;
      hasThread := true;
      return 0;
    }

    /**
      `stop`: refused with 1 while stopping or when not running; otherwise
      marks stopping, hands its callback to the `_cleanstop` task and returns
      0. `running` stays true until CleanStop.
    */
    method Stop(cb: Option<nat>) returns (code: int)
      requires Valid()
      modifies this
      ensures Valid()
      ensures old(stopping || !running) ==> code == 1 && unchanged(this)
      ensures !old(stopping || !running) ==> code == 0 && stopping && running && stopCb == cb
      ensures !old(stopping || !running) ==>
        && hasThread == old(hasThread) && sock == old(sock) && status == old(status)
        && reflecting == old(reflecting) && wire == old(wire) && callbacks == old(callbacks)
    {
      if stopping || !running {
        return 1;
      }
      stopping := true;
      stopCb := cb;
      return 0;
    }

    /**
      `_cleanstop`, run by the task `stop` spawns: clears `running`, joins the
      worker (which then leaves its loop and clears `reflecting`), drops the
      thread, closes the socket, calls the callback given to `stop` once with
      0 while still stopping, and finally clears `stopping`.
    */
    method CleanStop()
      requires Valid() && stopping
      modifies this
      ensures Valid()
      ensures !running && !stopping && !hasThread && sock == None && !reflecting
      ensures callbacks == old(callbacks) + (if stopCb.Some? then [Invocation(stopCb.value, 0, true)] else [])
      ensures status == old(status) && wire == old(wire) && stopCb == old(stopCb)
    {
      running := false;
      reflecting := false;
      hasThread := false;
      var _ := Disconnect();
      if stopCb.Some? {
        callbacks := callbacks + [Invocation(stopCb.value, 0, stopping)];
      }
      stopping := false;
    }

    /** `disconnect`: closes the socket if any (a failing close is ignored) and forgets it. */
    method Disconnect() returns (code: int)
      modifies this
      ensures code == 0 && sock == None
      ensures running == old(running) && stopping == old(stopping) && hasThread == old(hasThread)
      ensures reflecting == old(reflecting) && status == old(status)
      ensures wire == old(wire) && callbacks == old(callbacks)
      ensures stopCb == old(stopCb)
    {
      sock := None;
      return 0;
    }

    /**
      `bind_sock`: binds the socket to the first port, in list order, whose
      bind succeeds; None stands for the RuntimeError raised when none does.
    */
    method BindSock(bindOk: int -> bool) returns (bound: Option<int>)
      requires sock.Some?
      modifies this
      ensures bound.Some? <==> exists j :: 0 <= j < |port| && bindOk(port[j])
      ensures bound.Some? ==> FirstBindable(port, bindOk).Some? && bound.value == port[FirstBindable(port, bindOk).value]
      ensures sock == if bound.Some? then Some(BoundTo(bound.value)) else old(sock)
      ensures running == old(running) && stopping == old(stopping) && hasThread == old(hasThread)
      ensures reflecting == old(reflecting) && status == old(status)
      ensures wire == old(wire) && callbacks == old(callbacks)
      ensures stopCb == old(stopCb)
    {
      var i := 0;
      while i < |port|
        invariant 0 <= i <= |port| && sock == old(sock)
        invariant forall j :: 0 <= j < i ==> !bindOk(port[j])
      {
        if bindOk(port[i]) {
          sock := Some(BoundTo(port[i]));
          return Some(port[i]);
        }
        i := i + 1;
      }
      return None;
    }

    /**
      `reconnect`: opens the socket (joining the group and setting options may
      fail as a whole: `sockOk`) and binds it; on any failure the socket is
      forgotten and 1 is returned.
    */
    method Reconnect(sockOk: bool, bindOk: int -> bool) returns (code: int)
      modifies this
      ensures code == 0 <==> sockOk && FirstBindable(port, bindOk).Some?
      ensures code == 0 || code == 1
      ensures sock == if code == 0 then Some(BoundTo(port[FirstBindable(port, bindOk).value])) else None
      ensures running == old(running) && stopping == old(stopping) && hasThread == old(hasThread)
      ensures reflecting == old(reflecting) && status == old(status)
      ensures wire == old(wire) && callbacks == old(callbacks)
      ensures stopCb == old(stopCb)
    {
      if !sockOk {
        sock := None;
        return 1;
      }
      sock := Some(Unbound);
      var bound := BindSock(bindOk);
      if bound.None? {
        sock := None;
        return 1;
      }
      return 0;
    }

    /**
      `threadfunc`: connect, then serve. `events` are the results of the
      receive calls made while `running` was true; the loop's exit, once
      `running` is cleared, belongs to CleanStop. A failed connect sets
      `status` to 1 and clears `reflecting` but leaves `running` alone.
    */
    method Threadfunc(sockOk: bool, bindOk: int -> bool, events: seq<MirrorStep>)
      returns (run: WorkerRun)
      requires Valid() && running
      modifies this
      ensures Valid()
      ensures running == old(running) && stopping == old(stopping) && hasThread == old(hasThread)
      ensures callbacks == old(callbacks)
      ensures run.ConnectFailed? <==> !sockOk || FirstBindable(port, bindOk).None?
      ensures run.ConnectFailed? ==> status == 1 && !reflecting && sock == None && wire == old(wire)
      ensures run.Served? ==>
        && status == 0 && reflecting
        && sock == Some(BoundTo(port[FirstBindable(port, bindOk).value]))
        && wire == old(wire) + MirrorReplies(key, info, events)
        && (run.emCnt, run.backoffs) == BudgetAfter(retries, MirrorOutcomes(key, events))
      ensures stopCb == old(stopCb)
    {
      reflecting := true;
      status := 0;
      var code := Reconnect(sockOk, bindOk);
      if code != 0 {
        status := 1;
        reflecting := false;
        return ConnectFailed;
      }
      var emCnt, backoffs := Serve(events);
      return Served(emCnt, backoffs);
    }

    /**
      The receive loop of `threadfunc` (`while self.running`), over the
      receive results seen while `running` was true.
    */
    method Serve(events: seq<MirrorStep>) returns (emCnt: int, backoffs: nat)
      requires running
      modifies this`wire
      ensures wire == old(wire) + MirrorReplies(key, info, events)
      ensures (emCnt, backoffs) == BudgetAfter(retries, MirrorOutcomes(key, events))
    {
      emCnt, backoffs := retries, 0;
      var i := 0;
      // `while self.running`: `events` ends where `running` was cleared
      while i < |events|
        invariant 0 <= i <= |events|
        invariant wire == old(wire) + MirrorReplies(key, info, events[..i])
        invariant (emCnt, backoffs) == BudgetAfter(retries, MirrorOutcomes(key, events[..i]))
      {
        MirrorLoopStep(key, info, retries, events, i);
        var sent;
        sent, emCnt, backoffs := MirrorIteration(key, info, retries, events[i], emCnt, backoffs);
        wire := wire + sent;
        i := i + 1;
      }
      assert events[..|events|] == events;
    }
  }

  // ---------------------------------------------------------------------------
  // Beacon
  // ---------------------------------------------------------------------------

  class Beacon {
    const mgroup: string
    const port: seq<int>
    const key: seq<bv8>
    const retries: int            // exc[0]

    var sock: Option<Socket>
    var status: int
    var responses: map<Address, seq<bv8>>
    var hasThread: bool           // `thread is not None`
    var running: bool
    var stopping: bool
    var waiting: bool
    var wire: seq<Outgoing>
    var callbacks: seq<Invocation>
    var stopClear: bool           // the `clear` flag `stop` hands to `_cleanstop`
    var stopCb: Option<nat>       // the callback `stop` hands to `_cleanstop`

    /** The lifecycle invariant that start, stop and _cleanstop maintain. */
    ghost predicate Valid()
      reads this
    {
      && (stopping ==> running)
      && hasThread == running
      && (sock.Some? ==> running)
      && waiting == sock.Some?
      && (status == 0 || status == 1)
    }

    /** `Beacon.__init__` without autostart: idle, no socket, no responses. */
    constructor (mgroup: string, port: seq<int>, key: seq<bv8>, retries: int)
      ensures Valid()
      ensures this.mgroup == mgroup && this.port == port && this.key == key && this.retries == retries
      ensures sock == None && status == 0 && responses == map[]
      ensures !hasThread && !running && !stopping && !waiting
      ensures wire == [] && callbacks == [] && !stopClear && stopCb == None
    {
      this.mgroup, this.port, this.key, this.retries := mgroup, port, key, retries;
      sock, status, responses := None, 0, map[];
      hasThread, running, stopping, waiting := false, false, false, false;
      wire, callbacks, stopClear, stopCb := [], [], false, None;
    }

    /**
      `start`: refused with 1 while running or stopping; otherwise marks
      running, empties `responses` when `clear`, spawns the worker, returns 0.
    */
    method Start(clear: bool) returns (code: int)
      requires Valid()
      modifies this
      ensures Valid()
      ensures old(running || stopping) ==> code == 1 && unchanged(this)
      ensures !old(running || stopping) ==> code == 0 && running && hasThread
      ensures !old(running || stopping) ==> responses == if clear then map[] else old(responses)
      ensures !old(running || stopping) ==>
        && stopping == old(stopping) && sock == old(sock) && status == old(status)
        && waiting == old(waiting) && wire == old(wire) && callbacks == old(callbacks)
      ensures stopClear == old(stopClear) && stopCb == old(stopCb)
    {
      if running || stopping {
        return 1;
      }
      running := true;
      if clear {
        responses := map[];
      }
      hasThread := true;
      return 0;
    }

    /**
      `stop`: refused with 1 while stopping or when not running; otherwise
      marks stopping, hands its `clear` flag and callback to the `_cleanstop`
      task and returns 0.
    */
    method Stop(clear: bool, cb: Option<nat>) returns (code: int)
      requires Valid()
      modifies this
      ensures Valid()
      ensures old(stopping || !running) ==> code == 1 && unchanged(this)
      ensures !old(stopping || !running) ==> code == 0 && stopping && running && stopClear == clear && stopCb == cb
      ensures !old(stopping || !running) ==>
        && hasThread == old(hasThread) && sock == old(sock) && status == old(status) && responses == old(responses)
        && waiting == old(waiting) && wire == old(wire) && callbacks == old(callbacks)
    {
      if stopping || !running {
        return 1;
      }
      stopping := true;
      stopClear, stopCb := clear, cb;
      return 0;
    }

    /**
      `_cleanstop`: clears `running`, joins the worker (which clears
      `waiting`), drops the thread, closes the socket, empties `responses`
      when `stop` was given `clear`, calls the callback given to `stop` once
      with 0 while still stopping, and finally clears `stopping`.
    */
    method CleanStop()
      requires Valid() && stopping
      modifies this
      ensures Valid()
      ensures !running && !stopping && !hasThread && sock == None && !waiting
      ensures responses == if stopClear then map[] else old(responses)
      ensures callbacks == old(callbacks) + (if stopCb.Some? then [Invocation(stopCb.value, 0, true)] else [])
      ensures status == old(status) && wire == old(wire)
      ensures stopClear == old(stopClear) && stopCb == old(stopCb)
    {
      running := false;
      waiting := false;
      hasThread := false;
      var _ := Disconnect();
      if stopClear {
        responses := map[];
      }
      if stopCb.Some? {
        callbacks := callbacks + [Invocation(stopCb.value, 0, stopping)];
      }
      stopping := false;
    }

    /** `disconnect`: closes the socket if any and forgets it. */
    method Disconnect() returns (code: int)
      modifies this
      ensures code == 0 && sock == None
      ensures running == old(running) && stopping == old(stopping) && hasThread == old(hasThread)
      ensures waiting == old(waiting) && status == old(status) && responses == old(responses)
      ensures wire == old(wire) && callbacks == old(callbacks)
      ensures stopClear == old(stopClear) && stopCb == old(stopCb)
    {
      sock := None;
      return 0;
    }

    /**
      `ping`: optionally empties `responses` first, then sends the key to
      every port of the group and returns how many sends failed.
    */
    method Ping(clear: bool, sendOk: int -> bool) returns (fail: int)
      requires sock.Some?
      modifies this`responses, this`wire
      ensures fail == FailedSends(port, sendOk) && 0 <= fail <= |port|
      ensures responses == if clear then map[] else old(responses)
      ensures wire == old(wire) + ProbesSent(mgroup, key, port, sendOk)
      ensures sock == old(sock) && running == old(running) && stopping == old(stopping)
      ensures hasThread == old(hasThread) && waiting == old(waiting) && status == old(status)
      ensures callbacks == old(callbacks)
      ensures stopClear == old(stopClear) && stopCb == old(stopCb)
    {
      if clear {
        responses := map[];
      }
      fail := 0;
      for i := 0 to |port|
        invariant fail == FailedSends(port[..i], sendOk)
        invariant wire == old(wire) + ProbesSent(mgroup, key, port[..i], sendOk)
        invariant responses == if clear then map[] else old(responses)
      {
        assert port[..i + 1][..i] == port[..i];
        if sendOk(port[i]) {
          wire := wire + [Outgoing(key, Address(mgroup, port[i]))];
        } else {
          fail := fail + 1;
        }
      }
      assert port[..|port|] == port;
      PingAccounting(mgroup, key, port, sendOk);
    }

    /**
      `_ping`: sends the key to each port in order; the first failing send
      raises, so later ports are not tried. `ok` says whether all succeeded.
    */
    method PingAll(sendOk: int -> bool) returns (ok: bool)
      requires sock.Some?
      modifies this`wire
      ensures ok <==> forall j :: 0 <= j < |port| ==> sendOk(port[j])
      ensures ok ==> wire == old(wire) + ProbesSent(mgroup, key, port, sendOk)
      ensures !ok ==> exists k :: (&& 0 <= k < |port| && !sendOk(port[k])
                                  && (forall j :: 0 <= j < k ==> sendOk(port[j]))
                                  && wire == old(wire) + ProbesSent(mgroup, key, port[..k], sendOk))
      ensures sock == old(sock) && running == old(running) && stopping == old(stopping) && responses == old(responses)
      ensures hasThread == old(hasThread) && waiting == old(waiting) && status == old(status)
      ensures callbacks == old(callbacks)
      ensures stopClear == old(stopClear) && stopCb == old(stopCb)
    {
      for i := 0 to |port|
        invariant forall j :: 0 <= j < i ==> sendOk(port[j])
        invariant wire == old(wire) + ProbesSent(mgroup, key, port[..i], sendOk)
      {
        assert port[..i + 1][..i] == port[..i];
        if !sendOk(port[i]) {
          return false;
        }
        wire := wire + [Outgoing(key, Address(mgroup, port[i]))];
      }
      assert port[..|port|] == port;
      return true;
    }

    /**
      `reconnect(ping=True)`: opens an ephemeral socket (`sockOk`) and probes
      every port; any failure forgets the socket and returns 1.
    */
    method Reconnect(sockOk: bool, sendOk: int -> bool) returns (code: int)
      modifies this
      ensures code == 0 <==> sockOk && forall j :: 0 <= j < |port| ==> sendOk(port[j])
      ensures code == 0 || code == 1
      ensures sock == if code == 0 then Some(Unbound) else None
      ensures code == 0 ==> wire == old(wire) + ProbesSent(mgroup, key, port, sendOk)
      ensures !sockOk ==> wire == old(wire)
      ensures code == 1 && sockOk ==> exists k :: (&& 0 <= k < |port| && !sendOk(port[k])
                                                   && (forall j :: 0 <= j < k ==> sendOk(port[j]))
                                                   && wire == old(wire) + ProbesSent(mgroup, key, port[..k], sendOk))
      ensures running == old(running) && stopping == old(stopping) && hasThread == old(hasThread)
      ensures waiting == old(waiting) && status == old(status) && responses == old(responses)
      ensures callbacks == old(callbacks)
      ensures stopClear == old(stopClear) && stopCb == old(stopCb)
    {
      if !sockOk {
        sock := None;
        return 1;
      }
      sock := Some(Unbound);
      var ok := PingAll(sendOk);
      if !ok {
        sock := None;
        return 1;
      }
      return 0;
    }

    /**
      `threadfunc`: connect and probe, then store every reply in `responses`
      keyed by its sender. `events` are the receive results seen while
      `running` was true; the loop's exit belongs to CleanStop. A failed
      connect sets `status` to 1 and clears `waiting`, leaving `running` alone.
    */
    method Threadfunc(sockOk: bool, sendOk: int -> bool, events: seq<RecvEvent>) returns (run: WorkerRun)
      requires Valid() && running
      modifies this
      ensures Valid()
      ensures running == old(running) && stopping == old(stopping) && hasThread == old(hasThread)
      ensures callbacks == old(callbacks)
      ensures run.ConnectFailed? <==> !sockOk || exists j :: 0 <= j < |port| && !sendOk(port[j])
      ensures run.ConnectFailed? ==> status == 1 && !waiting && sock == None && responses == old(responses)
      ensures run.ConnectFailed? && !sockOk ==> wire == old(wire)
      ensures run.ConnectFailed? && sockOk ==> exists k :: (&& 0 <= k < |port| && !sendOk(port[k])
                                                           && (forall j :: 0 <= j < k ==> sendOk(port[j]))
                                                           && wire == old(wire) + ProbesSent(mgroup, key, port[..k], sendOk))
      ensures run.Served? ==>
        && status == 0 && waiting && sock == Some(Unbound)
        && wire == old(wire) + ProbesSent(mgroup, key, port, sendOk)
        && responses == Record(old(responses), events)
        && (run.emCnt, run.backoffs) == BudgetAfter(retries, BeaconOutcomes(events))
      ensures stopClear == old(stopClear) && stopCb == old(stopCb)
    {
      waiting := true;
      status := 0;
      var code := Reconnect(sockOk, sendOk);
      if code != 0 {
        status := 1;
        waiting := false;
        return ConnectFailed;
      }
      var emCnt, backoffs := Serve(events);
      return Served(emCnt, backoffs);
    }

    /**
      The receive loop of `threadfunc` (`while self.running`), over the
      receive results seen while `running` was true: each datagram is stored
      under its sender, whatever it holds.
    */
    method Serve(events: seq<RecvEvent>) returns (emCnt: int, backoffs: nat)
      requires running
      modifies this`responses
      ensures responses == Record(old(responses), events)
      ensures (emCnt, backoffs) == BudgetAfter(retries, BeaconOutcomes(events))
    {
      emCnt, backoffs := retries, 0;
      var i := 0;
      // `while self.running`: `events` ends where `running` was cleared
      while i < |events|
        invariant 0 <= i <= |events|
        invariant responses == Record(old(responses), events[..i])
        invariant (emCnt, backoffs) == BudgetAfter(retries, BeaconOutcomes(events[..i]))
      {
        BeaconLoopStep(old(responses), retries, events, i);
        responses, emCnt, backoffs := BeaconIteration(responses, retries, events[i], emCnt, backoffs);
        i := i + 1;
      }
      assert events[..|events|] == events;
    }
  }
}

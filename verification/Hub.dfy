/** The hub that hands every broadcast message to all registered clients over bounded queues
    (pbft/network/hub.go). */
module Hubs {

  type Message = string

  /** The capacity of a client's queue (pbft/network/client.go). */
  const CAPACITY: nat := 512

  /** A client's queue. Sending to a closed queue and closing it again are errors, so that `Send` and
      `Close` need an open one. */
  class Client {
    var queue: seq<Message>
    var closed: bool
    /** What the client has received so far. */
    ghost var consumed: seq<Message>
    /** The block of the broadcast stream that was sent to the client is [start..end]. */
    ghost var start: nat
    ghost var end: nat

    constructor ()
      ensures queue == [] && !closed && consumed == []
    {
      queue, closed, consumed, start, end := [], false, [], 0, 0;
    }

    ghost predicate Unused()
      reads this
    {
      queue == [] && !closed && consumed == []
    }

    method Send(m: Message)
      requires !closed && |queue| < CAPACITY
      modifies this`queue, this`end
      ensures queue == old(queue) + [m] && end == old(end) + 1
    {
      queue := queue + [m];
      end := end + 1;
    }

    method Close()
      requires !closed
      modifies this`closed
      ensures closed
    {
      closed := true;
    }

    /** A message if there is one, and nothing when the queue is closed and drained. */
    method Receive() returns (ok: bool, m: Message)
      requires queue != [] || closed
      modifies this`queue, this`consumed
      ensures ok <==> old(queue) != []
      ensures ok ==> m == old(queue)[0] && consumed == old(consumed) + [m] && queue == old(queue)[1..]
      ensures !ok ==> queue == [] && consumed == old(consumed)
      ensures consumed + queue == old(consumed) + old(queue)
    {
      if queue == [] {
        return false, "";
      }
      ok, m := true, queue[0];
      consumed := consumed + [m];
      queue := queue[1..];
    }

    /** What was sent to the client, received or still queued, is a block of the stream. */
    ghost predicate Holds(stream: seq<Message>)
      reads this
    {
      start <= end <= |stream| && |queue| <= CAPACITY && consumed + queue == stream[start..end]
    }
  }

  datatype Event =
    | Register(c: Client)
    | Unregister(c: Client)
    | Broadcast(m: Message)
    | Receive(c: Client)

  function Broadcasts(es: seq<Event>): seq<Message> {
    if es == [] then []
    else Broadcasts(es[..|es| - 1]) + if es[|es| - 1].Broadcast? then [es[|es| - 1].m] else []
  }

  function Registered(es: seq<Event>): set<Client> {
    set e | e in es && e.Register? :: e.c
  }

  /** What a client has: its queue, what it has read, and whether it is registered. */
  datatype Line = Line(queue: seq<Message>, consumed: seq<Message>, open: bool)

  /** The clients that have ever registered, with what they have. */
  type Lines = map<Client, Line>

  /** A registered client with room gets the message; one without is dropped. */
  function Told(l: Line, m: Message): Line {
    if !l.open then l
    else if |l.queue| < CAPACITY then l.(queue := l.queue + [m])
    else l.(open := false)
  }

  function ReadOne(l: Line): Line {
    if l.queue == [] then l else l.(queue := l.queue[1..], consumed := l.consumed + [l.queue[0]])
  }

  /** What one event makes of the clients. */
  function NextLines(s: Lines, e: Event): Lines {
    match e
    case Register(c) => s[c := Line([], [], true)]
    case Unregister(c) => if c in s then s[c := s[c].(open := false)] else s
    case Broadcast(m) => map c | c in s :: Told(s[c], m)
    case Receive(c) => if c in s then s[c := ReadOne(s[c])] else s
  }

  function LinesAfter(es: seq<Event>): Lines {
    if es == [] then map[] else NextLines(LinesAfter(es[..|es| - 1]), es[|es| - 1])
  }

  /** Clients register at most once and read only after that. */
  ghost predicate Orderly(es: seq<Event>) {
    && (forall i, j :: 0 <= i < j < |es| && es[i].Register? && es[j].Register? ==> es[i].c != es[j].c)
    && forall i :: 0 <= i < |es| && es[i].Receive? ==> es[i].c in Registered(es[..i])
  }

  /** In the t-th event the client is unregistered, or found with a full queue. */
  ghost predicate DropsOut(es: seq<Event>, t: nat, c: Client)
    requires t < |es|
  {
    || es[t] == Unregister(c)
    || (es[t].Broadcast? && c in LinesAfter(es[..t]) && |LinesAfter(es[..t])[c].queue| >= CAPACITY)
  }

  lemma RegistersOnce(es: seq<Event>, i: nat, t: nat)
    requires Orderly(es) && i < t < |es| && es[i].Register?
    ensures !(es[t].Register? && es[t].c == es[i].c)
  {}

  lemma OrderlyPrefix(es: seq<Event>)
    requires Orderly(es) && es != []
    ensures Orderly(es[..|es| - 1])
  {
    var front := es[..|es| - 1];
    forall i | 0 <= i < |front| && front[i].Receive? ensures front[i].c in Registered(front[..i]) {
      assert front[..i] == es[..i];
    }
  }

  /** Over any events: a client that registered in the i-th is registered still if and only if it has neither
      been unregistered nor been found with 512 unread messages since. What it has read and what is queued
      is the stream from its registration, up to its end while it is registered. */
  lemma {:induction false} StaysIff(es: seq<Event>, i: nat)
    requires Orderly(es) && i < |es| && es[i].Register?
    ensures var c, since := es[i].c, |Broadcasts(es[..i])|;
            && c in LinesAfter(es) && since <= |Broadcasts(es)|
            && (LinesAfter(es)[c].open <==> forall t :: i < t < |es| ==> !DropsOut(es, t, c))
            && LinesAfter(es)[c].consumed + LinesAfter(es)[c].queue <= Broadcasts(es)[since..]
            && (LinesAfter(es)[c].open ==>
                LinesAfter(es)[c].consumed + LinesAfter(es)[c].queue == Broadcasts(es)[since..])
  {
    var last := |es| - 1;
    var front, e, c := es[..last], es[last], es[i].c;
    assert front[..last] == front;
    if i < last {
      OrderlyPrefix(es);
      StaysIff(front, i);
      assert front[..i] == es[..i];
      NoneDropsOut(es, i, c);
      RegistersOnce(es, i, last);
      OneMoreLine(LinesAfter(front), e, c);
    }
  }

  lemma NoneDropsOut(es: seq<Event>, i: nat, c: Client)
    requires i < |es| - 1
    ensures var last := |es| - 1;
            (forall t :: i < t < |es| ==> !DropsOut(es, t, c)) <==>
              (forall t :: i < t < last ==> !DropsOut(es[..last], t, c)) && !DropsOut(es, last, c)
  {
    var last := |es| - 1;
    var front := es[..last];
    forall t | i < t < last ensures DropsOut(front, t, c) <==> DropsOut(es, t, c) {
      assert front[..t] == es[..t];
    }
  }

  /** What one event makes of a client that does not register in it. */
  lemma OneMoreLine(s: Lines, e: Event, c: Client)
    requires c in s && !(e.Register? && e.c == c)
    ensures var l, u := s[c], NextLines(s, e);
            && c in u
            && (u[c].open <==> l.open && e != Unregister(c) && !(e.Broadcast? && |l.queue| >= CAPACITY))
            && u[c].consumed + u[c].queue ==
                 l.consumed + l.queue + if e.Broadcast? && l.open && |l.queue| < CAPACITY then [e.m] else []
  {}

  /** The client that registers at time i is not registered before, and belongs to the run. */
  lemma RegistersAt(es: seq<Event>, t: nat, i: nat)
    requires t <= i < |es| && es[i].Register?
    requires forall i, j :: 0 <= i < j < |es| && es[i].Register? && es[j].Register? ==> es[i].c != es[j].c
    ensures es[i].c !in Registered(es[..t]) && es[i].c in Registered(es)
  {}

  lemma RegisteredGrows(es: seq<Event>, t: nat)
    requires t <= |es|
    ensures Registered(es[..t]) <= Registered(es)
  {}

  lemma DropOne<T>(all: set<T>, full: set<T>, rest: set<T>, c: T)
    requires c in rest
    ensures all - (full - (rest - {c})) == if c in full then all - (full - rest) - {c} else all - (full - rest)
  {}

  lemma OneMore(es: seq<Event>, t: nat)
    requires t < |es|
    ensures Broadcasts(es[..t + 1]) == Broadcasts(es[..t]) + if es[t].Broadcast? then [es[t].m] else []
    ensures Registered(es[..t + 1]) == Registered(es[..t]) + if es[t].Register? then {es[t].c} else {}
    ensures LinesAfter(es[..t + 1]) == NextLines(LinesAfter(es[..t]), es[t])
  {
    assert es[..t + 1] == es[..t] + [es[t]];
    assert es[..t + 1][..t] == es[..t];
  }

  class Hub {
    var clients: set<Client>
    /** All messages broadcast so far. */
    ghost var stream: seq<Message>
    /** All clients that have ever registered. */
    ghost var known: set<Client>

    ghost predicate Valid()
      reads this, known
    {
      && clients <= known
      && forall c :: c in known ==> Served(c)
    }

    /** A client that has registered holds its block of the stream, and while it is registered that
        is all of the stream since then. Its queue is open exactly while it is registered. */
    ghost predicate Served(c: Client)
      reads this, c
    {
      && c.Holds(stream)
      && (c in clients <==> !c.closed)
      && (c in clients ==> c.end == |stream|)
    }

    /** The clients' lines. */
    ghost function Value(): Lines
      reads this, known
    {
      map c | c in known :: Line(c.queue, c.consumed, c in clients)
    }

    constructor ()
      ensures Valid() && clients == {} && known == {} && stream == []
    {
      clients, stream, known := {}, [], {};
    }

    method RegisterClient(c: Client)
      requires Valid() && c !in known && c.Unused()
      modifies this`clients, this`known, c`start, c`end
      ensures Valid() && clients == old(clients) + {c} && known == old(known) + {c}
      ensures c.start == |stream| && Value() == old(Value())[c := Line([], [], true)]
    {
      c.start, c.end := |stream|, |stream|;
      known := known + {c};
      clients := clients + {c};
    }

    /** Unregistering a client that is not registered does nothing. */
    method UnregisterClient(c: Client)
      requires Valid()
      modifies this`clients, known`closed
      ensures Valid() && clients == old(clients) - {c}
      ensures c in old(clients) ==> c.closed
      ensures forall d :: d in known && d != c ==> d.closed == old(d.closed)
      ensures Value() == NextLines(old(Value()), Unregister(c))
    {
      if c in clients {
        clients := clients - {c};
        c.Close();
      }
    }

    /** A registered client that has not got the newest message yet. */
    ghost predicate Behind(c: Client)
      reads this, c
    {
      c in clients && !c.closed && |stream| > 0 && c.end + 1 == |stream| && c.Holds(stream[..|stream| - 1])
    }

    /** One client gets the newest message, or is closed and dropped when its queue is full. */
    method Offer(client: Client, m: Message)
      requires Behind(client) && stream[|stream| - 1] == m
      modifies this`clients, client`queue, client`end, client`closed
      ensures Served(client)
      ensures clients == if old(|client.queue|) < CAPACITY then old(clients) else old(clients) - {client}
      ensures client.queue == old(client.queue) + if old(|client.queue|) < CAPACITY then [m] else []
    {
      ghost var n := |stream| - 1;
      assert stream[..n][client.start..client.end] == stream[client.start..client.end];
      if |client.queue| < CAPACITY {
        client.Send(m);
        assert stream[client.start..client.end] == stream[client.start..n] + [m];
      } else {
        client.Close();
        clients := clients - {client};
      }
    }

    /** In the middle of a broadcast: the clients in `rest` are behind, those among them in `full`
        have a full queue, and all others are served. */
    ghost predicate Between(c: Client, rest: set<Client>, full: set<Client>)
      reads this, c
    {
      if c in rest then Behind(c) && (c in full <==> |c.queue| >= CAPACITY) else Served(c)
    }

    /** Every registered client gets the message, in any order, except that a client whose queue is
        full is closed and dropped. */
    method BroadcastMessage(m: Message)
      requires Valid()
      modifies this`clients, this`stream, known`queue, known`end, known`closed
      ensures Valid() && stream == old(stream) + [m]
      ensures clients == set c | c in old(clients) && old(|c.queue|) < CAPACITY
      ensures forall c :: c in known ==> c.queue == old(c.queue) + if c in clients then [m] else []
    {
      stream := stream + [m];
      ghost var full := set c | c in clients && |c.queue| >= CAPACITY;
      BecomeBehind(m);
      OfferAll(m, full);
    }

    method OfferAll(m: Message, ghost full: set<Client>)
      requires clients <= known && |stream| > 0 && stream[|stream| - 1] == m
      requires forall c :: c in known ==> Between(c, clients, full)
      modifies this`clients, known`queue, known`end, known`closed
      ensures Valid() && clients == old(clients) - full
      ensures forall c :: c in known ==> c.queue == old(c.queue) + if c in clients then [m] else []
    {
      var rest := clients;
      while rest != {}
        invariant rest <= clients <= known
        invariant forall c :: c in known ==> c.queue == old(c.queue) + if c in clients - rest then [m] else []
        invariant forall c :: c in known ==> Between(c, rest, full)
        invariant clients == old(clients) - (full - rest)
        decreases rest
      {
        var client :| client in rest;
        DropOne(old(clients), full, rest, client);
        rest := rest - {client};
        Offer(client, m);
      }
    }

    twostate lemma BecomeBehind(m: Message)
      requires old(Valid()) && stream == old(stream) + [m] && clients == old(clients) && known == old(known)
      requires forall c :: c in known ==> unchanged(c)
      ensures forall c :: c in clients ==> Behind(c)
      ensures forall c :: c in known && c !in clients ==> Served(c)
    {
      assert stream[..|stream| - 1] == old(stream);
      forall c | c in known ensures c.Holds(stream) {
        assert old(Served(c));
        assert stream[c.start..c.end] == old(stream)[c.start..c.end];
      }
    }

    /** A client reads from its queue. A read that would have to wait does nothing. */
    method ReceiveAt(c: Client)
      requires Valid() && c in known
      modifies c`queue, c`consumed
      ensures Valid() && Value() == NextLines(old(Value()), Receive(c))
    {
      if c.queue != [] || c.closed {
        var ok, m := c.Receive();
        LineRead(c);
      }
    }

    twostate lemma LineRead(c: Client)
      requires c in known && known == old(known) && clients == old(clients)
      requires forall d :: d in known && d != c ==> d.queue == old(d.queue) && d.consumed == old(d.consumed)
      requires if old(c.queue) == [] then c.queue == [] && c.consumed == old(c.consumed)
               else c.queue == old(c.queue)[1..] && c.consumed == old(c.consumed) + [old(c.queue)[0]]
      ensures Value() == NextLines(old(Value()), Receive(c))
    {
      assert Value().Keys == old(Value()).Keys;
    }

    /** Every line is told of the message. */
    twostate lemma AllTold(m: Message)
      requires known == old(known) && old(Valid())
      requires clients == set c | c in old(clients) && old(|c.queue|) < CAPACITY
      requires forall c :: c in known ==>
                 c.consumed == old(c.consumed) && c.queue == old(c.queue) + if c in clients then [m] else []
      ensures Value() == NextLines(old(Value()), Broadcast(m))
    {
      var before, after := old(Value()), Value();
      forall c | c in known ensures after[c] == Told(before[c], m) {
        assert old(c.queue) + [] == old(c.queue);
      }
      assert after.Keys == before.Keys;
    }

    /** One round of the endless loop, or a client reading from its queue. */
    method Handle(e: Event)
      requires Valid() && (e.Register? ==> e.c !in known && e.c.Unused()) && (e.Receive? ==> e.c in known)
      modifies this, known, if e.Register? then {e.c} else {}
      ensures Valid()
      ensures stream == old(stream) + if e.Broadcast? then [e.m] else []
      ensures known == old(known) + if e.Register? then {e.c} else {}
      ensures Value() == NextLines(old(Value()), e)
      ensures forall c :: c in old(known) ==> c.start == old(c.start)
      ensures e.Register? ==> e.c.start == |old(stream)|
    {
      match e {
        case Register(c) => RegisterClient(c);
        case Unregister(c) => UnregisterClient(c);
        case Broadcast(m) =>
          BroadcastMessage(m);
          AllTold(m);
        case Receive(c) => ReceiveAt(c);
      }
    }

    /** The state after the first t events: each client that has registered starts at the length that
        the stream had then. */
    ghost predicate HasRun(es: seq<Event>, t: nat)
      requires t <= |es|
      reads this, known, Registered(es)
    {
      && Valid() && stream == Broadcasts(es[..t]) && known == Registered(es[..t]) && Value() == LinesAfter(es[..t])
      && forall i :: 0 <= i < |es| && es[i].Register? ==>
           if i < t then es[i].c.start == |Broadcasts(es[..i])| else es[i].c.Unused()
    }

    method RunOne(es: seq<Event>, t: nat)
      requires t < |es| && Orderly(es) && HasRun(es, t)
      modifies this, known, if es[t].Register? then {es[t].c} else {}
      ensures HasRun(es, t + 1)
    {
      OneMore(es, t);
      if es[t].Register? { RegistersAt(es, t, t); }
      forall i | t < i < |es| && es[i].Register?
        ensures es[i].c !in Registered(es[..t]) && (es[t].Register? ==> es[i].c != es[t].c)
      {
        RegistersAt(es, t, i);
      }
      Handle(es[t]);
    }

    /** The loop over the events so far. Whatever happens, the hub stays valid: every client that has
        registered has been served a block of the broadcast stream that starts at its registration,
        without gaps or repetitions, up to the newest message while it stays registered. */
    method Run(es: seq<Event>)
      requires Orderly(es) && HasRun(es, 0)
      modifies this, Registered(es)
      ensures HasRun(es, |es|)
      ensures Valid() && stream == Broadcasts(es) && known == Registered(es) && Value() == LinesAfter(es)
    {
      for t := 0 to |es|
        invariant HasRun(es, t)
      {
        RegisteredGrows(es, t);
        RunOne(es, t);
      }
      assert es[..|es|] == es;
    }
  }
}

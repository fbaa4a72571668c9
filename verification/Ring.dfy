/** The message ring of an ALPC port, on values, and what it means as a queue. */
module Ring {
  /** The index after i in a ring of n slots. */
  function After(i: nat, n: nat): (j: nat)
    requires i < n
    ensures j == if i + 1 == n then 0 else i + 1
  {
    assert i + 1 < n ==> (i + 1) / n == 0;
    (i + 1) % n
  }

  datatype Ring<M> = Ring(slots: seq<M>, head: nat, tail: nat) {
    predicate Wf() { head < |slots| && tail < |slots| }

    /** The messages waiting, oldest first. */
    function Contents(): seq<M>
      requires Wf()
    {
      if head <= tail then slots[head..tail] else slots[head..] + slots[..tail]
    }

    /** One slot always stays empty: that is how full and empty are told apart. */
    function Capacity(): nat
      requires Wf()
    {
      |slots| - 1
    }

    predicate Full()
      requires Wf()
    {
      After(tail, |slots|) == head
    }

    function Put(m: M): Ring<M>
      requires Wf()
    {
      if Full() then this else Ring(slots[tail := m], head, After(tail, |slots|))
    }

    function Take(): Ring<M>
      requires Wf()
    {
      if head == tail then this else Ring(slots, After(head, |slots|), tail)
    }
  }

  /** A message is refused exactly when the queue holds its capacity, and is otherwise appended. */
  lemma PutContents<M>(r: Ring<M>, m: M)
    requires r.Wf()
    ensures r.Put(m).Wf() && |r.Contents()| <= r.Capacity()
    ensures r.Full() <==> |r.Contents()| == r.Capacity()
    ensures r.Put(m).Contents() == if r.Full() then r.Contents() else r.Contents() + [m]
  {
    if !r.Full() {
      assert r.slots[r.tail := m][..r.tail] == r.slots[..r.tail];
    }
  }

  lemma TakeContents<M>(r: Ring<M>)
    requires r.Wf()
    ensures r.Take().Wf()
    ensures r.head == r.tail <==> r.Contents() == []
    ensures r.head != r.tail ==> r.Contents()[0] == r.slots[r.head] && r.Take().Contents() == r.Contents()[1..]
  {
  }

  // ---------- every interleaving of senders and receivers ----------

  datatype Op<M> = Send(m: M) | Receive

  /** The ring with the messages accepted and the messages received so far. */
  datatype Log<M> = Log(ring: Ring<M>, accepted: seq<M>, received: seq<M>)

  function Apply<M>(l: Log<M>, op: Op<M>): Log<M>
    requires l.ring.Wf()
  {
    match op
    case Send(m) => Log(l.ring.Put(m), if l.ring.Full() then l.accepted else l.accepted + [m], l.received)
    case Receive =>
      Log(l.ring.Take(), l.accepted,
          if l.ring.head == l.ring.tail then l.received else l.received + [l.ring.slots[l.ring.head]])
  }

  function Exec<M>(l: Log<M>, ops: seq<Op<M>>): Log<M>
    requires l.ring.Wf()
    decreases |ops|
  {
    if ops == [] then l
    else
      ApplyWf(l, ops[0]);
      Exec(Apply(l, ops[0]), ops[1..])
  }

  lemma ApplyWf<M>(l: Log<M>, op: Op<M>)
    requires l.ring.Wf()
    ensures Apply(l, op).ring.Wf()
  {
    match op {
      case Send(m) => PutContents(l.ring, m);
      case Receive => TakeContents(l.ring);
    }
  }

  /** The messages accepted are the messages received followed by the messages waiting. */
  ghost predicate InOrder<M>(l: Log<M>) {
    l.ring.Wf() && l.accepted == l.received + l.ring.Contents()
  }

  lemma ApplyInOrder<M>(l: Log<M>, op: Op<M>)
    requires InOrder(l)
    ensures InOrder(Apply(l, op))
  {
    match op {
      case Send(m) =>
        PutContents(l.ring, m);
      case Receive =>
        TakeContents(l.ring);
        var waiting := l.ring.Contents();
        assert waiting != [] ==> l.received + waiting == l.received + [waiting[0]] + waiting[1..];
    }
  }

  /** Whatever the interleaving, what has been received is a prefix of what has been accepted, in
      order, and the rest is waiting in the ring: nothing is lost, repeated or reordered. */
  lemma {:induction false} FirstInFirstOut<M>(l: Log<M>, ops: seq<Op<M>>)
    requires InOrder(l)
    ensures InOrder(Exec(l, ops))
    decreases |ops|
  {
    if ops == [] {
    } else {
      ApplyInOrder(l, ops[0]);
      FirstInFirstOut(Apply(l, ops[0]), ops[1..]);
    }
  }
}

/** The ports of alpc.c. */
module Ports {
  import opened Common
  import R = Ring

  datatype Kind = Small | SectionMessage

  datatype Message = Message(sender: nat, receiver: nat, kind: Kind, length: nat,
                             sectionId: nat, sectionOffset: nat, data: seq<bv8>)

  class Port {
    const server: nat
    const queue: array<Message>
    var head: nat
    var tail: nat

    ghost function Model(): R.Ring<Message>
      reads this, queue
    {
      R.Ring(queue[..], head, tail)
    }

    ghost predicate Valid()
      reads this, queue
    {
      Model().Wf()
    }

    ghost function Waiting(): seq<Message>
      requires Valid()
      reads this, queue
    {
      Model().Contents()
    }

    /** alpc_create_port. */
    constructor (tid: nat, size: nat, filler: Message)
      requires size > 0
      ensures Valid() && Waiting() == [] && server == tid && queue.Length == size && fresh(queue)
    {
      server := tid;
      queue := new Message[size](_ => filler);
      head, tail := 0, 0;
    }

    /** alpc_send: the message is stamped with the sender and the server, and the server is the
        thread to hand off to. A full ring answers -1 and changes nothing. */
    method Send(msg: Message, tid: nat) returns (code: int, target: nat)
      requires Valid()
      modifies this`tail, queue
      ensures Valid() && Model() == old(Model()).Put(msg.(sender := tid, receiver := server))
      ensures code == -1 <==> |old(Waiting())| == queue.Length - 1
      ensures code == -1 ==> Waiting() == old(Waiting()) && target == 0
      ensures code != -1 ==> code == 0 && target == server
      ensures code != -1 ==> Waiting() == old(Waiting()) + [msg.(sender := tid, receiver := server)]
    {
      var stamped := msg.(sender := tid, receiver := server);
      R.PutContents(Model(), stamped);
      if R.After(tail, queue.Length) == head { return -1, 0; }
      queue[tail] := stamped;
      tail := R.After(tail, queue.Length);
      return 0, server;
    }

    /** alpc_recv: -1 when nothing is waiting. */
    method Receive() returns (code: int, msg: Option<Message>)
      requires Valid()
      modifies this`head
      ensures Valid() && Model() == old(Model()).Take()
      ensures code == -1 <==> old(Waiting()) == []
      ensures code == -1 ==> msg.None?
      ensures code != -1 ==> code == 0 && msg == Some(old(Waiting())[0]) && Waiting() == old(Waiting())[1..]
    {
      R.TakeContents(Model());
      if head == tail { return -1, None; }
      msg := Some(queue[head]);
      head := R.After(head, queue.Length);
      code := 0;
    }
  }
}

/** The packet queue of lavc/ffplay.c: a singly linked list with a tail pointer, a packet count and a byte
    count, used under one mutex.  Each method is one critical section; a blocking get that would wait on the
    condition variable reports `Wait` instead. */
module PacketQueue {

  /** A queued packet: the flush marker, or data read after `epoch` seeks. */
  datatype Packet = Marker | Data(epoch: nat, bytes: nat)
  {
    /** pkt.size; the marker carries no bytes. */
    function Size(): nat { if Marker? then 0 else bytes }
  }

  /** What the queue holds, first packet first, and its abort_request flag. */
  datatype Queue = Queue(items: seq<Packet>, aborted: bool)

  datatype GetResult = Aborted | Empty | Wait | Got(packet: Packet)

  const EMPTY := Queue([], true)

  /** packet_queue_put_private; `ok` says whether the list node could be allocated. */
  function Put(q: Queue, p: Packet, ok: bool): (Queue, int) {
    if q.aborted || !ok then (q, -1) else (q.(items := q.items + [p]), 0)
  }

  function Flush(q: Queue): Queue { q.(items := []) }

  function Abort(q: Queue): Queue { q.(aborted := true) }

  function Start(q: Queue, ok: bool): Queue { Put(q.(aborted := false), Marker, ok).0 }

  function Get(q: Queue, block: bool): (Queue, GetResult) {
    if q.aborted then (q, Aborted)
    else if q.items != [] then (q.(items := q.items[1..]), Got(q.items[0]))
    else (q, if block then Wait else Empty)
  }

  // ---------------------------------------------------------------- the queue as a log of its operations

  datatype Op = PutOp(packet: Packet, ok: bool) | GetOp(block: bool) | FlushOp | AbortOp | StartOp(ok: bool)

  function Perform(q: Queue, op: Op): Queue {
    match op
    case PutOp(p, ok) => Put(q, p, ok).0
    case GetOp(block) => Get(q, block).0
    case FlushOp => Flush(q)
    case AbortOp => Abort(q)
    case StartOp(ok) => Start(q, ok)
  }

  /** The queue after these operations on a new one. */
  function After(ops: seq<Op>): Queue {
    if ops == [] then EMPTY else Perform(After(ops[..|ops| - 1]), ops[|ops| - 1])
  }

  /** Closed to packets: the last abort or start was an abort, or there was none. */
  predicate Stopped(ops: seq<Op>) {
    if ops == [] then true
    else
      var last := ops[|ops| - 1];
      last.AbortOp? || (!last.StartOp? && Stopped(ops[..|ops| - 1]))
  }

  /** The packets accepted since the last flush: those put while the queue was open and a node could be
      allocated, and the marker of every start. */
  function Accepted(ops: seq<Op>): seq<Packet> {
    if ops == [] then []
    else
      var front := ops[..|ops| - 1];
      match ops[|ops| - 1]
      case FlushOp => []
      case PutOp(p, ok) => Accepted(front) + if ok && !Stopped(front) then [p] else []
      case StartOp(ok) => Accepted(front) + if ok then [Marker] else []
      case _ => Accepted(front)
  }

  /** How many of them have been taken: one by every get while the queue was open and one was left. */
  function Taken(ops: seq<Op>): (n: nat)
    ensures n <= |Accepted(ops)|
  {
    if ops == [] then 0
    else
      var front := ops[..|ops| - 1];
      match ops[|ops| - 1]
      case FlushOp => 0
      case GetOp(_) => if !Stopped(front) && Taken(front) < |Accepted(front)| then Taken(front) + 1 else Taken(front)
      case _ => Taken(front)
  }

  /** After any operations the queue holds the accepted packets that have not been taken, in order. */
  lemma {:induction false} QueueIsLog(ops: seq<Op>)
    ensures After(ops) == Queue(Accepted(ops)[Taken(ops)..], Stopped(ops))
  {
    if ops != [] {
      hide Accepted, Taken;
      var front := ops[..|ops| - 1];
      QueueIsLog(front);
      LogStep(ops);
    } else {
      assert Accepted([])[Taken([])..] == [];
    }
  }

  lemma LogStep(ops: seq<Op>)
    requires ops != []
    requires var front := ops[..|ops| - 1]; After(front) == Queue(Accepted(front)[Taken(front)..], Stopped(front))
    ensures After(ops) == Queue(Accepted(ops)[Taken(ops)..], Stopped(ops))
  {
    var front := ops[..|ops| - 1];
    assert Accepted(front) + [] == Accepted(front);
    match ops[|ops| - 1] {
      case PutOp(p, ok) => DropAppend(Accepted(front), Taken(front), p);
      case StartOp(ok) => DropAppend(Accepted(front), Taken(front), Marker);
      case _ =>
    }
  }

  lemma DropAppend(items: seq<Packet>, n: nat, p: Packet)
    requires n <= |items|
    ensures (items + [p])[n..] == items[n..] + [p]
  {
  }

  /** What a caller is told after any operations.  A get reports the abort, or takes the oldest packet left, or,
      when none is left, waits if it may block and otherwise says so; a put fails exactly when the queue is
      stopped or no node could be allocated. */
  lemma CallResults(ops: seq<Op>, block: bool, p: Packet, ok: bool)
    ensures Get(After(ops), block).1.Aborted? <==> Stopped(ops)
    ensures !Stopped(ops) && Taken(ops) < |Accepted(ops)| ==> Get(After(ops), block).1 == Got(Accepted(ops)[Taken(ops)])
    ensures !Stopped(ops) && Taken(ops) == |Accepted(ops)| ==> Get(After(ops), block).1 == if block then Wait else Empty
    ensures Put(After(ops), p, ok).1 == if Stopped(ops) || !ok then -1 else 0
  {
    hide Accepted, Taken, Stopped, After;
    QueueIsLog(ops);
  }

  /** Sum over the packets of their size and the size of a list node. */
  function Weight(items: seq<Packet>, node: nat): nat {
    if items == [] then 0 else Weight(items[..|items| - 1], node) + items[|items| - 1].Size() + node
  }

  lemma {:induction false} WeightOfRest(items: seq<Packet>, node: nat)
    requires items != []
    ensures Weight(items, node) == items[0].Size() + node + Weight(items[1..], node)
  {
    if |items| > 1 {
      var front := items[..|items| - 1];
      WeightOfRest(front, node);
      assert items[1..][..|items| - 2] == front[1..];
    }
  }

  lemma WeightOfAppend(items: seq<Packet>, p: Packet, node: nat)
    ensures Weight(items + [p], node) == Weight(items, node) + p.Size() + node
  {
    assert (items + [p])[..|items|] == items;
  }

  class Node {
    const packet: Packet
    var next: Node?

    constructor (packet: Packet)
      ensures this.packet == packet && next == null
    {
      this.packet, next := packet, null;
    }
  }

  class LinkedQueue {
    const nodeSize: nat
    var first: Node?
    var last: Node?
    var nbPackets: int
    var size: int
    var abortRequest: bool
    ghost var nodes: seq<Node>
    ghost var items: seq<Packet>

    /** The list from `first` runs through `nodes` and ends at `last`. */
    ghost predicate Linked()
      reads this`first, this`last, this`nodes, nodes
    {
      && (forall i, j :: 0 <= i < j < |nodes| ==> nodes[i] != nodes[j])
      && (forall i {:trigger nodes[i]} :: 0 <= i < |nodes| - 1 ==> nodes[i].next == nodes[i + 1])
      && (nodes != [] ==> nodes[|nodes| - 1].next == null)
      && first == (if nodes == [] then null else nodes[0])
      && last == (if nodes == [] then null else nodes[|nodes| - 1])
    }

    /** The nodes hold the packets, and the counters agree with them. */
    ghost predicate Counted()
      reads this
    {
      && |items| == |nodes| && (forall i :: 0 <= i < |nodes| ==> nodes[i].packet == items[i])
      && nbPackets == |items|
      && size == Weight(items, nodeSize)
    }

    ghost predicate Valid()
      reads this, nodes
    {
      Linked() && Counted()
    }

    ghost function View(): Queue
      reads this
    {
      Queue(items, abortRequest)
    }

    /** packet_queue_init. */
    constructor (nodeSize: nat)
      ensures Valid() && View() == EMPTY && nodes == []
    {
      this.nodeSize := nodeSize;
      first, last, nbPackets, size, abortRequest, nodes, items := null, null, 0, 0, true, [], [];
    }

    /** The pointer updates of a put. */
    method Append(pkt1: Node)
      requires Linked() && pkt1 !in nodes && pkt1.next == null
      modifies this`first, this`last, this`nodes, nodes
      ensures Linked() && nodes == old(nodes) + [pkt1]
    {
      if last == null { first := pkt1; } else { last.next := pkt1; }
      last := pkt1;
      nodes := nodes + [pkt1];
    }

    /** packet_queue_put_private, the body of packet_queue_put. */
    method PutPrivate(p: Packet, ok: bool) returns (ret: int)
      requires Valid()
      modifies this, nodes
      ensures Valid() && forall n :: n in nodes ==> n in old(nodes) || fresh(n)
      ensures (View(), ret) == Put(old(View()), p, ok)
    {
      hide Weight, LinkedQueue.Linked;
      if abortRequest { return -1; }
      if !ok { return -1; }
      WeightOfAppend(items, p, nodeSize);
      var pkt1 := new Node(p);
      nbPackets := nbPackets + 1;
      size := size + p.Size() + nodeSize;
      items := items + [p];
      Append(pkt1);
      return 0;
    }

    /** packet_queue_flush: walks and frees the list. */
    method FlushAll()
      requires Valid()
      modifies this
      ensures Valid() && nodes == [] && View() == Flush(old(View()))
    {
      var pkt := first;
      ghost var i := 0;
      while pkt != null
        invariant 0 <= i <= |nodes| && pkt == if i < |nodes| then nodes[i] else null
        decreases |nodes| - i
      {
        pkt := pkt.next;
        i := i + 1;
      }
      last, first, nbPackets, size, nodes, items := null, null, 0, 0, [], [];
    }

    /** packet_queue_abort. */
    method SetAbort()
      requires Valid()
      modifies this`abortRequest
      ensures Valid() && View() == Abort(old(View()))
    {
      abortRequest := true;
    }

    /** packet_queue_start: the flag is cleared and the marker queued in one critical section. */
    method StartQueue(ok: bool)
      requires Valid()
      modifies this, nodes
      ensures Valid() && View() == Start(old(View()), ok)
    {
      abortRequest := false;
      var _ := PutPrivate(Marker, ok);
    }

    /** packet_queue_get. */
    method GetPacket(block: bool) returns (result: GetResult)
      requires Valid()
      modifies this
      ensures Valid() && (View(), result) == Get(old(View()), block)
    {
      if abortRequest { return Aborted; }
      var pkt1 := first;
      if pkt1 == null { return if block then Wait else Empty; }
      WeightOfRest(items, nodeSize);
      first := pkt1.next;
      if first == null { last := null; }
      nbPackets := nbPackets - 1;
      size := size - (pkt1.packet.Size() + nodeSize);
      nodes, items := nodes[1..], items[1..];
      return Got(pkt1.packet);
    }
  }
}

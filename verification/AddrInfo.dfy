/** The resolver bridge's result chain: nodes on a heap that may refuse, appended one by one and freed one by one. */
module AddrInfo {
  import opened Sequences

  // ----- the heap and its nodes -----

  /** What one result says. */
  datatype Info = Info(address: seq<nat>, port: nat, socktype: int, protocol: int, canonical: Option<string>)

  class Node {
    const info: Info
    var next: Node?

    constructor (info: Info)
      ensures this.info == info && next == null
    {
      this.info := info;
      next := null;
    }
  }

  /** A process heap: the nodes allocated and not yet freed, and which future requests it will grant. */
  class Heap {
    var live: set<Node>
    var asked: nat
    const grants: nat -> bool

    constructor (grants: nat -> bool)
      ensures live == {} && asked == 0 && this.grants == grants
    {
      live, asked := {}, 0;
      this.grants := grants;
    }

    method Alloc(info: Info) returns (n: Node?)
      modifies this`live, this`asked
      ensures asked == old(asked) + 1
      ensures n != null <==> grants(old(asked))
      ensures n == null ==> live == old(live)
      ensures n != null ==> fresh(n) && n.info == info && n.next == null && live == old(live) + {n}
    {
      n := null;
      if grants(asked) {
        n := new Node(info);
        live := live + {n};
      }
      asked := asked + 1;
    }

    /** Only a live node may be freed: nothing is freed twice. */
    method Free(n: Node)
      requires n in live
      modifies this`live
      ensures live == old(live) - {n}
    {
      live := live - {n};
    }
  }

  /** `nodes` are linked one behind the other, from `head` to the end. */
  ghost predicate Chain(head: Node?, nodes: seq<Node>)
    reads nodes
  {
    && Distinct(nodes)
    && head == (if nodes == [] then null else nodes[0])
    && forall k {:trigger nodes[k].next} :: 0 <= k < |nodes| ==>
      nodes[k].next == if k + 1 < |nodes| then nodes[k + 1] else null
  }

  ghost function Infos(nodes: seq<Node>): (r: seq<Info>)
    ensures |r| == |nodes|
  {
    seq(|nodes|, k requires 0 <= k < |nodes| => nodes[k].info)
  }

  /** Frees every node of a chain, each once, reading each link before its node goes. */
  method FreeAddrinfoChain(heap: Heap, start: Node?, ghost nodes: seq<Node>)
    requires Chain(start, nodes) && Elements(nodes) <= heap.live
    modifies heap`live
    ensures heap.live == old(heap.live) - Elements(nodes)
  {
    var head := start;
    ghost var k := 0;
    while head != null
      invariant Chain(start, nodes)
      invariant k <= |nodes| && head == if k < |nodes| then nodes[k] else null
      invariant heap.live == old(heap.live) - Elements(nodes[..k])
      decreases |nodes| - k
    {
      assert Elements(nodes[..k + 1]) == Elements(nodes[..k]) + {head}
        by { assert nodes[..k + 1] == nodes[..k] + [head]; }
      var next := head.next;
      assert next == nodes[k].next;
      heap.Free(head);
      head := next;
      k := k + 1;
    }
    assert nodes[..k] == nodes;
  }

  /** Puts one more result behind the last. */
  method AppendResult(heap: Heap, head: Node?, tail: Node?, info: Info, ghost nodes: seq<Node>)
    returns (ok: bool, head': Node?, tail': Node?, ghost nodes': seq<Node>)
    requires Chain(head, nodes) && tail == (if nodes == [] then null else nodes[|nodes| - 1])
    requires Elements(nodes) <= heap.live
    modifies heap`live, heap`asked, tail
    ensures heap.asked == old(heap.asked) + 1 && ok == heap.grants(old(heap.asked))
    ensures Chain(head', nodes') && tail' == if nodes' == [] then null else nodes'[|nodes'| - 1]
    ensures !ok ==> nodes' == nodes && heap.live == old(heap.live)
    ensures ok ==> |nodes'| == |nodes| + 1 && nodes'[..|nodes|] == nodes && fresh(nodes'[|nodes|])
    ensures ok ==> nodes'[|nodes|].info == info && heap.live == old(heap.live) + {nodes'[|nodes|]}
  {
    head', tail', nodes' := head, tail, nodes;
    var entry := heap.Alloc(info);
    if entry == null { return false, head, tail, nodes; }
    if tail != null { tail.next := entry; } else { head' := entry; }
    tail' := entry;
    nodes' := nodes + [entry];
    ok := true;
  }
}

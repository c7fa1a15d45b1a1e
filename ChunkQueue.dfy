/**
 * The proxy's chunk queue: a singly linked FIFO of byte buffers headed by a
 * sentinel node, with pointers to the first (sentinel) and last node.  The
 * buffered reader stores every block it receives from the host in one, and
 * the cache writer and the client sender walk it in order.
 *
 * A NULL buffer is modelled as the empty sequence; releasing memory is
 * modelled by reporting the nodes and buffers that are handed to `free`.
 */
module ChunkQueue {

  /** One node (`queue_t`): a buffer, its length and the next node. */
  class Chunk {
    var len: int
    var buf: seq<char>
    var next: Chunk?

    /** `create_queue_t`: a node with the given buffer and length and no successor. */
    constructor (buf: seq<char>, len: int)
      ensures this.buf == buf && this.len == len && next == null
    {
      this.len := len;
      this.buf := buf;
      next := null;
    }
  }

  /** The buffers of the nodes ns, in order. */
  function Bufs(ns: seq<Chunk>): (r: seq<seq<char>>)
    reads ns
    ensures |r| == |ns|
    decreases |ns|
  {
    if |ns| == 0 then [] else Bufs(ns[..|ns| - 1]) + [ns[|ns| - 1].buf]
  }

  /** The queue (`queue`): the sentinel `start` and the last node `end`. */
  class Queue {
    var start: Chunk
    var end: Chunk
    /** The nodes from the sentinel to `end`, in link order. */
    ghost var nodes: seq<Chunk>
    ghost var Repr: set<object>

    /**
     * The nodes form one chain from `start` to `end`, and only `end` has no
     * successor; no node occurs twice; each node's length is its buffer's.
     */
    ghost predicate Valid()
      reads this, Repr
    {
      && this in Repr
      && (forall i :: 0 <= i < |nodes| ==> nodes[i] in Repr)
      && |nodes| >= 1 && nodes[0] == start && nodes[|nodes| - 1] == end
      && (forall i :: 0 <= i < |nodes| - 1 ==> nodes[i].next == nodes[i + 1])
      && (forall i :: 0 <= i < |nodes| ==> (nodes[i].next == null <==> i == |nodes| - 1))
      && (forall i, j :: 0 <= i < j < |nodes| ==> nodes[i] != nodes[j])
      && (forall i :: 0 <= i < |nodes| ==> nodes[i].len == |nodes[i].buf|)
    }

    /** `initialize_queue`: a single sentinel node with no buffer, both first and last. */
    constructor ()
      ensures Valid() && fresh(Repr)
      ensures nodes == [start] && start == end
      ensures start.buf == [] && start.len == 0 && start.next == null
    {
      var t := new Chunk([], 0);
      start := t;
      end := t;
      nodes := [t];
      Repr := {this, t};
    }

    /** `enqueue`: links t after the last node and makes it the last node; the sentinel stays. */
    method Enqueue(t: Chunk)
      requires Valid() && t !in Repr && t.next == null && t.len == |t.buf|
      modifies this, end
      ensures Valid()
      ensures nodes == old(nodes) + [t] && Repr == old(Repr) + {t}
      ensures start == old(start) && end == t && old(end).next == t
      ensures Bufs(nodes[1..]) == old(Bufs(nodes[1..])) + [t.buf]
    {
      ghost var before := nodes;
      end.next := t;
      end := t;
      nodes := nodes + [t];
      Repr := Repr + {t};
      assert nodes[1..][..|nodes| - 2] == before[1..];
      assert Bufs(before[1..]) == old(Bufs(nodes[1..])) by {
        BufsFrame(before[1..]);
      }
    }

    /** The buffers do not depend on the `next` links that `Enqueue` rewrites. */
    twostate lemma BufsFrame(ns: seq<Chunk>)
      requires forall i :: 0 <= i < |ns| ==> ns[i].buf == old(ns[i].buf)
      ensures Bufs(ns) == old(Bufs(ns))
      decreases |ns|
    {
      if |ns| > 0 {
        BufsFrame(ns[..|ns| - 1]);
      }
    }

    /**
     * The walk of `create_cache_file` and of the client sender: from the
     * sentinel's successor to the last node, the enqueued buffers in FIFO order.
     */
    method Pieces() returns (pieces: seq<seq<char>>)
      requires Valid()
      ensures pieces == Bufs(nodes[1..])
    {
      var chunk := start;
      ghost var i := 0;
      pieces := [];
      while chunk.next != null
        invariant 0 <= i < |nodes| && chunk == nodes[i]
        invariant pieces == Bufs(nodes[1..i + 1])
        decreases |nodes| - i
      {
        chunk := chunk.next;
        i := i + 1;
        assert nodes[1..i + 1][..i - 1] == nodes[1..i];
        pieces := pieces + [chunk.buf];
      }
      assert nodes[1..i + 1] == nodes[1..];
    }

    /**
     * `free_queue` as written: every node, the sentinel included, is
     * released, and then the queue header itself, but the buffer of the
     * last node is not.
     */
    method FreeAsWritten() returns (freedNodes: seq<Chunk>, freedBufs: seq<seq<char>>, freedHead: Queue)
      requires Valid()
      ensures freedNodes == nodes && freedHead == this
      ensures freedBufs == Bufs(nodes[..|nodes| - 1])
      ensures freedBufs + [nodes[|nodes| - 1].buf] == Bufs(nodes) && |freedBufs| < |Bufs(nodes)|
    {
      var chunk := start;
      ghost var i := 0;
      freedNodes, freedBufs := [], [];
      while chunk.next != null
        invariant 0 <= i < |nodes| && chunk == nodes[i]
        invariant freedNodes == nodes[..i] && freedBufs == Bufs(nodes[..i])
        decreases |nodes| - i
      {
        var temp := chunk;
        chunk := chunk.next;
        assert nodes[..i + 1][..i] == nodes[..i];
        freedBufs := freedBufs + [temp.buf];
        freedNodes := freedNodes + [temp];
        i := i + 1;
      }
      freedNodes := freedNodes + [chunk];
      freedHead := this;
      assert nodes[..i + 1] == nodes;
    }

    /** `free_queue` corrected: the buffer of every node is released with it, then the header. */
    method Free() returns (freedNodes: seq<Chunk>, freedBufs: seq<seq<char>>, freedHead: Queue)
      requires Valid()
      ensures freedNodes == nodes && freedHead == this
      ensures freedBufs == Bufs(nodes)
    {
      var chunk := start;
      ghost var i := 0;
      freedNodes, freedBufs := [], [];
      while chunk.next != null
        invariant 0 <= i < |nodes| && chunk == nodes[i]
        invariant freedNodes == nodes[..i] && freedBufs == Bufs(nodes[..i])
        decreases |nodes| - i
      {
        var temp := chunk;
        chunk := chunk.next;
        assert nodes[..i + 1][..i] == nodes[..i];
        freedBufs := freedBufs + [temp.buf];
        freedNodes := freedNodes + [temp];
        i := i + 1;
      }
      assert nodes[..i + 1][..i] == nodes[..i];
      freedBufs := freedBufs + [chunk.buf];
      freedNodes := freedNodes + [chunk];
      freedHead := this;
      assert nodes[..i + 1] == nodes;
    }
  }
}

/** Packets, and the worklists that their links make. */
module RichardsPackets {

  const DATA_SIZE := 4

  ghost predicate DistinctList(s: seq<Packet>) {
    forall k, l :: 0 <= k < l < |s| ==> s[k] != s[l]
  }

  /** A worklist: the links lead from `head` through `s` and end there. */
  ghost predicate Threaded(head: Packet?, s: seq<Packet>)
    reads s
  {
    && head == (if s == [] then null else s[0])
    && forall k :: 0 <= k < |s| ==> s[k].link == Follower(s, k)
  }

  ghost function Follower(s: seq<Packet>, k: nat): Packet? {
    if k + 1 < |s| then s[k + 1] else null
  }

  class Packet {
    var link: Packet?
    var id: int
    var kind: int
    var a1: int
    var a2: seq<int>

    constructor (link: Packet?, id: int, kind: int)
      ensures this.link == link && this.id == id && this.kind == kind && a1 == 0 && |a2| == DATA_SIZE
    {
      this.link, this.id, this.kind, a1 := link, id, kind, 0;
      a2 := seq(DATA_SIZE, _ => 0);
    }

    /** This packet goes to the end of the worklist `s` that starts with `queue`. */
    method AddTo(queue: Packet?, ghost s: seq<Packet>) returns (r: Packet)
      requires Threaded(queue, s) && DistinctList(s) && this !in s
      modifies this`link, s`link
      ensures Threaded(r, s + [this])
    {
      link := null;
      if queue == null {
        return this;
      }
      var next := queue;
      ghost var k := 0;
      while next.link != null
        invariant 0 <= k < |s| && next == s[k]
        decreases |s| - k
      {
        next := next.link;
        k := k + 1;
      }
      next.link := this;
      r := queue;
    }
  }
}

/** The linked queues between the library's threads. Each operation runs under the queue's lock, so a run
    is a sequence of whole operations. */
module PacketQueue {

  class Node<T> {
    const value: T
    var next: Node?<T>

    constructor (value: T)
      ensures this.value == value && next == null
    {
      this.value, next := value, null;
    }
  }

  function ValuesOf<T>(nodes: seq<Node<T>>): seq<T> {
    seq(|nodes|, i requires 0 <= i < |nodes| => nodes[i].value)
  }

  class Queue<T> {
    var first: Node?<T>
    var last: Node?<T>
    ghost var nodes: seq<Node<T>>     // from first to last
    ghost var entered: seq<T>         // everything ever put in, in order
    ghost var left: seq<T>            // everything ever taken out, in order

    ghost function Contents(): seq<T>
      reads this
    {
      ValuesOf(nodes)
    }

    ghost predicate Valid()
      reads this, nodes
    {
      && (forall i, j :: 0 <= i < j < |nodes| ==> nodes[i] != nodes[j])
      && (forall i :: 0 <= i < |nodes| - 1 ==> nodes[i].next == nodes[i + 1])
      && (if nodes == [] then first == null && last == null
          else first == nodes[0] && last == nodes[|nodes| - 1] && nodes[|nodes| - 1].next == null)
      && entered == left + Contents()
    }

    constructor ()
      ensures Valid() && nodes == [] && entered == [] && left == []
    {
      first, last, nodes, entered, left := null, null, [], [], [];
    }

    /** insert_queue_node, insert_callback_queue_node */
    method Insert(node: Node?<T>)
      requires Valid() && (node != null ==> node !in nodes && node.next == null)
      modifies this, if last == null then {} else {last}
      ensures Valid() && left == old(left)
      ensures nodes == if node == null then old(nodes) else old(nodes) + [node]
      ensures Contents() == if node == null then old(Contents()) else old(Contents()) + [node.value]
      ensures entered == if node == null then old(entered) else old(entered) + [node.value]
    {
      if node == null {
        return;
      }
      if last == null {
        last := node;
      } else {
        last.next := node;
        last := node;
      }
      if first == null {
        first := node;
      }
      assert ValuesOf(nodes + [node]) == ValuesOf(nodes) + [node.value];
      nodes := nodes + [node];
      entered := entered + [node.value];
    }

    /** wait_for_next_packet, wait_for_next_packet_callback */
    method Next() returns (node: Node?<T>)
      requires Valid()
      modifies this
      ensures Valid() && entered == old(entered)
      ensures node == null <==> old(nodes) == []
      ensures node != null ==> node == old(nodes)[0] && nodes == old(nodes)[1..] && left == old(left) + [node.value]
      ensures node != null ==> old(Contents()) == [node.value] + Contents()
      ensures node == null ==> nodes == [] && left == old(left)
    {
      if first == null {
        return null;
      }
      node := first;
      if node.next == null {
        first, last := null, null;
      } else {
        first := node.next;
      }
      assert ValuesOf(nodes) == [node.value] + ValuesOf(nodes[1..]);
      nodes := nodes[1..];
      left := left + [node.value];
    }
  }
}

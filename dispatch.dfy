/**
 * Message delivery through the object tree (CbObject / CbContainer).
 * An object ignores every message while it is disabled; an enabled
 * container runs its own handler first and then forwards the message to its
 * children in the order they were bound. The tree is a snapshot of the
 * enabled flags taken before the message is sent: a handler that switches
 * another object on or off during the same dispatch is not modelled.
 */
module Dispatch {

  /** An object of the tree: a plain CbObject has no children. */
  datatype Node = Node(id: nat, enabled: bool, children: seq<Node>)

  /** The ids of the objects whose handler runs, in the order they run. */
  function Delivery(n: Node): (r: seq<nat>)
    ensures !n.enabled <==> r == []
    ensures n.enabled ==> r[0] == n.id
    decreases n, 1
  {
    if !n.enabled then [] else [n.id] + DeliveryAll(n.children)
  }

  /** Delivery to a list of siblings, in bind order. */
  function DeliveryAll(ns: seq<Node>): seq<nat>
    decreases ns, 0
  {
    if |ns| == 0 then [] else Delivery(ns[0]) + DeliveryAll(ns[1..])
  }

  /** id names an object reached along a chain of enabled objects from n. */
  predicate Reaches(n: Node, id: nat)
    decreases n
  {
    n.enabled && (n.id == id || exists i :: 0 <= i < |n.children| && Reaches(n.children[i], id))
  }

  /** An object's handler runs exactly when it and every container above it are enabled. */
  lemma {:induction false} DeliveryReaches(n: Node, id: nat)
    ensures id in Delivery(n) <==> Reaches(n, id)
    decreases n, 1
  {
    if n.enabled {
      DeliveryAllReaches(n.children, id);
    }
  }

  lemma {:induction false} DeliveryAllReaches(ns: seq<Node>, id: nat)
    ensures id in DeliveryAll(ns) <==> exists i :: 0 <= i < |ns| && Reaches(ns[i], id)
    decreases ns, 0
  {
    if |ns| > 0 {
      DeliveryReaches(ns[0], id);
      DeliveryAllReaches(ns[1..], id);
      if id in DeliveryAll(ns[1..]) {
        var i :| 0 <= i < |ns[1..]| && Reaches(ns[1..][i], id);
        assert Reaches(ns[i + 1], id);
      }
      if exists i :: 0 <= i < |ns| && Reaches(ns[i], id) {
        var i :| 0 <= i < |ns| && Reaches(ns[i], id);
        if i > 0 {
          assert Reaches(ns[1..][i - 1], id);
        }
      }
    }
  }

  /** Children receive the message in bind order: earlier siblings' handlers all run first. */
  lemma {:induction false} SiblingsInBindOrder(ns: seq<Node>, k: nat)
    requires k <= |ns|
    ensures DeliveryAll(ns) == DeliveryAll(ns[..k]) + DeliveryAll(ns[k..])
    decreases k
  {
    if k > 0 {
      SiblingsInBindOrder(ns[1..], k - 1);
      assert ns[..k][1..] == ns[1..][..k - 1];
      assert ns[k..] == ns[1..][k - 1..];
    }
  }
}

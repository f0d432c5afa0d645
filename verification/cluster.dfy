/** The scheduler state the retention strategy reads on one tick: the
    computers of the cluster, the nodes that back them, and the buildable
    items of the queue. Everything here is a read-only snapshot. */
module Cluster {

  /** A possibly absent value; stands for a Java reference that may be null. */
  datatype Option<+T> = None | Some(value: T)

  /** The configuration behind a computer. Only the scheduler's capability
      test looks at it, so its contents are opaque here. */
  datatype Node = Node(nodeName: string)

  /** One computer of the cluster, with the state the decision reads.
      `online` and `connecting` are independent flags: a computer that is
      still connecting is not yet online, hence offline. */
  datatype Computer = Computer(
    name: string,
    online: bool,
    connecting: bool,
    launchSupported: bool,
    partiallyIdle: bool,
    acceptingTasks: bool,
    idle: bool,
    countIdle: int,
    idleStart: int,
    node: Option<Node>)
  {
    predicate IsOffline() { !online }

    /** Online, or on its way to being online. */
    predicate IsActive() { online || connecting }
  }

  /** A buildable queue item; `buildableStart` is in milliseconds. */
  datatype Item = Item(id: nat, buildableStart: int)

  /** The scheduler's capability test: true when the node accepts the item
      (the node's `canTake` gives no rejection reason). */
  type CanTake = (Node, Item) -> bool

  /** A possibly missing node accepts an item only when it is present and
      its capability test accepts the item. */
  predicate NodeTakes(node: Option<Node>, item: Item, canTake: CanTake)
  {
    node.Some? && canTake(node.value, item)
  }
}

/** The kinds of `CyclecloudSlurmError` raised by the core. */
module Errors {
  import Text

  datatype SlurmError =
    | ExistingNodeConflict(partition: string)
    | EmptyTopology
    | NodeMidLifecycle(node: string, status: string)

  /** The text of the error. For a node in transition the text ends with
      " - " and the node's name, which is what callers split on. */
  function Message(e: SlurmError): (m: string)
    ensures e.NodeMidLifecycle? ==>
      |m| >= |e.node| + 3 && m[|m| - |e.node| - 3..] == " - " + e.node
  {
    match e
    case ExistingNodeConflict(partition) =>
      "Nodes of partition " + partition
        + " already exist. Use the AllowExisting policy to create the remaining nodes."
    case EmptyTopology => "No nodes found to create the topology"
    case NodeMidLifecycle(node, status) =>
      "Cannot apply changes while a node is " + status + " - " + node
  }
}

/** The kinds of node in the entity tree (NodeType) and their display names. */
module NodeTypes {

  /** The four entity kinds; NONE marks the group nodes of the tree. */
  datatype NodeType = QUEUE | TOPIC | SUBSCRIPTION | NONE

  /** NodeType.getName: the display name fixed by each constant. */
  function Name(t: NodeType): (r: string)
    ensures t == QUEUE <==> r == "Queue"
    ensures t == TOPIC <==> r == "Topic"
    ensures t == SUBSCRIPTION <==> r == "Subscription"
    ensures t == NONE <==> r == "None"
  {
    match t
    case QUEUE => "Queue"
    case TOPIC => "Topic"
    case SUBSCRIPTION => "Subscription"
    case NONE => "None"
  }

  /** No two kinds share a display name, so the name identifies the kind. */
  lemma NamesDistinct(a: NodeType, b: NodeType)
    ensures Name(a) == Name(b) <==> a == b
  {
  }
}

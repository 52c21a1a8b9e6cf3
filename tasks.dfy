/**
 * The board's task record, `PriorityTasks`: three named, ordered buckets of
 * task labels. The record is generic in the bucket type so that the same
 * shape describes both the board state (buckets of strings) and the value the
 * response merge builds (buckets holding whatever JSON value the model sent).
 */
module Tasks {

  /** The three buckets, in the order the record literal declares them. */
  datatype Priority = High | Medium | Low

  /** `Object.keys` of the record: high, medium, low. */
  const Keys: seq<Priority> := [High, Medium, Low]

  /** Position of a bucket in `Keys`. */
  function Rank(p: Priority): (r: nat)
    ensures r < |Keys| && Keys[r] == p
  {
    match p
    case High => 0
    case Medium => 1
    case Low => 2
  }

  /** The property name under which a bucket is stored. */
  function KeyName(p: Priority): string
  {
    match p
    case High => "highPriority"
    case Medium => "mediumPriority"
    case Low => "lowPriority"
  }

  datatype PriorityTasks<B> = PriorityTasks(highPriority: B, mediumPriority: B, lowPriority: B)
  {
    /** `record[key]` */
    function Get(p: Priority): B
    {
      match p
      case High => highPriority
      case Medium => mediumPriority
      case Low => lowPriority
    }

    /** `record[key] = b` on a copy: one bucket replaced, the other two kept. */
    function With(p: Priority, b: B): (r: PriorityTasks<B>)
      ensures r.Get(p) == b
      ensures forall q :: q != p ==> r.Get(q) == Get(q)
    {
      match p
      case High => this.(highPriority := b)
      case Medium => this.(mediumPriority := b)
      case Low => this.(lowPriority := b)
    }
  }

  /** The board state: every bucket a sequence of task labels. */
  type TaskSet = PriorityTasks<seq<string>>

  /** The board the page starts with: three empty buckets. */
  const NoTasks: TaskSet := PriorityTasks([], [], [])
}

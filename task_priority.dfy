/** `TaskPriority` (src/threadpool_impl/task_priority.rs): the thread pool's own
    priority scale, with an extra lowest level `Wait`, and the conversion
    `From<Priority>`. */
module TaskPriorities {
  import opened Common
  import opened Priorities

  datatype TaskPriority = Wait | Background | Low | Utility | Medium | High | UserInitiated

  /** Declaration index, which the derived `Ord` compares. */
  function Rank(t: TaskPriority): (n: nat)
    ensures n <= 6
    ensures n == 0 <==> t == Wait
  {
    match t
    case Wait => 0
    case Background => 1
    case Low => 2
    case Utility => 3
    case Medium => 4
    case High => 5
    case UserInitiated => 6
  }

  /** The derived `Ord::cmp`. */
  function Cmp(a: TaskPriority, b: TaskPriority): (r: Ordering)
    ensures r == Equal <==> a == b
    ensures r == Less <==> Rank(a) < Rank(b)
  {
    CompareNat(Rank(a), Rank(b))
  }

  /** `impl From<Priority> for TaskPriority`: each variant maps to its namesake,
      one rank above its discriminant, and never to `Wait`. */
  function FromPriority(p: Priority): (t: TaskPriority)
    ensures t != Wait
    ensures Rank(t) == Discriminant(p) + 1
  {
    match p
    case BACKGROUND => Background
    case LOW => Low
    case UTILITY => Utility
    case MEDIUM => Medium
    case HIGH => High
    case USERINITIATED => UserInitiated
  }

  /** The conversion is strictly monotone, hence order-preserving and injective. */
  lemma FromPriorityMonotone(a: Priority, b: Priority)
    ensures Lt(a, b) <==> Cmp(FromPriority(a), FromPriority(b)) == Less
    ensures Priorities.Cmp(a, b) == Cmp(FromPriority(a), FromPriority(b))
    ensures FromPriority(a) == FromPriority(b) ==> a == b
  {
  }

  /** `Wait` is below every other level. */
  lemma WaitIsLeast(t: TaskPriority)
    ensures Cmp(Wait, t) != Greater
    ensures t != Wait ==> Cmp(Wait, t) == Less
  {
  }

  /** The default `Priority` becomes `TaskPriority::Medium`. */
  lemma DefaultIsMedium()
    ensures FromPriority(Default()) == Medium
  {
  }
}

/**
 * The parts of the Kubernetes scheduler framework that the plugin relies on:
 * the tri-state Status it reports and the NodeScore entries of a score list.
 */
module Framework {

  /** Lowest and highest score a score plugin may report after normalisation. */
  const MinNodeScore: int := 0
  const MaxNodeScore: int := 100

  /** The status codes the plugin uses. A nil status reads as Success. */
  datatype Code = Success | Error | Unschedulable

  /** A framework status: a code and its (single) reason. */
  datatype Status = Status(code: Code, message: string)

  /** A nil status, as the framework reads it. */
  const NilStatus: Status := Status(Success, "")

  /** One entry of a NodeScoreList: a node's name and its score. */
  datatype NodeScore = NodeScore(name: string, score: int)
}

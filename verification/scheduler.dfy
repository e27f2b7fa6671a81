/**
 * The CustomScheduler plugin: mode resolution at construction (New), the
 * podGroup quorum gate (PreFilter), the memory-based raw score (Score) and the
 * min-max rescaling of a node score list (NormalizeScore).
 *
 * The cluster lookups are inputs: the pod lister's answer is a Snapshot of
 * the cached pods (or the lister's error), and a node lookup is the node's
 * allocatable memory (or the lookup error).
 */
module Plugins {
  import opened Wrappers
  import opened Framework
  import opened GoInt
  import opened Strconv

  const GroupNameLabel: string := "podGroup"
  const MinAvailableLabel: string := "minAvailable"
  const LeastMode: string := "Least"
  const MostMode: string := "Most"

  /** A configured plugin: the score mode it was constructed with. */
  datatype CustomScheduler = CustomScheduler(scoreMode: string)

  /**
   * What json.Unmarshal left in CustomSchedulerArgs, and its error if it
   * failed: the mode field keeps whatever was decoded before the failure
   * (the empty string when nothing was).
   */
  datatype Args = Args(mode: string, decodeError: Option<string>)

  predicate ValidMode(mode: string) {
    mode == LeastMode || mode == MostMode
  }

  // ---------------------------------------------------------------------
  // New: mode resolution
  // ---------------------------------------------------------------------

  /**
   * New(obj): no configuration object means Least; otherwise the decoded mode,
   * which must be Least or Most. A decode error is only reported on stdout.
   */
  function New(obj: Option<Args>): (r: Result<CustomScheduler, string>)
    ensures obj.None? ==> r == Ok(CustomScheduler(LeastMode))
    ensures obj.Some? ==> (r.Ok? <==> ValidMode(obj.value.mode))
    ensures r.Ok? ==> ValidMode(r.value.scoreMode)
    ensures r.Ok? && obj.Some? ==> r.value.scoreMode == obj.value.mode
    ensures r.Err? ==> obj.Some? && r.error == "invalid mode, got " + obj.value.mode
  {
    match obj
    case None => Ok(CustomScheduler(LeastMode))
    case Some(args) =>
      var mode := args.mode;
      if mode != LeastMode && mode != MostMode then Err("invalid mode, got " + mode)
      else Ok(CustomScheduler(mode))
  }

  /**
   * A supplied configuration is never replaced by the default: it yields the
   * plugin New(nil) yields exactly when it asks for Least itself.
   */
  lemma NewDefaultOnlyWhenAsked(a: Args)
    ensures New(Some(a)) == New(None) <==> a.mode == LeastMode
  {
  }

  /** The decode error itself never decides the outcome: only the decoded mode does. */
  lemma NewIgnoresDecodeError(mode: string, e: string)
    ensures New(Some(Args(mode, Some(e)))) == New(Some(Args(mode, None)))
  {
  }

  // ---------------------------------------------------------------------
  // PreFilter: group quorum
  // ---------------------------------------------------------------------

  datatype Pod = Pod(name: string, namespace: string, labels: map<string, string>)

  /**
   * The pod lister's view for one PreFilter call: the cached pods, or the
   * error List returned.
   */
  datatype Snapshot = Snapshot(pods: seq<Pod>, listError: Option<string>)

  /** A Go map lookup: the empty string for a missing key. */
  function LabelValue(labels: map<string, string>, key: string): (v: string)
    ensures key !in labels ==> v == ""
    ensures key in labels ==> v == labels[key]
  {
    if key in labels then labels[key] else ""
  }

  /**
   * Selected by Pods(namespace).List(podGroup=group). The empty namespace is
   * NamespaceAll: the lister then lists the pods of every namespace. An
   * equality selector matches only pods that carry the label, so a pod
   * without it is never selected, not even for the empty group name,
   * although the map lookup reads its label as empty.
   */
  function InGroup(p: Pod, namespace: string, group: string): (b: bool)
    ensures b ==> (namespace == "" || p.namespace == namespace) && LabelValue(p.labels, GroupNameLabel) == group
    ensures GroupNameLabel !in p.labels ==> !b
    ensures (namespace == "" || p.namespace == namespace) && GroupNameLabel in p.labels && LabelValue(p.labels, GroupNameLabel) == group ==> b
  {
    (namespace == "" || p.namespace == namespace) && GroupNameLabel in p.labels && p.labels[GroupNameLabel] == group
  }

  /**
   * The lister's answer to Pods(namespace).List(podGroup=group): each cached
   * pod the selector matches, as often as it is cached, and no other pod.
   */
  function GroupMembers(pods: seq<Pod>, namespace: string, group: string): (r: seq<Pod>)
    ensures forall p :: multiset(r)[p] == if InGroup(p, namespace, group) then multiset(pods)[p] else 0
    ensures |r| <= |pods|
  {
    if pods == [] then []
    else
      var rest := GroupMembers(pods[1..], namespace, group);
      assert pods == [pods[0]] + pods[1..];
      if InGroup(pods[0], namespace, group) then [pods[0]] + rest else rest
  }

  /** The quorum decision of PreFilter, the CycleState and the logging left out. */
  function PreFilter(pod: Pod, cluster: Snapshot): (r: Status)
    ensures r.code == Unschedulable ==> r.message == "not enough pods in the group"
    ensures r.code != Success ==> GroupNameLabel in pod.labels
  {
    var minAvailable := LabelValue(pod.labels, MinAvailableLabel);
    if GroupNameLabel !in pod.labels then Status(Success, "no group label")
    else
      var group := pod.labels[GroupNameLabel];
      match cluster.listError
      case Some(e) => Status(Error, e)
      case None =>
        var pods := GroupMembers(cluster.pods, pod.namespace, group);
        var minAvailableInt := Atoi(minAvailable).value;
        if |pods| < minAvailableInt then Status(Unschedulable, "not enough pods in the group")
        else Status(Success, "")
  }

  /** A pod without the podGroup label is admitted, whatever the cluster holds. */
  lemma PreFilterUngrouped(pod: Pod, cluster: Snapshot)
    requires GroupNameLabel !in pod.labels
    ensures PreFilter(pod, cluster) == Status(Success, "no group label")
  {
  }

  /** A failing lister fails the cycle with the lister's error text. */
  lemma PreFilterListFailure(pod: Pod, cluster: Snapshot)
    requires GroupNameLabel in pod.labels && cluster.listError.Some?
    ensures PreFilter(pod, cluster) == Status(Error, cluster.listError.value)
  {
  }

  /**
   * With a podGroup label and a working lister, the pod is rejected exactly
   * when fewer group members are cached than the parsed minAvailable, and
   * admitted otherwise; it is never an error.
   */
  lemma PreFilterQuorum(pod: Pod, cluster: Snapshot)
    requires GroupNameLabel in pod.labels && cluster.listError.None?
    ensures var members := GroupMembers(cluster.pods, pod.namespace, pod.labels[GroupNameLabel]);
            var need := Atoi(LabelValue(pod.labels, MinAvailableLabel)).value;
            PreFilter(pod, cluster) ==
              if |members| < need then Status(Unschedulable, "not enough pods in the group")
              else Status(Success, "")
  {
  }

  /**
   * A minAvailable label that is the decimal form of m makes m the quorum:
   * m - 1 cached members reject the pod, m members admit it.
   */
  lemma PreFilterThreshold(pod: Pod, cluster: Snapshot, m: int)
    requires GroupNameLabel in pod.labels && cluster.listError.None?
    requires MinInt64 <= m <= MaxInt64
    requires MinAvailableLabel in pod.labels && pod.labels[MinAvailableLabel] == Itoa(m)
    ensures var members := GroupMembers(cluster.pods, pod.namespace, pod.labels[GroupNameLabel]);
            PreFilter(pod, cluster).code == if |members| < m then Unschedulable else Success
  {
    AtoiItoa(m);
  }

  /**
   * A minAvailable label that is a decimal numeral within int64, leading
   * zeros and a sign allowed ("03", "+3"), makes its value the quorum.
   */
  lemma PreFilterNumeral(pod: Pod, cluster: Snapshot)
    requires GroupNameLabel in pod.labels && cluster.listError.None?
    requires MinAvailableLabel in pod.labels && Numeral(pod.labels[MinAvailableLabel])
    requires MinInt64 <= Signed(pod.labels[MinAvailableLabel]) <= MaxInt64
    ensures var members := GroupMembers(cluster.pods, pod.namespace, pod.labels[GroupNameLabel]);
            PreFilter(pod, cluster).code ==
              if |members| < Signed(pod.labels[MinAvailableLabel]) then Unschedulable else Success
  {
  }

  /**
   * A grouped pod whose minAvailable label is missing, or malformed (nothing
   * after the sign, or text such as "3pods" that reaches a non-digit before
   * its digits overflow), has quorum 0 and is admitted once the lister answers.
   */
  lemma PreFilterWithoutThreshold(pod: Pod, cluster: Snapshot)
    requires GroupNameLabel in pod.labels && cluster.listError.None?
    requires MinAvailableLabel !in pod.labels || Malformed(pod.labels[MinAvailableLabel])
    ensures PreFilter(pod, cluster) == Status(Success, "")
  {
  }

  /**
   * A minAvailable label whose leading digits overflow uint64 reads as
   * MaxInt64 whatever follows them, so the pod is always rejected.
   */
  lemma PreFilterOverflowingThreshold(pod: Pod, cluster: Snapshot, digits: string, tail: string)
    requires GroupNameLabel in pod.labels && cluster.listError.None?
    requires |cluster.pods| < MaxInt64
    requires AllDigits(digits) && Value(digits) > MaxUint64
    requires MinAvailableLabel in pod.labels && pod.labels[MinAvailableLabel] == digits + tail
    ensures PreFilter(pod, cluster) == Status(Unschedulable, "not enough pods in the group")
  {
    AtoiOverflowBeforeSyntax(digits, tail);
  }

  /** Listing a longer cache counts the group members of both parts. */
  lemma {:induction false} GroupMembersAppend(a: seq<Pod>, b: seq<Pod>, namespace: string, group: string)
    ensures |GroupMembers(a + b, namespace, group)| ==
            |GroupMembers(a, namespace, group)| + |GroupMembers(b, namespace, group)|
  {
    if a == [] {
      assert a + b == b;
    } else {
      assert (a + b)[0] == a[0] && (a + b)[1..] == a[1..] + b;
      var head := if InGroup(a[0], namespace, group) then 1 else 0;
      assert |GroupMembers(a + b, namespace, group)| == head + |GroupMembers(a[1..] + b, namespace, group)|;
      assert |GroupMembers(a, namespace, group)| == head + |GroupMembers(a[1..], namespace, group)|;
      GroupMembersAppend(a[1..], b, namespace, group);
    }
  }

  /** Once admitted, a pod stays admitted as more pods reach the lister's cache. */
  lemma PreFilterMonotone(pod: Pod, before: seq<Pod>, arrived: seq<Pod>)
    requires PreFilter(pod, Snapshot(before, None)).code == Success
    ensures PreFilter(pod, Snapshot(before + arrived, None)).code == Success
  {
    if GroupNameLabel in pod.labels {
      GroupMembersAppend(before, arrived, pod.namespace, pod.labels[GroupNameLabel]);
    }
  }

  // ---------------------------------------------------------------------
  // Score: memory-based raw score
  // ---------------------------------------------------------------------

  /** The raw score of a node and the status beside it. */
  datatype ScoreResult = ScoreResult(score: Int64, status: Status)

  /**
   * Go's int64 negation: the two's-complement negation, the one int64 equal
   * to -x modulo 2^64, which wraps MinInt64 onto itself.
   */
  function Neg64(x: Int64): (r: Int64)
    ensures (r + x) % 0x1_0000_0000_0000_0000 == 0
    ensures x != MinInt64 ==> r + x == 0
    ensures x == MinInt64 ==> r == MinInt64
  {
    if x == MinInt64 then MinInt64 else -x
  }

  /**
   * Score for one node, given the node's allocatable memory in bytes (or the
   * error the node lookup returned): minus the memory in Least mode, the memory
   * in Most mode, 0 in any other mode.
   */
  function Score(cs: CustomScheduler, node: Result<Int64, string>): (r: ScoreResult)
    ensures r.status.code == Error <==> node.Err?
    ensures node.Err? ==> r == ScoreResult(0, Status(Error, node.error))
    ensures node.Ok? ==> r.status == NilStatus
  {
    match node
    case Err(e) => ScoreResult(0, Status(Error, e))
    case Ok(memory) =>
      if cs.scoreMode == LeastMode then ScoreResult(Neg64(memory), NilStatus)
      else if cs.scoreMode == MostMode then ScoreResult(memory, NilStatus)
      else ScoreResult(0, NilStatus)
  }

  /**
   * Least mode ranks the node with less memory higher, Most mode the node with
   * more memory; any other mode ranks all nodes alike.
   */
  lemma ScoreOrder(cs: CustomScheduler, a: Int64, b: Int64)
    requires 0 <= a < b
    ensures cs.scoreMode == LeastMode ==> Score(cs, Ok(a)).score > Score(cs, Ok(b)).score
    ensures cs.scoreMode == MostMode ==> Score(cs, Ok(a)).score < Score(cs, Ok(b)).score
    ensures !ValidMode(cs.scoreMode) ==> Score(cs, Ok(a)).score == Score(cs, Ok(b)).score == 0
  {
  }

  /**
   * A plugin that New built never takes the fallback: the score's magnitude is
   * the node's memory, negative in Least mode and positive in Most mode.
   */
  lemma ScoreOfConstructedPlugin(obj: Option<Args>, memory: Int64)
    requires New(obj).Ok? && 0 <= memory
    ensures var s := Score(New(obj).value, Ok(memory)).score;
            if New(obj).value.scoreMode == LeastMode then s == -memory else s == memory
  {
  }

  // ---------------------------------------------------------------------
  // NormalizeScore: min-max rescaling onto [MinNodeScore, MaxNodeScore]
  // ---------------------------------------------------------------------

  /** The lowest score of a non-empty list, as a left-to-right scan finds it. */
  function MinScore(s: seq<NodeScore>): (m: int)
    requires |s| > 0
    ensures forall i :: 0 <= i < |s| ==> m <= s[i].score
    ensures exists i :: 0 <= i < |s| && s[i].score == m
  {
    if |s| == 1 then s[0].score
    else
      var m := MinScore(s[..|s| - 1]);
      assert forall i :: 0 <= i < |s| - 1 ==> s[..|s| - 1][i] == s[i];
      if s[|s| - 1].score < m then s[|s| - 1].score else m
  }

  /** The highest score of a non-empty list, as a left-to-right scan finds it. */
  function MaxScore(s: seq<NodeScore>): (m: int)
    requires |s| > 0
    ensures forall i :: 0 <= i < |s| ==> s[i].score <= m
    ensures exists i :: 0 <= i < |s| && s[i].score == m
  {
    if |s| == 1 then s[0].score
    else
      var m := MaxScore(s[..|s| - 1]);
      assert forall i :: 0 <= i < |s| - 1 ==> s[..|s| - 1][i] == s[i];
      if s[|s| - 1].score > m then s[|s| - 1].score else m
  }

  /**
   * The new score of a raw score x in [lo, hi]: the midpoint when the range is
   * a single point, the linear image otherwise. Every operand is non-negative,
   * so Dafny's division agrees with Go's truncating one here.
   */
  function Rescale(x: int, lo: int, hi: int): (r: int)
    requires lo <= x <= hi
    ensures MinNodeScore <= r <= MaxNodeScore
  {
    if lo == hi then (MinNodeScore + MaxNodeScore) / 2
    else
      MulLe(MaxNodeScore, x - lo, hi - lo);
      DivMonotone((x - lo) * MaxNodeScore, (hi - lo) * MaxNodeScore, hi - lo);
      DivCancel(hi - lo, MaxNodeScore);
      (x - lo) * (MaxNodeScore - MinNodeScore) / (hi - lo) + MinNodeScore
  }

  /** The score list NormalizeScore leaves behind. */
  function Normalize(s: seq<NodeScore>): (r: seq<NodeScore>)
    ensures |r| == |s|
    ensures forall i :: 0 <= i < |s| ==> r[i].name == s[i].name
  {
    if s == [] then []
    else
      var lo, hi := MinScore(s), MaxScore(s);
      seq(|s|, i requires 0 <= i < |s| => s[i].(score := Rescale(s[i].score, lo, hi)))
  }

  /** Entry i of the normalised list: entry i of the input with its score rescaled. */
  lemma NormalizeAt(s: seq<NodeScore>, i: int)
    requires 0 <= i < |s|
    ensures MinScore(s) <= s[i].score <= MaxScore(s)
    ensures Normalize(s)[i] == s[i].(score := Rescale(s[i].score, MinScore(s), MaxScore(s)))
  {
  }

  /**
   * The inputs on which Go's int64 arithmetic in NormalizeScore cannot
   * overflow: int64 scores whose spread times the valid range fits in int64.
   */
  predicate FitsInt64(s: seq<NodeScore>) {
    (forall i :: 0 <= i < |s| ==> MinInt64 <= s[i].score <= MaxInt64) &&
    (forall i, j :: 0 <= i < |s| && 0 <= j < |s| ==>
       (s[i].score - s[j].score) * (MaxNodeScore - MinNodeScore) <= MaxInt64)
  }

  /** The min/max scan at the start of NormalizeScore. */
  method ScoreBounds(scores: array<NodeScore>) returns (lo: int, hi: int)
    requires scores.Length > 0
    ensures lo == MinScore(scores[..]) && hi == MaxScore(scores[..])
  {
    lo, hi := scores[0].score, scores[0].score;
    var i := 0;
    while i < scores.Length
      invariant 0 <= i <= scores.Length
      invariant i == 0 ==> lo == hi == scores[0].score
      invariant i > 0 ==> lo == MinScore(scores[..i]) && hi == MaxScore(scores[..i])
    {
      assert scores[..i + 1][..i] == scores[..i];
      if scores[i].score < lo {
        lo := scores[i].score;
      }
      if scores[i].score > hi {
        hi := scores[i].score;
      }
      i := i + 1;
    }
    assert scores[..scores.Length] == scores[..];
  }

  /**
   * NormalizeScore rewrites the scores of the list in place; names and order
   * stay. An empty list is left alone with its own Success message.
   */
  method NormalizeScore(scores: array<NodeScore>) returns (status: Status)
    requires FitsInt64(scores[..])
    modifies scores
    ensures scores[..] == Normalize(old(scores[..]))
    ensures status == if scores.Length == 0 then Status(Success, "No scores to normalize") else Status(Success, "")
  {
    if scores.Length == 0 {
      return Status(Success, "No scores to normalize");
    }
    var minScore, maxScore := ScoreBounds(scores);
    ghost var raw := scores[..];
    assert forall k :: 0 <= k < |raw| ==> minScore <= raw[k].score <= maxScore;

    if minScore == maxScore {
      FillMidpoint(scores);
      ghost var done := scores[..];
      assert forall k :: 0 <= k < |raw| ==> done[k] == raw[k].(score := Rescale(raw[k].score, minScore, maxScore));
      NormalizeEach(raw, done);
      return Status(Success, "");
    }

    RescaleInPlace(scores, minScore, maxScore);
    ghost var done := scores[..];
    assert forall k :: 0 <= k < |raw| ==> done[k] == raw[k].(score := Rescale(raw[k].score, minScore, maxScore));
    NormalizeEach(raw, done);
    return Status(Success, "");
  }

  /** The loop of NormalizeScore for equal scores: every score becomes the midpoint. */
  method FillMidpoint(scores: array<NodeScore>)
    modifies scores
    ensures forall k :: 0 <= k < scores.Length ==>
              scores[k] == old(scores[k]).(score := (MinNodeScore + MaxNodeScore) / 2)
  {
    var i := 0;
    while i < scores.Length
      invariant 0 <= i <= scores.Length
      invariant forall k :: 0 <= k < i ==> scores[k] == old(scores[k]).(score := (MinNodeScore + MaxNodeScore) / 2)
      invariant forall k :: i <= k < scores.Length ==> scores[k] == old(scores[k])
    {
      scores[i] := scores[i].(score := (MinNodeScore + MaxNodeScore) / 2);
      i := i + 1;
    }
  }

  /**
   * The last loop of NormalizeScore: every score s in [minScore, maxScore]
   * becomes (s - minScore) * validRange / scoreRange + validMin.
   */
  method RescaleInPlace(scores: array<NodeScore>, minScore: int, maxScore: int)
    requires minScore < maxScore
    requires forall k :: 0 <= k < scores.Length ==> minScore <= scores[k].score <= maxScore
    modifies scores
    ensures forall k :: 0 <= k < scores.Length ==>
              scores[k] == old(scores[k]).(score := Rescale(old(scores[k]).score, minScore, maxScore))
  {
    var scoreRange := maxScore - minScore;
    var validRange := MaxNodeScore - MinNodeScore;
    var i := 0;
    while i < scores.Length
      invariant 0 <= i <= scores.Length
      invariant forall k :: 0 <= k < i ==> scores[k] == old(scores[k]).(score := Rescale(old(scores[k]).score, minScore, maxScore))
      invariant forall k :: i <= k < scores.Length ==> scores[k] == old(scores[k])
    {
      RescaleStep(scores[i].score, minScore, maxScore, validRange, scoreRange);
      scores[i] := scores[i].(score := (scores[i].score - minScore) * validRange / scoreRange + MinNodeScore);
      i := i + 1;
    }
  }

  /** The loop's expression, with Go's local names, is Rescale. */
  lemma RescaleStep(x: int, lo: int, hi: int, validRange: int, scoreRange: int)
    requires lo < hi && lo <= x <= hi
    requires validRange == MaxNodeScore - MinNodeScore && scoreRange == hi - lo
    ensures (x - lo) * validRange / scoreRange + MinNodeScore == Rescale(x, lo, hi)
  {
  }

  /** A list rescaled entry by entry with the list's own bounds is its normalisation. */
  lemma NormalizeEach(s: seq<NodeScore>, r: seq<NodeScore>)
    requires |s| > 0 && |r| == |s|
    requires forall k :: 0 <= k < |s| ==> MinScore(s) <= s[k].score <= MaxScore(s) &&
                                          r[k] == s[k].(score := Rescale(s[k].score, MinScore(s), MaxScore(s)))
    ensures r == Normalize(s)
  {
    forall k | 0 <= k < |s|
      ensures r[k] == Normalize(s)[k]
    {
      NormalizeAt(s, k);
    }
  }

  /** Multiplying by a non-negative number keeps order. */
  lemma MulLe(c: nat, x: int, y: int)
    requires x <= y
    ensures c * x <= c * y
  {
    assert c * y - c * x == c * (y - x);
  }

  /** Integer division by a positive number is monotone. */
  lemma DivMonotone(a: int, b: int, c: int)
    requires 0 <= a <= b && 0 < c
    ensures a / c <= b / c
  {
    var qa, qb := a / c, b / c;
    assert c * qa <= a by { assert a == c * qa + a % c; }
    assert b < c * qb + c by { assert b == c * qb + b % c; }
    if qa > qb {
      MulLe(c, qb + 1, qa);
    }
  }

  /** Dividing k * m by k gives m back. */
  lemma DivCancel(k: int, m: int)
    requires k > 0
    ensures (k * m) / k == m
  {
    var q := (k * m) / k;
    assert k * m == k * q + (k * m) % k;
    assert k * (m - q) == (k * m) % k;
    if q < m {
      MulLe(k, 1, m - q);
    }
  }

  /** The linear image of [lo, hi] is [MinNodeScore, MaxNodeScore], ends to ends. */
  lemma RescaleEnds(x: int, lo: int, hi: int)
    requires lo <= x <= hi
    ensures lo < hi && x == lo ==> Rescale(x, lo, hi) == MinNodeScore
    ensures lo < hi && x == hi ==> Rescale(x, lo, hi) == MaxNodeScore
  {
    if lo < hi {
      DivCancel(hi - lo, MaxNodeScore);
    }
  }

  /** Every normalised score lies in [MinNodeScore, MaxNodeScore]. */
  lemma NormalizeInRange(s: seq<NodeScore>)
    ensures forall i :: 0 <= i < |s| ==> MinNodeScore <= Normalize(s)[i].score <= MaxNodeScore
  {
    forall i | 0 <= i < |s|
      ensures MinNodeScore <= Normalize(s)[i].score <= MaxNodeScore
    {
      assert Normalize(s)[i].score == Rescale(s[i].score, MinScore(s), MaxScore(s));
    }
  }

  /** A list whose scores are all equal becomes a list of midpoints, 50 each. */
  lemma NormalizeUniform(s: seq<NodeScore>)
    requires forall i, j :: 0 <= i < |s| && 0 <= j < |s| ==> s[i].score == s[j].score
    ensures forall i :: 0 <= i < |s| ==> Normalize(s)[i].score == (MinNodeScore + MaxNodeScore) / 2 == 50
  {
    if s != [] {
      assert MinScore(s) == s[0].score == MaxScore(s);
    }
  }

  /** When the scores differ, a lowest score maps to 0 and a highest to MaxNodeScore. */
  lemma NormalizeEnds(s: seq<NodeScore>, i: int)
    requires 0 <= i < |s| && MinScore(s) < MaxScore(s)
    ensures s[i].score == MinScore(s) ==> Normalize(s)[i].score == MinNodeScore
    ensures s[i].score == MaxScore(s) ==> Normalize(s)[i].score == MaxNodeScore
  {
    RescaleEnds(s[i].score, MinScore(s), MaxScore(s));
  }

  /** Normalisation keeps the order of scores: raw a <= raw b gives new a <= new b. */
  lemma NormalizeMonotone(s: seq<NodeScore>, i: int, j: int)
    requires 0 <= i < |s| && 0 <= j < |s| && s[i].score <= s[j].score
    ensures Normalize(s)[i].score <= Normalize(s)[j].score
  {
    var lo, hi := MinScore(s), MaxScore(s);
    if lo < hi {
      DivMonotone((s[i].score - lo) * MaxNodeScore, (s[j].score - lo) * MaxNodeScore, hi - lo);
    }
  }

  /**
   * The bounds of a normalised list: both the midpoint when the scores were
   * equal, MinNodeScore and MaxNodeScore otherwise.
   */
  lemma NormalizedBounds(s: seq<NodeScore>)
    requires s != []
    ensures var r := Normalize(s);
            if MinScore(s) == MaxScore(s) then MinScore(r) == MaxScore(r) == (MinNodeScore + MaxNodeScore) / 2
            else MinScore(r) == MinNodeScore && MaxScore(r) == MaxNodeScore
  {
    var r := Normalize(s);
    NormalizeInRange(s);
    var lo, hi := MinScore(s), MaxScore(s);
    if lo == hi {
      assert r[0].score == (MinNodeScore + MaxNodeScore) / 2;
    } else {
      var a :| 0 <= a < |s| && s[a].score == lo;
      var b :| 0 <= b < |s| && s[b].score == hi;
      NormalizeEnds(s, a);
      NormalizeEnds(s, b);
    }
  }

  /** Normalising a normalised list changes nothing. */
  lemma NormalizeIdempotent(s: seq<NodeScore>)
    ensures Normalize(Normalize(s)) == Normalize(s)
  {
    var r := Normalize(s);
    if s != [] {
      NormalizedBounds(s);
      NormalizeInRange(s);
      forall i | 0 <= i < |r|
        ensures Normalize(r)[i] == r[i]
      {
        NormalizeAt(r, i);
        if MinScore(r) < MaxScore(r) {
          DivCancel(MaxNodeScore, r[i].score);
        }
      }
    }
  }

  /** On every list FitsInt64 admits, no intermediate value leaves int64. */
  lemma NormalizeNoOverflow(s: seq<NodeScore>, i: int)
    requires FitsInt64(s) && 0 <= i < |s|
    ensures 0 <= (s[i].score - MinScore(s)) * (MaxNodeScore - MinNodeScore) <= MaxInt64
    ensures 0 <= MaxScore(s) - MinScore(s) <= MaxInt64
  {
    var a :| 0 <= a < |s| && s[a].score == MinScore(s);
    var b :| 0 <= b < |s| && s[b].score == MaxScore(s);
    assert (s[b].score - s[a].score) * 100 <= MaxInt64;
    assert (s[i].score - s[a].score) * 100 <= MaxInt64;
  }
}

# CustomScheduler plugin, modelled in Dafny

A model of `CustomScheduler`, a Kubernetes scheduler-framework plugin with four
decisions:

- **New** resolves the score mode. No configuration object means `Least`. A
  configuration object must decode to mode `Least` or `Most`, otherwise
  construction fails with `invalid mode, got <mode>`.
- **PreFilter** is a gang-style quorum gate. A pod without the `podGroup` label is
  admitted. Otherwise the pod lister is asked for the pods in the pod's namespace
  (in every namespace when the pod's namespace is empty, the lister's
  `NamespaceAll`) whose `podGroup` label has the same value. A lister error is an `Error` status.
  Fewer such pods than the `minAvailable` label (read with Go's `strconv.Atoi`)
  give `Unschedulable` with `not enough pods in the group`. Anything else is
  `Success`.
- **Score** gives a node's raw score from its allocatable memory: the negated
  memory in `Least` mode, the memory in `Most` mode, 0 in any other mode. A node
  lookup error gives score 0 with an `Error` status.
- **NormalizeScore** rescales the node score list in place onto
  `[0, MaxNodeScore]` (`MaxNodeScore` = 100). It scans for the minimum and
  maximum. If they are equal, every score becomes `(0 + 100) / 2 = 50`.
  Otherwise each score `s` becomes `(s - min) * 100 / (max - min)`.

Files:

- `wrappers.dfy`: `Option` and `Result`.
- `goint.dfy`: Go's int64 and uint64 bounds and the `Int64` type.
- `framework.dfy`: the status codes and `Status`, `NodeScore`, `MinNodeScore`
  and `MaxNodeScore`.
- `strconv.dfy`: Go's `strconv.ParseUint`, `strconv.Atoi` (value and error
  kind) and `Itoa`, with the round trip between them.
- `scheduler.dfy`: the plugin (module `Plugins`).

The cluster is an input. The pod lister's answer is a `Snapshot`: the cached
pods, or the error `List` returned. A node lookup is a `Result` holding the
node's allocatable memory in bytes, or the lookup error. A nil `*Status` is
modelled as `Status(Success, "")`, which is how the framework reads it.
`New`, `PreFilter` and `Score` are functions of these inputs. So scoring the
same node twice against the same cluster state gives the same score by
construction.

`NormalizeScore` works on an `array<NodeScore>`, as the Go code works on the
caller's slice. Its postcondition ties the new array contents to the
specification function `Normalize` of the old contents. The ranking properties
are lemmas about `Normalize`. The min/max scan is the method `ScoreBounds`. The
two rewriting loops are the methods `FillMidpoint` and `RescaleInPlace`.

Two behaviours of the Go code are worth stating on their own:

- A decode error does not fail construction by itself. The error from
  `json.Unmarshal` is only printed (`pkg/plugins/scheduler.go:48-50`), and
  `csArgs.Mode` is checked anyway. So a payload that reports an error but
  still decoded a valid mode constructs a plugin (`NewIgnoresDecodeError`). A
  payload that decoded no mode fails with `invalid mode, got ` (`New`).
- Of the parse failures, only a syntax error turns `minAvailable` into 0,
  because `strconv.Atoi` returns 0 for those (`pkg/plugins/scheduler.go:86`).
  A range error clamps it to an int64 bound instead, chosen by the sign: MinInt64
  after `-`, MaxInt64 otherwise. `ParseUint` reports an
  overflow as soon as the digits read so far pass 2^64 - 1, before it looks at
  the rest of the string. So a label of twenty-one nines followed by `x` reads
  as MaxInt64, and the pod is always rejected
  (`Strconv.AtoiOverflowBeforeSyntax`, `Plugins.PreFilterOverflowingThreshold`).

## Model

| member | source | states |
|---|---|---|
| `Plugins.New` | pkg/plugins/scheduler.go:42-61 | No config gives mode Least. With a config, construction succeeds iff the decoded mode is Least or Most, and the plugin keeps that mode. Every failure carries `invalid mode, got <mode>`, so a decode that left the mode empty fails with `invalid mode, got `. Every constructed plugin has a valid mode. |
| `Plugins.NewDefaultOnlyWhenAsked` | pkg/plugins/scheduler.go:44-58 | A supplied config yields the same plugin as no config exactly when its mode is Least; it never falls back to the default otherwise. |
| `Plugins.NewIgnoresDecodeError` | pkg/plugins/scheduler.go:48-51 | The decode error never changes the outcome; only the decoded mode does. |
| `Plugins.LabelValue` | pkg/plugins/scheduler.go:74 | A Go map lookup of a label: the label's value when present, the empty string when missing. |
| `Plugins.InGroup` | pkg/plugins/scheduler.go:79-81 | The `podGroup=<value>` equality selector listed in a namespace selects a pod only if the pod is in that namespace (any namespace when the listed namespace is empty, `NamespaceAll`) and its label value matches. A pod without the label is never selected, even for the empty value. A pod in the listed namespace (or any pod, for the empty namespace) that carries the label with the value is selected. |
| `Plugins.GroupMembers` | pkg/plugins/scheduler.go:79-81 | The lister's answer to the `podGroup=<value>` selector in the pod's namespace (in all namespaces when that is empty): each cached pod that matches, with its multiplicity, and no other pod. |
| `Plugins.PreFilter` | pkg/plugins/scheduler.go:64-93 | Unschedulable always carries `not enough pods in the group`. Any status other than Success needs the pod to carry the `podGroup` label. |
| `Plugins.PreFilterUngrouped` | pkg/plugins/scheduler.go:73-77 | A pod without the `podGroup` label gets Success `no group label`, whatever the cluster state. |
| `Plugins.PreFilterListFailure` | pkg/plugins/scheduler.go:81-84 | For a grouped pod, a lister error gives an Error status with the error's text. |
| `Plugins.PreFilterQuorum` | pkg/plugins/scheduler.go:86-92 | For a grouped pod with a working lister, the result is Unschedulable exactly when the group has fewer members than Atoi(minAvailable), and Success otherwise. It is never Error. |
| `Plugins.PreFilterThreshold` | pkg/plugins/scheduler.go:86-89 | A `minAvailable` label written as the decimal form of m makes m the quorum: m - 1 members reject the pod and m members admit it. |
| `Plugins.PreFilterNumeral` | pkg/plugins/scheduler.go:86-92 | A `minAvailable` label that is a decimal numeral within int64, with leading zeros or a sign allowed (`03`, `+3`), makes its value the quorum. |
| `Plugins.PreFilterWithoutThreshold` | pkg/plugins/scheduler.go:73-92 | With a working lister, a grouped pod is admitted when `minAvailable` is missing or malformed: nothing after the sign, or text such as `3pods` that reaches a non-digit before its digits overflow. Its quorum is then 0. |
| `Plugins.PreFilterOverflowingThreshold` | pkg/plugins/scheduler.go:86-88 | A `minAvailable` label whose leading digits overflow uint64 reads as MaxInt64, whatever follows. The pod is then always rejected. |
| `Plugins.GroupMembersAppend` | pkg/plugins/scheduler.go:79-81 | Listing a cache made of two parts counts the group members of each part. |
| `Plugins.PreFilterMonotone` | pkg/plugins/scheduler.go:81-92 | A pod that is admitted stays admitted when more pods reach the lister's cache. |
| `Strconv.Atoi` | pkg/plugins/scheduler.go:86 | The value is always in int64. Every range error gives MinInt64 after a leading `-` and MaxInt64 otherwise, whether or not the rest is a numeral. The error is a syntax error exactly when the string is malformed (nothing after one optional sign, or a non-digit reached before the digits overflow), and the value is then 0. There is no error exactly when the string is a numeral within int64, and the value is then the numeral's signed value. A numeral beyond int64 gives MaxInt64 or MinInt64, by its sign, with a range error. |
| `Strconv.ParseUint` | pkg/plugins/scheduler.go:86 | A string parses exactly when it is a non-empty run of decimal digits denoting at most MaxUint64, and then to that number. It is a syntax error exactly when it is empty or reaches a non-digit while the digits before it stay within MaxUint64. Any leading digits that pass MaxUint64 make it a range error, whatever follows. |
| `Strconv.ScanUintSyntax` | pkg/plugins/scheduler.go:86 | A non-digit reached while the digits before it stay within MaxUint64 makes the digit loop a syntax error, whatever follows. |
| `Strconv.ScanUintSyntaxAt` | pkg/plugins/scheduler.go:86 | A digit loop that ends in a syntax error stopped at a non-digit reached before the digits overflowed. |
| `Strconv.ScanUintSyntaxIff` | pkg/plugins/scheduler.go:86 | The digit loop from zero is a syntax error exactly when the string reaches a non-digit before its digits pass MaxUint64. |
| `Strconv.ScanUintPrefixOverflow` | pkg/plugins/scheduler.go:86 | Leading digits that pass MaxUint64 make the digit loop from zero a range error, whatever follows. |
| `Strconv.AtoiExamples` | pkg/plugins/scheduler.go:86 | `3pods` reads as 0 with a syntax error; `03` and `+3` read as 3 with no error. |
| `Strconv.ScanUintParsed` | pkg/plugins/scheduler.go:86 | A digit loop that parses has read only digits and yields their value after the accumulator. |
| `Strconv.ScanUintFromZero` | pkg/plugins/scheduler.go:86 | The digit loop from zero parses exactly the runs of digits within MaxUint64, and to their value. |
| `Strconv.ScanUint` | pkg/plugins/scheduler.go:86 | Every value the digit loop accepts is at most MaxUint64. |
| `Strconv.ScanUintValue` | pkg/plugins/scheduler.go:86 | On decimal digits that do not overflow, the digit loop yields the number they denote. |
| `Strconv.ScanUintOverflow` | pkg/plugins/scheduler.go:86 | Once the digits read pass MaxUint64, the loop is a range error, whatever characters follow. |
| `Strconv.AtoiItoa` | pkg/plugins/scheduler.go:86 | Atoi reads back every int64 written by Itoa, with no error. |
| `Strconv.AtoiNotANumber` | pkg/plugins/scheduler.go:86 | An empty string, a bare sign, or a first character after the sign that is not a digit reads as 0 with a syntax error. |
| `Strconv.AtoiOverflowBeforeSyntax` | pkg/plugins/scheduler.go:86 | Digits that overflow, followed by anything, read as MaxInt64 (or MinInt64 after `-`) with a range error. |
| `Plugins.Neg64` | pkg/plugins/scheduler.go:113 | Go's int64 negation is the int64 equal to -x modulo 2^64: the true negation on every value except MinInt64, which negates to itself. |
| `Plugins.Score` | pkg/plugins/scheduler.go:101-118 | The status is Error exactly when the node lookup failed. In that case the score is 0 and the message is the lookup error. Otherwise the status is nil. |
| `Plugins.ScoreOrder` | pkg/plugins/scheduler.go:112-117 | For memories 0 <= a < b: Least mode scores a strictly higher than b, and Most mode strictly lower. Any other mode scores both 0. |
| `Plugins.ScoreOfConstructedPlugin` | pkg/plugins/scheduler.go:112-117 | A plugin built by New never takes the 0 fallback. Its score is minus the memory in Least mode and the memory in Most mode. |
| `Plugins.MinScore` | pkg/plugins/scheduler.go:130-139 | The scanned minimum is at most every score and equals one of them. |
| `Plugins.MaxScore` | pkg/plugins/scheduler.go:130-139 | The scanned maximum is at least every score and equals one of them. |
| `Plugins.ScoreBounds` | pkg/plugins/scheduler.go:129-139 | The loop returns the list's minimum and maximum score. |
| `Plugins.Normalize` | pkg/plugins/scheduler.go:121-161 | Normalising keeps the list's length and each entry's node name, in order. |
| `Plugins.NormalizeScore` | pkg/plugins/scheduler.go:121-161 | The array afterwards holds `Normalize` of its old contents. The status is Success: `No scores to normalize` for an empty list, which stays unchanged, and empty otherwise. |
| `Plugins.FillMidpoint` | pkg/plugins/scheduler.go:146-151 | Every entry keeps its name and gets score (0 + MaxNodeScore) / 2. |
| `Plugins.RescaleInPlace` | pkg/plugins/scheduler.go:153-158 | Every entry keeps its name and gets the linear image of its score. |
| `Plugins.RescaleStep` | pkg/plugins/scheduler.go:154-157 | The loop's expression `(s - min) * validRange / scoreRange + validMin` is the rescaling of s. |
| `Plugins.Rescale` | pkg/plugins/scheduler.go:141-158 | The rescaled value of any score in [min, max] lies in [0, MaxNodeScore], both when min equals max and when it does not. |
| `Plugins.RescaleEnds` | pkg/plugins/scheduler.go:153-158 | When min < max, the rescaling maps min to 0 and max to MaxNodeScore. |
| `Plugins.NormalizeInRange` | pkg/plugins/scheduler.go:141-158 | Every normalised score lies in [0, MaxNodeScore]. |
| `Plugins.NormalizeUniform` | pkg/plugins/scheduler.go:145-151 | When all scores are equal, every one becomes 50. |
| `Plugins.NormalizeEnds` | pkg/plugins/scheduler.go:153-158 | When the scores differ, an entry with the lowest score gets 0 and one with the highest gets MaxNodeScore. |
| `Plugins.NormalizeMonotone` | pkg/plugins/scheduler.go:153-158 | If raw a <= raw b, then normalised a <= normalised b. |
| `Plugins.NormalizedBounds` | pkg/plugins/scheduler.go:141-158 | A normalised list has minimum 0 and maximum MaxNodeScore, or both at the midpoint when the scores were equal. |
| `Plugins.NormalizeIdempotent` | pkg/plugins/scheduler.go:121-161 | Normalising an already normalised list changes nothing. |
| `Plugins.NormalizeNoOverflow` | pkg/plugins/scheduler.go:154-157 | On the lists `FitsInt64` admits, `(s - min) * validRange` and `max - min` stay within int64. |

## Left out

- Plugins.NormalizeScore: requires `FitsInt64`. That means int64 scores whose spread times 100 fits in int64. The Go code has no such guard: on wider spreads its int64 products wrap around, and that wrap-around is not modelled.
- The framework handle and its listers (`SharedInformerFactory()…Lister().Pods(ns).List`, `SnapshotSharedLister().NodeInfos().Get`). These are external Kubernetes calls. They are replaced by inputs: a `Snapshot` of cached pods with an optional list error, and a node-lookup `Result`. Their namespace and label filtering is kept, in `InGroup`: client-go's lister code is not part of this model, and the empty namespace is read as `NamespaceAll` (every namespace), as client-go's `ListAllByNamespace` reads it.
- `json.Unmarshal`. It is replaced by its outcome, `Args`: the decoded mode and the decode error. The type assertion `obj.(*runtime.Unknown)`, which panics on any other object type, is not modelled.
- `resource.Quantity.Value()`. It is replaced by the node's allocatable memory as an int64 input.
- `Atoi`'s short-string fast path. It gives the same results as the `ParseInt` path modelled here. The model assumes a 64-bit `int`.
- Logging (`log.Printf`, `fmt.Printf`), the `context` and `CycleState` parameters, the always-nil `PreFilterResult`, and `Name`, `PreFilterExtensions` and `ScoreExtensions`. None of these takes a decision.
- The unreachable `return nil` after the final return of NormalizeScore.
- Concurrency across scheduling cycles. That belongs to the host scheduler; every modelled operation is sequential.

/**
  Alert deduplication: what the deduplicator answers, with its periodic clean-up and
  without it. Times are real numbers of seconds.
*/
module DedupModel {
  datatype Option<+T> = None | Some(value: T)

  datatype Status = Firing | Investigating | Resolved

  datatype Group = Group(alertname: string, cluster: string, namespace: Option<string>,
                         firstSeen: real, lastSeen: real, count: int, status: Status, investigated: bool)

  // f"{alertname}:{cluster}:{namespace or '_all_'}"
  function MakeKey(alertname: string, cluster: string, namespace: Option<string>): string {
    alertname + ":" + cluster + ":" + Scope(namespace)
  }

  function Scope(namespace: Option<string>): string {
    if namespace.Some? && namespace.value != "" then namespace.value else "_all_"
  }

  datatype Stats = Stats(alertname: string, cluster: string, namespace: Option<string>, count: int, status: Status,
                         age: real)

  datatype Call =
    | Ask(alertname: string, cluster: string, namespace: Option<string>, now: real)
    | MarkInvestigated(key: string)
    | MarkResolved(key: string)
    | GetStats(now: real)

  datatype Answer = Investigate(yes: bool, key: string) | Done | Groups(stats: map<string, Stats>)

  type Groups = map<string, Group>

  // ---------------------------------------------------------------- one call, on the groups alone

  function Fresh(c: Call): Group
    requires c.Ask?
  {
    Group(c.alertname, c.cluster, c.namespace, c.now, c.now, 1, Firing, false)
  }

  function AskKey(c: Call): string
    requires c.Ask?
  {
    MakeKey(c.alertname, c.cluster, c.namespace)
  }

  // A call opens a new group when there is none or its window is over.
  predicate Opens(window: real, groups: Groups, c: Call)
    requires c.Ask?
  {
    AskKey(c) !in groups || c.now - groups[AskKey(c)].firstSeen > window
  }

  function AfterAsk(window: real, groups: Groups, c: Call): Groups
    requires c.Ask?
  {
    var key := AskKey(c);
    if Opens(window, groups, c) then groups[key := Fresh(c)]
    else groups[key := groups[key].(count := groups[key].count + 1, lastSeen := c.now)]
  }

  function AnswerAsk(window: real, groups: Groups, c: Call): Answer
    requires c.Ask?
  {
    Investigate(Opens(window, groups, c) || !groups[AskKey(c)].investigated, AskKey(c))
  }

  function StatsOf(window: real, groups: Groups, now: real): map<string, Stats> {
    map key | key in groups && now - groups[key].lastSeen < window * 2.0 ::
      Stats(groups[key].alertname, groups[key].cluster, groups[key].namespace, groups[key].count, groups[key].status,
            now - groups[key].firstSeen)
  }

  // The groups older than twice the window, by their last alert.
  predicate Expired(window: real, g: Group, now: real) {
    now - g.lastSeen > window * 2.0
  }

  function Cleaned(window: real, groups: Groups, now: real): Groups {
    map key | key in groups && !Expired(window, groups[key], now) :: groups[key]
  }

  function Apply(window: real, groups: Groups, c: Call): (Groups, Answer) {
    match c
    case Ask(_, _, _, _) => (AfterAsk(window, groups, c), AnswerAsk(window, groups, c))
    case MarkInvestigated(key) =>
      (if key in groups then groups[key := groups[key].(investigated := true, status := Investigating)] else groups,
       Done)
    case MarkResolved(key) =>
      (if key in groups then groups[key := groups[key].(status := Resolved)] else groups, Done)
    case GetStats(now) => (groups, Groups(StatsOf(window, groups, now)))
  }

  // ---------------------------------------------------------------- with the periodic clean-up

  datatype Dedup = Dedup(groups: Groups, counter: int)

  // Every hundredth question first deletes the expired groups.
  function Collected(window: real, s: Dedup, c: Call): Dedup {
    if c.Ask?
    then Dedup(if (s.counter + 1) % 100 == 0 then Cleaned(window, s.groups, c.now) else s.groups, s.counter + 1)
    else s
  }

  function Serve(window: real, s: Dedup, c: Call): (Dedup, Answer) {
    var t := Collected(window, s, c);
    var (groups, answer) := Apply(window, t.groups, c);
    (Dedup(groups, t.counter), answer)
  }

  // ---------------------------------------------------------------- call sequences

  predicate Timed(c: Call) { c.Ask? || c.GetStats? }

  // The clock of the calls that read it does not run backwards.
  ghost predicate InOrder(calls: seq<Call>) {
    forall j, k :: 0 <= j < k < |calls| && Timed(calls[j]) && Timed(calls[k]) ==> calls[j].now <= calls[k].now
  }

  // The state after the first n calls, with the clean-up.
  function With(window: real, calls: seq<Call>, n: nat): Dedup
    requires n <= |calls|
  {
    if n == 0 then Dedup(map[], 0) else Serve(window, With(window, calls, n - 1), calls[n - 1]).0
  }

  // The state after the first n calls, if nothing were ever deleted.
  function Without(window: real, calls: seq<Call>, n: nat): Groups
    requires n <= |calls|
  {
    if n == 0 then map[] else Apply(window, Without(window, calls, n - 1), calls[n - 1]).0
  }

  // The answer to call n.
  function AnswerWith(window: real, calls: seq<Call>, n: nat): Answer
    requires n < |calls|
  {
    Serve(window, With(window, calls, n), calls[n]).1
  }

  function AnswerWithout(window: real, calls: seq<Call>, n: nat): Answer
    requires n < |calls|
  {
    Apply(window, Without(window, calls, n), calls[n]).1
  }
}

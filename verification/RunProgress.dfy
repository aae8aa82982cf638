/**
 * The progress snapshot of a run: building it from whatever the run holds, and
 * the strict parser that accepts a snapshot only from its owner and only in
 * exactly the form the builder gives it.
 */
module RunProgress {
  import opened Wrappers
  import opened RunState

  const MAX_LIVE_NODES := 32
  const MAX_SAFE_INTEGER := 9007199254740991

  /** The property names of a snapshot; any other name is a foreign one. */
  datatype Key =
    | Version | RunId | OwnerSessionId | Revision | StatusKey | Mode | CreatedAt | UpdatedAt | NodesTotal | NodesOmitted | Counts | Nodes
    | Count(status: NodeStatus)
    | Id | AgentKey | Tries | Retries | SessionId | StartedAt | FinishedAt
    | ForeignKey(name: string)

  datatype Json =
    | Null | Bool(b: bool) | Whole(n: int) | Fraction | Text(s: string)
    | Array(items: seq<Json>) | Object(fields: map<Key, Json>)

  datatype NodeProgress = NodeProgress(
    id: string, agent: Agent, status: NodeStatus, attempt: int, retries: int,
    session: Option<string>, started: Option<string>, finished: Option<string>)

  datatype Progress = Progress(
    runId: string, owner: string, revision: int, status: RunStatus, live: bool, created: string, updated: string,
    total: int, omitted: int, counts: map<NodeStatus, int>, nodes: seq<NodeProgress>)

  // ---------------------------------------------------------------- texts and numbers

  predicate IsDigit(c: char) { '0' <= c <= '9' }

  predicate IsAlphanumeric(c: char) { IsDigit(c) || 'A' <= c <= 'Z' || 'a' <= c <= 'z' }

  predicate IsId(s: string) {
    && 1 <= |s| <= 64 && IsAlphanumeric(s[0])
    && forall i | 0 <= i < |s| :: IsAlphanumeric(s[i]) || s[i] == '.' || s[i] == '_' || s[i] == '-'
  }

  predicate IsControl(c: char) { c <= '\U{1f}' || '\U{7f}' <= c <= '\U{9f}' }

  function Utf8Length(s: string): nat {
    if s == [] then 0
    else Utf8Length(s[1..]) + if s[0] < '\U{80}' then 1 else if s[0] < '\U{800}' then 2 else if s[0] < '\U{10000}' then 3 else 4
  }

  predicate SafeText(s: string, maximum: nat) {
    && s != [] && Utf8Length(s) <= maximum
    && forall i | 0 <= i < |s| :: !IsControl(s[i])
  }

  function Digit(c: char): int { c as int - '0' as int }

  predicate TwoDigits(s: string, i: nat)
    requires i + 2 <= |s|
  {
    IsDigit(s[i]) && IsDigit(s[i + 1])
  }

  function Two(s: string, i: nat): int
    requires i + 2 <= |s|
  {
    10 * Digit(s[i]) + Digit(s[i + 1])
  }

  function DaysIn(year: int, month: int): int {
    if month == 2 then (if year % 4 == 0 && (year % 100 != 0 || year % 400 == 0) then 29 else 28)
    else if month == 4 || month == 6 || month == 9 || month == 11 then 30 else 31
  }

  /** A date that prints as it reads: `YYYY-MM-DDThh:mm:ss.mmmZ`. */
  predicate CanonicalDate(s: string) {
    && |s| == 24
    && s[4] == '-' && s[7] == '-' && s[10] == 'T' && s[13] == ':' && s[16] == ':' && s[19] == '.' && s[23] == 'Z'
    && TwoDigits(s, 0) && TwoDigits(s, 2) && TwoDigits(s, 5) && TwoDigits(s, 8) && TwoDigits(s, 11) && TwoDigits(s, 14) && TwoDigits(s, 17)
    && TwoDigits(s, 20) && IsDigit(s[22])
    && 1 <= Two(s, 5) <= 12 && 1 <= Two(s, 8) <= DaysIn(100 * Two(s, 0) + Two(s, 2), Two(s, 5))
    && Two(s, 11) <= 23 && Two(s, 14) <= 59 && Two(s, 17) <= 59
  }

  predicate IsCount(v: Json) { v.Whole? && 0 <= v.n <= MAX_SAFE_INTEGER }

  predicate IsDateText(v: Json) { v.Text? && CanonicalDate(v.s) }

  predicate IsSafeText(v: Json, maximum: nat) { v.Text? && SafeText(v.s, maximum) }

  predicate IsIdText(v: Json) { v.Text? && IsId(v.s) && SafeText(v.s, 64) }

  // ---------------------------------------------------------------- names

  const STATUSES := [Pending, Ready, Running, Done, Failed, Skipped]

  function StatusName(s: NodeStatus): string {
    match s
    case Pending => "pending"
    case Ready => "ready"
    case Running => "running"
    case Done => "done"
    case Failed => "failed"
    case Skipped => "skipped"
  }

  function StatusNamed(name: string): (r: Option<NodeStatus>)
    ensures r.Some? ==> StatusName(r.value) == name
    ensures forall s :: StatusName(s) == name ==> r == Some(s)
  {
    if name == "pending" then Some(Pending) else if name == "ready" then Some(Ready) else if name == "running" then Some(Running)
    else if name == "done" then Some(Done) else if name == "failed" then Some(Failed) else if name == "skipped" then Some(Skipped) else None
  }

  function RunStatusName(s: RunStatus): string {
    match s
    case Planning => "planning"
    case Executing => "running"
    case Completed => "done"
    case Unsuccessful => "failed"
    case Blocked => "blocked"
  }

  function RunStatusNamed(name: string): (r: Option<RunStatus>)
    ensures r.Some? ==> RunStatusName(r.value) == name
    ensures forall s :: RunStatusName(s) == name ==> r == Some(s)
  {
    if name == "planning" then Some(Planning) else if name == "running" then Some(Executing) else if name == "done" then Some(Completed)
    else if name == "failed" then Some(Unsuccessful) else if name == "blocked" then Some(Blocked) else None
  }

  function AgentName(a: Agent): string {
    match a
    case Explorer => "explorer"
    case Researcher => "researcher"
    case Implementer => "implementer"
    case Checker => "checker"
    case Shell => "shell"
  }

  function AgentNamed(name: string): (r: Option<Agent>)
    ensures r.Some? ==> AgentName(r.value) == name
    ensures forall a :: AgentName(a) == name ==> r == Some(a)
  {
    if name == "explorer" then Some(Explorer) else if name == "researcher" then Some(Researcher) else if name == "implementer" then Some(Implementer)
    else if name == "checker" then Some(Checker) else if name == "shell" then Some(Shell) else None
  }

  // ---------------------------------------------------------------- well-formed snapshots and their encoding

  predicate SafeCount(n: int) { 0 <= n <= MAX_SAFE_INTEGER }

  function Max0(n: int): int { if n >= 0 then n else 0 }

  predicate NodeWellFormed(n: NodeProgress) {
    && IsId(n.id) && SafeText(n.id, 64) && SafeCount(n.attempt) && n.retries == Max0(n.attempt - 1)
    && (n.session.Some? ==> SafeText(n.session.value, 256))
    && (n.started.Some? ==> CanonicalDate(n.started.value))
    && (n.finished.Some? ==> CanonicalDate(n.finished.value))
  }

  function Sum(counts: map<NodeStatus, int>, statuses: seq<NodeStatus>): int {
    if statuses == [] then 0
    else Sum(counts, statuses[..|statuses| - 1]) + if statuses[|statuses| - 1] in counts then counts[statuses[|statuses| - 1]] else 0
  }

  predicate DistinctIds(nodes: seq<NodeProgress>) {
    forall a, b | 0 <= a < b < |nodes| :: nodes[a].id != nodes[b].id
  }

  predicate HeaderWellFormed(p: Progress) {
    && IsId(p.runId) && SafeText(p.runId, 64) && SafeText(p.owner, 256) && SafeCount(p.revision)
    && CanonicalDate(p.created) && CanonicalDate(p.updated) && SafeCount(p.total) && SafeCount(p.omitted)
    && |p.nodes| <= MAX_LIVE_NODES && |p.nodes| + p.omitted == p.total
    && (forall s: NodeStatus :: s in p.counts && SafeCount(p.counts[s]))
    && Sum(p.counts, STATUSES) == p.total
  }

  predicate ProgressWellFormed(p: Progress) {
    HeaderWellFormed(p) && DistinctIds(p.nodes) && forall i | 0 <= i < |p.nodes| :: NodeWellFormed(p.nodes[i])
  }

  function With(fields: map<Key, Json>, key: Key, text: Option<string>): map<Key, Json> {
    if text.Some? then fields[key := Text(text.value)] else fields
  }

  function RequiredFields(n: NodeProgress): map<Key, Json> {
    map[Id := Text(n.id), AgentKey := Text(AgentName(n.agent)), StatusKey := Text(StatusName(n.status)),
        Tries := Whole(n.attempt), Retries := Whole(n.retries)]
  }

  function EncodeNode(n: NodeProgress): Json {
    Object(With(With(With(RequiredFields(n), SessionId, n.session), StartedAt, n.started), FinishedAt, n.finished))
  }

  function EncodeNodes(nodes: seq<NodeProgress>): (r: seq<Json>)
    ensures |r| == |nodes|
  {
    seq(|nodes|, i requires 0 <= i < |nodes| => EncodeNode(nodes[i]))
  }

  function EncodeCounts(counts: map<NodeStatus, int>): map<Key, Json> {
    map s: NodeStatus | s in counts :: Count(s) := Whole(counts[s])
  }

  function Encode(p: Progress): Json {
    Object(map[Version := Whole(1), RunId := Text(p.runId), OwnerSessionId := Text(p.owner), Revision := Whole(p.revision),
               StatusKey := Text(RunStatusName(p.status)), Mode := Text(if p.live then "live" else "dry"),
               CreatedAt := Text(p.created), UpdatedAt := Text(p.updated), NodesTotal := Whole(p.total), NodesOmitted := Whole(p.omitted),
               Counts := Object(EncodeCounts(p.counts)), Nodes := Array(EncodeNodes(p.nodes))])
  }

  // ---------------------------------------------------------------- parsing

  predicate ExactKeys(fields: map<Key, Json>, required: set<Key>, optional: set<Key>) {
    required <= fields.Keys <= required + optional
  }

  const NODE_KEYS := {Id, AgentKey, StatusKey, Tries, Retries}
  const NODE_OPTIONAL := {SessionId, StartedAt, FinishedAt}
  const TOP_KEYS := {Version, RunId, OwnerSessionId, Revision, StatusKey, Mode, CreatedAt, UpdatedAt, NodesTotal, NodesOmitted, Counts, Nodes}
  const COUNT_KEYS := {Count(Pending), Count(Ready), Count(Running), Count(Done), Count(Failed), Count(Skipped)}

  function TextField(fields: map<Key, Json>, key: Key): Option<string> {
    if key in fields && fields[key].Text? then Some(fields[key].s) else None
  }

  function ParseNode(raw: Json): Option<NodeProgress> {
    if !raw.Object? || !ExactKeys(raw.fields, NODE_KEYS, NODE_OPTIONAL) then None
    else
      var f := raw.fields;
      if !IsIdText(f[Id]) || !f[AgentKey].Text? || AgentNamed(f[AgentKey].s).None? || !f[StatusKey].Text? || StatusNamed(f[StatusKey].s).None? then None
      else if !IsCount(f[Tries]) || !IsCount(f[Retries]) || f[Retries].n != Max0(f[Tries].n - 1) then None
      else if (SessionId in f && !IsSafeText(f[SessionId], 256)) || (StartedAt in f && !IsDateText(f[StartedAt]))
              || (FinishedAt in f && !IsDateText(f[FinishedAt])) then None
      else Some(NodeProgress(f[Id].s, AgentNamed(f[AgentKey].s).value, StatusNamed(f[StatusKey].s).value, f[Tries].n, f[Retries].n,
                             TextField(f, SessionId), TextField(f, StartedAt), TextField(f, FinishedAt)))
  }

  /** The value of every key of an encoded node. */
  lemma EncodedFields(n: NodeProgress)
    ensures EncodeNode(n).Object?
    ensures var e := EncodeNode(n).fields;
            && ExactKeys(e, NODE_KEYS, NODE_OPTIONAL)
            && e[Id] == Text(n.id) && e[AgentKey] == Text(AgentName(n.agent)) && e[StatusKey] == Text(StatusName(n.status))
            && e[Tries] == Whole(n.attempt) && e[Retries] == Whole(n.retries)
            && (SessionId in e <==> n.session.Some?) && (n.session.Some? ==> e[SessionId] == Text(n.session.value))
            && (StartedAt in e <==> n.started.Some?) && (n.started.Some? ==> e[StartedAt] == Text(n.started.value))
            && (FinishedAt in e <==> n.finished.Some?) && (n.finished.Some? ==> e[FinishedAt] == Text(n.finished.value))
  {
  }

  lemma SameObject(a: map<Key, Json>, b: map<Key, Json>)
    requires a.Keys == b.Keys && forall k | k in a :: a[k] == b[k]
    ensures a == b
  {
  }

  lemma ParsedNodeIsEncoded(raw: Json, n: NodeProgress)
    requires ParseNode(raw) == Some(n)
    ensures NodeWellFormed(n) && raw == EncodeNode(n)
  {
    hide IsId, SafeText, CanonicalDate, AgentName, StatusName, AgentNamed, StatusNamed, EncodeNode;
    EncodedFields(n);
    SameObject(raw.fields, EncodeNode(n).fields);
  }

  lemma EncodedNodeParses(n: NodeProgress)
    requires NodeWellFormed(n)
    ensures ParseNode(EncodeNode(n)) == Some(n)
  {
    hide IsId, SafeText, CanonicalDate, AgentName, StatusName, AgentNamed, StatusNamed, EncodeNode, ExactKeys;
    EncodedFields(n);
  }

  /** A node is accepted exactly in its canonical encoding. */
  lemma ParseNodeExact(raw: Json, n: NodeProgress)
    ensures ParseNode(raw) == Some(n) <==> NodeWellFormed(n) && raw == EncodeNode(n)
  {
    hide ParseNode, NodeWellFormed, EncodeNode;
    if ParseNode(raw) == Some(n) {
      ParsedNodeIsEncoded(raw, n);
    }
    if NodeWellFormed(n) {
      EncodedNodeParses(n);
    }
  }

  // ---------------------------------------------------------------- the whole snapshot

  /** The checks on everything but the nodes themselves. */
  predicate HeaderAccepted(value: Json, owner: string) {
    && value.Object? && OwnerSessionId in value.fields && value.fields[OwnerSessionId] == Text(owner)
    && ExactKeys(value.fields, TOP_KEYS, {})
    && var f := value.fields;
    && f[Version] == Whole(1) && IsIdText(f[RunId]) && IsSafeText(f[OwnerSessionId], 256) && IsCount(f[Revision])
    && f[StatusKey].Text? && RunStatusNamed(f[StatusKey].s).Some?
    && (f[Mode] == Text("live") || f[Mode] == Text("dry")) && IsDateText(f[CreatedAt]) && IsDateText(f[UpdatedAt])
    && IsCount(f[NodesTotal]) && IsCount(f[NodesOmitted])
    && f[Nodes].Array? && |f[Nodes].items| <= MAX_LIVE_NODES && |f[Nodes].items| + f[NodesOmitted].n == f[NodesTotal].n
    && f[Counts].Object? && ExactKeys(f[Counts].fields, COUNT_KEYS, {})
    && (forall s: NodeStatus :: Count(s) in f[Counts].fields && IsCount(f[Counts].fields[Count(s)]))
    && Sum(CountsOf(f[Counts].fields), STATUSES) == f[NodesTotal].n
  }

  function CountsOf(fields: map<Key, Json>): map<NodeStatus, int> {
    map s: NodeStatus | s in STATUSES && Count(s) in fields && fields[Count(s)].Whole? :: fields[Count(s)].n
  }

  function HeaderOf(value: Json, nodes: seq<NodeProgress>): Progress
    requires value.Object? && HeaderAccepted(value, TextField(value.fields, OwnerSessionId).UnwrapOr(""))
  {
    var f := value.fields;
    Progress(f[RunId].s, f[OwnerSessionId].s, f[Revision].n, RunStatusNamed(f[StatusKey].s).value, f[Mode] == Text("live"),
             f[CreatedAt].s, f[UpdatedAt].s, f[NodesTotal].n, f[NodesOmitted].n, CountsOf(f[Counts].fields), nodes)
  }

  lemma StatusesComplete(s: NodeStatus)
    ensures s in STATUSES
  {
  }

  /** The value of every key of an encoded snapshot. */
  lemma EncodedTop(p: Progress)
    ensures Encode(p).Object?
    ensures var e := Encode(p).fields;
            && e.Keys == TOP_KEYS
            && e[Version] == Whole(1) && e[RunId] == Text(p.runId) && e[OwnerSessionId] == Text(p.owner) && e[Revision] == Whole(p.revision)
            && e[StatusKey] == Text(RunStatusName(p.status)) && e[Mode] == Text(if p.live then "live" else "dry")
            && e[CreatedAt] == Text(p.created) && e[UpdatedAt] == Text(p.updated)
            && e[NodesTotal] == Whole(p.total) && e[NodesOmitted] == Whole(p.omitted)
            && e[Counts] == Object(EncodeCounts(p.counts)) && e[Nodes] == Array(EncodeNodes(p.nodes))
  {
    hide RunStatusName, EncodeCounts, EncodeNodes;
  }

  /** An accepted header is the encoding of what is read from it. */
  lemma AcceptedHeader(value: Json, owner: string, nodes: seq<NodeProgress>)
    requires HeaderAccepted(value, owner) && value.fields[Nodes] == Array(EncodeNodes(nodes))
    ensures HeaderWellFormed(HeaderOf(value, nodes)) && Encode(HeaderOf(value, nodes)) == value && HeaderOf(value, nodes).owner == owner
  {
    hide IsId, SafeText, CanonicalDate, RunStatusName, RunStatusNamed, Sum, EncodeNodes, Encode, EncodeCounts;
    var p := HeaderOf(value, nodes);
    forall s: NodeStatus ensures s in p.counts && p.counts[s] == value.fields[Counts].fields[Count(s)].n {
      StatusesComplete(s);
    }
    hide CountsOf;
    CountsAgree(p.counts, value.fields[Counts].fields);
    EncodedTop(p);
    SameObject(Encode(p).fields, value.fields);
  }

  lemma CountsAgree(counts: map<NodeStatus, int>, fields: map<Key, Json>)
    requires ExactKeys(fields, COUNT_KEYS, {})
    requires forall s: NodeStatus :: s in counts && Count(s) in fields && fields[Count(s)] == Whole(counts[s])
    ensures EncodeCounts(counts) == fields
  {
  }

  lemma EncodedCounts(counts: map<NodeStatus, int>)
    requires forall s: NodeStatus :: s in counts
    ensures ExactKeys(EncodeCounts(counts), COUNT_KEYS, {})
    ensures forall s: NodeStatus :: Count(s) in EncodeCounts(counts) && EncodeCounts(counts)[Count(s)] == Whole(counts[s])
    ensures CountsOf(EncodeCounts(counts)) == counts
  {
    forall s: NodeStatus ensures s in STATUSES && Count(s) in COUNT_KEYS {
      StatusesComplete(s);
    }
  }

  /** The encoding of a well-formed snapshot passes the header checks, and nothing is lost in it. */
  lemma EncodedHeader(p: Progress)
    requires HeaderWellFormed(p)
    ensures HeaderAccepted(Encode(p), p.owner) && HeaderOf(Encode(p), p.nodes) == p
    ensures Encode(p).fields[Nodes] == Array(EncodeNodes(p.nodes))
  {
    hide IsId, SafeText, CanonicalDate, RunStatusName, RunStatusNamed, Sum, EncodeCounts, CountsOf, Encode, EncodeNodes;
    EncodedCounts(p.counts);
    EncodedTop(p);
  }

  /** Nodes are read one after the other; a repeated id rejects. */
  method ParseNodes(items: seq<Json>) returns (nodes: Option<seq<NodeProgress>>)
    ensures nodes.Some? ==> EncodeNodes(nodes.value) == items && DistinctIds(nodes.value)
    ensures nodes.Some? ==> forall i | 0 <= i < |nodes.value| :: NodeWellFormed(nodes.value[i])
    ensures nodes.None? ==> forall given | EncodeNodes(given) == items ::
              !(DistinctIds(given) && forall i | 0 <= i < |given| :: NodeWellFormed(given[i]))
  {
    hide ParseNode, NodeWellFormed, EncodeNode;
    var read, seen: set<string> := [], {};
    for i := 0 to |items|
      invariant |read| == i && DistinctIds(read)
      invariant forall k | 0 <= k < i :: NodeWellFormed(read[k]) && items[k] == EncodeNode(read[k])
      invariant seen == set k | 0 <= k < i :: read[k].id
    {
      var node := ParseNode(items[i]);
      if node.None? || node.value.id in seen {
        forall given | EncodeNodes(given) == items && DistinctIds(given) && forall k | 0 <= k < |given| :: NodeWellFormed(given[k])
          ensures false
        {
          ParseNodeExact(items[i], given[i]);
          if node.Some? {
            var k :| 0 <= k < i && read[k].id == node.value.id;
            ParseNodeExact(items[k], given[k]);
            ParseNodeExact(items[k], read[k]);
          }
          assert false;
        }
        return None;
      }
      ParseNodeExact(items[i], node.value);
      read, seen := read + [node.value], seen + {node.value.id};
    }
    assert EncodeNodes(read) == items;
    nodes := Some(read);
  }

  /**
   * The strict parser. What it accepts for an owner is exactly the encodings of
   * well-formed snapshots of that owner, each read back as itself.
   */
  method Parse(value: Json, owner: string) returns (r: Option<Progress>)
    ensures r.Some? ==> ProgressWellFormed(r.value) && r.value.owner == owner && value == Encode(r.value)
    ensures r.None? ==> forall p | ProgressWellFormed(p) && p.owner == owner :: value != Encode(p)
  {
    hide HeaderAccepted, HeaderOf, HeaderWellFormed, NodeWellFormed, Encode;
    if !HeaderAccepted(value, owner) {
      forall p | ProgressWellFormed(p) && p.owner == owner ensures value != Encode(p) {
        EncodedHeader(p);
      }
      return None;
    }
    AcceptedFields(value, owner);
    var nodes := ParseNodes(value.fields[Nodes].items);
    if nodes.None? {
      forall p | ProgressWellFormed(p) && p.owner == owner ensures value != Encode(p) {
        EncodedHeader(p);
      }
      return None;
    }
    AcceptedHeader(value, owner, nodes.value);
    HeaderKeepsNodes(value, nodes.value);
    r := Some(HeaderOf(value, nodes.value));
  }

  lemma AcceptedFields(value: Json, owner: string)
    requires HeaderAccepted(value, owner)
    ensures value.Object? && Nodes in value.fields && value.fields[Nodes].Array?
    ensures HeaderAccepted(value, TextField(value.fields, OwnerSessionId).UnwrapOr(""))
  {
  }

  lemma HeaderKeepsNodes(value: Json, nodes: seq<NodeProgress>)
    requires value.Object? && HeaderAccepted(value, TextField(value.fields, OwnerSessionId).UnwrapOr(""))
    ensures HeaderOf(value, nodes).nodes == nodes
  {
  }

  /** Distinct well-formed snapshots have distinct encodings. */
  lemma EncodeInjective(p: Progress, q: Progress)
    requires ProgressWellFormed(p) && ProgressWellFormed(q) && Encode(p) == Encode(q)
    ensures p == q
  {
    EncodeDeterminesNodes(q, p);
  }

  // ---------------------------------------------------------------- what a run holds

  datatype Definition = Definition(id: string, agent: string, dependsOn: seq<string>)

  datatype LatestAttempt = LatestAttempt(session: Json, started: Json, finished: Json)

  datatype Source = Source(status: string, currentAttempt: Json, latest: Option<LatestAttempt>)

  /** A run as stored: nothing in it is trusted. */
  datatype RunView = RunView(
    runId: Json, owner: Json, revision: Json, status: string, dry: bool, created: Json, updated: Json,
    nodes: seq<Definition>, states: map<string, Source>)

  const EPOCH := "1970-01-01T00:00:00.000Z"

  function Decimal(n: nat): string {
    if n < 10 then [(n + '0' as int) as char] else Decimal(n / 10) + [(n % 10 + '0' as int) as char]
  }

  function StoredStatus(run: RunView, id: string): NodeStatus {
    if id in run.states then StatusNamed(run.states[id].status).UnwrapOr(Pending) else Pending
  }

  predicate AllDone(run: RunView, ids: seq<string>) {
    forall k | 0 <= k < |ids| :: ids[k] in run.states && run.states[ids[k]].status == "done"
  }

  function SafeOr(v: Json, maximum: nat): Option<string> { if IsSafeText(v, maximum) then Some(v.s) else None }

  function DateOr(v: Json): Option<string> { if IsDateText(v) then Some(v.s) else None }

  function Row(run: RunView, i: nat): NodeProgress
    requires i < |run.nodes|
  {
    var def := run.nodes[i];
    var id := if IsId(def.id) then def.id else "node-" + Decimal(i + 1);
    var stored := StoredStatus(run, def.id);
    var status := if stored.Pending? && AllDone(run, def.dependsOn) then Ready else stored;
    var attempt := if def.id in run.states && IsCount(run.states[def.id].currentAttempt) then run.states[def.id].currentAttempt.n else 0;
    var latest := if def.id in run.states then run.states[def.id].latest else None;
    NodeProgress(id, AgentNamed(def.agent).UnwrapOr(Explorer), status, attempt, Max0(attempt - 1),
                 if latest.Some? then SafeOr(latest.value.session, 256) else None,
                 if latest.Some? then DateOr(latest.value.started) else None,
                 if latest.Some? then DateOr(latest.value.finished) else None)
  }

  /** The status shown for a node, by the names the run stores. */
  lemma RowStatus(run: RunView, i: nat)
    requires i < |run.nodes|
    ensures var def, status := run.nodes[i], Row(run, i).status;
            var name := if def.id in run.states then run.states[def.id].status else "";
            var waits := exists k :: 0 <= k < |def.dependsOn| && (def.dependsOn[k] in run.states ==> run.states[def.dependsOn[k]].status != "done");
            && (status.Running? <==> name == "running") && (status.Done? <==> name == "done")
            && (status.Failed? <==> name == "failed") && (status.Skipped? <==> name == "skipped")
            && (status.Ready? <==> name == "ready" || (name !in ["running", "done", "failed", "skipped"] && !waits))
            && (status.Pending? <==> name !in ["ready", "running", "done", "failed", "skipped"] && waits)
  {
  }

  /** Every other cell: from the latest attempt and the counter where these are usable, and left out or replaced where not. */
  lemma RowCells(run: RunView, i: nat)
    requires i < |run.nodes|
    ensures var def, row := run.nodes[i], Row(run, i);
            var latest := if def.id in run.states then run.states[def.id].latest else None;
            && (forall t :: row.started == Some(t) <==> latest.Some? && latest.value.started == Text(t) && CanonicalDate(t))
            && (forall t :: row.finished == Some(t) <==> latest.Some? && latest.value.finished == Text(t) && CanonicalDate(t))
            && (forall t :: row.session == Some(t) <==> latest.Some? && latest.value.session == Text(t) && SafeText(t, 256))
            && (forall n :: row.attempt == n && n > 0 <==>
                  def.id in run.states && run.states[def.id].currentAttempt == Whole(n) && 0 < n <= MAX_SAFE_INTEGER)
            && row.attempt >= 0 && row.retries == (if row.attempt == 0 then 0 else row.attempt - 1)
            && (IsId(def.id) ==> row.id == def.id)
            && (AgentName(row.agent) == def.agent || (row.agent.Explorer? && forall a :: AgentName(a) != def.agent))
  {
    hide CanonicalDate, SafeText, IsId, StatusNamed;
  }

  function Rows(run: RunView): (rows: seq<NodeProgress>)
    ensures |rows| == |run.nodes|
  {
    seq(|run.nodes|, i requires 0 <= i < |run.nodes| => Row(run, i))
  }

  lemma {:induction false} IdBytes(s: string)
    requires forall i | 0 <= i < |s| :: s[i] < '\U{80}'
    ensures Utf8Length(s) == |s|
    decreases |s|
  {
    if s != [] {
      IdBytes(s[1..]);
    }
  }

  lemma IdIsSafe(s: string, maximum: nat)
    requires IsId(s) && maximum >= 64
    ensures SafeText(s, maximum)
  {
    IdBytes(s);
  }

  function Pow10(k: nat): nat { if k == 0 then 1 else 10 * Pow10(k - 1) }

  lemma {:induction false} DecimalLength(n: nat, k: nat)
    requires k > 0 && n < Pow10(k)
    ensures 1 <= |Decimal(n)| <= k && forall i | 0 <= i < |Decimal(n)| :: IsDigit(Decimal(n)[i])
    decreases k
  {
    if n >= 10 {
      DecimalLength(n / 10, k - 1);
    }
  }

  lemma FallbackId(i: nat)
    requires i < 0x1_0000_0000
    ensures IsId("node-" + Decimal(i + 1))
  {
    assert Pow10(2) == 100 && Pow10(4) == 10000 && Pow10(6) == 1000000 && Pow10(8) == 100000000 && Pow10(10) == 10000000000;
    DecimalLength(i + 1, 10);
    var s := "node-" + Decimal(i + 1);
    assert s[..5] == "node-" && s[5..] == Decimal(i + 1);
    forall k | 0 <= k < |s| ensures IsAlphanumeric(s[k]) || s[k] == '-' {
      if k >= 5 {
        assert s[k] == Decimal(i + 1)[k - 5];
      }
    }
  }

  lemma RowWellFormed(run: RunView, i: nat)
    requires i < |run.nodes| < 0x1_0000_0000
    ensures NodeWellFormed(Row(run, i))
  {
    hide CanonicalDate, SafeText, IsId;
    FallbackId(i);
    IdIsSafe(Row(run, i).id, 64);
  }

  lemma EpochIsCanonical()
    ensures CanonicalDate(EPOCH)
  {
  }

  // ---------------------------------------------------------------- counting and ranking

  function CountStatus(rows: seq<NodeProgress>, s: NodeStatus): nat {
    if rows == [] then 0 else CountStatus(rows[..|rows| - 1], s) + if rows[|rows| - 1].status == s then 1 else 0
  }

  lemma {:induction false} SumOther(counts: map<NodeStatus, int>, statuses: seq<NodeStatus>, s: NodeStatus, v: int)
    requires s !in statuses
    ensures Sum(counts[s := v], statuses) == Sum(counts, statuses)
  {
    if statuses != [] {
      SumOther(counts, statuses[..|statuses| - 1], s, v);
    }
  }

  lemma {:induction false} SumBumped(counts: map<NodeStatus, int>, statuses: seq<NodeStatus>, s: NodeStatus)
    requires s in counts && s in statuses && forall a, b | 0 <= a < b < |statuses| :: statuses[a] != statuses[b]
    ensures Sum(counts[s := counts[s] + 1], statuses) == Sum(counts, statuses) + 1
  {
    var front := statuses[..|statuses| - 1];
    if statuses[|statuses| - 1] == s {
      SumOther(counts, front, s, counts[s] + 1);
    } else {
      SumBumped(counts, front, s);
    }
  }

  lemma StatusesDistinct()
    ensures forall a, b | 0 <= a < b < |STATUSES| :: STATUSES[a] != STATUSES[b]
  {
  }

  method CountStatuses(rows: seq<NodeProgress>) returns (counts: map<NodeStatus, int>)
    ensures forall s: NodeStatus :: s in counts && counts[s] == CountStatus(rows, s)
    ensures Sum(counts, STATUSES) == |rows|
  {
    counts := map[Pending := 0, Ready := 0, Running := 0, Done := 0, Failed := 0, Skipped := 0];
    ZeroSum(counts, STATUSES);
    StatusesDistinct();
    assert rows[..0] == [];
    forall s: NodeStatus ensures s in counts {
      match s case Pending => case Ready => case Running => case Done => case Failed => case Skipped =>
    }
    for i := 0 to |rows|
      invariant forall s: NodeStatus :: s in counts && counts[s] == CountStatus(rows[..i], s)
      invariant Sum(counts, STATUSES) == i
    {
      assert rows[..i + 1][..i] == rows[..i];
      StatusesComplete(rows[i].status);
      SumBumped(counts, STATUSES, rows[i].status);
      counts := counts[rows[i].status := counts[rows[i].status] + 1];
    }
    assert rows[..|rows|] == rows;
  }

  lemma {:induction false} ZeroSum(counts: map<NodeStatus, int>, statuses: seq<NodeStatus>)
    requires forall s | s in counts :: counts[s] == 0
    ensures Sum(counts, statuses) == 0
  {
    if statuses != [] {
      ZeroSum(counts, statuses[..|statuses| - 1]);
    }
  }

  function Priority(s: NodeStatus): nat {
    match s
    case Running => 0
    case Ready => 1
    case Pending => 2
    case _ => 3
  }

  /** The order in which rows are shown: by priority, then as in the graph. */
  predicate Precedes(rows: seq<NodeProgress>, i: nat, j: nat) {
    && i < |rows| && j < |rows|
    && (Priority(rows[i].status) < Priority(rows[j].status) || (Priority(rows[i].status) == Priority(rows[j].status) && i < j))
  }

  predicate Ranks(rows: seq<NodeProgress>, rank: seq<nat>) {
    && |rank| == |rows| && (forall k | 0 <= k < |rank| :: rank[k] < |rows|)
    && (forall i: nat | i < |rows| :: i in rank)
    && (forall a, b | 0 <= a < b < |rank| :: Precedes(rows, rank[a], rank[b]))
  }

  /** The first `k` indices whose row has priority `q`. */
  function IndicesOf(rows: seq<NodeProgress>, q: nat, k: nat): seq<nat>
    requires k <= |rows|
  {
    if k == 0 then [] else IndicesOf(rows, q, k - 1) + if Priority(rows[k - 1].status) == q then [k - 1] else []
  }

  /** The row indices in the order of showing. */
  function Rank(rows: seq<NodeProgress>): seq<nat> {
    IndicesOf(rows, 0, |rows|) + IndicesOf(rows, 1, |rows|) + IndicesOf(rows, 2, |rows|) + IndicesOf(rows, 3, |rows|)
  }

  lemma {:induction false} IndicesFacts(rows: seq<NodeProgress>, q: nat, k: nat)
    requires k <= |rows|
    ensures forall i: nat :: i in IndicesOf(rows, q, k) <==> i < k && Priority(rows[i].status) == q
    ensures forall a, b | 0 <= a < b < |IndicesOf(rows, q, k)| :: IndicesOf(rows, q, k)[a] < IndicesOf(rows, q, k)[b]
  {
    if k > 0 {
      IndicesFacts(rows, q, k - 1);
      var prior := IndicesOf(rows, q, k - 1);
      assert forall a | 0 <= a < |prior| :: prior[a] in prior;
    }
  }

  lemma {:induction false} IndicesPartition(rows: seq<NodeProgress>, k: nat)
    requires k <= |rows|
    ensures |IndicesOf(rows, 0, k)| + |IndicesOf(rows, 1, k)| + |IndicesOf(rows, 2, k)| + |IndicesOf(rows, 3, k)| == k
  {
    if k > 0 {
      IndicesPartition(rows, k - 1);
    }
  }

  predicate InRankOrder(rows: seq<NodeProgress>, s: seq<nat>, low: nat, high: nat) {
    && (forall a, b | 0 <= a < b < |s| :: Precedes(rows, s[a], s[b]))
    && (forall i | i in s :: i < |rows| && low <= Priority(rows[i].status) <= high)
  }

  lemma OrderOfClass(rows: seq<NodeProgress>, q: nat)
    ensures InRankOrder(rows, IndicesOf(rows, q, |rows|), q, q)
  {
    IndicesFacts(rows, q, |rows|);
    var s := IndicesOf(rows, q, |rows|);
    assert forall a | 0 <= a < |s| :: s[a] in s;
  }

  lemma OrdersJoin(rows: seq<NodeProgress>, s: seq<nat>, low: nat, high: nat, t: seq<nat>)
    requires low <= high && InRankOrder(rows, s, low, high) && InRankOrder(rows, t, high + 1, high + 1)
    ensures InRankOrder(rows, s + t, low, high + 1)
  {
  }

  /** It is an ordering of all rows. */
  lemma RankRanks(rows: seq<NodeProgress>)
    ensures Ranks(rows, Rank(rows))
  {
    var s0, s1, s2, s3 := IndicesOf(rows, 0, |rows|), IndicesOf(rows, 1, |rows|), IndicesOf(rows, 2, |rows|), IndicesOf(rows, 3, |rows|);
    IndicesPartition(rows, |rows|);
    RankCovers(rows);
    hide IndicesOf, Precedes, InRankOrder;
    OrderOfClass(rows, 0);
    OrderOfClass(rows, 1);
    OrderOfClass(rows, 2);
    OrderOfClass(rows, 3);
    OrdersJoin(rows, s0, 0, 0, s1);
    OrdersJoin(rows, s0 + s1, 0, 1, s2);
    OrdersJoin(rows, s0 + s1 + s2, 0, 2, s3);
    OrderIsRanking(rows, Rank(rows));
  }

  lemma RankCovers(rows: seq<NodeProgress>)
    ensures forall i: nat | i < |rows| :: i in Rank(rows)
  {
    forall i: nat | i < |rows| ensures i in Rank(rows) {
      IndicesFacts(rows, Priority(rows[i].status), |rows|);
    }
  }

  lemma OrderIsRanking(rows: seq<NodeProgress>, s: seq<nat>)
    requires InRankOrder(rows, s, 0, 3) && |s| == |rows| && forall i: nat | i < |rows| :: i in s
    ensures Ranks(rows, s)
  {
    assert forall a | 0 <= a < |s| :: s[a] in s;
  }

  /** There is only one such order, so any stable sort by priority yields it. */
  lemma {:induction false} RankIsUnique(rows: seq<NodeProgress>, a: seq<nat>, b: seq<nat>, k: nat)
    requires Ranks(rows, a) && Ranks(rows, b) && k <= |rows|
    ensures a[..k] == b[..k]
  {
    if k > 0 {
      RankIsUnique(rows, a, b, k - 1);
      var x, y := a[k - 1], b[k - 1];
      if x != y {
        LaterIn(rows, a, b, k - 1);
        LaterIn(rows, b, a, k - 1);
        assert false;
      }
      assert a[..k] == a[..k - 1] + [x] && b[..k] == b[..k - 1] + [y];
    }
  }

  lemma LaterIn(rows: seq<NodeProgress>, a: seq<nat>, b: seq<nat>, k: nat)
    requires Ranks(rows, a) && Ranks(rows, b) && k < |rows| && a[..k] == b[..k] && a[k] != b[k]
    ensures Precedes(rows, a[k], b[k])
  {
    assert b[k] in a;
    var m :| 0 <= m < |a| && a[m] == b[k];
    forall j | 0 <= j < k ensures a[j] != b[k] {
      assert a[..k][j] == b[..k][j];
      RankedOnce(rows, b, j, k);
    }
  }

  lemma RankedOnce(rows: seq<NodeProgress>, rank: seq<nat>, a: nat, b: nat)
    requires Ranks(rows, rank) && a < b < |rank|
    ensures rank[a] != rank[b]
  {
  }

  // ---------------------------------------------------------------- building

  function Header(run: RunView, total: int, omitted: int, counts: map<NodeStatus, int>, nodes: seq<NodeProgress>): Progress {
    Progress(if IsIdText(run.runId) then run.runId.s else "unknown",
             SafeOr(run.owner, 256).UnwrapOr("unknown"),
             if IsCount(run.revision) then run.revision.n else 0,
             RunStatusNamed(run.status).UnwrapOr(Blocked), !run.dry,
             DateOr(run.created).UnwrapOr(EPOCH), DateOr(run.updated).UnwrapOr(EPOCH), total, omitted, counts, nodes)
  }

  /** Each header cell is the stored one where that is usable, and a fixed replacement where it is not. */
  lemma HeaderCells(run: RunView, total: int, omitted: int, counts: map<NodeStatus, int>, nodes: seq<NodeProgress>)
    ensures var p := Header(run, total, omitted, counts, nodes);
            && (p.runId == if run.runId.Text? && IsId(run.runId.s) then run.runId.s else "unknown")
            && (p.owner == if run.owner.Text? && SafeText(run.owner.s, 256) then run.owner.s else "unknown")
            && (p.revision == if run.revision.Whole? && 0 <= run.revision.n <= MAX_SAFE_INTEGER then run.revision.n else 0)
            && (RunStatusName(p.status) == run.status || (p.status.Blocked? && forall s :: RunStatusName(s) != run.status))
            && (p.live <==> !run.dry)
            && (p.created == if run.created.Text? && CanonicalDate(run.created.s) then run.created.s else "1970-01-01T00:00:00.000Z")
            && (p.updated == if run.updated.Text? && CanonicalDate(run.updated.s) then run.updated.s else "1970-01-01T00:00:00.000Z")
            && p.total == total && p.omitted == omitted && p.counts == counts && p.nodes == nodes
  {
    hide CanonicalDate, IsId;
    if run.runId.Text? && IsId(run.runId.s) {
      IdIsSafe(run.runId.s, 64);
    }
  }

  /** Running rows come first, then ready and then pending ones, and those that are over come last. */
  lemma LivelyRowsComeFirst(rows: seq<NodeProgress>, a: nat, b: nat)
    requires a < b < |Rank(rows)|
    ensures |Rank(rows)| == |rows| && Rank(rows)[a] < |rows| && Rank(rows)[b] < |rows|
    ensures var first, second := rows[Rank(rows)[a]].status, rows[Rank(rows)[b]].status;
            && (second.Running? ==> first.Running?)
            && (second.Ready? ==> first.Running? || first.Ready?)
            && (second.Pending? ==> first.Running? || first.Ready? || first.Pending?)
            && (first == second ==> Rank(rows)[a] < Rank(rows)[b])
  {
    RankRanks(rows);
  }

  /** The rows shown: the first ones in rank. */
  function Shown(rows: seq<NodeProgress>): (nodes: seq<NodeProgress>)
    ensures |nodes| == if |rows| <= MAX_LIVE_NODES then |rows| else MAX_LIVE_NODES
  {
    RankRanks(rows);
    var rank := Rank(rows);
    seq(if |rows| <= MAX_LIVE_NODES then |rows| else MAX_LIVE_NODES, k requires 0 <= k < |rank| && rank[k] < |rows| => rows[rank[k]])
  }

  /** No row left out comes before one that is shown. */
  lemma NothingOmittedPrecedes(rows: seq<NodeProgress>, a: nat, b: nat)
    requires a < |Shown(rows)| <= b < |rows|
    ensures |Rank(rows)| == |rows| && Rank(rows)[a] < |rows| && Rank(rows)[b] < |rows| && Shown(rows)[a] == rows[Rank(rows)[a]]
    ensures Precedes(rows, Rank(rows)[a], Rank(rows)[b])
    ensures Priority(Shown(rows)[a].status) <= Priority(rows[Rank(rows)[b]].status)
  {
    RankRanks(rows);
  }

  lemma HeaderIsWellFormed(run: RunView, omitted: int, counts: map<NodeStatus, int>, nodes: seq<NodeProgress>)
    requires |run.nodes| < 0x1_0000_0000 && omitted >= 0 && |nodes| <= MAX_LIVE_NODES && |nodes| + omitted == |run.nodes|
    requires (forall s: NodeStatus :: s in counts && 0 <= counts[s] <= |run.nodes|) && Sum(counts, STATUSES) == |run.nodes|
    ensures HeaderWellFormed(Header(run, |run.nodes|, omitted, counts, nodes))
  {
    hide CanonicalDate, SafeText, IsId, Sum;
    EpochIsCanonical();
    UnknownIsSafe();
  }

  lemma UnknownIsSafe()
    ensures IsId("unknown") && SafeText("unknown", 64) && SafeText("unknown", 256)
  {
  }

  lemma {:induction false} CountWithin(rows: seq<NodeProgress>, s: NodeStatus)
    ensures CountStatus(rows, s) <= |rows|
  {
    if rows != [] {
      CountWithin(rows[..|rows| - 1], s);
    }
  }

  /**
   * Builds the snapshot of a run. It is always well formed; its counts are those
   * of all rows; and it shows the first rows in rank, or none when two of those
   * have the same id.
   */
  method Build(run: RunView) returns (p: Progress)
    requires |run.nodes| < 0x1_0000_0000
    ensures ProgressWellFormed(p)
    ensures p.owner == SafeOr(run.owner, 256).UnwrapOr("unknown")
    ensures p.total == |run.nodes| && Sum(p.counts, STATUSES) == p.total
    ensures forall s: NodeStatus :: s in p.counts && p.counts[s] == CountStatus(Rows(run), s)
    ensures p.nodes == if DistinctIds(Shown(Rows(run))) then Shown(Rows(run)) else []
    ensures p == Header(run, p.total, p.total - |p.nodes|, p.counts, p.nodes)
  {
    hide Shown, HeaderWellFormed, NodeWellFormed, Encode, Row, SafeOr, CanonicalDate, SafeText, IsId;
    var rows := Rows(run);
    var counts := CountStatuses(rows);
    var chosen := Shown(rows);
    forall s: NodeStatus ensures counts[s] <= |rows| {
      CountWithin(rows, s);
    }
    ShownWellFormed(run);
    HeaderIsWellFormed(run, |rows| - |chosen|, counts, chosen);
    HeaderIsWellFormed(run, |rows|, counts, []);
    var candidate := Header(run, |rows|, |rows| - |chosen|, counts, chosen);
    var parsed := Parse(Encode(candidate), candidate.owner);
    if parsed.Some? {
      EncodeDeterminesNodes(candidate, parsed.value);
      p := parsed.value;
    } else {
      p := candidate.(nodes := [], omitted := |rows|);
    }
  }

  lemma ShownWellFormed(run: RunView)
    requires |run.nodes| < 0x1_0000_0000
    ensures forall k | 0 <= k < |Shown(Rows(run))| :: NodeWellFormed(Shown(Rows(run))[k])
  {
    hide Row, NodeWellFormed;
    var rows := Rows(run);
    RankRanks(rows);
    forall k | 0 <= k < |Shown(rows)| ensures NodeWellFormed(Shown(rows)[k]) {
      RowWellFormed(run, Rank(rows)[k]);
    }
  }

  /** A well-formed snapshot with the encoding of a candidate whose header and nodes are well formed is that candidate. */
  lemma EncodeDeterminesNodes(candidate: Progress, p: Progress)
    requires HeaderWellFormed(candidate) && (forall k | 0 <= k < |candidate.nodes| :: NodeWellFormed(candidate.nodes[k]))
    requires ProgressWellFormed(p) && Encode(p) == Encode(candidate)
    ensures p == candidate
  {
    hide HeaderWellFormed, NodeWellFormed, HeaderAccepted, HeaderOf, EncodeNode;
    EncodedHeader(p);
    EncodedHeader(candidate);
    assert EncodeNodes(p.nodes) == EncodeNodes(candidate.nodes);
    forall i | 0 <= i < |p.nodes| ensures p.nodes[i] == candidate.nodes[i] {
      assert EncodeNodes(p.nodes)[i] == EncodeNodes(candidate.nodes)[i];
      ParseNodeExact(EncodeNode(p.nodes[i]), p.nodes[i]);
      ParseNodeExact(EncodeNode(candidate.nodes[i]), candidate.nodes[i]);
    }
    assert p.nodes == candidate.nodes;
  }

  /** Where all ids are usable and distinct, as in every graph the store accepts, the table is shown. */
  lemma AcceptedIdsAreShown(run: RunView)
    requires forall i | 0 <= i < |run.nodes| :: IsId(run.nodes[i].id)
    requires forall i, j | 0 <= i < j < |run.nodes| :: run.nodes[i].id != run.nodes[j].id
    ensures DistinctIds(Shown(Rows(run)))
  {
    hide IsId;
    var rows := Rows(run);
    RankRanks(rows);
    forall a, b | 0 <= a < b < |Shown(rows)| ensures Shown(rows)[a].id != Shown(rows)[b].id {
      var i, j := Rank(rows)[a], Rank(rows)[b];
      RankedOnce(rows, Rank(rows), a, b);
      assert rows[i].id == run.nodes[i].id && rows[j].id == run.nodes[j].id;
    }
  }

  /** A run whose rows all fit is shown exactly when no two of its rows share an id. */
  lemma FittingRowsAreShownIff(rows: seq<NodeProgress>)
    requires |rows| <= MAX_LIVE_NODES
    ensures DistinctIds(Shown(rows)) <==> DistinctIds(rows)
  {
    hide Precedes;
    RankRanks(rows);
    var rank := Rank(rows);
    if DistinctIds(rows) {
      forall a, b | 0 <= a < b < |rank| ensures Shown(rows)[a].id != Shown(rows)[b].id {
        RankedOnce(rows, rank, a, b);
      }
    } else {
      var i, j :| 0 <= i < j < |rows| && rows[i].id == rows[j].id;
      assert i in rank && j in rank;
      var a :| 0 <= a < |rank| && rank[a] == i;
      var b :| 0 <= b < |rank| && rank[b] == j;
      assert Shown(rows)[a].id == Shown(rows)[b].id;
    }
  }

  /** Two nodes with different ids whose table is blank: the replacement of the second id is the first. */
  method ReplacedIdBlanksTable() returns (run: RunView, p: Progress)
    ensures |run.nodes| == 2 && run.nodes[0].id != run.nodes[1].id && IsId(run.nodes[0].id) && !IsId(run.nodes[1].id)
    ensures p.total == 2 && p.omitted == 2 && p.nodes == []
  {
    hide Shown, ProgressWellFormed, CanonicalDate, SafeText, CountStatus, AllDone, SafeOr, DateOr, RunStatusNamed, AgentNamed, Sum;
    var first, second := Definition("node-2", "checker", []), Definition("bad id", "checker", []);
    run := RunView(Text("run"), Text("owner"), Whole(1), "running", false, Text(EPOCH), Text(EPOCH), [first, second], map[]);
    p := Build(run);
    assert second.id[3] == ' ';
    assert Decimal(2) == "2";
    assert Rows(run)[0].id == "node-2" && Rows(run)[1].id == "node-2";
    FittingRowsAreShownIff(Rows(run));
  }

  /** The parser accepts every snapshot the builder makes, under its own owner, and reads it back unchanged. */
  method BuildAndParse(run: RunView) returns (p: Progress, r: Option<Progress>)
    requires |run.nodes| < 0x1_0000_0000
    ensures r == Some(p)
  {
    hide ProgressWellFormed, Encode;
    p := Build(run);
    r := Parse(Encode(p), p.owner);
    if r.Some? {
      EncodeInjective(p, r.value);
    }
  }
}

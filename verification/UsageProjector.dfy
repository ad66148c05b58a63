// The v3 usage projection of src/accounting/usage_projector.cpp: one sample for each model request.

module UsageProjector {
  import opened Collections
  import opened Options

  // ---- the ledger ---------------------------------------------------------------------------

  // A member of a JSON object that should hold an integer.
  datatype Field = Absent | Number(n: int) | NotInteger

  datatype OwnerUsage = OwnerUsage(input: Field, cacheRead: Field, cacheWrite: Field, output: Field, reasoning: Field)

  // The strings of a prepared request; "" stands for one that is missing or no string.
  datatype Payload = Payload(purpose: string, provider: string, wire: string, model: string)

  datatype EventKind =
    | Prepared(payload: Payload)
    | Sent
    | ResponseCompleted
    | ResponseFailed
    | RequestFailed
    | ResponseCancelled
    | UsageAppended(input: Field, output: Field)
    | Other

  // "" stands for a missing request id.
  datatype Event = Event(id: string, requestId: string, kind: EventKind)

  datatype Message = Message(
    id: string, role: string, turnId: string, requestId: string, purpose: string,
    provider: string, wire: string, model: string, usage: Option<OwnerUsage>)

  datatype Ledger = Ledger(events: seq<Event>, messages: seq<Message>)

  // ---- the projection -----------------------------------------------------------------------

  datatype Purpose = SubagentTurn | MainTurn | CompactReduce | ActionSummary | TitleRefine

  datatype Usage = Usage(input: int, cacheRead: int, cacheCreation: int, output: int, reasoning: int)

  datatype Sample = Sample(
    requestId: string, owner: Option<string>, turnId: string, purpose: Option<Purpose>,
    provider: string, wire: string, model: string, outcome: string,
    usage: Option<Usage>, totalInput: int, totalBilled: int,
    readReported: Option<bool>, writeReported: Option<bool>, incomplete: bool)

  datatype Warning =
    | AppendedObserved(id: string, input: Field, output: Field)
    | OwnerDuplicate(requestId: string)
    | OwnerMissing(requestId: string)
    | PurposeUnmapped(name: string)
    | PreparedMissing(requestId: string)

  datatype Projection = Projection(samples: seq<Sample>, warnings: seq<Warning>)

  function Amount(f: Field): int {
    if f.Number? then f.n else 0
  }

  function UsageFromV3Owner(u: OwnerUsage): Usage {
    Usage(Amount(u.input), Amount(u.cacheRead), Amount(u.cacheWrite), Amount(u.output), Amount(u.reasoning))
  }

  function TotalInput(u: Usage): int {
    u.input + u.cacheRead + u.cacheCreation
  }

  function MapV3Purpose(name: string, subagent: bool): Option<Purpose> {
    if name == "conversation" then Some(if subagent then SubagentTurn else MainTurn)
    else if name == "compact" then Some(CompactReduce)
    else if name == "action_summary" then Some(ActionSummary)
    else if name == "session_title" then Some(TitleRefine)
    else None
  }

  function Outcome(kind: EventKind): Option<string> {
    match kind
    case ResponseCompleted => Some("completed")
    case ResponseFailed => Some("failed")
    case RequestFailed => Some("failed")
    case ResponseCancelled => Some("cancelled")
    case _ => None
  }

  // The last outcome and the last preparation that the events give for a request.
  function OutcomeOf(events: seq<Event>, id: string): Option<string> {
    if events == [] || id == "" then None
    else
      var n := |events| - 1;
      if events[n].requestId == id && Outcome(events[n].kind).Some? then Outcome(events[n].kind)
      else OutcomeOf(events[..n], id)
  }

  function PreparedOf(events: seq<Event>, id: string): Option<Payload> {
    if events == [] || id == "" then None
    else
      var n := |events| - 1;
      if events[n].requestId == id && events[n].kind.Prepared? then Some(events[n].kind.payload)
      else PreparedOf(events[..n], id)
  }

  // The requests sent, in the order of their first sending.
  function SentOrder(events: seq<Event>): seq<string> {
    if events == [] then []
    else
      var n := |events| - 1;
      var before, e := SentOrder(events[..n]), events[n];
      if e.kind.Sent? && e.requestId != "" && e.requestId !in before then before + [e.requestId] else before
  }

  function Observations(events: seq<Event>): seq<Warning> {
    if events == [] then []
    else
      var n := |events| - 1;
      var e := events[n];
      Observations(events[..n]) +
      if e.kind.UsageAppended? then
        [AppendedObserved(if e.requestId == "" then e.id else e.requestId, e.kind.input, e.kind.output)]
      else []
  }

  // The sample completed from the purpose and the prepared request, and what there is to complain about.
  function Filled(s: Sample, purpose: string, prepared: Option<Payload>, subagent: bool): (Sample, seq<Warning>) {
    var mapped := MapV3Purpose(purpose, subagent);
    var notes := if purpose != "" && mapped.None? then [PurposeUnmapped(purpose)] else [];
    var s' := if purpose != "" && mapped.Some? then s.(purpose := mapped) else s;
    match prepared
    case None => (s'.(incomplete := true), notes + [PreparedMissing(s.requestId)])
    case Some(p) =>
      (s'.(provider := if s.provider == "" then p.provider else s.provider,
           wire := if s.wire == "" then p.wire else s.wire,
           model := if s.model == "" then p.model else s.model),
       notes)
  }

  function OrEmpty(s: Option<string>): string {
    if s.Some? then s.value else ""
  }

  function OwnerSample(
    m: Message, outcome: Option<string>, prepared: Option<Payload>, subagent: bool): (Sample, seq<Warning>) {
    var s := Sample(m.requestId, Some(m.id), m.turnId, None, m.provider, m.wire, m.model, OrEmpty(outcome),
                    None, 0, 0, None, None, false);
    var (filled, notes) := Filled(s, m.purpose, prepared, subagent);
    match m.usage
    case None => (filled, notes)
    case Some(given) =>
      var u := UsageFromV3Owner(given);
      (filled.(usage := Some(u), totalInput := TotalInput(u), totalBilled := TotalInput(u) + u.output,
               readReported := Some(!given.cacheRead.Absent?), writeReported := Some(!given.cacheWrite.Absent?)),
       notes)
  }

  function SentSample(
    id: string, outcome: Option<string>, prepared: Option<Payload>, subagent: bool): (Sample, seq<Warning>) {
    var lost := outcome == Some("completed");
    var s := Sample(id, None, "", None, "", "", "", OrEmpty(outcome), None, 0, 0, None, None, lost);
    var (filled, notes) := Filled(s, if prepared.Some? then prepared.value.purpose else "", prepared, subagent);
    (filled.(provider := if filled.provider == "" then "unknown" else filled.provider,
             wire := if filled.wire == "" then "unknown" else filled.wire),
     (if lost then [OwnerMissing(id)] else []) + notes)
  }

  // The first assistant message of each request.
  function Owners(messages: seq<Message>): (owners: seq<Message>)
    ensures forall m | m in owners :: m in messages && m.role == "assistant"
  {
    if messages == [] then []
    else
      var n := |messages| - 1;
      var before, m := Owners(messages[..n]), messages[n];
      if m.role == "assistant" && !Owned(before, m.requestId) then before + [m] else before
  }

  predicate Owned(owners: seq<Message>, id: string) {
    exists i :: 0 <= i < |owners| && owners[i].requestId == id
  }

  function OwnerRows(l: Ledger, subagent: bool, messages: seq<Message>): Projection {
    if messages == [] then Projection([], [])
    else
      var n := |messages| - 1;
      var before, m := OwnerRows(l, subagent, messages[..n]), messages[n];
      if m.role != "assistant" then before
      else if Owned(Owners(messages[..n]), m.requestId) then
        before.(warnings := before.warnings + [OwnerDuplicate(m.requestId)])
      else
        var (s, notes) := OwnerSample(m, OutcomeOf(l.events, m.requestId), PreparedOf(l.events, m.requestId), subagent);
        Projection(before.samples + [s], before.warnings + notes)
  }

  function SentRows(l: Ledger, subagent: bool, sent: seq<string>): Projection {
    if sent == [] then Projection([], [])
    else
      var n := |sent| - 1;
      var before, id := SentRows(l, subagent, sent[..n]), sent[n];
      if Owned(Owners(l.messages), id) then before
      else
        var (s, notes) := SentSample(id, OutcomeOf(l.events, id), PreparedOf(l.events, id), subagent);
        Projection(before.samples + [s], before.warnings + notes)
  }

  function Projected(l: Ledger, subagent: bool): Projection {
    var owned, sent := OwnerRows(l, subagent, l.messages), SentRows(l, subagent, SentOrder(l.events));
    Projection(owned.samples + sent.samples, Observations(l.events) + owned.warnings + sent.warnings)
  }

  // ---- the loops ----------------------------------------------------------------------------

  ghost predicate Indexed(events: seq<Event>, prepared: map<string, Payload>, outcome: map<string, string>) {
    forall id :: Find(prepared, id) == PreparedOf(events, id) && Find(outcome, id) == OutcomeOf(events, id)
  }

  function PreparedNext(before: Option<Payload>, e: Event, id: string): Option<Payload> {
    if id != "" && e.requestId == id && e.kind.Prepared? then Some(e.kind.payload) else before
  }

  function OutcomeNext(before: Option<string>, e: Event, id: string): Option<string> {
    if id != "" && e.requestId == id && Outcome(e.kind).Some? then Outcome(e.kind) else before
  }

  lemma IndexNext(events: seq<Event>, e: Event, id: string)
    ensures PreparedOf(events + [e], id) == PreparedNext(PreparedOf(events, id), e, id)
    ensures OutcomeOf(events + [e], id) == OutcomeNext(OutcomeOf(events, id), e, id)
  {
    assert (events + [e])[..|events|] == events;
  }

  method IndexEvent(e: Event, prepared: map<string, Payload>, outcome: map<string, string>)
    returns (prepared': map<string, Payload>, outcome': map<string, string>)
    ensures forall id :: Find(prepared', id) == PreparedNext(Find(prepared, id), e, id)
    ensures forall id :: Find(outcome', id) == OutcomeNext(Find(outcome, id), e, id)
  {
    prepared', outcome' := prepared, outcome;
    var id := e.requestId;
    match e.kind {
      case Prepared(payload) =>
        if id != "" {
          prepared' := prepared'[id := payload];
        }
      case ResponseCompleted =>
        if id != "" {
          outcome' := outcome'[id := "completed"];
        }
      case ResponseFailed =>
        if id != "" {
          outcome' := outcome'[id := "failed"];
        }
      case RequestFailed =>
        if id != "" {
          outcome' := outcome'[id := "failed"];
        }
      case ResponseCancelled =>
        if id != "" {
          outcome' := outcome'[id := "cancelled"];
        }
      case _ =>
    }
  }

  // One pass over the events.
  method IndexEvents(events: seq<Event>)
    returns (prepared: map<string, Payload>, outcome: map<string, string>, sentOrder: seq<string>,
      warnings: seq<Warning>)
    ensures Indexed(events, prepared, outcome)
    ensures sentOrder == SentOrder(events) && warnings == Observations(events)
  {
    prepared, outcome, sentOrder, warnings := map[], map[], [], [];
    var sentSeen: set<string> := {};
    for i := 0 to |events|
      invariant Indexed(events[..i], prepared, outcome)
      invariant sentOrder == SentOrder(events[..i]) && warnings == Observations(events[..i])
      invariant forall id :: id in sentSeen <==> id in sentOrder
    {
      assert events[..i + 1][..i] == events[..i];
      assert events[..i + 1] == events[..i] + [events[i]];
      var e := events[i];
      var id := e.requestId;
      if e.kind.Sent? && id != "" && id !in sentSeen {
        sentSeen := sentSeen + {id};
        sentOrder := sentOrder + [id];
      }
      if e.kind.UsageAppended? {
        warnings := warnings + [AppendedObserved(if id == "" then e.id else id, e.kind.input, e.kind.output)];
      }
      prepared, outcome := IndexEvent(e, prepared, outcome);
      forall k ensures PreparedOf(events[..i + 1], k) == PreparedNext(PreparedOf(events[..i], k), e, k)
                    && OutcomeOf(events[..i + 1], k) == OutcomeNext(OutcomeOf(events[..i], k), e, k) {
        IndexNext(events[..i], e, k);
      }
    }
    assert events[..|events|] == events;
  }

  lemma OwnedNext(messages: seq<Message>, m: Message, id: string)
    ensures Owned(Owners(messages + [m]), id)
      <==> Owned(Owners(messages), id) || (m.role == "assistant" && m.requestId == id)
  {
    assert (messages + [m])[..|messages|] == messages;
    var before := Owners(messages);
    if Owned(before, id) {
      var i :| 0 <= i < |before| && before[i].requestId == id;
      assert (before + [m])[i].requestId == id;
    }
    assert (before + [m])[|before|] == m;
  }

  // The samples driven by assistant messages.
  method OwnerPass(l: Ledger, subagent: bool, prepared: map<string, Payload>, outcome: map<string, string>)
    returns (rows: Projection, owned: set<string>)
    requires Indexed(l.events, prepared, outcome)
    ensures rows == OwnerRows(l, subagent, l.messages)
    ensures forall id :: id in owned <==> Owned(Owners(l.messages), id)
  {
    rows, owned := Projection([], []), {};
    for i := 0 to |l.messages|
      invariant rows == OwnerRows(l, subagent, l.messages[..i])
      invariant forall id :: id in owned <==> Owned(Owners(l.messages[..i]), id)
    {
      var m := l.messages[i];
      assert l.messages[..i + 1][..i] == l.messages[..i];
      forall id
        ensures Owned(Owners(l.messages[..i + 1]), id)
           <==> Owned(Owners(l.messages[..i]), id) || (m.role == "assistant" && m.requestId == id)
      {
        assert l.messages[..i + 1] == l.messages[..i] + [m];
        OwnedNext(l.messages[..i], m, id);
      }
      if m.role != "assistant" {
        continue;
      }
      if m.requestId in owned {
        rows := rows.(warnings := rows.warnings + [OwnerDuplicate(m.requestId)]);
        continue;
      }
      owned := owned + {m.requestId};
      var (s, notes) := OwnerSample(m, Find(outcome, m.requestId), Find(prepared, m.requestId), subagent);
      rows := Projection(rows.samples + [s], rows.warnings + notes);
    }
    assert l.messages[..|l.messages|] == l.messages;
  }

  // The requests that were sent and have no owner.
  method SentPass(l: Ledger, subagent: bool, prepared: map<string, Payload>, outcome: map<string, string>,
                  sentOrder: seq<string>, owned: set<string>)
    returns (rows: Projection)
    requires Indexed(l.events, prepared, outcome) && forall id :: id in owned <==> Owned(Owners(l.messages), id)
    ensures rows == SentRows(l, subagent, sentOrder)
  {
    rows := Projection([], []);
    for i := 0 to |sentOrder|
      invariant rows == SentRows(l, subagent, sentOrder[..i])
    {
      assert sentOrder[..i + 1][..i] == sentOrder[..i];
      var id := sentOrder[i];
      if id in owned {
        continue;
      }
      var (s, notes) := SentSample(id, Find(outcome, id), Find(prepared, id), subagent);
      rows := Projection(rows.samples + [s], rows.warnings + notes);
    }
    assert sentOrder[..|sentOrder|] == sentOrder;
  }

  method ProjectV3Usage(l: Ledger, subagent: bool) returns (result: Projection)
    ensures result == Projected(l, subagent)
  {
    var prepared, outcome, sentOrder, warnings := IndexEvents(l.events);
    var owners, owned := OwnerPass(l, subagent, prepared, outcome);
    var sent := SentPass(l, subagent, prepared, outcome, sentOrder, owned);
    result := Projection(owners.samples + sent.samples, warnings + owners.warnings + sent.warnings);
  }

  // ---- one sample for each request ----------------------------------------------------------

  // The message that owns the usage of its request: no assistant message before it has the same request.
  ghost predicate FirstOwner(messages: seq<Message>, i: nat)
    requires i < |messages|
  {
    && messages[i].role == "assistant"
    && forall j | 0 <= j < i && messages[j].role == "assistant" :: messages[j].requestId != messages[i].requestId
  }

  ghost predicate HasOwner(messages: seq<Message>, id: string) {
    exists i :: 0 <= i < |messages| && messages[i].role == "assistant" && messages[i].requestId == id
  }

  lemma {:induction false} OwnedIffOwner(messages: seq<Message>, id: string)
    ensures Owned(Owners(messages), id) <==> HasOwner(messages, id)
  {
    if messages != [] {
      var n := |messages| - 1;
      OwnedIffOwner(messages[..n], id);
      OwnedNext(messages[..n], messages[n], id);
      assert messages == messages[..n] + [messages[n]];
      if HasOwner(messages, id) {
        var i :| 0 <= i < |messages| && messages[i].role == "assistant" && messages[i].requestId == id;
        assert i < n ==> messages[..n][i] == messages[i];
      }
      if HasOwner(messages[..n], id) {
        var i :| 0 <= i < n && messages[..n][i].role == "assistant" && messages[..n][i].requestId == id;
        assert messages[i] == messages[..n][i];
      }
    }
  }

  // A count is the number given for it, and 0 when what is given is no integer.
  ghost predicate Given(f: Field, count: int) {
    match f
    case Number(n) => count == n
    case NotInteger => count == 0
    case Absent => count == 0
  }

  // Each count under its own name, and nothing reported when nothing was.
  ghost predicate Reports(given: Option<OwnerUsage>, usage: Option<Usage>) {
    if given.None? then usage.None?
    else
      && usage.Some?
      && Given(given.value.input, usage.value.input) && Given(given.value.output, usage.value.output)
      && Given(given.value.cacheRead, usage.value.cacheRead) && Given(given.value.cacheWrite, usage.value.cacheCreation)
      && Given(given.value.reasoning, usage.value.reasoning)
  }

  ghost predicate Mirrors(s: Sample, m: Message) {
    s.requestId == m.requestId && s.owner == Some(m.id) && s.turnId == m.turnId && Reports(m.usage, s.usage)
  }

  lemma FilledKeeps(s: Sample, purpose: string, prepared: Option<Payload>, subagent: bool)
    ensures
      var f := Filled(s, purpose, prepared, subagent).0;
      f.requestId == s.requestId && f.owner == s.owner && f.turnId == s.turnId && f.usage == s.usage
  {
    var mapped := MapV3Purpose(purpose, subagent);
    var s' := if purpose != "" && mapped.Some? then s.(purpose := mapped) else s;
    assert s'.requestId == s.requestId && s'.owner == s.owner && s'.turnId == s.turnId && s'.usage == s.usage;
  }

  lemma OwnerSampleMirrors(m: Message, outcome: Option<string>, prepared: Option<Payload>, subagent: bool)
    ensures Mirrors(OwnerSample(m, outcome, prepared, subagent).0, m)
  {
    var s := Sample(m.requestId, Some(m.id), m.turnId, None, m.provider, m.wire, m.model, OrEmpty(outcome),
                    None, 0, 0, None, None, false);
    FilledKeeps(s, m.purpose, prepared, subagent);
  }

  lemma SentSampleMeans(id: string, outcome: Option<string>, prepared: Option<Payload>, subagent: bool)
    ensures
      var s := SentSample(id, outcome, prepared, subagent).0;
      s.requestId == id && s.owner == None && s.usage == None
  {
  }

  ghost predicate MirrorsAll(samples: seq<Sample>, owners: seq<Message>) {
    |samples| == |owners| && forall i | 0 <= i < |owners| :: Mirrors(samples[i], owners[i])
  }

  lemma {:induction false} OwnerRowsMirror(l: Ledger, subagent: bool, messages: seq<Message>)
    ensures
      var samples, owners := OwnerRows(l, subagent, messages).samples, Owners(messages);
      MirrorsAll(samples, owners)
  {
    if messages != [] {
      var n := |messages| - 1;
      OwnerRowsMirror(l, subagent, messages[..n]);
      var id := messages[n].requestId;
      OwnerSampleMirrors(messages[n], OutcomeOf(l.events, id), PreparedOf(l.events, id), subagent);
    }
  }

  ghost predicate Differ(owners: seq<Message>) {
    forall i, j | 0 <= i < j < |owners| :: owners[i].requestId != owners[j].requestId
  }

  lemma DifferNext(owners: seq<Message>, m: Message)
    requires Differ(owners) && !Owned(owners, m.requestId)
    ensures Differ(owners + [m])
  {
  }

  lemma {:induction false} OwnersDiffer(messages: seq<Message>)
    ensures Differ(Owners(messages))
  {
    if messages != [] {
      var n := |messages| - 1;
      OwnersDiffer(messages[..n]);
      if messages[n].role == "assistant" && !Owned(Owners(messages[..n]), messages[n].requestId) {
        DifferNext(Owners(messages[..n]), messages[n]);
      }
    }
  }

  ghost predicate WasSent(events: seq<Event>, id: string) {
    id != "" && exists i :: 0 <= i < |events| && events[i].kind.Sent? && events[i].requestId == id
  }

  lemma {:induction false} SentOrderMeans(events: seq<Event>, id: string)
    ensures id in SentOrder(events) <==> WasSent(events, id)
    ensures var sent := SentOrder(events); forall i, j | 0 <= i < j < |sent| :: sent[i] != sent[j]
  {
    if events != [] {
      var n := |events| - 1;
      SentOrderMeans(events[..n], id);
      if WasSent(events, id) {
        var i :| 0 <= i < |events| && events[i].kind.Sent? && events[i].requestId == id;
        assert i < n ==> events[..n][i] == events[i];
      }
      if WasSent(events[..n], id) {
        var i :| 0 <= i < n && events[..n][i].kind.Sent? && events[..n][i].requestId == id;
        assert events[i] == events[..n][i];
      }
    }
  }

  // The sent requests without an owner.
  function Unowned(l: Ledger, sent: seq<string>): seq<string> {
    if sent == [] then []
    else
      var n := |sent| - 1;
      Unowned(l, sent[..n]) + if Owned(Owners(l.messages), sent[n]) then [] else [sent[n]]
  }

  lemma {:induction false} UnownedMeans(l: Ledger, sent: seq<string>, id: string)
    ensures id in Unowned(l, sent) <==> id in sent && !Owned(Owners(l.messages), id)
    ensures
      (forall i, j | 0 <= i < j < |sent| :: sent[i] != sent[j]) ==>
      var ids := Unowned(l, sent); forall i, j | 0 <= i < j < |ids| :: ids[i] != ids[j]
  {
    if sent != [] {
      var n := |sent| - 1;
      UnownedMeans(l, sent[..n], id);
      UnownedMeans(l, sent[..n], sent[n]);
      assert sent == sent[..n] + [sent[n]];
    }
  }

  lemma {:induction false} SentRowsMirror(l: Ledger, subagent: bool, sent: seq<string>)
    ensures
      var samples, ids := SentRows(l, subagent, sent).samples, Unowned(l, sent);
      && |samples| == |ids|
      && forall i | 0 <= i < |ids| ::
           samples[i].requestId == ids[i] && samples[i].owner == None && samples[i].usage == None
  {
    if sent != [] {
      var n := |sent| - 1;
      SentRowsMirror(l, subagent, sent[..n]);
      SentSampleMeans(sent[n], OutcomeOf(l.events, sent[n]), PreparedOf(l.events, sent[n]), subagent);
    }
  }

  // No two samples are about the same request.
  lemma SamplesDiffer(l: Ledger, subagent: bool)
    ensures
      var samples := Projected(l, subagent).samples;
      forall i, j | 0 <= i < j < |samples| :: samples[i].requestId != samples[j].requestId
  {
    var owners, sent := Owners(l.messages), SentOrder(l.events);
    OwnerRowsMirror(l, subagent, l.messages);
    OwnersDiffer(l.messages);
    SentRowsMirror(l, subagent, sent);
    SentOrderMeans(l.events, "");
    var ids := Unowned(l, sent);
    forall k | 0 <= k < |ids| ensures !Owned(owners, ids[k]) {
      UnownedMeans(l, sent, ids[k]);
    }
    UnownedMeans(l, sent, "");
    var samples := Projected(l, subagent).samples;
    forall i, j | 0 <= i < j < |samples| ensures samples[i].requestId != samples[j].requestId {
      if i < |owners| && j >= |owners| {
        assert !Owned(owners, ids[j - |owners|]);
        assert owners[i].requestId == samples[i].requestId;
      }
    }
  }

  ghost predicate HasSample(samples: seq<Sample>, id: string) {
    exists i :: 0 <= i < |samples| && samples[i].requestId == id
  }

  lemma HasSampleConcat(a: seq<Sample>, b: seq<Sample>, id: string)
    ensures HasSample(a + b, id) <==> HasSample(a, id) || HasSample(b, id)
  {
    if HasSample(a, id) {
      var i :| 0 <= i < |a| && a[i].requestId == id;
      assert (a + b)[i].requestId == id;
    }
    if HasSample(b, id) {
      var i :| 0 <= i < |b| && b[i].requestId == id;
      assert (a + b)[|a| + i].requestId == id;
    }
  }

  lemma OwnerRowsCover(l: Ledger, subagent: bool, id: string)
    ensures HasSample(OwnerRows(l, subagent, l.messages).samples, id) <==> HasOwner(l.messages, id)
  {
    OwnedIffOwner(l.messages, id);
    OwnerRowsMirror(l, subagent, l.messages);
    var samples, owners := OwnerRows(l, subagent, l.messages).samples, Owners(l.messages);
    if Owned(owners, id) {
      var i :| 0 <= i < |owners| && owners[i].requestId == id;
      assert samples[i].requestId == id;
    }
    if HasSample(samples, id) {
      var i :| 0 <= i < |samples| && samples[i].requestId == id;
      assert owners[i].requestId == id;
    }
  }

  lemma SentRowsCover(l: Ledger, subagent: bool, sent: seq<string>, id: string)
    ensures HasSample(SentRows(l, subagent, sent).samples, id) <==> id in Unowned(l, sent)
  {
    SentRowsMirror(l, subagent, sent);
    var samples, ids := SentRows(l, subagent, sent).samples, Unowned(l, sent);
    if id in ids {
      var k :| 0 <= k < |ids| && ids[k] == id;
      assert samples[k].requestId == id;
    }
  }

  // The requests with a sample are those with an assistant message and those that were sent.
  lemma SamplesCover(l: Ledger, subagent: bool, id: string)
    ensures HasSample(Projected(l, subagent).samples, id) <==> HasOwner(l.messages, id) || WasSent(l.events, id)
  {
    var sent := SentOrder(l.events);
    HasSampleConcat(OwnerRows(l, subagent, l.messages).samples, SentRows(l, subagent, sent).samples, id);
    OwnerRowsCover(l, subagent, id);
    SentRowsCover(l, subagent, sent, id);
    SentOrderMeans(l.events, id);
    UnownedMeans(l, sent, id);
    OwnedIffOwner(l.messages, id);
  }

  // What every sample says beside its identity: the last outcome the events give, what is missing, and
  // totals that agree with the reported usage.
  ghost predicate Sound(s: Sample, l: Ledger) {
    var outcome, prepared := OutcomeOf(l.events, s.requestId), PreparedOf(l.events, s.requestId);
    && (if outcome.Some? then s.outcome == outcome.value else |s.outcome| == 0)
    && (s.incomplete <==> prepared.None? || (s.owner.None? && outcome == Some("completed")))
    && (prepared.Some? && s.owner.None? ==> s.model == prepared.value.model)
    && match s.usage
       case None => s.totalInput == 0 && s.totalBilled == 0 && s.readReported.None? && s.writeReported.None?
       case Some(u) =>
         && s.totalInput == u.input + u.cacheRead + u.cacheCreation && s.totalBilled == s.totalInput + u.output
         && (s.readReported == Some(false) ==> u.cacheRead == 0)
         && (s.writeReported == Some(false) ==> u.cacheCreation == 0)
  }

  lemma FilledIsSound(s: Sample, purpose: string, prepared: Option<Payload>, subagent: bool)
    ensures
      var f := Filled(s, purpose, prepared, subagent).0;
      && f.outcome == s.outcome && (f.incomplete <==> s.incomplete || prepared.None?)
      && (prepared.Some? && s.model == "" ==> f.model == prepared.value.model)
      && f.totalInput == s.totalInput && f.totalBilled == s.totalBilled
      && f.readReported == s.readReported && f.writeReported == s.writeReported
  {
    var mapped := MapV3Purpose(purpose, subagent);
    var s' := if purpose != "" && mapped.Some? then s.(purpose := mapped) else s;
    assert s'.model == s.model && s'.outcome == s.outcome && s'.incomplete == s.incomplete;
  }

  lemma OwnerSampleSound(m: Message, l: Ledger, subagent: bool)
    ensures Sound(OwnerSample(m, OutcomeOf(l.events, m.requestId), PreparedOf(l.events, m.requestId), subagent).0, l)
  {
    var outcome, prepared := OutcomeOf(l.events, m.requestId), PreparedOf(l.events, m.requestId);
    var s := Sample(m.requestId, Some(m.id), m.turnId, None, m.provider, m.wire, m.model, OrEmpty(outcome),
                    None, 0, 0, None, None, false);
    FilledKeeps(s, m.purpose, prepared, subagent);
    FilledIsSound(s, m.purpose, prepared, subagent);
  }

  lemma SentSampleSound(id: string, l: Ledger, subagent: bool)
    ensures Sound(SentSample(id, OutcomeOf(l.events, id), PreparedOf(l.events, id), subagent).0, l)
  {
    var outcome, prepared := OutcomeOf(l.events, id), PreparedOf(l.events, id);
    var incomplete := outcome == Some("completed");
    var s := Sample(id, None, "", None, "", "", "", OrEmpty(outcome), None, 0, 0, None, None, incomplete);
    var purpose := if prepared.Some? then prepared.value.purpose else "";
    FilledKeeps(s, purpose, prepared, subagent);
    FilledIsSound(s, purpose, prepared, subagent);
  }

  lemma {:induction false} OwnerRowsSound(l: Ledger, subagent: bool, messages: seq<Message>)
    ensures forall s | s in OwnerRows(l, subagent, messages).samples :: Sound(s, l)
  {
    if messages != [] {
      var n := |messages| - 1;
      OwnerRowsSound(l, subagent, messages[..n]);
      OwnerSampleSound(messages[n], l, subagent);
    }
  }

  lemma {:induction false} SentRowsSound(l: Ledger, subagent: bool, sent: seq<string>)
    ensures forall s | s in SentRows(l, subagent, sent).samples :: Sound(s, l)
  {
    if sent != [] {
      var n := |sent| - 1;
      SentRowsSound(l, subagent, sent[..n]);
      SentSampleSound(sent[n], l, subagent);
    }
  }

  lemma SamplesAreSound(l: Ledger, subagent: bool)
    ensures forall s | s in Projected(l, subagent).samples :: Sound(s, l)
  {
    OwnerRowsSound(l, subagent, l.messages);
    SentRowsSound(l, subagent, SentOrder(l.events));
  }

  // ---- tokens -------------------------------------------------------------------------------

  function PlusUsage(a: Usage, u: Option<Usage>): Usage {
    match u
    case None => a
    case Some(b) =>
      Usage(a.input + b.input, a.cacheRead + b.cacheRead, a.cacheCreation + b.cacheCreation,
            a.output + b.output, a.reasoning + b.reasoning)
  }

  function SampleTokens(samples: seq<Sample>): Usage {
    if samples == [] then Usage(0, 0, 0, 0, 0)
    else
      var n := |samples| - 1;
      PlusUsage(SampleTokens(samples[..n]), samples[n].usage)
  }

  // The fields of the usage object.
  datatype Kind = Input | CacheRead | CacheWrite | Output | Reasoning

  function FieldOf(u: OwnerUsage, kind: Kind): Field {
    match kind
    case Input => u.input
    case CacheRead => u.cacheRead
    case CacheWrite => u.cacheWrite
    case Output => u.output
    case Reasoning => u.reasoning
  }

  function CountOf(u: Usage, kind: Kind): int {
    match kind
    case Input => u.input
    case CacheRead => u.cacheRead
    case CacheWrite => u.cacheCreation
    case Output => u.output
    case Reasoning => u.reasoning
  }

  // What the first owners of all requests give under one field; anything but an integer counts nothing.
  ghost function OwnerTokens(messages: seq<Message>, kind: Kind): int {
    if messages == [] then 0
    else
      var n := |messages| - 1;
      var m := messages[n];
      var counts := FirstOwner(messages, n) && m.usage.Some? && FieldOf(m.usage.value, kind).Number?;
      OwnerTokens(messages[..n], kind) + if counts then FieldOf(m.usage.value, kind).n else 0
  }

  lemma FirstOwnerIff(messages: seq<Message>)
    requires messages != []
    ensures
      var n := |messages| - 1;
      FirstOwner(messages, n) <==>
      messages[n].role == "assistant" && !Owned(Owners(messages[..n]), messages[n].requestId)
  {
    var n := |messages| - 1;
    OwnedIffOwner(messages[..n], messages[n].requestId);
    if !FirstOwner(messages, n) && messages[n].role == "assistant" {
      var j :| 0 <= j < n && messages[j].role == "assistant" && messages[j].requestId == messages[n].requestId;
      assert messages[..n][j] == messages[j];
    }
  }

  lemma PlusCount(a: Usage, u: Option<Usage>, kind: Kind)
    ensures CountOf(PlusUsage(a, u), kind) == CountOf(a, kind) + if u.Some? then CountOf(u.value, kind) else 0
  {
  }

  lemma GivenCount(given: OwnerUsage, usage: Option<Usage>, kind: Kind)
    requires Reports(Some(given), usage)
    ensures CountOf(usage.value, kind) == if FieldOf(given, kind).Number? then FieldOf(given, kind).n else 0
  {
    assert Given(FieldOf(given, kind), CountOf(usage.value, kind));
  }

  lemma OneMoreSample(before: seq<Sample>, s: Sample, kind: Kind)
    ensures CountOf(SampleTokens(before + [s]), kind)
         == CountOf(SampleTokens(before), kind) + if s.usage.Some? then CountOf(s.usage.value, kind) else 0
  {
    assert (before + [s])[..|before|] == before;
    PlusCount(SampleTokens(before), s.usage, kind);
  }

  function GivenBy(m: Message, kind: Kind): int {
    if m.usage.Some? && FieldOf(m.usage.value, kind).Number? then FieldOf(m.usage.value, kind).n else 0
  }

  function GivenByAll(owners: seq<Message>, kind: Kind): int {
    if owners == [] then 0
    else
      var n := |owners| - 1;
      GivenByAll(owners[..n], kind) + GivenBy(owners[n], kind)
  }

  lemma {:induction false} MirroredTokens(samples: seq<Sample>, owners: seq<Message>, kind: Kind)
    requires MirrorsAll(samples, owners)
    ensures CountOf(SampleTokens(samples), kind) == GivenByAll(owners, kind)
  {
    if samples != [] {
      var n := |samples| - 1;
      MirroredTokens(samples[..n], owners[..n], kind);
      assert Mirrors(samples[n], owners[n]) && samples == samples[..n] + [samples[n]];
      OneMoreSample(samples[..n], samples[n], kind);
      if owners[n].usage.Some? {
        GivenCount(owners[n].usage.value, samples[n].usage, kind);
      }
    }
  }

  lemma {:induction false} OwnersGive(messages: seq<Message>, kind: Kind)
    ensures GivenByAll(Owners(messages), kind) == OwnerTokens(messages, kind)
  {
    if messages != [] {
      var n := |messages| - 1;
      var before := Owners(messages[..n]);
      OwnersGive(messages[..n], kind);
      FirstOwnerIff(messages);
      if FirstOwner(messages, n) {
        assert (before + [messages[n]])[..|before|] == before;
      }
    }
  }

  lemma OwnerRowTokens(l: Ledger, subagent: bool, messages: seq<Message>, kind: Kind)
    ensures CountOf(SampleTokens(OwnerRows(l, subagent, messages).samples), kind) == OwnerTokens(messages, kind)
  {
    OwnerRowsMirror(l, subagent, messages);
    MirroredTokens(OwnerRows(l, subagent, messages).samples, Owners(messages), kind);
    OwnersGive(messages, kind);
  }

  lemma {:induction false} UnknownAddsNothing(known: seq<Sample>, unknown: seq<Sample>)
    requires forall i | 0 <= i < |unknown| :: unknown[i].usage == None
    ensures SampleTokens(known + unknown) == SampleTokens(known)
  {
    if unknown == [] {
      assert known + unknown == known;
    } else {
      var n := |unknown| - 1;
      UnknownAddsNothing(known, unknown[..n]);
      assert (known + unknown)[..|known| + n] == known + unknown[..n];
    }
  }

  // The tokens of all samples are, field by field, those that the first owner of each request gives.
  lemma TokensCountOnce(l: Ledger, subagent: bool)
    ensures forall kind :: CountOf(SampleTokens(Projected(l, subagent).samples), kind) == OwnerTokens(l.messages, kind)
  {
    forall kind
      ensures CountOf(SampleTokens(OwnerRows(l, subagent, l.messages).samples), kind) == OwnerTokens(l.messages, kind)
    {
      OwnerRowTokens(l, subagent, l.messages, kind);
    }
    SentRowsMirror(l, subagent, SentOrder(l.events));
    UnknownAddsNothing(OwnerRows(l, subagent, l.messages).samples, SentRows(l, subagent, SentOrder(l.events)).samples);
  }

  // ---- appended usage is only observed ------------------------------------------------------

  function Kept(events: seq<Event>): seq<Event> {
    if events == [] then []
    else
      var n := |events| - 1;
      Kept(events[..n]) + if events[n].kind.UsageAppended? then [] else [events[n]]
  }

  lemma SentNext(events: seq<Event>, e: Event)
    ensures
      var before := SentOrder(events);
      SentOrder(events + [e]) ==
      if e.kind.Sent? && e.requestId != "" && e.requestId !in before then before + [e.requestId] else before
  {
    assert (events + [e])[..|events|] == events;
  }

  lemma {:induction false} SentOrderKept(events: seq<Event>)
    ensures SentOrder(Kept(events)) == SentOrder(events)
  {
    if events != [] {
      var n := |events| - 1;
      SentOrderKept(events[..n]);
      var kept, e := Kept(events[..n]), events[n];
      if e.kind.UsageAppended? {
        assert Kept(events) == kept;
      } else {
        assert Kept(events) == kept + [e];
        SentNext(kept, e);
      }
    }
  }

  lemma {:induction false} IndexKept(events: seq<Event>, id: string)
    ensures OutcomeOf(Kept(events), id) == OutcomeOf(events, id)
    ensures PreparedOf(Kept(events), id) == PreparedOf(events, id)
  {
    if events != [] {
      var n := |events| - 1;
      var kept, e := Kept(events[..n]), events[n];
      IndexKept(events[..n], id);
      assert events == events[..n] + [e];
      IndexNext(events[..n], e, id);
      if e.kind.UsageAppended? {
        assert Kept(events) == kept;
      } else {
        assert Kept(events) == kept + [e];
        IndexNext(kept, e, id);
      }
    }
  }

  lemma {:induction false} OwnerRowsKept(l: Ledger, k: Ledger, subagent: bool, messages: seq<Message>)
    requires forall id ::
               && OutcomeOf(k.events, id) == OutcomeOf(l.events, id)
               && PreparedOf(k.events, id) == PreparedOf(l.events, id)
    ensures OwnerRows(k, subagent, messages) == OwnerRows(l, subagent, messages)
  {
    if messages != [] {
      OwnerRowsKept(l, k, subagent, messages[..|messages| - 1]);
    }
  }

  lemma {:induction false} SentRowsKept(l: Ledger, k: Ledger, subagent: bool, sent: seq<string>)
    requires k.messages == l.messages
    requires forall id ::
               && OutcomeOf(k.events, id) == OutcomeOf(l.events, id)
               && PreparedOf(k.events, id) == PreparedOf(l.events, id)
    ensures SentRows(k, subagent, sent) == SentRows(l, subagent, sent)
  {
    if sent != [] {
      SentRowsKept(l, k, subagent, sent[..|sent| - 1]);
    }
  }

  // Deleting the appended-usage events leaves every sample as it was.
  lemma AppendedUsageIsNotCounted(l: Ledger, subagent: bool)
    ensures Projected(l.(events := Kept(l.events)), subagent).samples == Projected(l, subagent).samples
  {
    var k := l.(events := Kept(l.events));
    forall id
      ensures OutcomeOf(k.events, id) == OutcomeOf(l.events, id)
      ensures PreparedOf(k.events, id) == PreparedOf(l.events, id)
    {
      IndexKept(l.events, id);
    }
    SentOrderKept(l.events);
    OwnerRowsKept(l, k, subagent, l.messages);
    SentRowsKept(l, k, subagent, SentOrder(l.events));
  }
}

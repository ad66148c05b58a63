// What the samples and the warnings of a projection say, in terms of the ledger alone.

module UsageSamples {
  import opened Options
  import opened UsageProjector

  // ---- purposes -----------------------------------------------------------------------------

  function NameOf(p: Purpose): string {
    match p
    case SubagentTurn => "conversation"
    case MainTurn => "conversation"
    case CompactReduce => "compact"
    case ActionSummary => "action_summary"
    case TitleRefine => "session_title"
  }

  // A turn is one of the agent that runs.
  predicate FitsRun(p: Purpose, subagent: bool) {
    (p == SubagentTurn ==> subagent) && (p == MainTurn ==> !subagent)
  }

  ghost predicate PurposeIs(got: Option<Purpose>, name: string, subagent: bool) {
    forall p :: got == Some(p) <==> NameOf(p) == name && FitsRun(p, subagent)
  }

  lemma PurposesMean(name: string, subagent: bool)
    ensures PurposeIs(MapV3Purpose(name, subagent), name, subagent)
    ensures MapV3Purpose(name, subagent).None? <==> forall p :: NameOf(p) != name
  {
    assert NameOf(if subagent then SubagentTurn else MainTurn) == "conversation";
    assert NameOf(CompactReduce) == "compact" && NameOf(ActionSummary) == "action_summary";
    assert NameOf(TitleRefine) == "session_title";
    assert "conversation"[0] == 'c' && "conversation"[2] == 'n' && "compact"[2] == 'm';
    assert "compact"[0] == 'c' && "action_summary"[0] == 'a' && "session_title"[0] == 's';
  }

  // ---- the last word on a request -----------------------------------------------------------

  ghost predicate Closes(e: Event, id: string) {
    && e.requestId == id
    && (e.kind.ResponseCompleted? || e.kind.ResponseFailed? || e.kind.RequestFailed? || e.kind.ResponseCancelled?)
  }

  ghost predicate LastClosing(events: seq<Event>, id: string, i: nat) {
    i < |events| && Closes(events[i], id) && forall k | i < k < |events| :: !Closes(events[k], id)
  }

  ghost predicate LastPrepared(events: seq<Event>, id: string, i: nat) {
    && i < |events| && events[i].requestId == id && events[i].kind.Prepared?
    && forall k | i < k < |events| :: !(events[k].requestId == id && events[k].kind.Prepared?)
  }

  lemma {:induction false} LastClosingDecides(events: seq<Event>, id: string, i: nat)
    requires id != "" && LastClosing(events, id, i)
    ensures OutcomeOf(events, id) == Outcome(events[i].kind)
  {
    var n := |events| - 1;
    if i < n {
      assert LastClosing(events[..n], id, i);
      assert !Closes(events[n], id);
      LastClosingDecides(events[..n], id, i);
    }
  }

  lemma {:induction false} NeverClosed(events: seq<Event>, id: string)
    requires id != "" && forall i | 0 <= i < |events| :: !Closes(events[i], id)
    ensures OutcomeOf(events, id).None?
  {
    if events != [] {
      var n := |events| - 1;
      assert !Closes(events[n], id);
      NeverClosed(events[..n], id);
    }
  }

  lemma {:induction false} FindLastClosing(events: seq<Event>, id: string, n: nat) returns (i: nat)
    requires n <= |events| && (exists k :: 0 <= k < n && Closes(events[k], id))
    requires forall k | n <= k < |events| :: !Closes(events[k], id)
    ensures LastClosing(events, id, i)
  {
    if Closes(events[n - 1], id) {
      i := n - 1;
    } else {
      i := FindLastClosing(events, id, n - 1);
    }
  }

  lemma OutcomeWords(kind: EventKind)
    ensures Outcome(kind) == Some("completed") <==> kind.ResponseCompleted?
    ensures Outcome(kind) == Some("cancelled") <==> kind.ResponseCancelled?
    ensures Outcome(kind) == Some("failed") <==> kind.ResponseFailed? || kind.RequestFailed?
    ensures Outcome(kind).Some? ==> Outcome(kind).value in {"completed", "cancelled", "failed"}
  {
    assert "completed"[1] == 'o' && "cancelled"[1] == 'a' && "failed"[0] == 'f' && "completed"[0] == 'c';
    assert "cancelled"[0] == 'c';
  }

  // The outcome of a request is what its last closing event says.
  lemma OutcomeMeans(events: seq<Event>, id: string)
    requires id != ""
    ensures OutcomeOf(events, id).None? <==> forall i | 0 <= i < |events| :: !Closes(events[i], id)
    ensures forall i: nat | LastClosing(events, id, i) ::
              && (OutcomeOf(events, id) == Some("completed") <==> events[i].kind.ResponseCompleted?)
              && (OutcomeOf(events, id) == Some("cancelled") <==> events[i].kind.ResponseCancelled?)
              && (OutcomeOf(events, id) == Some("failed") <==>
                    events[i].kind.ResponseFailed? || events[i].kind.RequestFailed?)
  {
    if exists k :: 0 <= k < |events| && Closes(events[k], id) {
      var i := FindLastClosing(events, id, |events|);
      LastClosingDecides(events, id, i);
      assert forall j: nat | LastClosing(events, id, j) :: j == i;
      OutcomeWords(events[i].kind);
    } else {
      NeverClosed(events, id);
    }
  }

  lemma {:induction false} PreparedMeans(events: seq<Event>, id: string)
    requires id != ""
    ensures PreparedOf(events, id).None? <==>
              forall i | 0 <= i < |events| :: !(events[i].requestId == id && events[i].kind.Prepared?)
    ensures forall i: nat | LastPrepared(events, id, i) :: PreparedOf(events, id) == Some(events[i].kind.payload)
  {
    if events != [] {
      var n := |events| - 1;
      PreparedMeans(events[..n], id);
      assert forall i | 0 <= i < n :: events[..n][i] == events[i];
      forall i: nat | LastPrepared(events, id, i) && i < n ensures LastPrepared(events[..n], id, i) {
      }
    }
  }

  // ---- the sample of an owner ---------------------------------------------------------------

  // Its own word if it has one, or else what was prepared.
  ghost predicate Taken(own: string, prepared: Option<string>, got: string) {
    if own != "" then got == own
    else if prepared.Some? then got == prepared.value
    else got == ""
  }

  function ProviderOf(p: Option<Payload>): Option<string> {
    if p.Some? then Some(p.value.provider) else None
  }

  function WireOf(p: Option<Payload>): Option<string> {
    if p.Some? then Some(p.value.wire) else None
  }

  function ModelOf(p: Option<Payload>): Option<string> {
    if p.Some? then Some(p.value.model) else None
  }

  ghost predicate FromOwner(s: Sample, m: Message, l: Ledger, subagent: bool) {
    var prepared := PreparedOf(l.events, m.requestId);
    && Mirrors(s, m) && PurposeIs(s.purpose, m.purpose, subagent)
    && Taken(m.provider, ProviderOf(prepared), s.provider) && Taken(m.wire, WireOf(prepared), s.wire)
    && Taken(m.model, ModelOf(prepared), s.model)
    && (s.incomplete <==> prepared.None?)
    && (m.usage.Some? ==>
          && s.readReported == Some(m.usage.value.cacheRead != Absent)
          && s.writeReported == Some(m.usage.value.cacheWrite != Absent))
  }

  // ---- the sample of a request without an owner ---------------------------------------------

  ghost predicate KnownOrUnknown(prepared: Option<string>, got: string) {
    if prepared.Some? && prepared.value != "" then got == prepared.value else got == "unknown"
  }

  ghost predicate FromSending(s: Sample, id: string, l: Ledger, subagent: bool) {
    var prepared := PreparedOf(l.events, id);
    && s.requestId == id && s.owner.None? && s.turnId == "" && s.usage.None?
    && PurposeIs(s.purpose, if prepared.Some? then prepared.value.purpose else "", subagent)
    && KnownOrUnknown(ProviderOf(prepared), s.provider) && KnownOrUnknown(WireOf(prepared), s.wire)
    && s.model == (if prepared.Some? then prepared.value.model else "")
    && (s.incomplete <==> prepared.None? || OutcomeOf(l.events, id) == Some("completed"))
  }

  lemma FilledMeans(s: Sample, purpose: string, prepared: Option<Payload>, subagent: bool)
    requires s.purpose.None?
    ensures
      var (f, notes) := Filled(s, purpose, prepared, subagent);
      && PurposeIs(f.purpose, purpose, subagent)
      && Taken(s.provider, ProviderOf(prepared), f.provider) && Taken(s.wire, WireOf(prepared), f.wire)
      && Taken(s.model, ModelOf(prepared), f.model)
      && f == s.(purpose := f.purpose, provider := f.provider, wire := f.wire, model := f.model,
                 incomplete := f.incomplete)
      && (f.incomplete <==> s.incomplete || prepared.None?)
      && forall w :: w in notes <==>
           || (w.PurposeUnmapped? && w.name == purpose != "" && forall p :: NameOf(p) != purpose)
           || (prepared.None? && w == PreparedMissing(s.requestId))
  {
    PurposesMean(purpose, subagent);
    if purpose == "" {
      forall p: Purpose ensures NameOf(p) != "" {
      }
    }
  }

  lemma OwnerSampleMeans(m: Message, l: Ledger, subagent: bool)
    ensures
      var (s, notes) := OwnerSample(m, OutcomeOf(l.events, m.requestId), PreparedOf(l.events, m.requestId), subagent);
      && FromOwner(s, m, l, subagent)
      && forall w :: w in notes <==>
           || (w.PurposeUnmapped? && w.name == m.purpose != "" && forall p :: NameOf(p) != m.purpose)
           || (PreparedOf(l.events, m.requestId).None? && w == PreparedMissing(m.requestId))
  {
    var outcome, prepared := OutcomeOf(l.events, m.requestId), PreparedOf(l.events, m.requestId);
    var s := Sample(m.requestId, Some(m.id), m.turnId, None, m.provider, m.wire, m.model, OrEmpty(outcome),
                    None, 0, 0, None, None, false);
    FilledMeans(s, m.purpose, prepared, subagent);
    OwnerSampleMirrors(m, outcome, prepared, subagent);
  }

  lemma SentSampleMeans(id: string, l: Ledger, subagent: bool)
    ensures
      var (s, notes) := SentSample(id, OutcomeOf(l.events, id), PreparedOf(l.events, id), subagent);
      && FromSending(s, id, l, subagent)
      && forall w :: w in notes <==>
           || (&& w.PurposeUnmapped? && PreparedOf(l.events, id).Some?
               && w.name == PreparedOf(l.events, id).value.purpose != "" && forall p :: NameOf(p) != w.name)
           || (PreparedOf(l.events, id).None? && w == PreparedMissing(id))
           || (OutcomeOf(l.events, id) == Some("completed") && w == OwnerMissing(id))
  {
    var outcome, prepared := OutcomeOf(l.events, id), PreparedOf(l.events, id);
    var lost := outcome == Some("completed");
    var s := Sample(id, None, "", None, "", "", "", OrEmpty(outcome), None, 0, 0, None, None, lost);
    FilledMeans(s, if prepared.Some? then prepared.value.purpose else "", prepared, subagent);
  }

  // ---- the whole projection -----------------------------------------------------------------

  lemma {:induction false} OwnerRowsMean(l: Ledger, subagent: bool, messages: seq<Message>)
    ensures
      var samples, owners := OwnerRows(l, subagent, messages).samples, Owners(messages);
      |samples| == |owners| && forall i | 0 <= i < |owners| :: FromOwner(samples[i], owners[i], l, subagent)
  {
    if messages != [] {
      var n := |messages| - 1;
      OwnerRowsMean(l, subagent, messages[..n]);
      OwnerSampleMeans(messages[n], l, subagent);
    }
  }

  lemma {:induction false} SentRowsMean(l: Ledger, subagent: bool, sent: seq<string>)
    ensures
      var samples, ids := SentRows(l, subagent, sent).samples, Unowned(l, sent);
      |samples| == |ids| && forall i | 0 <= i < |ids| :: FromSending(samples[i], ids[i], l, subagent)
  {
    if sent != [] {
      var n := |sent| - 1;
      SentRowsMean(l, subagent, sent[..n]);
      SentSampleMeans(sent[n], l, subagent);
    }
  }

  lemma {:induction false} OwnersAreFirst(messages: seq<Message>, m: Message)
    ensures m in Owners(messages) <==> exists i :: 0 <= i < |messages| && messages[i] == m && FirstOwner(messages, i)
  {
    if messages != [] {
      var n := |messages| - 1;
      OwnersAreFirst(messages[..n], m);
      FirstOwnerIff(messages);
      assert forall i | 0 <= i < n :: messages[..n][i] == messages[i];
      assert forall i | 0 <= i < n :: FirstOwner(messages[..n], i) <==> FirstOwner(messages, i);
    }
  }

  // Every sample is that of the first assistant message of its request, or of a request that was sent
  // and has none.
  lemma SamplesMean(l: Ledger, subagent: bool, s: Sample)
    requires s in Projected(l, subagent).samples
    ensures
      || (exists i :: 0 <= i < |l.messages| && FirstOwner(l.messages, i) && FromOwner(s, l.messages[i], l, subagent))
      || (&& WasSent(l.events, s.requestId) && !HasOwner(l.messages, s.requestId)
          && FromSending(s, s.requestId, l, subagent))
  {
    var sent := SentOrder(l.events);
    var owned, unowned := OwnerRows(l, subagent, l.messages).samples, SentRows(l, subagent, sent).samples;
    OwnerRowsMean(l, subagent, l.messages);
    SentRowsMean(l, subagent, sent);
    if k :| 0 <= k < |owned| && owned[k] == s {
      OwnersAreFirst(l.messages, Owners(l.messages)[k]);
    } else {
      var k :| 0 <= k < |unowned| && unowned[k] == s;
      var id := Unowned(l, sent)[k];
      UnownedMeans(l, sent, id);
      SentOrderMeans(l.events, id);
      OwnedIffOwner(l.messages, id);
    }
  }

  // ---- warnings -----------------------------------------------------------------------------

  ghost predicate Observes(e: Event, w: Warning) {
    && e.kind.UsageAppended? && w.AppendedObserved? && w.input == e.kind.input && w.output == e.kind.output
    && (e.requestId != "" ==> w.id == e.requestId) && (e.requestId == "" ==> w.id == e.id)
  }

  lemma {:induction false} ObservationsMean(events: seq<Event>, w: Warning)
    ensures w in Observations(events) <==> exists i :: 0 <= i < |events| && Observes(events[i], w)
  {
    if events != [] {
      var n := |events| - 1;
      ObservationsMean(events[..n], w);
      assert forall i | 0 <= i < n :: events[..n][i] == events[i];
    }
  }

  // No purpose has this name.
  ghost predicate Unmapped(name: string) {
    name != "" && forall p :: NameOf(p) != name
  }

  ghost predicate NotedFor(w: Warning, id: string, purpose: string, l: Ledger) {
    || (w.PurposeUnmapped? && w.name == purpose && Unmapped(purpose))
    || (PreparedOf(l.events, id).None? && w == PreparedMissing(id))
  }

  // What message `i` is warned about.
  ghost predicate OwnerWarned(messages: seq<Message>, i: nat, w: Warning, l: Ledger) {
    && i < |messages| && messages[i].role == "assistant"
    && if FirstOwner(messages, i) then NotedFor(w, messages[i].requestId, messages[i].purpose, l)
       else w == OwnerDuplicate(messages[i].requestId)
  }

  lemma {:induction false} OwnerWarnings(l: Ledger, subagent: bool, messages: seq<Message>, w: Warning)
    ensures w in OwnerRows(l, subagent, messages).warnings <==> exists i :: OwnerWarned(messages, i, w, l)
  {
    if messages != [] {
      var n := |messages| - 1;
      OwnerWarnings(l, subagent, messages[..n], w);
      FirstOwnerIff(messages);
      OwnerSampleMeans(messages[n], l, subagent);
      assert forall i: nat | i < n :: messages[..n][i] == messages[i];
      assert forall i: nat | i < n :: FirstOwner(messages[..n], i) <==> FirstOwner(messages, i);
      assert forall i: nat | i < n :: OwnerWarned(messages[..n], i, w, l) <==> OwnerWarned(messages, i, w, l);
      assert w in OwnerRows(l, subagent, messages).warnings <==>
        w in OwnerRows(l, subagent, messages[..n]).warnings || OwnerWarned(messages, n, w, l);
    }
  }

  ghost predicate SentWarned(id: string, w: Warning, l: Ledger) {
    var prepared := PreparedOf(l.events, id);
    || NotedFor(w, id, if prepared.Some? then prepared.value.purpose else "", l)
    || (OutcomeOf(l.events, id) == Some("completed") && w == OwnerMissing(id))
  }

  ghost predicate SentWarnedAt(sent: seq<string>, i: int, w: Warning, l: Ledger) {
    0 <= i < |sent| && !Owned(Owners(l.messages), sent[i]) && SentWarned(sent[i], w, l)
  }

  lemma NextSentWarning(l: Ledger, subagent: bool, sent: seq<string>, n: nat, w: Warning)
    requires n < |sent|
    ensures w in SentRows(l, subagent, sent[..n + 1]).warnings
       <==> w in SentRows(l, subagent, sent[..n]).warnings || SentWarnedAt(sent, n, w, l)
  {
    assert sent[..n + 1][..n] == sent[..n];
    SentSampleMeans(sent[n], l, subagent);
  }

  lemma {:induction false} SentWarnings(l: Ledger, subagent: bool, sent: seq<string>, n: nat, w: Warning)
    requires n <= |sent|
    ensures w in SentRows(l, subagent, sent[..n]).warnings <==> exists i :: i < n && SentWarnedAt(sent, i, w, l)
  {
    if n > 0 {
      SentWarnings(l, subagent, sent, n - 1, w);
      NextSentWarning(l, subagent, sent, n - 1, w);
    }
  }

  ghost predicate UnownedWarned(id: string, w: Warning, l: Ledger) {
    WasSent(l.events, id) && !HasOwner(l.messages, id) && SentWarned(id, w, l)
  }

  lemma SentWarningsMean(l: Ledger, subagent: bool, w: Warning)
    ensures w in SentRows(l, subagent, SentOrder(l.events)).warnings <==> exists id :: UnownedWarned(id, w, l)
  {
    var sent := SentOrder(l.events);
    SentWarnings(l, subagent, sent, |sent|, w);
    assert sent[..|sent|] == sent;
    if i :| i < |sent| && SentWarnedAt(sent, i, w, l) {
      SentOrderMeans(l.events, sent[i]);
      OwnedIffOwner(l.messages, sent[i]);
      assert UnownedWarned(sent[i], w, l);
    }
    if id :| UnownedWarned(id, w, l) {
      SentOrderMeans(l.events, id);
      OwnedIffOwner(l.messages, id);
      var i :| 0 <= i < |sent| && sent[i] == id;
      assert SentWarnedAt(sent, i, w, l);
    }
  }

  // The warnings are exactly these: appended usage that was observed, a second assistant message for a
  // request, a request that completed without one, a purpose without a counterpart, a missing preparation.
  lemma WarningsMean(l: Ledger, subagent: bool, w: Warning)
    ensures w in Projected(l, subagent).warnings <==>
      || (exists i :: 0 <= i < |l.events| && Observes(l.events[i], w))
      || (exists i :: OwnerWarned(l.messages, i, w, l))
      || (exists id :: UnownedWarned(id, w, l))
  {
    ObservationsMean(l.events, w);
    OwnerWarnings(l, subagent, l.messages, w);
    SentWarningsMean(l, subagent, w);
  }
}

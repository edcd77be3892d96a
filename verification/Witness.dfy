/**
 Signed evidence of a provider response: what is signed, what a correlation id
 commits to, and the vote over all the evidence found for one correlation.
 */
module Witness {
  import opened Outcomes
  import opened Utf16
  import opened JsonText
  import opened EffectRecord
  import CanonicalJson

  datatype Payload = Payload(correlationId: Text, scopeDigest: Text, responseId: Text, model: Text,
                             inputTokens: nat, outputTokens: nat, totalTokens: nat,
                             outputDigest: Text, observedAt: Text, recordId: Text, exportDigest: Text)

  datatype Entry = Entry(keyId: Text, payload: Payload, signature: Text, observedMs: int)

  const DOMAIN := Ascii("TRUYN/G5/INDEPENDENT-RESPONSE-WITNESS/1\n")
  const SCHEMA := Ascii("truyn.g5.independent-response-witness/v1")
  const PROVIDER := Ascii("azure-openai")
  const CORRELATION := Ascii("TRUYN/G5/CORRELATION/1")

  function Line(items: seq<Json<nat>>): Text {
    Print(CanonicalJson.DecimalFormat(), Arr(items))
  }

  function Count(n: nat): Json<nat> {
    Num(Finite(n))
  }

  /** The signed text: a domain line and the fields in a fixed order. */
  function SigningText(p: Payload): Text {
    DOMAIN + Line([Str(SCHEMA), Str(PROVIDER), Str(p.correlationId), Str(p.scopeDigest), Str(p.responseId), Str(p.model),
                   Count(p.inputTokens), Count(p.outputTokens), Count(p.totalTokens),
                   Str(p.outputDigest), Str(p.observedAt), Str(p.recordId), Str(p.exportDigest)])
  }

  /** The text an execution correlation is the SHA-256 of. */
  function CorrelationText(b: Binding, token: Text, scopeDigest: Text): Text {
    Line([Str(CORRELATION), Str(b.id), Str(b.requester), Str(b.provider), Str(b.fingerprint), Str(token), Str(scopeDigest)])
  }

  lemma LineInjective(a: seq<Json<nat>>, b: seq<Json<nat>>)
    requires Printable(Arr(a)) && Printable(Arr(b)) && Line(a) == Line(b)
    ensures a == b
  {
    CanonicalJson.DecimalFormatIsFaithful();
    PrintInjective(CanonicalJson.DecimalFormat(), Arr(a), Arr(b));
  }

  /** Two payloads with the same signed text are the same payload: a signature covers every field. */
  lemma SigningTextInjective(p: Payload, q: Payload)
    requires SigningText(p) == SigningText(q)
    ensures p == q
  {
    var a := [Str(SCHEMA), Str(PROVIDER), Str(p.correlationId), Str(p.scopeDigest), Str(p.responseId), Str(p.model),
              Count(p.inputTokens), Count(p.outputTokens), Count(p.totalTokens),
              Str(p.outputDigest), Str(p.observedAt), Str(p.recordId), Str(p.exportDigest)];
    var b := [Str(SCHEMA), Str(PROVIDER), Str(q.correlationId), Str(q.scopeDigest), Str(q.responseId), Str(q.model),
              Count(q.inputTokens), Count(q.outputTokens), Count(q.totalTokens),
              Str(q.outputDigest), Str(q.observedAt), Str(q.recordId), Str(q.exportDigest)];
    assert SigningText(p)[|DOMAIN|..] == Line(a) && SigningText(q)[|DOMAIN|..] == Line(b);
    LineInjective(a, b);
    assert a[2] == b[2] && a[3] == b[3] && a[4] == b[4] && a[5] == b[5] && a[6] == b[6] && a[7] == b[7];
    assert a[8] == b[8] && a[9] == b[9] && a[10] == b[10] && a[11] == b[11] && a[12] == b[12];
  }

  /** With a collision-free hash, a correlation id names one binding, one token and one scope. */
  lemma CorrelationTextInjective(b: Binding, token: Text, scope: Text, b': Binding, token': Text, scope': Text)
    requires CorrelationText(b, token, scope) == CorrelationText(b', token', scope')
    ensures b == b' && token == token' && scope == scope'
  {
    var x := [Str(CORRELATION), Str(b.id), Str(b.requester), Str(b.provider), Str(b.fingerprint), Str(token), Str(scope)];
    var y := [Str(CORRELATION), Str(b'.id), Str(b'.requester), Str(b'.provider), Str(b'.fingerprint), Str(token'), Str(scope')];
    LineInjective(x, y);
    assert x[1] == y[1] && x[2] == y[2] && x[3] == y[3] && x[4] == y[4] && x[5] == y[5] && x[6] == y[6];
  }

  // ---- The vote over the evidence -------------------------------------------------

  const MAX_ENTRIES := 16
  const CLOCK_SKEW_MS := 30_000

  /** What must not differ between two pieces of evidence for one execution. */
  function Outcome(p: Payload): Text {
    Line([Str(p.responseId), Str(p.model), Count(p.inputTokens), Count(p.outputTokens), Count(p.totalTokens), Str(p.outputDigest)])
  }

  predicate Bound(e: Entry, correlationId: Text, scopeDigest: Text, claimedMs: int, nowMs: int) {
    && e.payload.correlationId == correlationId && e.payload.scopeDigest == scopeDigest
    && claimedMs - CLOCK_SKEW_MS <= e.observedMs <= nowMs + CLOCK_SKEW_MS
  }

  /** One response: what two pieces of evidence for one execution must share. */
  predicate SameOutcome(p: Payload, q: Payload) {
    && p.responseId == q.responseId && p.model == q.model && p.outputDigest == q.outputDigest
    && p.inputTokens == q.inputTokens && p.outputTokens == q.outputTokens && p.totalTokens == q.totalTokens
  }

  /**
   All the evidence is trusted, names this correlation and scope, was observed from half a minute
   before the claim to half a minute from now, and tells one outcome.
   */
  ghost predicate Unanimous(entries: seq<Entry>, trusted: Entry -> bool, correlationId: Text, scopeDigest: Text,
                            claimedMs: int, nowMs: int)
  {
    && (forall i | 0 <= i < |entries| ::
          && trusted(entries[i]) && entries[i].payload.correlationId == correlationId
          && entries[i].payload.scopeDigest == scopeDigest && claimedMs - 30_000 <= entries[i].observedMs <= nowMs + 30_000)
    && (forall i | 0 <= i < |entries| :: SameOutcome(entries[i].payload, entries[0].payload))
  }

  lemma OutcomeInjective(p: Payload, q: Payload)
    requires Outcome(p) == Outcome(q)
    ensures SameOutcome(p, q)
  {
    var a := [Str(p.responseId), Str(p.model), Count(p.inputTokens), Count(p.outputTokens), Count(p.totalTokens), Str(p.outputDigest)];
    var b := [Str(q.responseId), Str(q.model), Count(q.inputTokens), Count(q.outputTokens), Count(q.totalTokens), Str(q.outputDigest)];
    LineInjective(a, b);
    assert a[0] == b[0] && a[1] == b[1] && a[2] == b[2] && a[3] == b[3] && a[4] == b[4] && a[5] == b[5];
  }

  /** The evidence selected for a correlation, if there is some and none of it is untrusted, foreign or divided. */
  method LookupAndVerify(entries: seq<Entry>, trusted: Entry -> bool, correlationId: Text, scopeDigest: Text,
                         claimedMs: int, nowMs: int) returns (selected: Option<Payload>)
    ensures selected.Some? <==>
      1 <= |entries| <= 16 && Unanimous(entries, trusted, correlationId, scopeDigest, claimedMs, nowMs)
    ensures selected.Some? ==> selected.value == entries[0].payload
  {
    selected := None;
    if |entries| > MAX_ENTRIES || |entries| == 0 {
      return;
    }
    var immutable: Option<Text> := None;
    for i := 0 to |entries|
      invariant Unanimous(entries[..i], trusted, correlationId, scopeDigest, claimedMs, nowMs)
      invariant i == 0 ==> selected.None? && immutable.None?
      invariant i > 0 ==> selected == Some(entries[0].payload) && immutable == Some(Outcome(entries[0].payload))
    {
      var entry := entries[i];
      if !trusted(entry) || !Bound(entry, correlationId, scopeDigest, claimedMs, nowMs) {
        return None;
      }
      var current := Outcome(entry.payload);
      if immutable.Some? && immutable.value == current {
        OutcomeInjective(entry.payload, entries[0].payload);
      }
      if immutable.Some? && immutable.value != current {
        return None;
      }
      immutable := Some(current);
      if selected.None? {
        selected := Some(entry.payload);
      }
      assert entries[..i + 1] == entries[..i] + [entry];
    }
    assert entries[..|entries|] == entries;
  }
}

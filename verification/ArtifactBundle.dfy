/** A byte budget threaded through the artifacts of an outbound bundle and through the parts of each. */
module ArtifactBundle {
  import opened Outcomes
  import opened ByteBudget
  import opened ArtifactPart

  const MAX_PARTS := 64

  /** Artifact metadata and extensions are kept as they are, if they have the right form. */
  datatype Extra<T> = NoExtra | Extra(value: T) | BadExtra

  datatype Artifact<D> =
    | NotAnArtifact
    | Artifact(artifactId: Given, parts: Option<seq<Part<D>>>, name: Given, description: Given,
               metadata: Extra<nat>, extensions: Extra<seq<Given>>)

  /** `marked` says that the value carries the bundle's type and version. */
  datatype Bundle<D> = Bundle(marked: bool, artifacts: Option<seq<Artifact<D>>>)

  datatype ArtifactError = BadArtifact | InvalidBudget | PartRefused(error: ThreadError<PartError>)

  datatype BundleError = NotABundle | CollectionTooLarge | NoBudget | ArtifactRefused(error: ThreadError<ArtifactError>)

  /** `normalizeArtifactFields`: everything but the parts. */
  function NormalizeFields<D>(env: Env<D>, a: Artifact<D>): Result<Artifact<D>, ArtifactError> {
    if a.NotAnArtifact? then Err(BadArtifact)
    else
      match (Trimmed(env.trim, a.artifactId), Trimmed(env.trim, a.name), Trimmed(env.trim, a.description))
      case (Ok(id), Ok(name), Ok(description)) =>
        if !id.Str? || a.parts.None? || |a.parts.value| < 1 || |a.parts.value| > MAX_PARTS then Err(BadArtifact)
        else if a.metadata.BadExtra? || a.extensions.BadExtra? then Err(BadArtifact)
        else if a.extensions.Extra? && exists i :: 0 <= i < |a.extensions.value| && !IsNonEmpty(a.extensions.value[i]) then Err(BadArtifact)
        else Ok(a.(artifactId := id, name := name, description := description))
      case _ => Err(BadArtifact)
  }

  predicate IsNonEmpty(g: Given) {
    g.Str? && g.text != ""
  }

  /** The parts in order, each under what the parts before it left of the budget. */
  function NormalizeArtifact<D>(env: Env<D>, a: Artifact<D>, budget: int): Result<Artifact<D>, ArtifactError> {
    match NormalizeFields(env, a)
    case Err(e) => Err(e)
    case Ok(fields) =>
      if !IsBudget(budget) then Err(InvalidBudget)
      else
        match Thread(PartRule(env), a.parts.value, budget, {})
        case Err(e) => Err(PartRefused(e))
        case Ok(qs) => Ok(fields.(parts := Some(qs)))
  }

  function ArtifactSize<D>(env: Env<D>, a: Artifact<D>): int {
    if a.Artifact? && a.parts.Some? then Total(PartRule(env), a.parts.value) else 0
  }

  function PartCount<D>(artifacts: seq<Artifact<D>>): nat {
    if artifacts == [] then 0
    else (if artifacts[0].Artifact? && artifacts[0].parts.Some? then |artifacts[0].parts.value| else 0) + PartCount(artifacts[1..])
  }

  function IdOf<D>(a: Artifact<D>): Option<string> {
    if a.Artifact? && a.artifactId.Str? then Some(a.artifactId.text) else None
  }

  /** Artifacts are threaded by the declared sizes of their parts, and must differ in their ids. */
  function ArtifactRule<D>(env: Env<D>): Rule<Artifact<D>, ArtifactError> {
    Rule((a, budget) => NormalizeArtifact(env, a, budget), a => ArtifactSize(env, a), a => IdOf(a))
  }

  /** `normalizeOutboundA2aArtifactBundle`. */
  function NormalizeBundle<D>(env: Env<D>, b: Bundle<D>, budget: int): Result<Bundle<D>, BundleError> {
    if !b.marked || b.artifacts.None? || b.artifacts.value == [] then Err(NotABundle)
    else if PartCount(b.artifacts.value) > MAX_PARTS then Err(CollectionTooLarge)
    else if !IsBudget(budget) then Err(NoBudget)
    else
      match Thread(ArtifactRule(env), b.artifacts.value, budget, {})
      case Err(e) => Err(ArtifactRefused(e))
      case Ok(artifacts) => Ok(Bundle(true, Some(artifacts)))
  }

  // ---- One artifact ---------------------------------------------------------------------------

  lemma FieldsAreNormal<D(!new)>(env: Env<D>, a: Artifact<D>, qs: seq<Part<D>>)
    requires IsEnv(env) && NormalizeFields(env, a).Ok? && a.parts.Some? && |qs| == |a.parts.value|
    ensures var n := NormalizeFields(env, a).value;
            && n.Artifact? && IdOf(n).Some? && NormalizeFields(env, n.(parts := Some(qs))) == Ok(n.(parts := Some(qs)))
  {
    TrimmedIsTrimmed(env.trim, a.artifactId);
    TrimmedIsTrimmed(env.trim, a.name);
    TrimmedIsTrimmed(env.trim, a.description);
  }

  /** An artifact, too, is only limited by its budget. */
  lemma ArtifactOnlyLimited<D(!new)>(env: Env<D>, a: Artifact<D>, budget: int)
    requires IsEnv(env) && IsBudget(budget)
    ensures OnlyLimits(ArtifactRule(env), a, budget)
  {
    PartsFollowTheRule(env);
    if NormalizeFields(env, a).Ok? {
      var rule, parts := PartRule(env), a.parts.value;
      ThreadAcceptsExactly(rule, parts, budget, {});
      ThreadAcceptsExactly(rule, parts, MAX_SAFE, {});
      if Acceptable(rule, parts) { FreeTotalIsNatural(rule, parts); }
    }
  }

  /** A normalized artifact has an id and as many parts as before, and stays as it is. */
  lemma ArtifactIsNormal<D(!new)>(env: Env<D>, a: Artifact<D>, budget: int)
    requires IsEnv(env) && IsBudget(budget) && NormalizeArtifact(env, a, budget).Ok?
    ensures var n := NormalizeArtifact(env, a, budget).value;
            && n.Artifact? && IdOf(n).Some? && a.Artifact? && n.parts.Some? && a.parts.Some?
            && |n.parts.value| == |a.parts.value| && 1 <= |n.parts.value| <= MAX_PARTS
            && NormalizeArtifact(env, n, budget) == Ok(n)
  {
    PartsFollowTheRule(env);
    var parts := a.parts.value;
    ThreadAcceptsExactly(PartRule(env), parts, budget, {});
    ThreadSettles(PartRule(env), parts, budget, {}, budget);
    FieldsAreNormal(env, a, Thread(PartRule(env), parts, budget, {}).value);
  }

  /** Its id, name and description are trimmed, its metadata and extensions kept, and its parts are those normalized alone. */
  lemma ArtifactKeepsItsFields<D(!new)>(env: Env<D>, a: Artifact<D>, budget: int)
    requires IsEnv(env) && IsBudget(budget) && NormalizeArtifact(env, a, budget).Ok?
    ensures var n := NormalizeArtifact(env, a, budget).value;
            && a.Artifact? && n.Artifact? && a.artifactId.Str? && n.artifactId == Str(env.trim(a.artifactId.text)) && n.artifactId.text != ""
            && n.name == (if a.name.Str? then Str(env.trim(a.name.text)) else Absent)
            && n.description == (if a.description.Str? then Str(env.trim(a.description.text)) else Absent)
            && n.metadata == a.metadata && n.extensions == a.extensions && !a.metadata.BadExtra? && !a.extensions.BadExtra?
            && a.parts.Some? && 1 <= |a.parts.value| <= 64
            && Acceptable(PartRule(env), a.parts.value) && n.parts == Some(Free(PartRule(env), a.parts.value))
  {
    PartsFollowTheRule(env);
    ThreadAcceptsExactly(PartRule(env), a.parts.value, budget, {});
  }

  /**
   An artifact is accepted exactly when it has an id, no name or description that is blank or no
   string, 1 to 64 parts, well-formed metadata and extensions, and parts that are acceptable and fit.
   */
  lemma ArtifactAcceptedExactlyWhen<D(!new)>(env: Env<D>, a: Artifact<D>, budget: int)
    requires IsEnv(env) && IsBudget(budget)
    ensures NormalizeArtifact(env, a, budget).Ok? <==>
            && a.Artifact? && a.artifactId.Str? && env.trim(a.artifactId.text) != ""
            && IsFine(env, a.name) && IsFine(env, a.description)
            && a.parts.Some? && 1 <= |a.parts.value| <= 64
            && !a.metadata.BadExtra? && !a.extensions.BadExtra?
            && (a.extensions.Extra? ==> forall i | 0 <= i < |a.extensions.value| :: a.extensions.value[i].Str? && a.extensions.value[i].text != "")
            && Acceptable(PartRule(env), a.parts.value) && Total(PartRule(env), Free(PartRule(env), a.parts.value)) <= budget
  {
    FieldsAcceptedExactlyWhen(env, a);
    if NormalizeFields(env, a).Ok? {
      var rule, parts := PartRule(env), a.parts.value;
      PartsFollowTheRule(env);
      ThreadAcceptsExactly(rule, parts, budget, {});
      if Acceptable(rule, parts) { NoKeys(env, Free(rule, parts)); }
    }
  }

  lemma FieldsAcceptedExactlyWhen<D>(env: Env<D>, a: Artifact<D>)
    ensures NormalizeFields(env, a).Ok? <==>
            && a.Artifact? && a.artifactId.Str? && env.trim(a.artifactId.text) != ""
            && IsFine(env, a.name) && IsFine(env, a.description)
            && a.parts.Some? && 1 <= |a.parts.value| <= 64
            && !a.metadata.BadExtra? && !a.extensions.BadExtra?
            && (a.extensions.Extra? ==> forall i | 0 <= i < |a.extensions.value| :: a.extensions.value[i].Str? && a.extensions.value[i].text != "")
  {
    if a.Artifact? && a.extensions.Extra? {
      var es := a.extensions.value;
      assert (forall i | 0 <= i < |es| :: es[i].Str? && es[i].text != "") <==> !exists i :: 0 <= i < |es| && !IsNonEmpty(es[i]) by {
        assert forall i | 0 <= i < |es| :: IsNonEmpty(es[i]) <==> es[i].Str? && es[i].text != "";
      }
    }
  }

  /** Parts have no keys to share. */
  lemma {:induction false} NoKeys<D>(env: Env<D>, parts: seq<Part<D>>)
    ensures KeysFresh(PartRule(env), parts, {})
  {
    if parts != [] { NoKeys(env, parts[1..]); }
  }

  lemma ArtifactsFollowTheRule<D(!new)>(env: Env<D>)
    requires IsEnv(env)
    ensures IsRule(ArtifactRule(env))
  {
    var rule := ArtifactRule(env);
    forall a, b | IsBudget(b) ensures OnlyLimits(rule, a, b) {
      ArtifactOnlyLimited(env, a, b);
    }
    forall a ensures Settles(rule, a) {
      if NormalizeArtifact(env, a, MAX_SAFE).Ok? { ArtifactIsNormal(env, a, MAX_SAFE); }
    }
  }

  // ---- The bundle --------------------------------------------------------------------------------

  lemma {:induction false} FreeArtifacts<D(!new)>(env: Env<D>, artifacts: seq<Artifact<D>>)
    requires IsEnv(env) && Acceptable(ArtifactRule(env), artifacts)
    ensures var ns := Free(ArtifactRule(env), artifacts);
            && PartCount(ns) == PartCount(artifacts)
            && forall i | 0 <= i < |ns| :: IdOf(ns[i]).Some? && ns[i].parts.Some? && |ns[i].parts.value| >= 1
  {
    if artifacts != [] {
      ArtifactIsNormal(env, artifacts[0], MAX_SAFE);
      FreeArtifacts(env, artifacts[1..]);
      var ns := Free(ArtifactRule(env), artifacts);
      assert ns[0] == NormalizeArtifact(env, artifacts[0], MAX_SAFE).value && ns[1..] == Free(ArtifactRule(env), artifacts[1..]);
      assert ns == [ns[0]] + ns[1..];
    }
  }

  /** Every id is present and no two are the same. */
  ghost predicate DistinctIds<D>(artifacts: seq<Artifact<D>>) {
    && (forall i | 0 <= i < |artifacts| :: IdOf(artifacts[i]).Some?)
    && (forall i, j | 0 <= i < j < |artifacts| :: IdOf(artifacts[i]) != IdOf(artifacts[j]))
  }

  /**
   An accepted bundle has at least one artifact, at most 64 parts in all, distinct
   artifact ids, and declared sizes within the budget. The check for a budget
   overdrawn after the fact never fires, neither in the bundle nor in an artifact.
   */
  lemma BundleWithinBudget<D(!new)>(env: Env<D>, b: Bundle<D>, budget: int)
    requires IsEnv(env)
    ensures NormalizeBundle(env, b, budget) != Err(ArtifactRefused(AggregateTooLarge))
    ensures NormalizeBundle(env, b, budget).Ok? ==>
              var n := NormalizeBundle(env, b, budget).value;
              && n.marked && n.artifacts.Some? && n.artifacts.value != []
              && 1 <= PartCount(n.artifacts.value) == PartCount(b.artifacts.value) <= MAX_PARTS
              && DistinctIds(n.artifacts.value)
              && 0 <= Total(ArtifactRule(env), n.artifacts.value) <= budget
  {
    if b.artifacts.Some? && IsBudget(budget) {
      var rule, artifacts := ArtifactRule(env), b.artifacts.value;
      ArtifactsFollowTheRule(env);
      ThreadAcceptsExactly(rule, artifacts, budget, {});
      if Thread(rule, artifacts, budget, {}).Ok? {
        FreeArtifacts(env, artifacts);
        FreeTotalIsNatural(rule, artifacts);
        FreshKeysAreDistinct(rule, Free(rule, artifacts), {});
      }
    }
  }

  /** In no artifact is the budget found overdrawn after the fact. */
  lemma ArtifactNeverOverdraws<D(!new)>(env: Env<D>, a: Artifact<D>, budget: int)
    requires IsEnv(env)
    ensures NormalizeArtifact(env, a, budget) != Err(PartRefused(AggregateTooLarge))
  {
    PartsFollowTheRule(env);
    if NormalizeFields(env, a).Ok? && IsBudget(budget) { ThreadAcceptsExactly(PartRule(env), a.parts.value, budget, {}); }
  }

  /** Normalizing an accepted bundle again under the same budget returns it unchanged. */
  lemma BundleIsNormal<D(!new)>(env: Env<D>, b: Bundle<D>, budget: int)
    requires IsEnv(env) && NormalizeBundle(env, b, budget).Ok?
    ensures NormalizeBundle(env, NormalizeBundle(env, b, budget).value, budget) == NormalizeBundle(env, b, budget)
  {
    BundleWithinBudget(env, b, budget);
    ArtifactsFollowTheRule(env);
    ThreadSettles(ArtifactRule(env), b.artifacts.value, budget, {}, budget);
  }

  /**
   A bundle is accepted exactly when each artifact is acceptable on its own, the
   ids differ, there are at most 64 parts and the declared sizes fit together.
   */
  lemma BundleAcceptedExactlyWhen<D(!new)>(env: Env<D>, b: Bundle<D>, budget: int)
    requires IsEnv(env) && b.marked && b.artifacts.Some? && b.artifacts.value != [] && IsBudget(budget)
    ensures var rule, artifacts := ArtifactRule(env), b.artifacts.value;
            NormalizeBundle(env, b, budget).Ok? <==>
              && PartCount(artifacts) <= MAX_PARTS
              && Acceptable(rule, artifacts) && KeysFresh(rule, Free(rule, artifacts), {})
              && Total(rule, Free(rule, artifacts)) <= budget
  {
    ArtifactsFollowTheRule(env);
    ThreadAcceptsExactly(ArtifactRule(env), b.artifacts.value, budget, {});
  }

  // ---- The loops ------------------------------------------------------------------------------------

  method NormalizeOutboundArtifact<D>(env: Env<D>, a: Artifact<D>, budget: int) returns (r: Result<Artifact<D>, ArtifactError>)
    ensures r == NormalizeArtifact(env, a, budget)
  {
    var fields := NormalizeFields(env, a);
    if fields.Err? { return Err(fields.error); }
    if !IsBudget(budget) { return Err(InvalidBudget); }
    var parts := ThreadBudget(PartRule(env), a.parts.value, budget);
    if parts.Err? { return Err(PartRefused(parts.error)); }
    return Ok(fields.value.(parts := Some(parts.value)));
  }

  method NormalizeOutboundBundle<D>(env: Env<D>, b: Bundle<D>, budget: int) returns (r: Result<Bundle<D>, BundleError>)
    ensures r == NormalizeBundle(env, b, budget)
  {
    if !b.marked || b.artifacts.None? || b.artifacts.value == [] { return Err(NotABundle); }
    var count, i := 0, 0;
    var artifacts := b.artifacts.value;
    assert artifacts[0..] == artifacts;
    while i < |artifacts|
      invariant 0 <= i <= |artifacts| && count + PartCount(artifacts[i..]) == PartCount(artifacts)
    {
      assert artifacts[i..][0] == artifacts[i] && artifacts[i..][1..] == artifacts[i+1..];
      if artifacts[i].Artifact? && artifacts[i].parts.Some? { count := count + |artifacts[i].parts.value|; }
      i := i + 1;
    }
    if count > MAX_PARTS { return Err(CollectionTooLarge); }
    if !IsBudget(budget) { return Err(NoBudget); }
    var normalized := NormalizeEach(env, artifacts, budget);
    if normalized.Err? { return Err(ArtifactRefused(normalized.error)); }
    return Ok(Bundle(true, Some(normalized.value)));
  }

  /** Artifact by artifact, with the running rest of the budget and the ids seen so far. */
  method NormalizeEach<D>(env: Env<D>, artifacts: seq<Artifact<D>>, budget: int) returns (r: Result<seq<Artifact<D>>, ThreadError<ArtifactError>>)
    ensures r == Thread(ArtifactRule(env), artifacts, budget, {})
  {
    ghost var rule := ArtifactRule(env);
    var remaining, seen, done, i := budget, {}, [], 0;
    NothingDone(rule, artifacts, budget);
    while i < |artifacts|
      invariant 0 <= i <= |artifacts|
      invariant Thread(rule, artifacts, budget, {}) == Prefixed(done, Thread(rule, artifacts[i..], remaining, seen))
    {
      assert artifacts[i..][0] == artifacts[i] && artifacts[i..][1..] == artifacts[i+1..];
      var next := NormalizeOutboundArtifact(env, artifacts[i], remaining);
      if next.Err? { return Err(Refused(next.error)); }
      var id := IdOf(next.value);
      if id.Some? && id.value in seen { return Err(Duplicate(id.value)); }
      var left := remaining - ArtifactSize(env, next.value);
      if left < 0 { return Err(AggregateTooLarge); }
      PrefixedTwice(done, next.value, Thread(rule, artifacts[i+1..], left, WithKey(rule, next.value, seen)));
      remaining, seen := left, if id.Some? then seen + {id.value} else seen;
      done := done + [next.value];
      i := i + 1;
    }
    assert artifacts[i..] == [] && done + [] == done;
    return Ok(done);
  }
}

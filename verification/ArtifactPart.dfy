/** Normalization of one outbound A2A part: its content is measured, sealed with a digest, and kept within a byte budget. */
module ArtifactPart {
  import opened Outcomes
  import opened Utf8
  import Base64
  import opened ByteBudget

  type Bytes = seq<Byte>

  /** A field that should hold a string; any other value is known by what `String(value || '')` gives. */
  datatype Given = Absent | Null | Str(text: string) | Other(shown: string)

  datatype Flag = NoFlag | Flag(value: bool) | NotAFlag

  /** The value under the integrity key; a size that is not a safe integer is None. */
  datatype Claim =
    | NoClaim
    | NotAnObject
    | Claim(algorithm: Given, digest: Given, sizeBytes: Option<int>, encoding: Given, verified: Flag)

  /** Part metadata: the integrity claim, the source URL, and all other entries. */
  datatype Metadata = NoMetadata | BadMetadata | Metadata(claim: Claim, source: Given, others: seq<nat>)

  datatype Part<D> =
    | NotAPart
    | Part(text: Given, data: Option<D>, url: Given, raw: Given, filename: Given, mediaType: Given, metadata: Metadata)

  datatype Kind = TextKind | DataKind | UrlKind | RawKind

  datatype Integrity = Integrity(digest: string, sizeBytes: nat, encoding: Option<string>, verified: Option<bool>)

  datatype PartError =
    | BadBudget | BadShape | BadMetadataError | BadField | ClaimInvalid | ClaimRequired
    | BadText | BadData | BadRaw | BadUrl | Mismatch | Unverified | TooLarge

  /** Hashing, URL parsing, trimming, text encoding and canonical JSON, left abstract. */
  datatype Env<!D> = Env(sha256: Bytes -> string, isHex: string -> bool, lower: string -> string, trim: string -> string,
                         utf8: string -> Bytes, canonical: D -> Option<Bytes>,
                         toUrl: string -> Option<string>)

  /** Digests are lower-case hex; lowering, trimming and URL normalization change nothing when done twice. */
  ghost predicate IsEnv<D(!new)>(env: Env<D>) {
    && (forall b :: env.isHex(env.sha256(b)) && env.lower(env.sha256(b)) == env.sha256(b))
    && (forall s :: env.lower(env.lower(s)) == env.lower(s) && (env.isHex(s) ==> env.isHex(env.lower(s))))
    && (forall s :: env.trim(env.trim(s)) == env.trim(s))
    && (forall s :: env.toUrl(s).Some? ==>
          var u := env.toUrl(s).value; env.trim(u) == u && u != "" && env.toUrl(u) == Some(u))
    && env.lower("sha256") == "sha256" && env.lower("") == ""
  }

  /** The one content field of a part, if it has exactly one. */
  function KindOf<D>(p: Part<D>): Option<Kind> {
    if p.NotAPart? then None
    else if !p.text.Absent? && p.data.None? && p.url.Absent? && p.raw.Absent? then Some(TextKind)
    else if p.text.Absent? && p.data.Some? && p.url.Absent? && p.raw.Absent? then Some(DataKind)
    else if p.text.Absent? && p.data.None? && !p.url.Absent? && p.raw.Absent? then Some(UrlKind)
    else if p.text.Absent? && p.data.None? && p.url.Absent? && !p.raw.Absent? then Some(RawKind)
    else None
  }

  /** `optionalString`. */
  function Trimmed(trim: string -> string, g: Given): Result<Given, PartError> {
    match g
    case Absent => Ok(Absent)
    case Null => Ok(Absent)
    case Str(s) => if trim(s) == "" then Err(BadField) else Ok(Str(trim(s)))
    case Other(_) => Err(BadField)
  }

  /** `normalizeIntegrityClaim`. */
  function ReadClaim(isHex: string -> bool, lower: string -> string, c: Claim): Result<Option<Integrity>, PartError> {
    match c
    case NoClaim => Ok(None)
    case NotAnObject => Err(ClaimInvalid)
    case Claim(algorithm, digest, sizeBytes, encoding, verified) =>
      var name := match algorithm case Str(s) => s case Other(s) => s case _ => "";
      if lower(name) != "sha256" || !digest.Str? || !isHex(digest.text)
         || sizeBytes.None? || !IsBudget(sizeBytes.value)
         || !(encoding.Absent? || (encoding.Str? && encoding.text != "")) || verified.NotAFlag? then Err(ClaimInvalid)
      else
        Ok(Some(Integrity(lower(digest.text), sizeBytes.value, if encoding.Str? then Some(encoding.text) else None,
                          if verified.Flag? then Some(verified.value) else None)))
  }

  function WriteClaim(i: Integrity): Claim {
    Claim(Str("sha256"), Str(i.digest), Some(i.sizeBytes), if i.encoding.Some? then Str(i.encoding.value) else Absent,
          if i.verified.Some? then Flag(i.verified.value) else NoFlag)
  }

  /** What is read off a part before its content. */
  datatype Prepared = Prepared(kind: Kind, filename: Given, mediaType: Given, source: Given, others: seq<nat>, claim: Option<Integrity>)

  function Prepare<D>(env: Env<D>, p: Part<D>): Result<Prepared, PartError> {
    if KindOf(p).None? then Err(BadShape)
    else if p.metadata.BadMetadata? then Err(BadMetadataError)
    else
      var kind := KindOf(p).value;
      match (Trimmed(env.trim, p.filename), Trimmed(env.trim, p.mediaType))
      case (Ok(filename), Ok(mediaType)) =>
        var source := if p.metadata.NoMetadata? || kind != UrlKind then Absent else p.metadata.source;
        var others := if p.metadata.NoMetadata? then [] else p.metadata.others;
        (match ReadClaim(env.isHex, env.lower, if p.metadata.NoMetadata? then NoClaim else p.metadata.claim)
         case Err(e) => Err(e)
         case Ok(claim) =>
           if kind == UrlKind && claim.None? then Err(ClaimRequired)
           else Ok(Prepared(kind, filename, mediaType, source, others, claim)))
      case _ => Err(BadField)
  }

  /** The bytes that stand for the content of an inline part, and the name of their encoding. */
  function Content<D>(env: Env<D>, p: Part<D>, kind: Kind): Result<(Bytes, string), PartError>
    requires KindOf(p) == Some(kind) && kind != UrlKind
  {
    match kind
    case TextKind => if p.text.Str? then Ok((env.utf8(p.text.text), "utf8")) else Err(BadText)
    case DataKind =>
      (match env.canonical(p.data.value)
       case None => Err(BadData)
       case Some(b) => Ok((b, "truyn-json-c14n-v1")))
    case RawKind =>
      if !p.raw.Str? || Base64.StrictBytes(p.raw.text).None? then Err(BadRaw)
      else Ok((Base64.StrictBytes(p.raw.text).value, "raw"))
  }

  function Seal<D>(env: Env<D>, b: Bytes, encoding: string): Integrity {
    Integrity(env.sha256(b), |b|, Some(encoding), Some(true))
  }

  predicate Agrees(claim: Option<Integrity>, computed: Integrity) {
    claim.None? || (claim.value.digest == computed.digest && claim.value.sizeBytes == computed.sizeBytes
                    && (claim.value.encoding.None? || claim.value.encoding == computed.encoding))
  }

  /** The normalized part: unknown fields and blanks are gone, the claim is the given one. */
  function Sealed<D>(p: Part<D>, prep: Prepared, url: Given, raw: Given, claim: Integrity): Part<D>
    requires p.Part?
  {
    Part(p.text, p.data, url, raw, prep.filename, prep.mediaType, Metadata(WriteClaim(claim), prep.source, prep.others))
  }

  function FinishInline<D>(env: Env<D>, p: Part<D>, prep: Prepared, budget: nat): Result<Part<D>, PartError>
    requires KindOf(p) == Some(prep.kind) && prep.kind != UrlKind
  {
    match Content(env, p, prep.kind)
    case Err(e) => Err(e)
    case Ok((b, encoding)) =>
      if |b| > budget then Err(TooLarge)
      else if !Agrees(prep.claim, Seal(env, b, encoding)) then Err(Mismatch)
      else Ok(Sealed(p, prep, p.url, if prep.kind == RawKind then Str(Base64.Encode(b)) else p.raw, Seal(env, b, encoding)))
  }

  function FinishUrl<D>(env: Env<D>, p: Part<D>, prep: Prepared, budget: nat): Result<Part<D>, PartError>
    requires KindOf(p) == Some(UrlKind) && prep.claim.Some?
  {
    if !p.url.Str? || env.trim(p.url.text) == "" || env.toUrl(env.trim(p.url.text)).None? then Err(BadUrl)
    else if prep.claim.value.verified != Some(true) then Err(Unverified)
    else if prep.claim.value.sizeBytes > budget then Err(TooLarge)
    else Ok(Sealed(p, prep, Str(env.toUrl(env.trim(p.url.text)).value), p.raw, prep.claim.value))
  }

  function Finish<D>(env: Env<D>, p: Part<D>, prep: Prepared, budget: nat): Result<Part<D>, PartError>
    requires KindOf(p) == Some(prep.kind) && (prep.kind == UrlKind ==> prep.claim.Some?)
  {
    if prep.kind == UrlKind then FinishUrl(env, p, prep, budget) else FinishInline(env, p, prep, budget)
  }

  lemma PreparedKind<D>(env: Env<D>, p: Part<D>)
    requires Prepare(env, p).Ok?
    ensures var prep := Prepare(env, p).value;
            KindOf(p) == Some(prep.kind) && (prep.kind == UrlKind ==> prep.claim.Some?) && p.Part?
  {}

  /** `normalizeOutboundA2aPart`. */
  function NormalizePart<D>(env: Env<D>, p: Part<D>, budget: int): Result<Part<D>, PartError> {
    if !IsBudget(budget) then Err(BadBudget)
    else
      match Prepare(env, p)
      case Err(e) => Err(e)
      case Ok(prep) =>
        PreparedKind(env, p);
        Finish(env, p, prep, budget)
  }

  /** `partIntegrity(part)?.sizeBytes || 0`. */
  function PartSize<D>(p: Part<D>): int {
    if p.Part? && p.metadata.Metadata? && p.metadata.claim.Claim? && p.metadata.claim.sizeBytes.Some?
    then p.metadata.claim.sizeBytes.value else 0
  }

  // ---- Reading back what was written --------------------------------------------------------

  ghost predicate IsWritten<D>(env: Env<D>, i: Integrity) {
    && env.isHex(i.digest) && env.lower(i.digest) == i.digest && i.sizeBytes <= MAX_SAFE
    && (i.encoding.Some? ==> i.encoding.value != "")
  }

  lemma ClaimReadsBack<D(!new)>(env: Env<D>, i: Integrity)
    requires IsEnv(env) && IsWritten(env, i)
    ensures ReadClaim(env.isHex, env.lower, WriteClaim(i)) == Ok(Some(i))
  {}

  lemma ReadClaimIsWritten<D(!new)>(env: Env<D>, c: Claim)
    requires IsEnv(env)
    ensures var r := ReadClaim(env.isHex, env.lower, c); r.Ok? && r.value.Some? ==> IsWritten(env, r.value.value)
  {}

  lemma TrimmedIsTrimmed(trim: string -> string, g: Given)
    requires forall s :: trim(trim(s)) == trim(s)
    requires Trimmed(trim, g).Ok?
    ensures Trimmed(trim, Trimmed(trim, g).value) == Trimmed(trim, g)
  {}

  /** What was read off a part is read off its normal form, with the new claim. */
  lemma PrepareAgain<D(!new)>(env: Env<D>, p: Part<D>, url: Given, raw: Given, claim: Integrity)
    requires IsEnv(env) && Prepare(env, p).Ok? && IsWritten(env, claim)
    requires (p.url.Absent? <==> url.Absent?) && (p.raw.Absent? <==> raw.Absent?)
    ensures p.Part? && Prepare(env, Sealed(p, Prepare(env, p).value, url, raw, claim)) == Ok(Prepare(env, p).value.(claim := Some(claim)))
    ensures KindOf(Sealed(p, Prepare(env, p).value, url, raw, claim)) == KindOf(p)
  {
    ClaimReadsBack(env, claim);
    TrimmedIsTrimmed(env.trim, p.filename);
    TrimmedIsTrimmed(env.trim, p.mediaType);
  }

  lemma InlineAgain<D(!new)>(env: Env<D>, p: Part<D>, budget: nat, other: nat)
    requires IsEnv(env) && Prepare(env, p).Ok? && Prepare(env, p).value.kind != UrlKind && IsBudget(budget) && IsBudget(other)
    requires KindOf(p) == Some(Prepare(env, p).value.kind)
    requires FinishInline(env, p, Prepare(env, p).value, budget).Ok?
    ensures var q := FinishInline(env, p, Prepare(env, p).value, budget).value;
            0 <= PartSize(q) <= budget && (PartSize(q) <= other ==> NormalizePart(env, q, other) == Ok(q))
  {
    var prep := Prepare(env, p).value;
    var (b, encoding) := Content(env, p, prep.kind).value;
    var seal := Seal(env, b, encoding);
    if prep.kind == RawKind { Base64.StrictBytesExact(p.raw.text, b); }
    PrepareAgain(env, p, p.url, p.raw, seal);
    var q := Sealed(p, prep, p.url, p.raw, seal);
    assert Content(env, q, prep.kind) == Ok((b, encoding));
  }

  lemma UrlAgain<D(!new)>(env: Env<D>, p: Part<D>, budget: nat, other: nat)
    requires IsEnv(env) && Prepare(env, p).Ok? && Prepare(env, p).value.claim.Some? && IsBudget(budget) && IsBudget(other)
    requires KindOf(p) == Some(UrlKind)
    requires FinishUrl(env, p, Prepare(env, p).value, budget).Ok?
    ensures var q := FinishUrl(env, p, Prepare(env, p).value, budget).value;
            0 <= PartSize(q) <= budget && (PartSize(q) <= other ==> NormalizePart(env, q, other) == Ok(q))
  {
    var prep := Prepare(env, p).value;
    ReadClaimIsWritten(env, if p.metadata.NoMetadata? then NoClaim else p.metadata.claim);
    var url := Str(env.toUrl(env.trim(p.url.text)).value);
    PrepareAgain(env, p, url, p.raw, prep.claim.value);
  }

  /**
   A normalized part declares a size within the budget, and normalizing it again under
   any budget that covers this size returns it unchanged.
   */
  lemma PartIsNormal<D(!new)>(env: Env<D>, p: Part<D>, budget: int, other: int)
    requires IsEnv(env) && NormalizePart(env, p, budget).Ok? && IsBudget(other)
    ensures var q := NormalizePart(env, p, budget).value;
            0 <= PartSize(q) <= budget && (PartSize(q) <= other ==> NormalizePart(env, q, other) == Ok(q))
  {
    PreparedKind(env, p);
    if Prepare(env, p).value.kind == UrlKind {
      UrlAgain(env, p, budget, other);
    } else {
      InlineAgain(env, p, budget, other);
    }
  }

  /** Parts are threaded by their declared size; they have no keys. */
  function PartRule<D>(env: Env<D>): Rule<Part<D>, PartError> {
    Rule((p, budget) => NormalizePart(env, p, budget), PartSize, _ => None)
  }

  /** The budget decides nothing but the size limit, and a normalized part is normal. */
  lemma PartsFollowTheRule<D(!new)>(env: Env<D>)
    requires IsEnv(env)
    ensures IsRule(PartRule(env))
  {
    var rule := PartRule(env);
    forall p, b | IsBudget(b) ensures OnlyLimits(rule, p, b) {
      BudgetOnlyLimits(env, p, b);
    }
    forall p ensures Settles(rule, p) {
      if NormalizePart(env, p, MAX_SAFE).Ok? { PartIsNormal(env, p, MAX_SAFE, MAX_SAFE); }
    }
  }

  lemma BudgetOnlyLimits<D(!new)>(env: Env<D>, p: Part<D>, budget: int)
    requires IsEnv(env) && IsBudget(budget)
    ensures OnlyLimits(PartRule(env), p, budget)
  {
    if NormalizePart(env, p, MAX_SAFE).Ok? { PartIsNormal(env, p, MAX_SAFE, MAX_SAFE); }
    if Prepare(env, p).Ok? { PreparedKind(env, p); }
  }

  /** An inline part leaves with the digest and length of its content; a claim it came with had to agree. */
  lemma InlineIsSealed<D(!new)>(env: Env<D>, p: Part<D>, budget: int, kind: Kind)
    requires IsEnv(env) && KindOf(p) == Some(kind) && kind != UrlKind && NormalizePart(env, p, budget).Ok?
    ensures Content(env, p, kind).Ok?
    ensures var (b, encoding) := Content(env, p, kind).value;
            var q := NormalizePart(env, p, budget).value;
            && q.Part? && KindOf(q) == Some(kind) && Content(env, q, kind) == Content(env, p, kind)
            && q.metadata.Metadata? && q.metadata.claim == WriteClaim(Seal(env, b, encoding)) && q.metadata.source == Absent
            && (p.metadata.Metadata? && p.metadata.claim.Claim? ==>
                  p.metadata.claim.digest.Str? && env.lower(p.metadata.claim.digest.text) == env.sha256(b)
                  && p.metadata.claim.sizeBytes == Some(|b|))
  {
    PreparedKind(env, p);
    if kind == RawKind { Base64.StrictBytesExact(p.raw.text, Content(env, p, kind).value.0); }
  }

  // ---- What each kind of part leaves with -----------------------------------------------------

  /** The claim a part came with, and whether it fits what was measured. */
  predicate ClaimFits<D>(env: Env<D>, m: Metadata, digest: string, size: nat, encoding: string) {
    m.NoMetadata? || (m.Metadata? && (m.claim.NoClaim? || IsClaimFor(env, m.claim, digest, size, encoding)))
  }

  predicate IsClaimFor<D>(env: Env<D>, c: Claim, digest: string, size: nat, encoding: string) {
    && c.Claim? && (c.algorithm.Str? || c.algorithm.Other?)
    && env.lower(if c.algorithm.Str? then c.algorithm.text else c.algorithm.shown) == "sha256"
    && c.digest.Str? && env.isHex(c.digest.text) && env.lower(c.digest.text) == digest
    && c.sizeBytes == Some(size as int)
    && (c.encoding.Absent? || c.encoding == Str(encoding)) && !c.verified.NotAFlag?
  }

  /** A file name or media type may be missing, but not blank or of another type. */
  predicate IsFine<D>(env: Env<D>, g: Given) {
    g.Absent? || g.Null? || (g.Str? && env.trim(g.text) != "")
  }

  /** The claim that says what was measured. */
  function Measured(digest: string, size: nat, encoding: string): Claim {
    Claim(Str("sha256"), Str(digest), Some(size as int), Str(encoding), Flag(true))
  }

  /** All fields as they were, but names trimmed, the source URL gone and the claim replaced. */
  ghost predicate IsSealedAs<D>(env: Env<D>, p: Part<D>, q: Part<D>, claim: Claim)
    requires p.Part?
  {
    && q.Part? && q.text == p.text && q.data == p.data && q.url == p.url && q.raw == p.raw
    && q.filename == (if p.filename.Str? then Str(env.trim(p.filename.text)) else Absent)
    && q.mediaType == (if p.mediaType.Str? then Str(env.trim(p.mediaType.text)) else Absent)
    && q.metadata == Metadata(claim, Absent, if p.metadata.Metadata? then p.metadata.others else [])
  }

  lemma ReadClaimFits<D(!new)>(env: Env<D>, c: Claim, digest: string, size: nat, encoding: string)
    requires size <= MAX_SAFE && encoding != "" && env.lower("") != "sha256"
    ensures var r := ReadClaim(env.isHex, env.lower, c);
            (r.Ok? && Agrees(r.value, Integrity(digest, size, Some(encoding), Some(true)))) <==>
            (c.NoClaim? || IsClaimFor(env, c, digest, size, encoding))
  {}

  lemma InlineAcceptedExactlyWhen<D(!new)>(env: Env<D>, p: Part<D>, budget: int, kind: Kind, b: Bytes, encoding: string)
    requires KindOf(p) == Some(kind) && kind != UrlKind && Content(env, p, kind) == Ok((b, encoding))
    requires encoding != "" && env.lower("") != "sha256" && IsBudget(budget)
    ensures NormalizePart(env, p, budget).Ok? <==>
            && |b| <= budget && IsFine(env, p.filename) && IsFine(env, p.mediaType)
            && ClaimFits(env, p.metadata, env.sha256(b), |b|, encoding)
  {
    if |b| <= budget && p.metadata.Metadata? { ReadClaimFits(env, p.metadata.claim, env.sha256(b), |b|, encoding); }
    if Prepare(env, p).Ok? { PreparedKind(env, p); }
  }

  lemma InlineLeavesWith<D(!new)>(env: Env<D>, p: Part<D>, budget: int, kind: Kind, b: Bytes, encoding: string)
    requires KindOf(p) == Some(kind) && kind != UrlKind && Content(env, p, kind) == Ok((b, encoding))
    requires NormalizePart(env, p, budget).Ok?
    ensures IsSealedAs(env, p, NormalizePart(env, p, budget).value, Measured(env.sha256(b), |b|, encoding))
  {
    PreparedKind(env, p);
    if kind == RawKind { Base64.StrictBytesExact(p.raw.text, b); }
  }

  /** A text part leaves with the digest and the length of its UTF-8 bytes, exactly if they fit and a given claim agrees. */
  lemma TextPartIsMeasured<D(!new)>(env: Env<D>, p: Part<D>, budget: int, text: string)
    requires IsEnv(env) && IsBudget(budget)
    requires p.Part? && p.text == Str(text) && p.data.None? && p.url.Absent? && p.raw.Absent?
    ensures var b := env.utf8(text);
            && (NormalizePart(env, p, budget).Ok? <==>
                  && |b| <= budget && IsFine(env, p.filename) && IsFine(env, p.mediaType)
                  && ClaimFits(env, p.metadata, env.sha256(b), |b|, "utf8"))
            && (NormalizePart(env, p, budget).Ok? ==>
                  IsSealedAs(env, p, NormalizePart(env, p, budget).value, Measured(env.sha256(b), |b|, "utf8")))
  {
    InlineAcceptedExactlyWhen(env, p, budget, TextKind, env.utf8(text), "utf8");
    if NormalizePart(env, p, budget).Ok? { InlineLeavesWith(env, p, budget, TextKind, env.utf8(text), "utf8"); }
  }

  /** A data part leaves with those of its canonical bytes. */
  lemma DataPartIsMeasured<D(!new)>(env: Env<D>, p: Part<D>, budget: int, b: Bytes)
    requires IsEnv(env) && IsBudget(budget)
    requires p.Part? && p.text.Absent? && p.data.Some? && p.url.Absent? && p.raw.Absent? && env.canonical(p.data.value) == Some(b)
    ensures (NormalizePart(env, p, budget).Ok? <==>
              && |b| <= budget && IsFine(env, p.filename) && IsFine(env, p.mediaType)
              && ClaimFits(env, p.metadata, env.sha256(b), |b|, "truyn-json-c14n-v1"))
    ensures NormalizePart(env, p, budget).Ok? ==>
              IsSealedAs(env, p, NormalizePart(env, p, budget).value, Measured(env.sha256(b), |b|, "truyn-json-c14n-v1"))
  {
    InlineAcceptedExactlyWhen(env, p, budget, DataKind, b, "truyn-json-c14n-v1");
    if NormalizePart(env, p, budget).Ok? { InlineLeavesWith(env, p, budget, DataKind, b, "truyn-json-c14n-v1"); }
  }

  /** A raw part leaves with those of the bytes it spells in base64. */
  lemma RawPartIsMeasured<D(!new)>(env: Env<D>, p: Part<D>, budget: int, b: Bytes)
    requires IsEnv(env) && IsBudget(budget)
    requires p.Part? && p.text.Absent? && p.data.None? && p.url.Absent? && p.raw == Str(Base64.Encode(b))
    ensures (NormalizePart(env, p, budget).Ok? <==>
              && |b| <= budget && IsFine(env, p.filename) && IsFine(env, p.mediaType)
              && ClaimFits(env, p.metadata, env.sha256(b), |b|, "raw"))
    ensures NormalizePart(env, p, budget).Ok? ==>
              IsSealedAs(env, p, NormalizePart(env, p, budget).value, Measured(env.sha256(b), |b|, "raw"))
  {
    Base64.StrictBytesExact(Base64.Encode(b), b);
    InlineAcceptedExactlyWhen(env, p, budget, RawKind, b, "raw");
    if NormalizePart(env, p, budget).Ok? { InlineLeavesWith(env, p, budget, RawKind, b, "raw"); }
  }

  /** Exactly one of the four content fields is present in an accepted part. */
  lemma OneContentField<D(!new)>(env: Env<D>, p: Part<D>, budget: int)
    requires NormalizePart(env, p, budget).Ok?
    ensures p.Part? && 1 == (if p.text.Absent? then 0 else 1) + (if p.data.None? then 0 else 1)
                          + (if p.url.Absent? then 0 else 1) + (if p.raw.Absent? then 0 else 1)
  {
    PreparedKind(env, p);
  }

  /** A text that is not a string, data without canonical form, and a raw part that nothing encodes to are refused. */
  lemma BadContentIsRefused<D(!new)>(env: Env<D>, p: Part<D>, budget: int)
    requires NormalizePart(env, p, budget).Ok?
    ensures KindOf(p) == Some(TextKind) ==> p.text.Str?
    ensures KindOf(p) == Some(DataKind) ==> env.canonical(p.data.value).Some?
    ensures KindOf(p) == Some(RawKind) ==> p.raw.Str? && exists b :: p.raw.text == Base64.Encode(b)
  {
    PreparedKind(env, p);
    if KindOf(p) == Some(RawKind) {
      var b := Base64.StrictBytes(p.raw.text).value;
      Base64.StrictBytesExact(p.raw.text, b);
    }
  }

  /** A URL part leaves with its normalized URL and its claim, exactly if that is verified and its size fits. */
  lemma UrlPartKeepsItsClaim<D(!new)>(env: Env<D>, p: Part<D>, budget: int)
    requires IsEnv(env) && IsBudget(budget) && KindOf(p) == Some(UrlKind)
    requires p.metadata.Metadata? && p.metadata.claim.Claim? && ReadClaim(env.isHex, env.lower, p.metadata.claim).Ok?
    ensures NormalizePart(env, p, budget).Ok? <==>
            && IsFine(env, p.filename) && IsFine(env, p.mediaType)
            && p.url.Str? && env.trim(p.url.text) != "" && env.toUrl(env.trim(p.url.text)).Some?
            && p.metadata.claim.verified == Flag(true) && p.metadata.claim.sizeBytes.value <= budget
    ensures NormalizePart(env, p, budget).Ok? ==>
              var q := NormalizePart(env, p, budget).value;
              && q.Part? && q.url == Str(env.toUrl(env.trim(p.url.text)).value)
              && q.metadata.Metadata? && q.metadata.source == p.metadata.source && q.metadata.others == p.metadata.others
              && q.metadata.claim.Claim? && q.metadata.claim.verified == Flag(true)
              && q.metadata.claim.digest == Str(env.lower(p.metadata.claim.digest.text))
              && q.metadata.claim.sizeBytes == p.metadata.claim.sizeBytes && q.metadata.claim.encoding == p.metadata.claim.encoding
  {
    if Prepare(env, p).Ok? { PreparedKind(env, p); }
  }

  /** The assumptions can be met. */
  lemma EnvExists<D(!new)>() returns (env: Env<D>)
    ensures IsEnv(env)
  {
    env := Env(_ => "", _ => true, s => s, s => s, _ => [], _ => None, s => if s == "" then None else Some(s));
  }
}

/** BYOK profiles and their migration from schema 1 to schema 2. */
module ByokProfile {
  import opened Outcomes

  /**
   A JSON value as a profile field holds it; an absent field is Undefined. Numbers are
   named by an integer, zero by 0; `Infinite` is a number too large for a double.
   */
  datatype Value =
    | Undefined
    | Null
    | Bool(flag: bool)
    | Number(n: int)
    | Infinite(negative: bool)
    | Text(text: string)
    | List(items: seq<Value>)
    | Object(schema: Value, backend: Value, key: Value, others: seq<Value>)

  datatype Profile = Profile(schema: Value, provider: Value, providerNodeId: Value, requesterNodeId: Value,
                             accessMode: Value, billingMode: Value, authMode: Value,
                             credentialEnv: Value, credentialRef: Value, others: seq<Value>)

  const REFERENCE_SCHEMA := "truyn.secret-reference/v1"

  datatype ProfileError =
    | UnsupportedSchema | MissingIdentity | SameIdentity | RetainsCredentialEnv
    | ReferenceSchema | ReferenceIncomplete | BearerNeedsReference | KeyRequired

  predicate Truthy(v: Value) {
    match v
    case Undefined => false
    case Null => false
    case Bool(flag) => flag
    case Number(n) => n != 0
    case Text(s) => s != ""
    case _ => true
  }

  predicate IsComposite(v: Value) {
    v.List? || v.Object?
  }

  /** `===`; two lists or objects are the same only when one was copied from the other by reference. */
  predicate StrictlyEqual(a: Value, b: Value, shared: bool) {
    a == b && (IsComposite(a) ==> shared)
  }

  /** `String(v || '').trim()`, which the model leaves abstract. */
  type Trimmer = Value -> string

  /** Trimming keeps a trimmed text, finds nothing in a falsy value, and has nothing to trim from `env`. */
  ghost predicate IsTrimmer(trim: Trimmer) {
    && (forall v :: trim(Text(trim(v))) == trim(v))
    && (forall v :: !Truthy(v) ==> trim(v) == "")
    && trim(Text("env")) == "env"
  }

  function CheckReference(trim: Trimmer, v: Value): Result<(), ProfileError> {
    if !v.Object? || v.schema != Text(REFERENCE_SCHEMA) then Err(ReferenceSchema)
    else if trim(v.backend) == "" || trim(v.key) == "" then Err(ReferenceIncomplete)
    else Ok(())
  }

  /** `validateMigratedByokProfile`: the first failing check, in order. */
  function Validate(trim: Trimmer, p: Profile): Result<(), ProfileError> {
    if p.schema != Number(2) then Err(UnsupportedSchema)
    else if !Truthy(p.provider) || !Truthy(p.requesterNodeId) || !Truthy(p.providerNodeId) then Err(MissingIdentity)
    else if StrictlyEqual(p.requesterNodeId, p.providerNodeId, false) then Err(SameIdentity)
    else if p.credentialEnv != Undefined then Err(RetainsCredentialEnv)
    else if Truthy(p.credentialRef) && CheckReference(trim, p.credentialRef).Err? then
      Err(CheckReference(trim, p.credentialRef).error)
    else if p.authMode == Text("bearer") && !Truthy(p.credentialRef) then Err(BearerNeedsReference)
    else Ok(())
  }

  function EnvReference(trim: Trimmer, credentialEnv: Value): Result<Value, ProfileError> {
    if trim(credentialEnv) == "" then Err(KeyRequired)
    else Ok(Object(Text(REFERENCE_SCHEMA), Text("env"), Text(trim(credentialEnv)), []))
  }

  function Reference(trim: Trimmer, p: Profile): Result<Value, ProfileError> {
    if Truthy(p.credentialEnv) then EnvReference(trim, p.credentialEnv)
    else Ok(if Truthy(p.credentialRef) then p.credentialRef else Null)
  }

  /** `migrateByokProfile`. */
  function Migrate(trim: Trimmer, p: Profile): (r: Result<Profile, ProfileError>) {
    if p.schema == Number(2) then
      (match Validate(trim, p)
       case Err(e) => Err(e)
       case Ok(_) => Ok(p))
    else if p.schema != Number(1) then Err(UnsupportedSchema)
    else
      match Reference(trim, p)
      case Err(e) => Err(e)
      case Ok(reference) =>
        var migrated := p.(schema := Number(2), credentialEnv := Undefined, credentialRef := reference);
        match Validate(trim, migrated)
        case Err(e) => Err(e)
        case Ok(_) => Ok(migrated)
  }

  /** `authoritySame`; `shared` says that the second profile was copied from the first and not parsed on its own. */
  predicate AuthoritySame(a: Profile, b: Profile, shared: bool) {
    && StrictlyEqual(a.provider, b.provider, shared)
    && StrictlyEqual(a.providerNodeId, b.providerNodeId, shared)
    && StrictlyEqual(a.requesterNodeId, b.requesterNodeId, shared)
    && StrictlyEqual(a.accessMode, b.accessMode, shared)
    && StrictlyEqual(a.billingMode, b.billingMode, shared)
  }

  // ---- Printing and parsing again -----------------------------------------------------------

  /** The value that parsing gives back after printing: a number too large for a double prints as null. */
  function Reread(v: Value): Value {
    match v
    case Infinite(_) => Null
    case List(items) => List(RereadAll(items))
    case Object(schema, backend, key, others) => Object(Reread(schema), Reread(backend), Reread(key), RereadAll(others))
    case _ => v
  }

  function RereadAll(vs: seq<Value>): (r: seq<Value>)
    ensures |r| == |vs|
  {
    if vs == [] then [] else [Reread(vs[0])] + RereadAll(vs[1..])
  }

  function RereadProfile(p: Profile): Profile {
    Profile(Reread(p.schema), Reread(p.provider), Reread(p.providerNodeId), Reread(p.requesterNodeId),
            Reread(p.accessMode), Reread(p.billingMode), Reread(p.authMode),
            Reread(p.credentialEnv), Reread(p.credentialRef), RereadAll(p.others))
  }

  // ---- What migration does ----------------------------------------------------------------------

  /** A migrated profile is valid and differs from its original in schema and credential fields only. */
  lemma MigrationIsValid(trim: Trimmer, p: Profile)
    requires p.schema == Number(1) && Migrate(trim, p).Ok?
    ensures var m := Migrate(trim, p).value;
            && Validate(trim, m).Ok? && m.schema == Number(2) && m.credentialEnv == Undefined
            && m == p.(schema := m.schema, credentialEnv := m.credentialEnv, credentialRef := m.credentialRef)
            && (Truthy(m.credentialRef) <==> Truthy(p.credentialEnv) || Truthy(p.credentialRef))
  {}

  /**
   The migrated credential: for a profile that named an environment variable, a reference to
   the `env` backend whose key is that name, trimmed; otherwise the reference it had, if any.
   Everything else but the schema stays.
   */
  lemma MigratedCredential(trim: Trimmer, p: Profile)
    requires p.schema == Number(1) && Migrate(trim, p).Ok?
    ensures var m := Migrate(trim, p).value;
            && m.schema == Number(2) && m.credentialEnv == Undefined
            && (Truthy(p.credentialEnv) ==>
                  && m.credentialRef.Object? && m.credentialRef.schema == Text("truyn.secret-reference/v1")
                  && m.credentialRef.backend == Text("env") && m.credentialRef.key == Text(trim(p.credentialEnv))
                  && m.credentialRef.others == [] && trim(p.credentialEnv) != "")
            && (!Truthy(p.credentialEnv) ==> m.credentialRef == if Truthy(p.credentialRef) then p.credentialRef else Null)
            && m.provider == p.provider && m.providerNodeId == p.providerNodeId && m.requesterNodeId == p.requesterNodeId
            && m.accessMode == p.accessMode && m.billingMode == p.billingMode && m.authMode == p.authMode && m.others == p.others
  {}

  /** A schema-2 profile is valid exactly when its identities differ, no variable name is left, and its credential is in order. */
  lemma ValidExactlyWhen(trim: Trimmer, p: Profile)
    ensures Validate(trim, p).Ok? <==>
            && p.schema == Number(2) && Truthy(p.provider) && Truthy(p.requesterNodeId) && Truthy(p.providerNodeId)
            && (p.requesterNodeId != p.providerNodeId || p.providerNodeId.List? || p.providerNodeId.Object?)
            && p.credentialEnv == Undefined
            && (Truthy(p.credentialRef) ==>
                  && p.credentialRef.Object? && p.credentialRef.schema == Text("truyn.secret-reference/v1")
                  && trim(p.credentialRef.backend) != "" && trim(p.credentialRef.key) != "")
            && (p.authMode == Text("bearer") ==> Truthy(p.credentialRef))
  {}

  /** The drift error after a migration cannot happen, whatever the schema-1 profile holds. */
  lemma MigrationKeepsAuthority(trim: Trimmer, p: Profile)
    requires p.schema == Number(1) && Migrate(trim, p).Ok?
    ensures AuthoritySame(p, Migrate(trim, p).value, true)
  {}

  /** Migrating a migrated profile changes nothing. */
  lemma MigrationIsIdempotent(trim: Trimmer, p: Profile)
    requires Migrate(trim, p).Ok?
    ensures Migrate(trim, Migrate(trim, p).value) == Migrate(trim, p)
  {}

  /** A schema-1 profile is migrated exactly when its identities and its credential are in order. */
  lemma MigratableExactlyWhen(trim: Trimmer, p: Profile)
    requires IsTrimmer(trim) && p.schema == Number(1)
    ensures Migrate(trim, p).Ok? <==>
            && Truthy(p.provider) && Truthy(p.requesterNodeId) && Truthy(p.providerNodeId)
            && !(p.requesterNodeId == p.providerNodeId && !IsComposite(p.providerNodeId))
            && (if Truthy(p.credentialEnv) then trim(p.credentialEnv) != ""
                else if Truthy(p.credentialRef) then CheckReference(trim, p.credentialRef).Ok?
                else p.authMode != Text("bearer"))
  {}

  // ---- What a rollback needs ------------------------------------------------------------------------

  predicate IsPlain(v: Value) {
    !IsComposite(v) && !v.Infinite?
  }

  predicate PlainAuthority(p: Profile) {
    IsPlain(p.provider) && IsPlain(p.providerNodeId) && IsPlain(p.requesterNodeId)
    && IsPlain(p.accessMode) && IsPlain(p.billingMode)
  }

  /** A reference the profile brought along survives printing: its backend and key keep a text. */
  predicate ReferenceSurvives(trim: Trimmer, p: Profile) {
    Truthy(p.credentialEnv) || !Truthy(p.credentialRef)
    || (p.credentialRef.Object? && trim(Reread(p.credentialRef.backend)) != "" && trim(Reread(p.credentialRef.key)) != "")
  }

  lemma PlainIsReread(v: Value)
    ensures StrictlyEqual(v, Reread(v), false) <==> IsPlain(v)
  {}

  /**
   The migrated profile, printed and parsed again, passes the checks of a rollback
   exactly when the authority fields are plain values and the reference survives.
   A profile with an object, a list or an oversized number in one of these fields
   is migrated all the same, and then cannot be rolled back.
   */
  lemma RollbackChecksPass(trim: Trimmer, p: Profile)
    requires IsTrimmer(trim) && p.schema == Number(1) && Migrate(trim, p).Ok?
    ensures var back := RereadProfile(Migrate(trim, p).value);
            (Validate(trim, back).Ok? && AuthoritySame(p, back, false)) <==> (PlainAuthority(p) && ReferenceSurvives(trim, p))
  {
    var m := Migrate(trim, p).value;
    var back := RereadProfile(m);
    PlainIsReread(p.provider);
    PlainIsReread(p.providerNodeId);
    PlainIsReread(p.requesterNodeId);
    PlainIsReread(p.accessMode);
    PlainIsReread(p.billingMode);
    assert AuthoritySame(p, back, false) <==> PlainAuthority(p);
    assert Reread(m.schema) == Number(2) && Reread(m.credentialEnv) == Undefined;
    if PlainAuthority(p) {
      assert back.provider == p.provider && back.providerNodeId == p.providerNodeId && back.requesterNodeId == p.requesterNodeId;
      ReferenceAfterReread(trim, p);
    }
  }

  lemma ReferenceAfterReread(trim: Trimmer, p: Profile)
    requires IsTrimmer(trim) && p.schema == Number(1) && Migrate(trim, p).Ok?
    ensures var m := Migrate(trim, p).value;
            && (Truthy(Reread(m.credentialRef)) <==> Truthy(m.credentialRef))
            && ((Truthy(m.credentialRef) ==> CheckReference(trim, Reread(m.credentialRef)).Ok?) <==> ReferenceSurvives(trim, p))
  {
    var m := Migrate(trim, p).value;
    if Truthy(m.credentialRef) {
      assert CheckReference(trim, m.credentialRef).Ok?;
      assert Reread(m.credentialRef.schema) == Text(REFERENCE_SCHEMA);
    }
  }

  /** An example: an access mode that is an object. */
  lemma ObjectsCannotBeRolledBack(trim: Trimmer)
    requires IsTrimmer(trim)
    ensures var p := Profile(Number(1), Text("p"), Text("a"), Text("b"), Object(Undefined, Undefined, Undefined, []),
                             Undefined, Undefined, Undefined, Undefined, []);
            Migrate(trim, p).Ok? && !AuthoritySame(p, RereadProfile(Migrate(trim, p).value), false)
  {
    assert Text("a") != Text("b");
  }
}

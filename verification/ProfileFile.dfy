/**
 Migration of a BYOK profile file and its rollback, with a crash or a failed write
 possible at every step. A rename replaces the file atomically; any other write
 may be cut off.
 */
module ProfileFile {
  import opened Outcomes
  import opened ByokProfile
  import opened Utf8
  import Base64

  type Bytes = seq<Byte>
  type Stamp = nat

  const CHECKPOINT_SCHEMA := "truyn.p13-byok-checkpoint/v1"

  /** The object in a checkpoint file. */
  datatype Checkpoint = Checkpoint(schema: Value, originalSha256: Value, migratedSha256: Value, originalBase64: Value)

  /** Hashing, JSON reading and printing, left abstract; `isDigest` is the test for 64 lower-case hex digits. */
  datatype Codec = Codec(hash: Bytes -> string, isDigest: Value -> bool, trim: Trimmer,
                         parse: Bytes -> Option<Profile>, print_: Profile -> Bytes,
                         parseCheckpoint: Bytes -> Option<Checkpoint>, printCheckpoint: Checkpoint -> Bytes)

  datatype Failure =
    | Missing | SourceJson | CheckpointJson | OriginalJson | TargetJson
    | Profile(error: ProfileError) | SourceSchema | OriginalSchema | AuthorityDrift
    | InvalidCheckpoint | DigestMismatch | TargetMismatch
    | CheckpointExists | MigratedDrift | RollbackDrift | TempExists

  // ---- Checks that only read --------------------------------------------------------------

  function Target(codec: Codec, migrated: ByokProfile.Profile): Bytes {
    codec.print_(migrated)
  }

  function CheckpointOf(codec: Codec, raw: Bytes, target: Bytes): Checkpoint {
    Checkpoint(Text(CHECKPOINT_SCHEMA), Text(codec.hash(raw)), Text(codec.hash(target)), Text(Base64.Encode(raw)))
  }

  /** The original bytes and profile a checkpoint holds: `checkpointFrom`. */
  function CheckpointFrom(codec: Codec, bytes: Bytes): (r: Result<(Checkpoint, Bytes, ByokProfile.Profile), Failure>)
    ensures r.Ok? ==>
              && codec.parseCheckpoint(bytes) == Some(r.value.0)
              && codec.parse(r.value.1) == Some(r.value.2) && r.value.2.schema == Number(1)
              && Migrate(codec.trim, r.value.2).Ok?
              && r.value.0.originalSha256 == Text(codec.hash(r.value.1))
              && r.value.0.migratedSha256 == Text(codec.hash(Target(codec, Migrate(codec.trim, r.value.2).value)))
  {
    match codec.parseCheckpoint(bytes)
    case None => Err(CheckpointJson)
    case Some(cp) =>
      if cp.schema != Text(CHECKPOINT_SCHEMA) || !codec.isDigest(cp.originalSha256) || !codec.isDigest(cp.migratedSha256)
         || !cp.originalBase64.Text? || !Base64.IsBody(cp.originalBase64.text) then Err(InvalidCheckpoint)
      else
        var original := Base64.Decode(cp.originalBase64.text);
        if Base64.Encode(original) != cp.originalBase64.text || Text(codec.hash(original)) != cp.originalSha256 then Err(DigestMismatch)
        else
          match codec.parse(original)
          case None => Err(OriginalJson)
          case Some(legacy) =>
            if legacy.schema != Number(1) then Err(OriginalSchema)
            else
              match Migrate(codec.trim, legacy)
              case Err(e) => Err(Failure.Profile(e))
              case Ok(migrated) =>
                if Text(codec.hash(Target(codec, migrated))) != cp.migratedSha256 || !AuthoritySame(legacy, migrated, true)
                then Err(TargetMismatch)
                else Ok((cp, original, legacy))
  }

  datatype Disk = Disk(file: Option<Bytes>, checkpoint: Option<Bytes>, temps: map<Stamp, Bytes>)

  datatype Plan = Keep | Write(target: Bytes, checkpoint: Bytes)

  /** What a migration finds before it writes anything. */
  function MigrationPlan(codec: Codec, d: Disk): Result<Plan, Failure> {
    if d.file.None? then Err(Missing)
    else
      match codec.parse(d.file.value)
      case None => Err(SourceJson)
      case Some(p) =>
        if p.schema == Number(2) then
          if Validate(codec.trim, p).Err? then Err(Failure.Profile(Validate(codec.trim, p).error))
          else if d.checkpoint.None? then Ok(Keep)
          else
            (match CheckpointFrom(codec, d.checkpoint.value)
             case Err(e) => Err(e)
             case Ok((cp, _, _)) =>
               if Text(codec.hash(d.file.value)) != cp.migratedSha256 then Err(MigratedDrift) else Ok(Keep))
        else if p.schema != Number(1) then Err(SourceSchema)
        else
          match Migrate(codec.trim, p)
          case Err(e) => Err(Failure.Profile(e))
          case Ok(migrated) =>
            if !AuthoritySame(p, migrated, true) then Err(AuthorityDrift)
            else if d.checkpoint.Some? then Err(CheckpointExists)
            else
              var target := Target(codec, migrated);
              Ok(Write(target, codec.printCheckpoint(CheckpointOf(codec, d.file.value, target))))
  }

  /** The bytes a rollback is ready to put back. */
  function RollbackPlan(codec: Codec, d: Disk): Result<Bytes, Failure> {
    if d.file.None? || d.checkpoint.None? then Err(Missing)
    else
      match CheckpointFrom(codec, d.checkpoint.value)
      case Err(e) => Err(e)
      case Ok((cp, original, legacy)) =>
        if Text(codec.hash(d.file.value)) != cp.migratedSha256 then Err(RollbackDrift)
        else
          match codec.parse(d.file.value)
          case None => Err(TargetJson)
          case Some(migrated) =>
            if Validate(codec.trim, migrated).Err? then Err(Failure.Profile(Validate(codec.trim, migrated).error))
            else if !AuthoritySame(legacy, migrated, false) then Err(AuthorityDrift)
            else Ok(original)
  }

  // ---- Writing, with interruptions -----------------------------------------------------------

  /** The step at which a run is interrupted; a write that is interrupted keeps its first `cut` bytes. */
  datatype Point = BeforeCheckpoint | InCheckpoint | BeforeTemp | InTemp | BeforeRename | AfterRename

  /** A crash ends the process at once; a failed call still lets it remove its temporary file. */
  datatype Fault = NoFault | Crash(point: Point, cut: nat) | Failed(point: Point, cut: nat)

  predicate At(fault: Fault, point: Point) {
    !fault.NoFault? && fault.point == point
  }

  datatype Outcome = Done | Refused(why: Failure) | Interrupted

  function Cut(data: Bytes, n: nat): Bytes {
    if n < |data| then data[..n] else data
  }

  function CleanUp(d: Disk, stamp: Stamp, fault: Fault): Disk {
    if fault.Crash? then d else d.(temps := d.temps - {stamp})
  }

  /** A temporary file, then the rename over the profile, then the removal of what is left. */
  function Replace(d: Disk, stamp: Stamp, data: Bytes, fault: Fault): (Disk, Outcome) {
    if At(fault, BeforeTemp) then (CleanUp(d, stamp, fault), Interrupted)
    else if stamp in d.temps then (d.(temps := d.temps - {stamp}), Refused(TempExists))
    else if At(fault, InTemp) then (CleanUp(d.(temps := d.temps[stamp := Cut(data, fault.cut)]), stamp, fault), Interrupted)
    else if At(fault, BeforeRename) then (CleanUp(d.(temps := d.temps[stamp := data]), stamp, fault), Interrupted)
    else (d.(file := Some(data)), if At(fault, AfterRename) then Interrupted else Done)
  }

  function MigrateFile(codec: Codec, d: Disk, stamp: Stamp, fault: Fault): (Disk, Outcome) {
    match MigrationPlan(codec, d)
    case Err(e) => (d, Refused(e))
    case Ok(Keep) => (d, Done)
    case Ok(Write(target, checkpoint)) =>
      if At(fault, BeforeCheckpoint) then (d, Interrupted)
      else if At(fault, InCheckpoint) then (d.(checkpoint := Some(Cut(checkpoint, fault.cut))), Interrupted)
      else Replace(d.(checkpoint := Some(checkpoint)), stamp, target, fault)
  }

  function RollbackFile(codec: Codec, d: Disk, stamp: Stamp, fault: Fault): (Disk, Outcome) {
    match RollbackPlan(codec, d)
    case Err(e) => (d, Refused(e))
    case Ok(original) => Replace(d, stamp, original, fault)
  }

  // ---- Runs -------------------------------------------------------------------------------------

  datatype Event = Migration(stamp: Stamp, fault: Fault) | Rollback(stamp: Stamp, fault: Fault)

  function Step(codec: Codec, d: Disk, e: Event): Disk {
    match e
    case Migration(stamp, fault) => MigrateFile(codec, d, stamp, fault).0
    case Rollback(stamp, fault) => RollbackFile(codec, d, stamp, fault).0
  }

  function Run(codec: Codec, d: Disk, es: seq<Event>): Disk
    decreases |es|
  {
    if es == [] then d else Run(codec, Step(codec, d, es[0]), es[1..])
  }

  /** A schema-1 file that can be migrated. */
  predicate IsLegacy(codec: Codec, raw: Bytes) {
    codec.parse(raw).Some? && codec.parse(raw).value.schema == Number(1) && Migrate(codec.trim, codec.parse(raw).value).Ok?
  }

  function Legacy(codec: Codec, raw: Bytes): ByokProfile.Profile
    requires IsLegacy(codec, raw)
  {
    codec.parse(raw).value
  }

  function Migrated(codec: Codec, raw: Bytes): ByokProfile.Profile
    requires IsLegacy(codec, raw)
  {
    Migrate(codec.trim, Legacy(codec, raw)).value
  }

  function TargetOf(codec: Codec, raw: Bytes): Bytes
    requires IsLegacy(codec, raw)
  {
    Target(codec, Migrated(codec, raw))
  }

  function CheckpointBytes(codec: Codec, raw: Bytes): Bytes
    requires IsLegacy(codec, raw)
  {
    codec.printCheckpoint(CheckpointOf(codec, raw, TargetOf(codec, raw)))
  }

  /** What the proofs need of hashing and JSON for one original file: its prints can be read again. */
  ghost predicate IsCodecFor(codec: Codec, raw: Bytes)
    requires IsLegacy(codec, raw)
  {
    && IsTrimmer(codec.trim)
    && codec.isDigest(Text(codec.hash(raw))) && codec.isDigest(Text(codec.hash(TargetOf(codec, raw))))
    && codec.parse(TargetOf(codec, raw)) == Some(RereadProfile(Migrated(codec, raw)))
    && codec.parseCheckpoint(CheckpointBytes(codec, raw)) == Some(CheckpointOf(codec, raw, TargetOf(codec, raw)))
  }

  /** The assumptions can be met: a codec that knows one original and its migration. */
  lemma CodecExists() returns (codec: Codec, raw: Bytes)
    ensures IsLegacy(codec, raw) && IsCodecFor(codec, raw)
  {
    var p := ByokProfile.Profile(Number(1), Text("p"), Text("a"), Text("b"), Null, Null, Undefined, Undefined, Undefined, []);
    var m := p.(schema := Number(2), credentialRef := Null);
    var cp := Checkpoint(Text(CHECKPOINT_SCHEMA), Text("1"), Text("2"), Text(Base64.Encode([1])));
    codec := Codec((b: Bytes) => if b == [1] then "1" else "2", v => true, (v: Value) => if v.Text? then v.text else "",
                   (b: Bytes) => if b == [1] then Some(p) else if b == [2] then Some(RereadProfile(m)) else None, _ => [2],
                   _ => Some(cp), _ => [3]);
    raw := [1];
    assert codec.parse(raw) == Some(p);
    assert [2] != [1] && codec.parse([2]) == Some(RereadProfile(m));
    assert Text("a") != Text("b");
    assert Migrate(codec.trim, p) == Ok(m);
  }

  /** Byte for byte the original or its migration, and the migration only beside a complete checkpoint. */
  ghost predicate Safe(codec: Codec, raw: Bytes, d: Disk)
    requires IsLegacy(codec, raw)
  {
    && (d.file == Some(raw) || (d.file == Some(TargetOf(codec, raw)) && d.checkpoint == Some(CheckpointBytes(codec, raw))))
    && (d.checkpoint.Some? ==> exists n: nat :: d.checkpoint.value == Cut(CheckpointBytes(codec, raw), n))
  }

  lemma TargetIsSchema2(codec: Codec, raw: Bytes)
    requires IsLegacy(codec, raw) && IsCodecFor(codec, raw)
    ensures TargetOf(codec, raw) != raw
    ensures RereadProfile(Migrated(codec, raw)).schema == Number(2)
  {
    MigrationIsValid(codec.trim, Legacy(codec, raw));
  }

  /** A rollback never touches a file that is not of schema 2, whatever the checkpoint holds. */
  lemma RollbackLeavesLegacyAlone(codec: Codec, d: Disk)
    requires d.file.Some? && IsLegacy(codec, d.file.value)
    ensures RollbackPlan(codec, d).Err?
  {}

  /** The whole checkpoint reads back as the original. */
  lemma CheckpointReadsBack(codec: Codec, raw: Bytes)
    requires IsLegacy(codec, raw) && IsCodecFor(codec, raw)
    ensures CheckpointFrom(codec, CheckpointBytes(codec, raw))
            == Ok((CheckpointOf(codec, raw, TargetOf(codec, raw)), raw, Legacy(codec, raw)))
    ensures CheckpointOf(codec, raw, TargetOf(codec, raw))
            == Checkpoint(Text("truyn.p13-byok-checkpoint/v1"), Text(codec.hash(raw)), Text(codec.hash(TargetOf(codec, raw))),
                          Text(Base64.Encode(raw)))
  {
    Base64.DecodeInvertsEncode(raw);
    Base64.EncodedDigits(raw);
    MigrationKeepsAuthority(codec.trim, Legacy(codec, raw));
    assert Base64.IsBodyWith(Base64.Encode(raw), Base64.DigitCount(|raw|));
    assert Base64.IsBody(Base64.Encode(raw));
  }

  lemma PlanForLegacy(codec: Codec, raw: Bytes, d: Disk)
    requires IsLegacy(codec, raw) && d.file == Some(raw)
    ensures MigrationPlan(codec, d)
            == if d.checkpoint.Some? then Err(CheckpointExists) else Ok(Write(TargetOf(codec, raw), CheckpointBytes(codec, raw)))
  {
    MigrationKeepsAuthority(codec.trim, Legacy(codec, raw));
  }

  lemma PlanForTarget(codec: Codec, raw: Bytes, d: Disk)
    requires IsLegacy(codec, raw) && IsCodecFor(codec, raw)
    requires d.file == Some(TargetOf(codec, raw)) && d.checkpoint == Some(CheckpointBytes(codec, raw))
    ensures MigrationPlan(codec, d)
            == match Validate(codec.trim, RereadProfile(Migrated(codec, raw)))
               case Ok(_) => Ok(Keep)
               case Err(e) => Err(Failure.Profile(e))
    ensures RollbackPlan(codec, d).Ok? ==> RollbackPlan(codec, d).value == raw
    ensures RollbackPlan(codec, d).Ok? <==>
            PlainAuthority(Legacy(codec, raw)) && ReferenceSurvives(codec.trim, Legacy(codec, raw))
  {
    TargetIsSchema2(codec, raw);
    CheckpointReadsBack(codec, raw);
    RollbackChecksPass(codec.trim, Legacy(codec, raw));
  }

  lemma ReplaceEffect(d: Disk, stamp: Stamp, data: Bytes, fault: Fault)
    ensures var (after, outcome) := Replace(d, stamp, data, fault);
            && after.checkpoint == d.checkpoint && (after.file == d.file || after.file == Some(data))
            && (outcome == Done ==> after.file == Some(data))
            && (fault.NoFault? && stamp !in d.temps ==> outcome == Done && after.temps == d.temps)
  {}

  lemma StepKeepsSafe(codec: Codec, raw: Bytes, d: Disk, e: Event)
    requires IsLegacy(codec, raw) && IsCodecFor(codec, raw) && Safe(codec, raw, d)
    ensures Safe(codec, raw, Step(codec, d, e))
  {
    var whole := CheckpointBytes(codec, raw);
    assert whole == Cut(whole, |whole|);
    if d.file == Some(raw) {
      RollbackLeavesLegacyAlone(codec, d);
      PlanForLegacy(codec, raw, d);
      if e.Migration? && d.checkpoint.None? {
        ReplaceEffect(d.(checkpoint := Some(whole)), e.stamp, TargetOf(codec, raw), e.fault);
      }
    } else {
      PlanForTarget(codec, raw, d);
      ReplaceEffect(d, e.stamp, raw, e.fault);
    }
  }

  /**
   After any migrations and rollbacks, each interrupted anywhere or not at all, the
   profile file is byte for byte the original or its migration, and it is the
   migration only while a complete checkpoint of the original stands beside it.
   */
  lemma {:induction false} RunKeepsSafe(codec: Codec, raw: Bytes, d: Disk, es: seq<Event>)
    requires IsLegacy(codec, raw) && IsCodecFor(codec, raw) && Safe(codec, raw, d)
    ensures Safe(codec, raw, Run(codec, d, es))
    decreases |es|
  {
    if es != [] {
      StepKeepsSafe(codec, raw, d, es[0]);
      RunKeepsSafe(codec, raw, Step(codec, d, es[0]), es[1..]);
    }
  }

  /**
   An uninterrupted migration of the original succeeds exactly when no checkpoint
   exists; a second one then keeps the file.
   */
  lemma MigrationSucceedsExactlyWhen(codec: Codec, raw: Bytes, d: Disk, stamp: Stamp)
    requires IsLegacy(codec, raw) && d.file == Some(raw) && stamp !in d.temps
    ensures var (after, outcome) := MigrateFile(codec, d, stamp, NoFault);
            && (outcome == Done <==> d.checkpoint.None?)
            && (outcome == Done ==> after.file == Some(TargetOf(codec, raw)) && after.checkpoint == Some(CheckpointBytes(codec, raw)))
            && (outcome != Done ==> after == d && outcome == Refused(CheckpointExists))
  {
    PlanForLegacy(codec, raw, d);
  }

  /**
   Wherever a run has ended with the migrated file in place, an uninterrupted rollback
   restores the exact original bytes when the authority fields are plain values and
   the credential reference survives printing, and otherwise changes nothing.
   */
  lemma RollbackRestoresExactlyWhen(codec: Codec, raw: Bytes, d: Disk, es: seq<Event>, stamp: Stamp)
    requires IsLegacy(codec, raw) && IsCodecFor(codec, raw) && Safe(codec, raw, d)
    requires Run(codec, d, es).file == Some(TargetOf(codec, raw)) && stamp !in Run(codec, d, es).temps
    ensures var (after, outcome) := RollbackFile(codec, Run(codec, d, es), stamp, NoFault);
            && (outcome == Done <==> PlainAuthority(Legacy(codec, raw)) && ReferenceSurvives(codec.trim, Legacy(codec, raw)))
            && after.file == Some(if outcome == Done then raw else TargetOf(codec, raw))
  {
    RunKeepsSafe(codec, raw, d, es);
    TargetIsSchema2(codec, raw);
    PlanForTarget(codec, raw, Run(codec, d, es));
    ReplaceEffect(Run(codec, d, es), stamp, raw, NoFault);
  }

  lemma {:induction false} CheckpointStays(codec: Codec, raw: Bytes, d: Disk, es: seq<Event>)
    requires IsLegacy(codec, raw) && IsCodecFor(codec, raw) && Safe(codec, raw, d) && d.checkpoint.Some?
    ensures Run(codec, d, es).checkpoint == d.checkpoint
    decreases |es|
  {
    if es != [] {
      StepKeepsSafe(codec, raw, d, es[0]);
      StepKeepsCheckpoint(codec, raw, d, es[0]);
      CheckpointStays(codec, raw, Step(codec, d, es[0]), es[1..]);
    }
  }

  lemma StepKeepsCheckpoint(codec: Codec, raw: Bytes, d: Disk, e: Event)
    requires IsLegacy(codec, raw) && IsCodecFor(codec, raw) && Safe(codec, raw, d) && d.checkpoint.Some?
    ensures Step(codec, d, e).checkpoint == d.checkpoint
  {
    if d.file == Some(raw) {
      RollbackLeavesLegacyAlone(codec, d);
      PlanForLegacy(codec, raw, d);
    } else {
      PlanForTarget(codec, raw, d);
      ReplaceEffect(d, e.stamp, raw, e.fault);
    }
  }

  /**
   The checkpoint is never removed. So a migration that was interrupted after it began
   its checkpoint, and one that was rolled back, cannot be repeated: whenever the file
   is the original again, migration is refused.
   */
  lemma MigrationIsOneShot(codec: Codec, raw: Bytes, d: Disk, es: seq<Event>, stamp: Stamp, fault: Fault)
    requires IsLegacy(codec, raw) && IsCodecFor(codec, raw) && Safe(codec, raw, d) && d.checkpoint.Some?
    requires Run(codec, d, es).file == Some(raw)
    ensures MigrateFile(codec, Run(codec, d, es), stamp, fault) == (Run(codec, d, es), Refused(CheckpointExists))
  {
    CheckpointStays(codec, raw, d, es);
    PlanForLegacy(codec, raw, Run(codec, d, es));
  }

  /**
   With any file and any checkpoint, forged ones included: when hashes do not collide, a
   rollback puts back only bytes whose own migration is the present file.
   */
  lemma RollbackInvertsMigration(codec: Codec, d: Disk)
    requires forall a, b :: codec.hash(a) == codec.hash(b) ==> a == b
    requires RollbackPlan(codec, d).Ok?
    ensures var original := RollbackPlan(codec, d).value;
            IsLegacy(codec, original) && d.file == Some(TargetOf(codec, original))
  {}

  /**
   A schema-2 file is kept exactly when it is valid and, if there is a checkpoint, that is in order
   and names this very file; a file that drifted from its checkpoint is refused.
   */
  lemma MigratedFileIsKeptExactlyWhen(codec: Codec, d: Disk, p: ByokProfile.Profile)
    requires d.file.Some? && codec.parse(d.file.value) == Some(p) && p.schema == Number(2)
    ensures MigrationPlan(codec, d) == Ok(Keep) <==>
            && Validate(codec.trim, p).Ok?
            && (d.checkpoint.Some? ==>
                  && CheckpointFrom(codec, d.checkpoint.value).Ok?
                  && CheckpointFrom(codec, d.checkpoint.value).value.0.migratedSha256 == Text(codec.hash(d.file.value)))
    ensures !(MigrationPlan(codec, d).Ok? && MigrationPlan(codec, d).value.Write?)
  {}

  /** A run that ends, or whose call fails, leaves no temporary file of its own; a crash may leave one. */
  lemma OnlyCrashesLeaveFiles(d: Disk, stamp: Stamp, data: Bytes, fault: Fault)
    requires stamp !in d.temps
    ensures !fault.Crash? ==> Replace(d, stamp, data, fault).0.temps == d.temps
    ensures fault.Crash? && fault.point == InTemp ==> Replace(d, stamp, data, fault).0.temps == d.temps[stamp := Cut(data, fault.cut)]
    ensures fault.Crash? && fault.point == BeforeRename ==> Replace(d, stamp, data, fault).0.temps == d.temps[stamp := data]
    ensures forall x | x != stamp :: x in Replace(d, stamp, data, fault).0.temps <==> x in d.temps
  {}

  // ---- The files themselves ---------------------------------------------------------------------

  /** The profile, its checkpoint and the temporary files beside it. */
  class ProfileFiles {
    var file: Option<Bytes>
    var checkpoint: Option<Bytes>
    var temps: map<Stamp, Bytes>

    ghost function View(): Disk
      reads this
    {
      Disk(file, checkpoint, temps)
    }

    /** Opens with `wx`: fails if the file exists, and keeps what was written before an interruption. */
    method WriteTemp(stamp: Stamp, data: Bytes, fault: Fault) returns (outcome: Outcome)
      modifies this`temps
      ensures outcome == if stamp in old(temps) then Refused(TempExists) else if At(fault, InTemp) then Interrupted else Done
      ensures temps == match outcome
                       case Done => old(temps)[stamp := data]
                       case Interrupted => old(temps)[stamp := Cut(data, fault.cut)]
                       case Refused(_) => old(temps)
    {
      if stamp in temps { return Refused(TempExists); }
      if At(fault, InTemp) {
        temps := temps[stamp := Cut(data, fault.cut)];
        return Interrupted;
      }
      temps := temps[stamp := data];
      return Done;
    }

    method RemoveTemp(stamp: Stamp, fault: Fault)
      modifies this`temps
      ensures temps == if fault.Crash? then old(temps) else old(temps) - {stamp}
    {
      if !fault.Crash? { temps := temps - {stamp}; }
    }

    method ReplaceProfile(stamp: Stamp, data: Bytes, fault: Fault) returns (outcome: Outcome)
      modifies this
      ensures (View(), outcome) == Replace(old(View()), stamp, data, fault)
    {
      if At(fault, BeforeTemp) {
        RemoveTemp(stamp, fault);
        return Interrupted;
      }
      outcome := WriteTemp(stamp, data, fault);
      if outcome != Done {
        RemoveTemp(stamp, if outcome == Interrupted then fault else NoFault);
        return outcome;
      }
      if At(fault, BeforeRename) {
        RemoveTemp(stamp, fault);
        return Interrupted;
      }
      file, temps := Some(temps[stamp]), temps - {stamp};
      assert temps == old(temps);
      return if At(fault, AfterRename) then Interrupted else Done;
    }

    method MigrateProfile(codec: Codec, stamp: Stamp, fault: Fault) returns (outcome: Outcome)
      modifies this
      ensures (View(), outcome) == MigrateFile(codec, old(View()), stamp, fault)
    {
      if file.None? { return Refused(Missing); }
      var raw := file.value;
      var parsed := codec.parse(raw);
      if parsed.None? { return Refused(SourceJson); }
      if parsed.value.schema == Number(2) {
        var valid := Validate(codec.trim, parsed.value);
        if valid.Err? { return Refused(Failure.Profile(valid.error)); }
        if checkpoint.Some? {
          var cp := CheckpointFrom(codec, checkpoint.value);
          if cp.Err? { return Refused(cp.error); }
          if Text(codec.hash(raw)) != cp.value.0.migratedSha256 { return Refused(MigratedDrift); }
        }
        return Done;
      }
      if parsed.value.schema != Number(1) { return Refused(SourceSchema); }
      var migrated := Migrate(codec.trim, parsed.value);
      if migrated.Err? { return Refused(Failure.Profile(migrated.error)); }
      if !AuthoritySame(parsed.value, migrated.value, true) { return Refused(AuthorityDrift); }
      if checkpoint.Some? { return Refused(CheckpointExists); }
      var target := Target(codec, migrated.value);
      var bytes := codec.printCheckpoint(CheckpointOf(codec, raw, target));
      if At(fault, BeforeCheckpoint) { return Interrupted; }
      if At(fault, InCheckpoint) {
        checkpoint := Some(Cut(bytes, fault.cut));
        return Interrupted;
      }
      checkpoint := Some(bytes);
      outcome := ReplaceProfile(stamp, target, fault);
    }

    method RollbackProfile(codec: Codec, stamp: Stamp, fault: Fault) returns (outcome: Outcome)
      modifies this
      ensures (View(), outcome) == RollbackFile(codec, old(View()), stamp, fault)
    {
      if file.None? || checkpoint.None? { return Refused(Missing); }
      var read := CheckpointFrom(codec, checkpoint.value);
      if read.Err? { return Refused(read.error); }
      var (cp, original, legacy) := read.value;
      if Text(codec.hash(file.value)) != cp.migratedSha256 { return Refused(RollbackDrift); }
      var migrated := codec.parse(file.value);
      if migrated.None? { return Refused(TargetJson); }
      var valid := Validate(codec.trim, migrated.value);
      if valid.Err? { return Refused(Failure.Profile(valid.error)); }
      if !AuthoritySame(legacy, migrated.value, false) { return Refused(AuthorityDrift); }
      outcome := ReplaceProfile(stamp, original, fault);
    }
  }
}

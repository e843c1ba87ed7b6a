/** A restart through the file: what was written out is what the new process starts from. */
module FileRestart {
  import opened Domain
  import opened ClassifierState
  import opened ClassifierInvariant
  import opened ClassifierSteps
  import opened Restart
  import opened RestartSafety
  import opened StartConditions
  import opened Records
  import opened SnapshotBody
  import opened Snapshot
  import opened Wire

  /**
   * The file is refused, because some record is beyond the reader's bounds; or it is read as
   * the image that was written, and a process starts from it exactly when its counters and
   * tables allow, soundly and with nothing durable moved back.
   */
  ghost predicate Recovers(o: Oracles, l: SnapshotLimits, before: State, s: StateSnapshot, read: Result<StateSnapshot>,
                           policy: ClassifierPolicy, boot: nat, tick: Tick)
  {
    match read
    case Err(_) => !Acceptable(o, l, s)
    case Ok(image) =>
      && image == s
      && Acceptable(o, l, s)
      && var (t, r) := Start(o, policy, image.state, boot, tick);
         && (r.Ok? <==> Startable(before, policy, boot))
         && (r.Ok? ==> Inv(o, t) && RestartedFrom(before, t))
  }

  /** What happens to any sound state that is written out, read back and started from. */
  lemma RestartThroughFile(o: Oracles, l: SnapshotLimits, before: State, s: StateSnapshot, file: Bytes,
                           policy: ClassifierPolicy, boot: nat, tick: Tick)
    requires DistinctIdentities(o) && Inv(o, before) && ImageOf(before, s.state)
    requires InRange(s) && BodyInRange(o, s.state) && EncodeSnapshot(l, s) == Ok(file)
    ensures Recovers(o, l, before, s, DecodeSnapshot(o, l, file), policy, boot, tick)
  {
    hide Inv, DistinctIdentities, ImageOf, InRange, BodyInRange, EncodeSnapshot, DecodeSnapshot, Acceptable, Start,
         Startable, RestartedFrom;
    SnapshotRoundTrip(o, l, s, file);
    StartsExactlyWhen(o, before, policy, s.state, boot, tick);
    if Start(o, policy, s.state, boot, tick).1.Ok? {
      RestartIsSafe(o, before, policy, s.state, boot, tick);
    }
  }

  /** A recorded decision that cites more records than a collection may hold makes the file unreadable. */
  lemma WideDecisionIsRefused(o: Oracles, l: SnapshotLimits, s: StateSnapshot, file: Bytes, c: Classification)
    requires InRange(s) && BodyInRange(o, s.state) && EncodeSnapshot(l, s) == Ok(file)
    requires c in s.state.classifications && |c.citations| > l.codec.maxCollection
    ensures DecodeSnapshot(o, l, file).Err?
  {
    hide InRange, BodyInRange, EncodeSnapshot, DecodeSnapshot, PolicyFits, PublisherFits, WorkloadFits, ContractFits, FlowFits,
         EvidenceFits, RevocationFits, SupersessionFits;
    SnapshotRoundTrip(o, l, s, file);
    assert !ClassificationFits(l.codec, c);
  }
}

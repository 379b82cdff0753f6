/** Sessions (src/session.rs): a wrapper around a group that remembers at
    most one commit of its own waiting to be confirmed. `commit` refuses to
    start a second one, an incoming commit from someone else discards it,
    applying it consumes it, and it can be cleared by hand. The group is
    opaque; each of its operations is a parameter that yields the group's next
    state together with its result. */
module Sessions {
  import opened Wrappers
  import opened Tls

  // Types defined in files that are not part of this model.
  type Group(==)
  type SecretKey
  type Proposal
  type CommitGeneration
  type Welcome
  type MLSMessage
  type GroupError
  type StateUpdate
  type RatchetTree
  type OtherProcessedMessage
  type OtherWireFormat

  /** The wire formats a session chooses between; the others are not named here. */
  datatype WireFormat = Plain | Cipher | Other(other: OtherWireFormat)

  datatype SessionError =
    | ProtocolError(group: GroupError)
    | Serialization(codec: CodecError)
    | ExistingPendingCommit
    | PendingCommitNotFound
    | PendingCommitMismatch

  datatype SessionOpts = SessionOpts(encrypt_controls: bool) {
    /** `SessionOpts::wire_format`: encrypted control messages go out as
        ciphertexts, the others as plaintexts. */
    function WireFormat(): (f: WireFormat)
      ensures f == Cipher <==> encrypt_controls
      ensures f == Plain <==> !encrypt_controls
    {
      if encrypt_controls then Cipher else Plain
    }
  }

  datatype PendingCommit = PendingCommit(packet_data: Bytes, commit: CommitGeneration)

  datatype CommitResult = CommitResult(commit_packet: Bytes, welcome_packet: Option<Bytes>)

  /** Only whether an incoming message was a commit matters to the session. */
  datatype ProcessedMessage = Commit(update: StateUpdate) | Other(other: OtherProcessedMessage)

  /** The group operations a session calls. */
  datatype GroupApi = GroupApi(
    commit_proposals: (Group, seq<Proposal>, bool, SecretKey, WireFormat)
                      -> (Group, Result<(CommitGeneration, Option<Welcome>), GroupError>),
    serialize_commit: CommitGeneration -> Result<Bytes, CodecError>,
    serialize_welcome: Welcome -> Result<Bytes, CodecError>,
    process_incoming_message: (Group, MLSMessage) -> (Group, Result<ProcessedMessage, GroupError>),
    process_pending_commit: (Group, CommitGeneration) -> (Group, Result<StateUpdate, GroupError>),
    public_tree: Group -> Result<RatchetTree, GroupError>,
    leaf_count: RatchetTree -> uint32)

  /** The session's state after an operation, and what the operation returned. */
  datatype Step<T> = Step(protocol: Group, pending_commit: Option<PendingCommit>, result: Result<T, SessionError>)

  // ---------------------------------------------------------------------------
  // The operations as functions of the session's state

  /** `Session::commit`. */
  function CommitStep(api: GroupApi, protocol: Group, pending: Option<PendingCommit>, signing_key: SecretKey,
                      opts: SessionOpts, proposals: seq<Proposal>): Step<CommitResult>
  {
    if pending.Some? then Step(protocol, pending, Err(ExistingPendingCommit))
    else
      var (group, generated) := api.commit_proposals(protocol, proposals, true, signing_key, opts.WireFormat());
      match generated
      case Err(e) => Step(group, pending, Err(ProtocolError(e)))
      case Ok((commit_data, welcome)) =>
        match api.serialize_commit(commit_data)
        case Err(e) => Step(group, pending, Err(Serialization(e)))
        case Ok(packet) =>
          var stored := Some(PendingCommit(packet, commit_data));
          match welcome
          case None => Step(group, stored, Ok(CommitResult(packet, None)))
          case Some(w) =>
            match api.serialize_welcome(w)
            case Err(e) => Step(group, stored, Err(Serialization(e)))
            case Ok(welcome_packet) => Step(group, stored, Ok(CommitResult(packet, Some(welcome_packet))))
  }

  /** `Session::process_incoming_message`. */
  function ProcessIncomingStep(api: GroupApi, protocol: Group, pending: Option<PendingCommit>, message: MLSMessage)
    : Step<ProcessedMessage>
  {
    var (group, processed) := api.process_incoming_message(protocol, message);
    match processed
    case Err(e) => Step(group, pending, Err(ProtocolError(e)))
    case Ok(m) => Step(group, if m.Commit? then None else pending, Ok(m))
  }

  /** `Session::apply_pending_commit`. */
  function ApplyPendingStep(api: GroupApi, protocol: Group, pending: Option<PendingCommit>): Step<StateUpdate> {
    match pending
    case None => Step(protocol, None, Err(PendingCommitNotFound))
    case Some(p) =>
      var (group, applied) := api.process_pending_commit(protocol, p.commit);
      match applied
      case Err(e) => Step(group, None, Err(ProtocolError(e)))
      case Ok(update) => Step(group, None, Ok(update))
  }

  // ---------------------------------------------------------------------------
  // What the pending-commit slot promises

  /** While a commit is pending, `commit` fails and changes nothing. */
  lemma CommitRefusedWhilePending(api: GroupApi, protocol: Group, pending: Option<PendingCommit>,
                                  signing_key: SecretKey, opts: SessionOpts, proposals: seq<Proposal>)
    requires pending.Some?
    ensures CommitStep(api, protocol, pending, signing_key, opts, proposals) == Step(protocol, pending, Err(ExistingPendingCommit))
  {
  }

  /** A successful commit leaves the packet it returned waiting as the pending commit. */
  lemma CommitSuccessStoresPacket(api: GroupApi, protocol: Group, pending: Option<PendingCommit>,
                                  signing_key: SecretKey, opts: SessionOpts, proposals: seq<Proposal>)
    ensures var s := CommitStep(api, protocol, pending, signing_key, opts, proposals);
      s.result.Ok? ==>
        pending.None? && s.pending_commit.Some? && s.pending_commit.value.packet_data == s.result.value.commit_packet
  {
  }

  /** From an empty slot, a commit is stored exactly when the group produced
      one and it serialized; the welcome is serialized only afterwards. */
  lemma CommitStoredIffSerialized(api: GroupApi, protocol: Group, signing_key: SecretKey,
                                  opts: SessionOpts, proposals: seq<Proposal>)
    ensures var s := CommitStep(api, protocol, None, signing_key, opts, proposals);
      var generated := api.commit_proposals(protocol, proposals, true, signing_key, opts.WireFormat()).1;
      s.pending_commit.Some? <==> generated.Ok? && api.serialize_commit(generated.value.0).Ok?
  {
  }

  /** A commit can fail and still leave a pending commit behind: exactly when
      the welcome message fails to serialize. */
  lemma CommitErrorWithPendingCommit(api: GroupApi, protocol: Group, signing_key: SecretKey,
                                     opts: SessionOpts, proposals: seq<Proposal>)
    ensures var s := CommitStep(api, protocol, None, signing_key, opts, proposals);
      var generated := api.commit_proposals(protocol, proposals, true, signing_key, opts.WireFormat()).1;
      (s.result.Err? && s.pending_commit.Some?) <==>
        generated.Ok? && api.serialize_commit(generated.value.0).Ok?
        && generated.value.1.Some? && api.serialize_welcome(generated.value.1.value).Err?
  {
  }

  /** After a successful commit, a second one is refused until the first is
      applied, cleared or overtaken. */
  lemma NoSecondCommit(api: GroupApi, protocol: Group, pending: Option<PendingCommit>, signing_key: SecretKey,
                       opts: SessionOpts, first: seq<Proposal>, second: seq<Proposal>)
    requires CommitStep(api, protocol, pending, signing_key, opts, first).result.Ok?
    ensures var s := CommitStep(api, protocol, pending, signing_key, opts, first);
      CommitStep(api, s.protocol, s.pending_commit, signing_key, opts, second).result == Err(ExistingPendingCommit)
  {
    CommitSuccessStoresPacket(api, protocol, pending, signing_key, opts, first);
  }

  /** A pending commit survives an incoming message unless that message was
      processed as a commit. */
  lemma IncomingCommitDiscardsPending(api: GroupApi, protocol: Group, pending: Option<PendingCommit>, message: MLSMessage)
    ensures var s := ProcessIncomingStep(api, protocol, pending, message);
      && (s.result.Ok? && s.result.value.Commit? ==> s.pending_commit.None?)
      && (!(s.result.Ok? && s.result.value.Commit?) ==> s.pending_commit == pending)
  {
  }

  /** Applying takes the pending commit out whether or not processing it
      succeeds, and fails with `PendingCommitNotFound` exactly when there was none. */
  lemma ApplyPendingEmptiesSlot(api: GroupApi, protocol: Group, pending: Option<PendingCommit>)
    ensures var s := ApplyPendingStep(api, protocol, pending);
      && s.pending_commit.None?
      && (s.result == Err(PendingCommitNotFound) <==> pending.None?)
      && (pending.None? ==> s.protocol == protocol)
  {
  }

  // ---------------------------------------------------------------------------
  // The session object

  class Session {
    const api: GroupApi
    var signing_key: SecretKey
    var protocol: Group
    var pending_commit: Option<PendingCommit>
    var opts: SessionOpts

    /** `Session::create` and `Session::join`, once the group exists: nothing is pending. */
    constructor (api: GroupApi, signing_key: SecretKey, protocol: Group, opts: SessionOpts)
      ensures this.api == api && this.signing_key == signing_key && this.protocol == protocol && this.opts == opts
      ensures pending_commit.None?
    {
      this.api := api;
      this.signing_key := signing_key;
      this.protocol := protocol;
      this.opts := opts;
      pending_commit := None;
    }

    /** `Session::participant_count`: the public tree's leaf count, or 0 when
        the group cannot produce its tree. */
    function ParticipantCount(): (n: uint32)
      reads this`protocol
      ensures api.public_tree(protocol).Err? ==> n == 0
      ensures api.public_tree(protocol).Ok? ==> n == api.leaf_count(api.public_tree(protocol).value)
    {
      match api.public_tree(protocol)
      case Ok(tree) => api.leaf_count(tree)
      case Err(_) => 0
    }

    /** `Session::has_equal_state`: only the groups are compared. */
    predicate HasEqualState(other: Session)
      reads this`protocol, other`protocol
    {
      protocol == other.protocol
    }

    method Commit(proposals: seq<Proposal>) returns (r: Result<CommitResult, SessionError>)
      modifies this`protocol, this`pending_commit
      ensures var s := CommitStep(api, old(protocol), old(pending_commit), signing_key, opts, proposals);
        protocol == s.protocol && pending_commit == s.pending_commit && r == s.result
    {
      if pending_commit.Some? {
        return Err(ExistingPendingCommit);
      }
      var (group, generated) := api.commit_proposals(protocol, proposals, true, signing_key, opts.WireFormat());
      protocol := group;
      if generated.Err? {
        return Err(ProtocolError(generated.error));
      }
      var (commit_data, welcome) := generated.value;
      var serialized_commit := api.serialize_commit(commit_data);
      if serialized_commit.Err? {
        return Err(Serialization(serialized_commit.error));
      }
      pending_commit := Some(PendingCommit(serialized_commit.value, commit_data));
      var welcome_packet: Option<Bytes> := None;
      if welcome.Some? {
        var serialized_welcome := api.serialize_welcome(welcome.value);
        if serialized_welcome.Err? {
          return Err(Serialization(serialized_welcome.error));
        }
        welcome_packet := Some(serialized_welcome.value);
      }
      r := Ok(CommitResult(serialized_commit.value, welcome_packet));
    }

    method ProcessIncomingMessage(message: MLSMessage) returns (r: Result<ProcessedMessage, SessionError>)
      modifies this`protocol, this`pending_commit
      ensures var s := ProcessIncomingStep(api, old(protocol), old(pending_commit), message);
        protocol == s.protocol && pending_commit == s.pending_commit && r == s.result
    {
      var (group, processed) := api.process_incoming_message(protocol, message);
      protocol := group;
      if processed.Err? {
        return Err(ProtocolError(processed.error));
      }
      if processed.value.Commit? {
        pending_commit := None;
      }
      r := Ok(processed.value);
    }

    method ApplyPendingCommit() returns (r: Result<StateUpdate, SessionError>)
      modifies this`protocol, this`pending_commit
      ensures var s := ApplyPendingStep(api, old(protocol), old(pending_commit));
        protocol == s.protocol && pending_commit == s.pending_commit && r == s.result
    {
      var pending := pending_commit;
      pending_commit := None;
      if pending.None? {
        return Err(PendingCommitNotFound);
      }
      var (group, applied) := api.process_pending_commit(protocol, pending.value.commit);
      protocol := group;
      if applied.Err? {
        return Err(ProtocolError(applied.error));
      }
      r := Ok(applied.value);
    }

    /** `Session::clear_pending_commit`. */
    method ClearPendingCommit()
      modifies this`pending_commit
      ensures pending_commit.None?
    {
      pending_commit := None;
    }
  }

  /** Equal state is an equivalence that ignores the signing key, the pending
      commit and the options. */
  lemma HasEqualStateOnlyGroups(a: Session, b: Session, c: Session)
    ensures a.HasEqualState(a)
    ensures a.HasEqualState(b) <==> b.HasEqualState(a)
    ensures a.HasEqualState(b) && b.HasEqualState(c) ==> a.HasEqualState(c)
    ensures a.HasEqualState(b) <==> a.protocol == b.protocol
  {
  }
}

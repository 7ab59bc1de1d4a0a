/**
 The matchmaking tables and the append-only tracking log, as values.
 */
module Tables {
  import opened Participants

  const UINT32: nat := 0x1_0000_0000
  const INT32_MAX: nat := 0x7fff_ffff

  datatype Option<+T> = None | Some(value: T)

  /** Result codes of the matchmaking handlers; `Crash` is an index panic, which sends no reply. */
  datatype Error =
    | InvalidArgument | Unknown | SessionVoid | SessionFull | AlreadyParticipated | NotParticipated
    | PermissionDenied | InvalidPassword | InvalidOperation | CreationMax | Crash

  datatype Result<+T> = Ok(value: T) | Err(error: Error)

  /** The `type` column. */
  datatype Kind = MatchmakeSession | PersistentGathering

  /** The bits of the `flags` column that the server tests. */
  datatype Flags = Flags(
    persistentGathering: bool,
    allowZeroUsers: bool,
    leaveParticipation: bool,
    disconnectChangeOwner: bool,
    participantsChangeOwner: bool)

  /** The gathering fields a client supplies when it registers one. */
  datatype Terms = Terms(minParticipants: nat, maxParticipants: nat, policy: nat, flags: Flags)

  /** A row of `matchmaking.gatherings`. PID 0 stands for nobody. */
  datatype Gathering = Gathering(
    kind: Kind,
    owner: Pid,
    host: Pid,
    terms: Terms,
    registered: bool,
    participants: seq<Pid>)

  /** A row of `matchmaking.matchmake_sessions`; key, buffer and param are left out. */
  datatype Session = Session(
    gameMode: nat,
    attribs: seq<nat>,
    openParticipation: bool,
    systemType: nat,
    progressScore: nat,
    referGid: nat,
    userPassword: string,
    userPasswordEnabled: bool,
    systemPassword: string,
    systemPasswordEnabled: bool,
    codeword: string)

  /** A row of one of the tracking tables, in the order the rows were written. */
  datatype Event =
    | Registered(source: Pid, gid: nat)
    | Joined(source: Pid, gid: nat, newcomers: seq<Pid>, total: seq<Pid>)
    | Left(source: Pid, gid: nat, total: seq<Pid>)
    | Disconnected(source: Pid, gid: nat, total: seq<Pid>)
    | Unregistered(source: Pid, gid: nat)
    | HostChanged(source: Pid, gid: nat, oldHost: Pid, newHost: Pid)
    | OwnerChanged(source: Pid, gid: nat, oldOwner: Pid, newOwner: Pid)
    | Participated(source: Pid, community: nat, gid: nat, count: nat)

  /** Everything the handlers read and write. */
  datatype Store = Store(
    gatherings: map<nat, Gathering>,
    sessions: map<nat, Session>,
    communities: set<nat>,
    participations: map<(Pid, nat), nat>,
    nextId: nat,
    log: seq<Event>)

  const EMPTY := Store(map[], map[], {}, map[], 1, [])

  predicate Live(s: Store, gid: nat)
  {
    gid in s.gatherings && s.gatherings[gid].registered
  }
}

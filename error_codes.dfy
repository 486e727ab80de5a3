/**
 * The table of src/constants/error-codes.ts: numeric error codes returned by the
 * savings-group contract, decoded into a named error, a short message, a user-facing
 * message template and a recovery action.
 */
module ErrorCodes {
  import opened Wrappers
  import opened Text

  /** The `action` strings of the table. */
  datatype RecoveryAction =
    ContactCreator
    | Wait
    | CheckBalance
    | AddFunds
    | Retry
    | FindAnotherGroup
    | BrowseGroups
    | ViewGroup
    | JoinGroup
    | ViewContribution
    | WaitEnrollment
    | NoAction
    | ViewHistory
    | ViewVote
    | WaitResults
  {
    function Name(): string {
      match this
      case ContactCreator => "contact_creator"
      case Wait => "wait"
      case CheckBalance => "check_balance"
      case AddFunds => "add_funds"
      case Retry => "retry"
      case FindAnotherGroup => "find_another_group"
      case BrowseGroups => "browse_groups"
      case ViewGroup => "view_group"
      case JoinGroup => "join_group"
      case ViewContribution => "view_contribution"
      case WaitEnrollment => "wait_enrollment"
      case NoAction => "none"
      case ViewHistory => "view_history"
      case ViewVote => "view_vote"
      case WaitResults => "wait_results"
    }
  }

  /** A piece of a user message: fixed text, or a `{name}` placeholder the caller fills in. */
  datatype Segment = Literal(text: string) | Placeholder(name: string)

  /** The message as written in the table, placeholders spelled `{name}`. */
  function Template(segments: seq<Segment>): string {
    if segments == [] then ""
    else
      (match segments[0]
       case Literal(t) => t
       case Placeholder(p) => "{" + p + "}") + Template(segments[1..])
  }

  /** The placeholder names of a message, in order. */
  function Placeholders(segments: seq<Segment>): seq<string> {
    if segments == [] then []
    else (if segments[0].Placeholder? then [segments[0].name] else []) + Placeholders(segments[1..])
  }

  /** One constructor per entry of the table. */
  datatype ErrorName =
    ErrAuth
    | ErrNotYourTurn
    | ErrTransferFailed
    | ErrNoBalance
    | ErrEmptyName
    | ErrMaxMembers
    | ErrGroupNotFound
    | ErrAlreadyMember
    | ErrNotMember
    | ErrAlreadyPaid
    | ErrNotTimeYet
    | ErrGracePeriodEnded
    | ErrInsufficientContributions
    | ErrInvalidPayoutPosition
    | ErrAlreadyReceivedPayout
    | ErrGroupCompleted
    | ErrInvalidMode
    | ErrModeChangePending
    | ErrAlreadyVoted
    | ErrNotAllCyclesComplete
    | ErrWithdrawalNotAvailable
    | ErrAlreadyWithdrawn
    | ErrCycleInProgress
    | ErrEnrollmentClosed
    | ErrInvalidGroupType
    | ErrGroupNotPublic
  {
    /** The entry's `code` string. */
    function Code(): string {
      match this
      case ErrAuth => "ERR_AUTH"
      case ErrNotYourTurn => "ERR_NOT_YOUR_TURN"
      case ErrTransferFailed => "ERR_TRANSFER_FAILED"
      case ErrNoBalance => "ERR_NO_BALANCE"
      case ErrEmptyName => "ERR_EMPTY_NAME"
      case ErrMaxMembers => "ERR_MAX_MEMBERS"
      case ErrGroupNotFound => "ERR_GROUP_NOT_FOUND"
      case ErrAlreadyMember => "ERR_ALREADY_MEMBER"
      case ErrNotMember => "ERR_NOT_MEMBER"
      case ErrAlreadyPaid => "ERR_ALREADY_PAID"
      case ErrNotTimeYet => "ERR_NOT_TIME_YET"
      case ErrGracePeriodEnded => "ERR_GRACE_PERIOD_ENDED"
      case ErrInsufficientContributions => "ERR_INSUFFICIENT_CONTRIBUTIONS"
      case ErrInvalidPayoutPosition => "ERR_INVALID_PAYOUT_POSITION"
      case ErrAlreadyReceivedPayout => "ERR_ALREADY_RECEIVED_PAYOUT"
      case ErrGroupCompleted => "ERR_GROUP_COMPLETED"
      case ErrInvalidMode => "ERR_INVALID_MODE"
      case ErrModeChangePending => "ERR_MODE_CHANGE_PENDING"
      case ErrAlreadyVoted => "ERR_ALREADY_VOTED"
      case ErrNotAllCyclesComplete => "ERR_NOT_ALL_CYCLES_COMPLETE"
      case ErrWithdrawalNotAvailable => "ERR_WITHDRAWAL_NOT_AVAILABLE"
      case ErrAlreadyWithdrawn => "ERR_ALREADY_WITHDRAWN"
      case ErrCycleInProgress => "ERR_CYCLE_IN_PROGRESS"
      case ErrEnrollmentClosed => "ERR_ENROLLMENT_CLOSED"
      case ErrInvalidGroupType => "ERR_INVALID_GROUP_TYPE"
      case ErrGroupNotPublic => "ERR_GROUP_NOT_PUBLIC"
    }

    /** The entry's short `message`. */
    function Message(): string {
      match this
      case ErrAuth => "Unauthorized"
      case ErrNotYourTurn => "Not your turn"
      case ErrTransferFailed => "Transfer failed"
      case ErrNoBalance => "Insufficient balance"
      case ErrEmptyName => "Empty name"
      case ErrMaxMembers => "Max members reached"
      case ErrGroupNotFound => "Group not found"
      case ErrAlreadyMember => "Already a member"
      case ErrNotMember => "Not a member"
      case ErrAlreadyPaid => "Already paid"
      case ErrNotTimeYet => "Not time yet"
      case ErrGracePeriodEnded => "Grace period ended"
      case ErrInsufficientContributions => "Insufficient contributions"
      case ErrInvalidPayoutPosition => "Invalid payout position"
      case ErrAlreadyReceivedPayout => "Already received payout"
      case ErrGroupCompleted => "Group completed"
      case ErrInvalidMode => "Invalid mode"
      case ErrModeChangePending => "Mode change pending"
      case ErrAlreadyVoted => "Already voted"
      case ErrNotAllCyclesComplete => "Cycles not complete"
      case ErrWithdrawalNotAvailable => "Withdrawal not available"
      case ErrAlreadyWithdrawn => "Already withdrawn"
      case ErrCycleInProgress => "Cycle in progress"
      case ErrEnrollmentClosed => "Enrollment closed"
      case ErrInvalidGroupType => "Invalid group type"
      case ErrGroupNotPublic => "Group not public"
    }

    /** The entry's `userMessage`, as a template. */
    function UserMessage(): seq<Segment> {
      UserMessages[Number() - FirstCode]
    }

    /** The entry's recovery `action`. */
    function Action(): RecoveryAction {
      match this
      case ErrAuth => ContactCreator
      case ErrNotYourTurn => Wait
      case ErrTransferFailed => CheckBalance
      case ErrNoBalance => AddFunds
      case ErrEmptyName => Retry
      case ErrMaxMembers => FindAnotherGroup
      case ErrGroupNotFound => BrowseGroups
      case ErrAlreadyMember => ViewGroup
      case ErrNotMember => JoinGroup
      case ErrAlreadyPaid => ViewContribution
      case ErrNotTimeYet => WaitEnrollment
      case ErrGracePeriodEnded => ContactCreator
      case ErrInsufficientContributions => Wait
      case ErrInvalidPayoutPosition => ContactCreator
      case ErrAlreadyReceivedPayout => NoAction
      case ErrGroupCompleted => ViewHistory
      case ErrInvalidMode => Retry
      case ErrModeChangePending => ViewVote
      case ErrAlreadyVoted => WaitResults
      case ErrNotAllCyclesComplete => Wait
      case ErrWithdrawalNotAvailable => Wait
      case ErrAlreadyWithdrawn => NoAction
      case ErrCycleInProgress => Wait
      case ErrEnrollmentClosed => FindAnotherGroup
      case ErrInvalidGroupType => NoAction
      case ErrGroupNotPublic => ContactCreator
    }

    /** The numeric contract code the entry is filed under. */
    function Number(): int {
      match this
      case ErrAuth => 300
      case ErrNotYourTurn => 301
      case ErrTransferFailed => 302
      case ErrNoBalance => 303
      case ErrEmptyName => 304
      case ErrMaxMembers => 305
      case ErrGroupNotFound => 306
      case ErrAlreadyMember => 307
      case ErrNotMember => 308
      case ErrAlreadyPaid => 309
      case ErrNotTimeYet => 310
      case ErrGracePeriodEnded => 311
      case ErrInsufficientContributions => 312
      case ErrInvalidPayoutPosition => 313
      case ErrAlreadyReceivedPayout => 314
      case ErrGroupCompleted => 315
      case ErrInvalidMode => 316
      case ErrModeChangePending => 317
      case ErrAlreadyVoted => 318
      case ErrNotAllCyclesComplete => 319
      case ErrWithdrawalNotAvailable => 320
      case ErrAlreadyWithdrawn => 321
      case ErrCycleInProgress => 322
      case ErrEnrollmentClosed => 323
      case ErrInvalidGroupType => 324
      case ErrGroupNotPublic => 325
    }
  }

  /** The `userMessage` column of the table, in code order from `FirstCode`. */
  const UserMessages: seq<seq<Segment>> := [
    [Literal("You don't have permission to perform this action. Only the group creator can do this.")],
    [Literal("It's not your turn yet. You're in position "), Placeholder("position"), Literal(", currently on cycle "), Placeholder("currentCycle"), Literal(".")],
    [Literal("The STX transfer failed. Please check your wallet balance and try again.")],
    [Literal("You don't have enough STX to complete this transaction.")],
    [Literal("Please provide a name for the group or member.")],
    [Literal("This group is full. Maximum "), Placeholder("maxMembers"), Literal(" members allowed.")],
    [Literal("This group doesn't exist or has been deleted.")],
    [Literal("You're already a member of this group!")],
    [Literal("You need to join this group first before you can perform this action.")],
    [Literal("You've already deposited for this cycle.")],
    [Literal("The cycle hasn't started yet. Please wait for the enrollment period to close.")],
    [Literal("The grace period for this cycle has ended. You missed the deposit window.")],
    [Literal("Not enough contributions in the pool yet. Wait for more members to deposit.")],
    [Literal("The assigned payout position is invalid. It must be between 1 and "), Placeholder("maxMembers"), Literal(".")],
    [Literal("You've already received your payout for this group.")],
    [Literal("This group has completed all its cycles.")],
    [Literal("The selected group mode is invalid. Choose from ROSCA, Collective Savings, or Interest-Bearing.")],
    [Literal("There's already a mode change vote in progress. Wait for it to complete.")],
    [Literal("You've already voted on this mode change proposal.")],
    [Literal("All "), Placeholder("maxCycles"), Literal(" cycles must complete before the withdrawal window opens.")],
    [Literal("The withdrawal window is not open yet. Wait for all cycles to complete.")],
    [Literal("You've already withdrawn your savings from this group.")],
    [Literal("Cannot make this change while a cycle is in progress. Wait for it to complete.")],
    [Literal("This group's enrollment period has ended. You can't join anymore.")],
    [Literal("This operation is not allowed for this type of group (public vs private).")],
    [Literal("This is a private group. You need an invitation from the creator to join.")]
  ]

  datatype ErrorEntry = ErrorEntry(code: string, message: string, userMessage: seq<Segment>, action: RecoveryAction)

  function Entry(name: ErrorName): ErrorEntry {
    ErrorEntry(name.Code(), name.Message(), name.UserMessage(), name.Action())
  }

  const FirstCode := 300
  const LastCode := 325

  /** Which entry of the table a numeric contract code selects, if any. */
  function DecodeName(n: int): (r: Option<ErrorName>)
    ensures r.Some? <==> FirstCode <= n <= LastCode
    ensures r.Some? ==> r.value.Number() == n
  {
    if n <= 312 then DecodeLow(n) else DecodeHigh(n)
  }

  /** The first half of the table, codes 300 to 312. */
  function DecodeLow(n: int): (r: Option<ErrorName>)
    ensures r.Some? <==> 300 <= n <= 312
    ensures r.Some? ==> r.value.Number() == n
  {
    match n
    case 300 => Some(ErrAuth)
    case 301 => Some(ErrNotYourTurn)
    case 302 => Some(ErrTransferFailed)
    case 303 => Some(ErrNoBalance)
    case 304 => Some(ErrEmptyName)
    case 305 => Some(ErrMaxMembers)
    case 306 => Some(ErrGroupNotFound)
    case 307 => Some(ErrAlreadyMember)
    case 308 => Some(ErrNotMember)
    case 309 => Some(ErrAlreadyPaid)
    case 310 => Some(ErrNotTimeYet)
    case 311 => Some(ErrGracePeriodEnded)
    case 312 => Some(ErrInsufficientContributions)
    case _ => None
  }

  /** The second half of the table, codes 313 to 325. */
  function DecodeHigh(n: int): (r: Option<ErrorName>)
    ensures r.Some? <==> 313 <= n <= 325
    ensures r.Some? ==> r.value.Number() == n
  {
    match n
    case 313 => Some(ErrInvalidPayoutPosition)
    case 314 => Some(ErrAlreadyReceivedPayout)
    case 315 => Some(ErrGroupCompleted)
    case 316 => Some(ErrInvalidMode)
    case 317 => Some(ErrModeChangePending)
    case 318 => Some(ErrAlreadyVoted)
    case 319 => Some(ErrNotAllCyclesComplete)
    case 320 => Some(ErrWithdrawalNotAvailable)
    case 321 => Some(ErrAlreadyWithdrawn)
    case 322 => Some(ErrCycleInProgress)
    case 323 => Some(ErrEnrollmentClosed)
    case 324 => Some(ErrInvalidGroupType)
    case 325 => Some(ErrGroupNotPublic)
    case _ => None
  }

  /** `ERROR_CODES[n]`: the entry for a contract error code, or nothing outside the table. */
  function Decode(n: int): (r: Option<ErrorEntry>)
    ensures r.Some? <==> FirstCode <= n <= LastCode
  {
    match DecodeName(n)
    case Some(name) => Some(Entry(name))
    case None => None
  }

  /**
   * Reads an error name back to its numeric code; the inverse of `Decode` on the table.
   * Names are told apart by length first, then by text.
   */
  function CodeOf(code: string): Option<int> {
    match |code|
    case 8 =>
      if code == "ERR_AUTH" then Some(300)
      else None
    case 14 =>
      if code == "ERR_NO_BALANCE" then Some(303)
      else if code == "ERR_EMPTY_NAME" then Some(304)
      else if code == "ERR_NOT_MEMBER" then Some(308)
      else None
    case 15 =>
      if code == "ERR_MAX_MEMBERS" then Some(305)
      else None
    case 16 =>
      if code == "ERR_ALREADY_PAID" then Some(309)
      else if code == "ERR_NOT_TIME_YET" then Some(310)
      else if code == "ERR_INVALID_MODE" then Some(316)
      else None
    case 17 =>
      if code == "ERR_NOT_YOUR_TURN" then Some(301)
      else if code == "ERR_ALREADY_VOTED" then Some(318)
      else None
    case 18 =>
      if code == "ERR_ALREADY_MEMBER" then Some(307)
      else None
    case 19 =>
      if code == "ERR_TRANSFER_FAILED" then Some(302)
      else if code == "ERR_GROUP_NOT_FOUND" then Some(306)
      else if code == "ERR_GROUP_COMPLETED" then Some(315)
      else None
    case 20 =>
      if code == "ERR_GROUP_NOT_PUBLIC" then Some(325)
      else None
    case 21 =>
      if code == "ERR_ALREADY_WITHDRAWN" then Some(321)
      else if code == "ERR_CYCLE_IN_PROGRESS" then Some(322)
      else if code == "ERR_ENROLLMENT_CLOSED" then Some(323)
      else None
    case 22 =>
      if code == "ERR_GRACE_PERIOD_ENDED" then Some(311)
      else if code == "ERR_INVALID_GROUP_TYPE" then Some(324)
      else None
    case 23 =>
      if code == "ERR_MODE_CHANGE_PENDING" then Some(317)
      else None
    case 27 =>
      if code == "ERR_INVALID_PAYOUT_POSITION" then Some(313)
      else if code == "ERR_ALREADY_RECEIVED_PAYOUT" then Some(314)
      else if code == "ERR_NOT_ALL_CYCLES_COMPLETE" then Some(319)
      else None
    case 28 =>
      if code == "ERR_WITHDRAWAL_NOT_AVAILABLE" then Some(320)
      else None
    case 30 =>
      if code == "ERR_INSUFFICIENT_CONTRIBUTIONS" then Some(312)
      else None
    case _ => None
  }

  /** Every entry is filed under a code of the table, and that code selects it again. */
  lemma NameRoundTrip(name: ErrorName)
    ensures FirstCode <= name.Number() <= LastCode
    ensures DecodeName(name.Number()) == Some(name)
  {
  }

  /** Each entry's `code` string reads back to the entry's number. */
  lemma CodeRoundTrip(name: ErrorName)
    ensures CodeOf(name.Code()) == Some(name.Number())
  {
    var n := name.Number();
    if n <= 306 {
      CodeRoundTripA(name);
    } else if n <= 312 {
      CodeRoundTripB(name);
    } else if n <= 318 {
      CodeRoundTripC(name);
    } else {
      CodeRoundTripD(name);
    }
  }

  /** The round trip for codes 300 to 306. */
  lemma CodeRoundTripA(name: ErrorName)
    requires 300 <= name.Number() <= 306
    ensures CodeOf(name.Code()) == Some(name.Number())
  {
  }

  /** The round trip for codes 307 to 312. */
  lemma CodeRoundTripB(name: ErrorName)
    requires 307 <= name.Number() <= 312
    ensures CodeOf(name.Code()) == Some(name.Number())
  {
  }

  /** The round trip for codes 313 to 318. */
  lemma CodeRoundTripC(name: ErrorName)
    requires 313 <= name.Number() <= 318
    ensures CodeOf(name.Code()) == Some(name.Number())
  {
  }

  /** The round trip for codes 319 to 325. */
  lemma CodeRoundTripD(name: ErrorName)
    requires 319 <= name.Number() <= 325
    ensures CodeOf(name.Code()) == Some(name.Number())
  {
  }

  /** Decoding is injective: two codes of the table with the same name are the same code. */
  lemma DecodeInjective(m: int, n: int)
    requires FirstCode <= m <= LastCode && FirstCode <= n <= LastCode
    requires Decode(m).value.code == Decode(n).value.code
    ensures m == n
  {
    CodeRoundTrip(DecodeName(m).value);
    CodeRoundTrip(DecodeName(n).value);
  }

  /** Every name in the table begins with `ERR_`. */
  lemma CodesArePrefixed(name: ErrorName)
    ensures StartsWith(name.Code(), "ERR_")
  {
  }

  /** The two entries the join and deposit flows surface most. */
  lemma KnownEntries()
    ensures Decode(305) == Some(ErrorEntry("ERR_MAX_MEMBERS", "Max members reached",
      [Literal("This group is full. Maximum "), Placeholder("maxMembers"), Literal(" members allowed.")],
      FindAnotherGroup))
    ensures Decode(309).value.code == "ERR_ALREADY_PAID" && Decode(309).value.action == ViewContribution
  {
  }

  /** The twenty-two messages without parameters, split in two halves of the table. */
  lemma NoPlaceholdersLow(n: int)
    requires FirstCode <= n <= 312 && n != 301 && n != 305
    ensures |UserMessages| == 26
    ensures Placeholders(UserMessages[n - FirstCode]) == []
  {
    assert UserMessages[n - FirstCode][1..] == [];
  }

  lemma NoPlaceholdersHigh(n: int)
    requires 313 < n <= LastCode && n != 319
    ensures |UserMessages| == 26
    ensures Placeholders(UserMessages[n - FirstCode]) == []
  {
    assert UserMessages[n - FirstCode][1..] == [];
  }

  /** The four messages with parameters, and the parameters they take. */
  lemma PlaceholdersLow()
    ensures |UserMessages| == 26
    ensures Placeholders(UserMessages[1]) == ["position", "currentCycle"]
    ensures Placeholders(UserMessages[5]) == ["maxMembers"]
  {
    assert UserMessages[1][1..][1..][1..][1..][1..] == [];
    assert UserMessages[5][1..][1..][1..] == [];
  }

  lemma PlaceholdersHigh()
    ensures |UserMessages| == 26
    ensures Placeholders(UserMessages[13]) == ["maxMembers"]
    ensures Placeholders(UserMessages[19]) == ["maxCycles"]
  {
    assert UserMessages[13][1..][1..][1..] == [];
    assert UserMessages[19][1..][1..][1..] == [];
  }

  /** Only the entries 301, 305, 313 and 319 take parameters. */
  lemma PlaceholderCodes(n: int)
    requires FirstCode <= n <= LastCode
    ensures Placeholders(Decode(n).value.userMessage) != [] <==> n in {301, 305, 313, 319}
  {
    if n <= 312 {
      if n == 301 || n == 305 { PlaceholdersLow(); } else { NoPlaceholdersLow(n); }
    } else if n == 313 || n == 319 {
      PlaceholdersHigh();
    } else {
      NoPlaceholdersHigh(n);
    }
  }
}

/** The display-side records of src/types/index.ts. */
module Types {
  import opened Wrappers

  /** `GroupStatus`: the five status tags the pages compare against. */
  datatype GroupStatus = Enrollment | Active | Completed | Paused | WithdrawalOpen {

    /** The tag as the pages spell it. */
    function Name(): string {
      match this
      case Enrollment => "enrollment"
      case Active => "active"
      case Completed => "completed"
      case Paused => "paused"
      case WithdrawalOpen => "withdrawal_open"
    }
  }

  /** Group modes as numbers: 1 ROSCA, 2 collective savings, 3 interest-bearing. */
  const ModeRosca := 1
  const ModeCollective := 2
  const ModeInterest := 3

  /** `Group`; amounts are integers in microSTX and durations in blocks. */
  datatype Group = Group(
    id: string,
    groupName: string,
    description: Option<string>,
    creator: string,
    depositAmount: int,
    currentMembers: int,
    maxMembers: int,
    cycleDuration: int,
    status: GroupStatus,
    isPublic: bool,
    mode: int,
    currentCycle: int,
    enrollmentEndBlock: int,
    createdAt: int,
    poolBalance: int)

  /** How a wallet contract call ends: its finish callback, its cancel callback, or a thrown error. */
  datatype CallOutcome = Finished | Cancelled | Threw
}

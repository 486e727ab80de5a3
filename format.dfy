/** The display helpers of src/utils/format.ts (all but the floating-point `formatSTX`). */
module Format {
  import opened Text
  import opened Types
  import opened Arith

  /** `formatAddress`: the first six characters, an ellipsis, the last four. */
  function FormatAddress(address: string): string {
    if address == "" then "" else SliceTo(address, 6) + "..." + SliceLast(address, 4)
  }

  /**
   * An empty address shows as nothing; any other shows a prefix of it, "...", then a suffix
   * of it, at most 13 characters in all.
   */
  lemma FormatAddressShape(address: string)
    ensures FormatAddress(address) == "" <==> address == ""
    ensures address != "" ==> var r := FormatAddress(address);
      var head := if |address| < 6 then |address| else 6;
      var tail := if |address| < 4 then |address| else 4;
      && |r| == head + 3 + tail
      && |r| <= 13
      && r[..head] == address[..head]
      && r[head..head + 3] == "..."
      && r[head + 3..] == address[|address| - tail..]
  {
  }

  /** Units `blocksToReadable` can choose. */
  datatype TimeUnit = Hours | Days | Weeks | Months {
    function Word(): string {
      match this
      case Hours => "hours"
      case Days => "days"
      case Weeks => "weeks"
      case Months => "months"
    }

    /** Blocks in one unit at 6 blocks an hour. */
    function Blocks(): int {
      match this
      case Hours => 6
      case Days => 144
      case Weeks => 1008
      case Months => 4320
    }
  }

  datatype Readable = Readable(count: int, unit: TimeUnit) {
    function Text(): string {
      IntToString(count) + " " + unit.Word()
    }
  }

  /**
   * The bucket `blocksToReadable` chooses. `/` on `int` with a positive divisor is floor
   * division, which is what `Math.floor(blocks / 144)` computes.
   */
  function ReadableDuration(blocks: int): Readable {
    var days := blocks / 144;
    if days == 0 then Readable(blocks / 6, Hours)
    else if days < 7 then Readable(days, Days)
    else if days < 30 then Readable(days / 7, Weeks)
    else Readable(days / 30, Months)
  }

  /** `blocksToReadable`: the chosen bucket rendered as "<count> <unit>". */
  function BlocksToReadable(blocks: int): string {
    ReadableDuration(blocks).Text()
  }

  /** Which bucket each block count falls into, and the range of its count. */
  lemma ReadableBuckets(blocks: int)
    ensures var r := ReadableDuration(blocks);
      && (blocks < 0 ==> r.unit == Days && r.count == blocks / 144 && r.count <= -1)
      && (0 <= blocks < 144 ==> r.unit == Hours && r.count == blocks / 6 && 0 <= r.count <= 23)
      && (144 <= blocks < 1008 ==> r.unit == Days && 1 <= r.count <= 6)
      && (1008 <= blocks < 4320 ==> r.unit == Weeks && 1 <= r.count <= 4)
      && (4320 <= blocks ==> r.unit == Months && r.count >= 1)
  {
  }

  /**
   * Whatever the bucket, its count is the number of whole units in the block count:
   * the nested floor divisions of the source equal one division by the unit's size,
   * so a displayed duration never overstates and is short by less than one unit.
   */
  lemma ReadableIsWholeUnits(blocks: int)
    ensures var r := ReadableDuration(blocks);
      && r.count == blocks / r.unit.Blocks()
      && r.count * r.unit.Blocks() <= blocks < (r.count + 1) * r.unit.Blocks()
  {
    var days := blocks / 144;
    if days >= 30 {
      NestedFloor(blocks, 144, 30);
    } else if days >= 7 {
      NestedFloor(blocks, 144, 7);
    }
  }

  /** Two floor divisions by positive constants are one division by their product. */
  lemma NestedFloor(n: int, a: int, b: int)
    requires n >= 0 && a > 0 && b > 0
    ensures (n / a) / b == n / (a * b)
  {
    var m := n / a;
    var q := m / b;
    Recombine(a, b, q, n % a, m % b);
    DivUnique(n, a * b, q, a * (m % b) + n % a);
  }

  /** `getModeLabel`. */
  function ModeLabel(mode: int): (r: string)
    ensures r == "Unknown" <==> mode !in {ModeRosca, ModeCollective, ModeInterest}
  {
    if mode == ModeRosca then "Traditional ROSCA"
    else if mode == ModeCollective then "Collective Savings"
    else if mode == ModeInterest then "Interest-Bearing"
    else "Unknown"
  }

  /** The three known modes have three different labels. */
  lemma ModeLabelsDistinct(m1: int, m2: int)
    requires m1 in {ModeRosca, ModeCollective, ModeInterest}
    requires m2 in {ModeRosca, ModeCollective, ModeInterest}
    ensures ModeLabel(m1) == ModeLabel(m2) <==> m1 == m2
  {
  }

  /** `getStatusColor`: over any string, not only the five status tags. */
  function StatusColor(status: string): (r: string)
    ensures r in {"amber", "green", "red", "gray"}
    ensures r == "gray" <==> status !in {"enrollment", "active", "paused"}
  {
    if status == "enrollment" then "amber"
    else if status == "active" then "green"
    else if status == "completed" then "gray"
    else if status == "paused" then "red"
    else "gray"
  }

  /** The colour of each status tag; `withdrawal_open` falls to the gray default. */
  lemma StatusColors(s: GroupStatus)
    ensures StatusColor(s.Name()) == match s
      case Enrollment => "amber"
      case Active => "green"
      case Paused => "red"
      case Completed => "gray"
      case WithdrawalOpen => "gray"
  {
  }
}

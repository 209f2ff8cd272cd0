/** Values shared by the leave-request store and the components that use it. */
module Types {

  datatype Option<+T> = None | Some(value: T)

  /** A calendar date, as a day number counted from 1970-01-01 (UTC midnight). */
  type Date = int

  /** A request id; ids come from the store's fresh-id supply. */
  type RequestId = nat

  /** The directory id of a signed-in principal (`account.localAccountId`). */
  type UserId = string

  datatype LeaveType = Vacation | Sick | Personal {
    /** The string literal the source uses for this type. */
    function Name(): string {
      match this
      case Vacation => "vacation"
      case Sick => "sick"
      case Personal => "personal"
    }
  }

  datatype Status = Pending | Approved | Rejected

  /** One leave request as the store keeps it; `notes` is optional. */
  datatype LeaveRequest = LeaveRequest(
    id: RequestId,
    userId: UserId,
    startDate: Date,
    endDate: Date,
    leaveType: LeaveType,
    status: Status,
    notes: Option<string>)

  /** What a caller hands to `addRequest`: a request without id and status. */
  datatype RequestDraft = RequestDraft(
    userId: UserId,
    startDate: Date,
    endDate: Date,
    leaveType: LeaveType,
    notes: Option<string>)

  /** A directory user as the components keep it. */
  datatype UserDetails = UserDetails(id: string, displayName: string, email: string)

  /** A value thrown by a Graph call: an `Error` object or anything else. */
  datatype Thrown = ErrorObject(message: string) | OtherValue

  /** The message shown for a thrown value: an error's own message, otherwise the fallback text. */
  function ErrorText(e: Thrown, fallback: string): string {
    match e
    case ErrorObject(message) => message
    case OtherValue => fallback
  }

  /** JavaScript truthiness of a `string | null` access token. */
  predicate HasToken(accessToken: Option<string>) {
    accessToken.Some? && accessToken.value != ""
  }

  /** Whole days from `earlier` to `later` (date-fns `differenceInDays` on whole days). */
  function DayDiff(later: Date, earlier: Date): int {
    later - earlier
  }

  const NoTokenMessage: string := "Access token not available"
}

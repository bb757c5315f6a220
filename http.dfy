/** What a handler sends back: a status code, an `Allow` header and a JSON or text body. */
module Http {
  import opened Db

  /** The flat booking record a successful POST /api/bookings returns. */
  datatype BookingView = BookingView(
    id: int,
    coachName: string,
    coachPhone: string,
    studentName: string,
    studentPhone: string,
    slotId: int,
    startTime: int,
    endTime: int)

  /** One entry of the feedback history GET /api/calls returns. */
  datatype CallView = CallView(
    id: int,
    satisfaction: int,
    notes: string,
    createdAt: int,
    studentName: string,
    studentPhone: string,
    startTime: int,
    endTime: int)

  /** The `error` texts the handlers send; `Message` spells each out. */
  datatype Error =
    | StartTimeRequired
    | CoachIdRequired
    | InvalidStartTimeFormat
    | InvalidCoachId
    | CoachNotFound
    | ErrorCreatingSlot
    | FailedToCreateSlot
    | SlotIdAndStudentIdRequired
    | InvalidSlotIdOrStudentId
    | SlotNotFound
    | SlotAlreadyBooked
    | StudentNotFound
    | ErrorCreatingBooking
    | ErrorFetchingCalls
    | CallFieldsRequired
    | InvalidCallNumbers
    | SatisfactionOutOfRange
    | FeedbackAlreadyRecorded
    | BookingNotFound
    | NotAuthorizedForCall
    | ErrorRecordingCall
    | MethodNotAllowedError
    | Unauthorized
    | InvalidInputData
    | ErrorSubmittingFeedback

  /** The text of `{ error }`. */
  function Message(e: Error): string
  {
    match e
    case StartTimeRequired => "startTime is required"
    case CoachIdRequired => "coachId is required"
    case InvalidStartTimeFormat => "Invalid startTime format"
    case InvalidCoachId => "Invalid coachId"
    case CoachNotFound => "Coach not found"
    case ErrorCreatingSlot => "Error creating slot"
    case FailedToCreateSlot => "Failed to create slot"
    case SlotIdAndStudentIdRequired => "slotId and studentId are required"
    case InvalidSlotIdOrStudentId => "Invalid slotId or studentId"
    case SlotNotFound => "Slot not found"
    case SlotAlreadyBooked => "Slot is already booked"
    case StudentNotFound => "Student not found"
    case ErrorCreatingBooking => "Error creating booking"
    case ErrorFetchingCalls => "Error fetching calls"
    case CallFieldsRequired => "bookingId, coachId, satisfaction, and notes are required"
    case InvalidCallNumbers => "Invalid bookingId, coachId, or satisfaction"
    case SatisfactionOutOfRange => "Satisfaction must be between 1 and 5"
    case FeedbackAlreadyRecorded => "Feedback for this call has already been recorded"
    case BookingNotFound => "Booking not found"
    case NotAuthorizedForCall => "You are not authorized to record feedback for this call"
    case ErrorRecordingCall => "Error recording call feedback"
    case MethodNotAllowedError => "Method not allowed"
    case Unauthorized => "Unauthorized"
    case InvalidInputData => "Invalid input data"
    case ErrorSubmittingFeedback => "An error occurred while submitting feedback"
  }

  datatype Body =
    | ErrorBody(error: Error)           // `{ error: Message(error) }`
    | NotAllowedText(text: string)      // `res.end("Method … Not Allowed")`
    | MessageBody(message: string)      // `{ message }`
    | SlotCreated(id: int, slot: Slot)
    | SlotList(slots: map<int, Slot>)
    | BookingCreated(booking: BookingView)
    | CallCreated(id: int, call: Call)
    | CallList(calls: seq<CallView>)

  /** `NoResponse` is a handler that returns without answering the request. */
  datatype Response = Response(status: int, allow: seq<string>, body: Body) | NoResponse

  /** The database after a request, and what was sent back. */
  datatype Outcome = Outcome(tables: Tables, response: Response)

  /** `res.status(status).json({ error: Message(error) })`, leaving the database as it was. */
  function Fail(t: Tables, status: int, error: Error): Outcome
  {
    Outcome(t, Response(status, [], ErrorBody(error)))
  }

  /** `res.setHeader("Allow", allow); res.status(405).end(`Method ${method} Not Allowed`)`. */
  function MethodNotAllowed(httpMethod: string, allow: seq<string>): Response
  {
    Response(405, allow, NotAllowedText("Method " + httpMethod + " Not Allowed"))
  }
}

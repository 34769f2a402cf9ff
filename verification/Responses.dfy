/** HTTP answers as the simulation sees them, and the keys it counts them under. */
module Responses {
  import Text

  datatype Body = Slots(starts: seq<string>) | Booking(id: string, start: string) | OtherBody

  /** A response and when its request was sent; without an error envelope the error code is empty. */
  datatype Response = Response(status: nat, errorCode: string, body: Body, elapsed: real, sentAt: real)

  predicate IsOk(r: Response) { 200 <= r.status < 300 }

  const COLLISION := "slot_unavailable"

  /** The key of a response in the tally of outcomes. */
  function TallyKey(r: Response): (nat, string) {
    (r.status, if r.errorCode != "" then r.errorCode else if IsOk(r) then "ok" else "unclassified")
  }

  /** The key of a refusal. */
  function RefusalKey(r: Response): string {
    if r.errorCode != "" then r.errorCode else "http_" + Text.Decimal(r.status)
  }
}

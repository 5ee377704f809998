/** What a middleware decides and what a route handler sends back. */
module Http {
  import opened Store

  /** The outcome of one middleware step: call `next()` for a principal, or end the request. */
  datatype Gate = Proceed(email: string) | Reject(code: nat, message: string)

  /** The JSON bodies the handlers of the core send. */
  datatype Body =
    | Message(text: string)                      // { message }
    | Flag(success: bool)                        // { success } (and { success, result })
    | Outcome(success: bool, text: string)       // { success, message }
    | Inserted(insertedId: Id)                   // { success: true, insertedId }
    | Stats(totalRooms: nat, availableRooms: nat, unavailableRooms: nat,
            totalUsers: nat, totalMembers: nat)

  datatype Response = Response(code: nat, body: Body)

  /** The response a rejecting middleware sends. */
  function Refusal(g: Gate): Response
    requires g.Reject?
  {
    Response(g.code, Message(g.message))
  }
}

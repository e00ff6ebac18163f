/**
 * The HTTP interactions endpoint: the signature guard, and the routing of
 * pings, commands and components to their responses. Ed25519 verification
 * (RFC 8032) and JSON parsing are parameters.
 */
module Interactions {
  import opened Wrappers
  import opened Text

  /** What verifying the signature over `timestamp + body` gives. */
  datatype Verdict =
    | Verified
    | BadSignature
    /**
     * The signature or the public key is malformed: not hexadecimal
     * (`bytes.fromhex` raises) or of the wrong length (nacl raises
     * `ValueError`); the request fails.
     */
    | Malformed

  /** The parts of an interaction the routing reads; a missing key is `None`. */
  datatype Interaction = Interaction(kind: Option<int>, name: Option<string>, customId: Option<string>)

  datatype Embed = Embed(title: string, description: string, color: int)

  datatype ResponseData = ResponseData(content: string, embeds: seq<Embed>, components: Option<seq<string>>)

  /** An interaction response: `{"type": kind}` with an optional `data` object. */
  datatype Response = Response(kind: int, data: Option<ResponseData>)

  datatype Failure = HttpError(status: int, detail: string) | ServerError

  const Pong := Response(1, None)
  const HelpColor: int := 0x9F7AEA
  const InvalidSignature := HttpError(401, "Invalid request signature")

  /** `handle_command`. */
  function HandleCommand(name: string): (r: Response)
    ensures r.kind == 4 && r.data.Some?
    ensures name == "help" <==> r.data.value.embeds != []
    ensures name == "help" ==> r.data.value.embeds == [Embed("IndieGO Bot Help", "List of available commands...", HelpColor)]
    ensures name != "help" ==> r.data.value.content == "Unknown command"
  {
    if name == "help" then
      Response(4, Some(ResponseData("Here's how to use IndieGO Bot...",
        [Embed("IndieGO Bot Help", "List of available commands...", HelpColor)], None)))
    else Response(4, Some(ResponseData("Unknown command", [], None)))
  }

  /** `handle_ticket_interaction`: the message is updated and its buttons removed. */
  const TicketUpdated := Response(7, Some(ResponseData("Ticket updated!", [], Some([]))))

  /** `handle_component`. */
  function HandleComponent(customId: string): (r: Response)
    ensures StartsWith(customId, "ticket_") <==> r.kind == 7
    ensures r.kind == 7 ==> r.data.Some? && r.data.value.components == Some([])
    ensures r.kind != 7 ==> r == Response(4, Some(ResponseData("Unknown component interaction", [], None)))
  {
    if StartsWith(customId, "ticket_") then TicketUpdated
    else Response(4, Some(ResponseData("Unknown component interaction", [], None)))
  }

  /** A header counts as given when it is present and not empty. */
  predicate Given(header: Option<string>)
  {
    header.Some? && header.value != ""
  }

  /**
   * `handle_interaction`: the headers are checked before the body is read,
   * then the signature over the timestamp followed by the body, then the
   * type of the interaction is routed. A failure to parse, or a key the
   * routing needs that is missing, fails the request.
   */
  function HandleInteraction(
    signature: Option<string>, timestamp: Option<string>, body: string,
    verify: (string, string) -> Verdict, parse: string -> Option<Interaction>): (r: Result<Response, Failure>)
    ensures !Given(signature) || !Given(timestamp) ==> r == Err(InvalidSignature)
    ensures Given(signature) && Given(timestamp) ==>
      var verdict := verify(timestamp.value + body, signature.value);
      && (verdict == Malformed ==> r == Err(ServerError))
      && (verdict == BadSignature ==> r == Err(InvalidSignature))
      && (verdict == Verified ==> r == match parse(body) case None => Err(ServerError) case Some(i) => Route(i))
  {
    if !Given(signature) || !Given(timestamp) then Err(InvalidSignature)
    else match verify(timestamp.value + body, signature.value)
      case Malformed => Err(ServerError)
      case BadSignature => Err(InvalidSignature)
      case Verified =>
        match parse(body)
        case None => Err(ServerError)
        case Some(interaction) => Route(interaction)
  }

  /** The type dispatch after a verified, parsed body. */
  function Route(interaction: Interaction): (r: Result<Response, Failure>)
    ensures interaction.kind.None? ==> r == Err(ServerError)
    ensures interaction.kind.Some? && interaction.kind.value !in {2, 3} ==> r == Ok(Pong)
    ensures interaction.kind == Some(2) ==>
      r == (if interaction.name.Some? then Ok(HandleCommand(interaction.name.value)) else Err(ServerError))
    ensures interaction.kind == Some(3) ==>
      r == (if interaction.customId.Some? then Ok(HandleComponent(interaction.customId.value)) else Err(ServerError))
  {
    match interaction.kind
    case None => Err(ServerError)
    case Some(kind) =>
      if kind == 1 then Ok(Pong)
      else if kind == 2 then
        (match interaction.name
         case None => Err(ServerError)
         case Some(name) => Ok(HandleCommand(name)))
      else if kind == 3 then
        (match interaction.customId
         case None => Err(ServerError)
         case Some(id) => Ok(HandleComponent(id)))
      else Ok(Pong)
  }

  /** A verified slash command is answered by its command handler with a channel message. */
  lemma VerifiedCommandAnswered(
    signature: string, timestamp: string, body: string, name: string, customId: Option<string>,
    verify: (string, string) -> Verdict, parse: string -> Option<Interaction>)
    requires signature != "" && timestamp != ""
    requires verify(timestamp + body, signature) == Verified
    requires parse(body) == Some(Interaction(Some(2), Some(name), customId))
    ensures HandleInteraction(Some(signature), Some(timestamp), body, verify, parse) == Ok(HandleCommand(name))
    ensures HandleCommand(name).kind == 4
  {
  }

  /** Missing or empty headers give 401 whatever the body, the verifier and the parser. */
  lemma MissingHeadersRejected(
    signature: Option<string>, timestamp: Option<string>, body: string,
    verify: (string, string) -> Verdict, parse: string -> Option<Interaction>)
    requires !Given(signature) || !Given(timestamp)
    ensures HandleInteraction(signature, timestamp, body, verify, parse) == Err(InvalidSignature)
  {
  }

  /** A response is produced only for a signature that verifies over the timestamp and the body. */
  lemma OnlyVerifiedAnswered(
    signature: Option<string>, timestamp: Option<string>, body: string,
    verify: (string, string) -> Verdict, parse: string -> Option<Interaction>)
    ensures HandleInteraction(signature, timestamp, body, verify, parse).Ok? ==>
      Given(signature) && Given(timestamp) && verify(timestamp.value + body, signature.value) == Verified
    ensures Given(signature) && Given(timestamp) && verify(timestamp.value + body, signature.value) == BadSignature ==>
      HandleInteraction(signature, timestamp, body, verify, parse) == Err(InvalidSignature)
  {
  }

  /** A verified ticket button updates the message and removes its components. */
  lemma TicketButtonsRemoved(customId: string)
    requires StartsWith(customId, "ticket_")
    ensures Route(Interaction(Some(3), None, Some(customId))) == Ok(TicketUpdated)
  {
  }
}

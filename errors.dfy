/**
 * The plugin's error taxonomy (src/error.rs): the desktop replica of
 * Tauri's `ErrorResponse` and `PluginInvokeError`, the crate's `Error`,
 * their `Display` texts and `Error`'s serialisation.
 *
 * `serde_json::Error` and `std::io::Error` are foreign types; each is
 * modelled by the text its own `Display` produces.
 */
module Errors {
  import opened Wrappers
  import JsonString

  /** `ErrorResponse<()>`: an optional code and an optional message (the `data` part is unit). */
  datatype ErrorResponse = ErrorResponse(code: Option<string>, message: Option<string>)

  /** A `serde_json::Error`, by its display text. */
  datatype JsonError = JsonError(text: string)

  /** A `std::io::Error`, by its display text. */
  datatype IoError = IoError(text: string)

  datatype PluginInvokeError =
    | InvokeRejected(response: ErrorResponse)
    | CannotDeserializeResponse(cause: JsonError)
    | CannotSerializePayload(cause: JsonError)

  /** The desktop variants of the crate's `Error`. */
  datatype Error =
    | Io(io: IoError)
    | PluginInvoke(invoke: PluginInvokeError)

  /**
   * `Display for ErrorResponse`: `[code]`, then ` - ` when a message
   * follows, then the message.
   */
  function ResponseText(r: ErrorResponse): (s: string)
    ensures s == [] <==> r.code.None? && (r.message.None? || r.message.value == [])
    ensures r.code.Some? ==> "[" + r.code.value + "]" <= s
    ensures r.message.Some? ==> |r.message.value| <= |s| && s[|s| - |r.message.value|..] == r.message.value
    ensures r.code.None? ==> s == if r.message.Some? then r.message.value else []
  {
    var codePart := if r.code.Some? then "[" + r.code.value + "]" else "";
    var separator := if r.code.Some? && r.message.Some? then " - " else "";
    var messagePart := if r.message.Some? then r.message.value else "";
    codePart + separator + messagePart
  }

  /** `Display for PluginInvokeError`. */
  function InvokeErrorText(e: PluginInvokeError): string {
    match e
    case InvokeRejected(r) => ResponseText(r)
    case CannotDeserializeResponse(j) => "failed to deserialize response: " + j.text
    case CannotSerializePayload(j) => "failed to serialize payload: " + j.text
  }

  /** `Display for Error`: every variant is transparent. */
  function Text(e: Error): string {
    match e
    case Io(io) => io.text
    case PluginInvoke(p) => InvokeErrorText(p)
  }

  /**
   * A code-less rejection: an `InvokeRejected` with no code and the given
   * message, as `parse` builds for a Swift error and `remove_listener` for
   * a registry that does not exist yet. (The signature check's rejections
   * carry a code and are not built with this.)
   */
  function Rejected(message: string): (e: Error)
    ensures Text(e) == message
    ensures e.PluginInvoke? && e.invoke.InvokeRejected? && e.invoke.response.code.None?
  {
    PluginInvoke(InvokeRejected(ErrorResponse(None, Some(message))))
  }

  /**
   * `Serialize for Error` under serde_json: the display text emitted as a
   * JSON string, which decodes back to exactly that text.
   */
  function Serialize(e: Error): (json: string)
    ensures JsonString.Unquote(json) == Some(Text(e))
    ensures (forall i :: 0 <= i < |Text(e)| ==> !JsonString.NeedsEscape(Text(e)[i])) ==>
              json == "\"" + Text(e) + "\""
  {
    JsonString.EscapeIdentity(Text(e));
    JsonString.Quote(Text(e))
  }

  // The four shapes of `ErrorResponse`'s display.

  lemma ResponseTextBoth(code: string, message: string)
    ensures ResponseText(ErrorResponse(Some(code), Some(message))) == "[" + code + "] - " + message
  {
  }

  lemma ResponseTextCodeOnly(code: string)
    ensures ResponseText(ErrorResponse(Some(code), None)) == "[" + code + "]"
  {
  }

  lemma ResponseTextMessageOnly(message: string)
    ensures ResponseText(ErrorResponse(None, Some(message))) == message
  {
  }

  lemma ResponseTextNeither()
    ensures ResponseText(ErrorResponse(None, None)) == ""
  {
  }

  // The crate's own test values for the four shapes.

  lemma CodeOnlyExample()
    ensures ResponseText(ErrorResponse(Some("ERR001"), None)) == "[ERR001]"
  {
    ResponseTextCodeOnly("ERR001");
  }

  lemma MessageOnlyExample()
    ensures ResponseText(ErrorResponse(None, Some("Something went wrong"))) == "Something went wrong"
  {
    ResponseTextMessageOnly("Something went wrong");
  }

  lemma BothExample()
    ensures ResponseText(ErrorResponse(Some("ERR001"), Some("Something went wrong")))
         == "[ERR001] - Something went wrong"
  {
    ResponseTextBoth("ERR001", "Something went wrong");
  }

  /** `InvokeRejected` is transparent, and so is `Error::PluginInvoke` around it. */
  lemma InvokeRejectedTransparent(r: ErrorResponse)
    ensures InvokeErrorText(InvokeRejected(r)) == ResponseText(r)
    ensures Text(PluginInvoke(InvokeRejected(r))) == ResponseText(r)
  {
  }

  /** The two JSON failures are prefixed with what failed. */
  lemma JsonFailurePrefixes(j: JsonError)
    ensures InvokeErrorText(CannotDeserializeResponse(j)) == "failed to deserialize response: " + j.text
    ensures InvokeErrorText(CannotSerializePayload(j)) == "failed to serialize payload: " + j.text
    ensures "failed to deserialize response: " <= InvokeErrorText(CannotDeserializeResponse(j))
    ensures "failed to serialize payload: " <= InvokeErrorText(CannotSerializePayload(j))
  {
  }

  /** `Error::Io` and `Error::PluginInvoke` show their inner error unchanged. */
  lemma ErrorTransparent(io: IoError, p: PluginInvokeError)
    ensures Text(Io(io)) == io.text
    ensures Text(PluginInvoke(p)) == InvokeErrorText(p)
  {
  }

  /** The crate's test of `Error::Io`'s display. */
  lemma IoDisplayExample()
    ensures Text(Io(IoError("file not found"))) == "file not found"
  {
  }

  /** The crate's test of a rejection's display. */
  lemma RejectedDisplayExample()
    ensures Text(PluginInvoke(InvokeRejected(ErrorResponse(Some("rejected"), Some("Request rejected")))))
         == "[rejected] - Request rejected"
  {
    InvokeRejectedTransparent(ErrorResponse(Some("rejected"), Some("Request rejected")));
    ResponseTextBoth("rejected", "Request rejected");
  }

  /** The crate's test of a rejection wrapped in `Error`. */
  lemma WrappedRejectionExample()
    ensures Text(PluginInvoke(InvokeRejected(ErrorResponse(Some("test"), Some("test"))))) == "[test] - test"
  {
    InvokeRejectedTransparent(ErrorResponse(Some("test"), Some("test")));
    ResponseTextBoth("test", "test");
  }

  /**
   * The crate's test of serialisation: the io error with message "test error"
   * serialises to that message in quotes.
   */
  lemma SerializeExample()
    ensures Serialize(Io(IoError("test error"))) == "\"" + "test error" + "\""
  {
    var e := Io(IoError("test error"));
    assert forall i | 0 <= i < |Text(e)| :: !JsonString.NeedsEscape(Text(e)[i]);
  }
}

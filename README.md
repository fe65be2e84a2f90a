# tauri-plugin-iap: the macOS bridge and the error texts, in Dafny

This project models the Rust side of the plugin's macOS back end and its error types.

- **Event listener registry** (`src/macos.rs`). `LISTENERS` is a process-wide map, created lazily. It maps an event name to the channels registered for that event, keyed by channel id. `Iap::register_listener` and `Iap::remove_listener` edit it. `trigger` is called from Swift when a transaction changes, and sends a payload to every channel of one event. The model is the class `Listeners.Registry`, with an `initialized` flag for the `OnceLock` and a `map<string, map<u32, Channel>>`. Each `Channel` object keeps a ghost log of the payloads delivered to it.
- **Command bridge** (`src/macos.rs`). `ParseFfiResponse::parse` turns a Swift `Result<String, FFIResult>` into the crate's errors. Each `Iap` command that calls Swift first runs the code-signature check, except `initialize`, whose check is commented out. `register_listener` and `remove_listener` neither check the signature nor call Swift. Three things are inputs to the model: the Swift plugin, the signature check and serde_json's decoder. A command returns its result together with the list of effects it performed (`CheckSignature`, `CallSwift(call)`). That list is what lets the model say "Swift was not called".
- **Error texts** (`src/error.rs`). This covers `ErrorResponse`'s display (optional code, optional message), `PluginInvokeError`'s transparent and prefixed displays, `Error`'s transparent display, and `Error`'s serialisation as a JSON string holding that display text. The JSON string writer follows section 7 of RFC 8259, with serde_json's escaping choices. It is proved to decode back to the text it was given.

Modules: `Wrappers` (Option, Result), `JsonString`, `Errors`, `Bridge`, `Listeners`.

## Model

| member | source | states |
|---|---|---|
| `Errors.ResponseText` | src/error.rs:19-32 | the display is empty exactly when there is no code and the message is absent or empty; with a code it starts with `[code]`; with a message it ends with the message; without a code it is the message verbatim, or empty |
| `Errors.ResponseTextBoth` | src/error.rs:124-132 | code and message display as `[code] - message` |
| `Errors.ResponseTextCodeOnly` | src/error.rs:104-112 | a code alone displays as `[code]`, with no trailing separator |
| `Errors.ResponseTextMessageOnly` | src/error.rs:114-122 | a message alone displays verbatim |
| `Errors.ResponseTextNeither` | src/error.rs:134-142 | neither code nor message displays as the empty string |
| `Errors.CodeOnlyExample` | src/error.rs:104-112 | code "ERR001" alone displays as `[ERR001]` |
| `Errors.MessageOnlyExample` | src/error.rs:114-122 | message "Something went wrong" alone displays verbatim |
| `Errors.BothExample` | src/error.rs:124-132 | both together display as `[ERR001] - Something went wrong` |
| `Errors.InvokeRejectedTransparent` | src/error.rs:39-40 | `InvokeRejected(r)` displays exactly as `r`, also inside `Error::PluginInvoke` |
| `Errors.JsonFailurePrefixes` | src/error.rs:41-46 | the two JSON failures display as `failed to deserialize response: ` or `failed to serialize payload: ` followed by the cause |
| `Errors.ErrorTransparent` | src/error.rs:50-58 | `Error::Io` and `Error::PluginInvoke` display as their inner error |
| `Errors.IoDisplayExample` | src/error.rs:77-83 | an io error with message "file not found" displays as that message |
| `Errors.RejectedDisplayExample` | src/error.rs:162-173 | the rejection built in the crate's test displays as `[rejected] - Request rejected` |
| `Errors.WrappedRejectionExample` | src/error.rs:195-205 | a rejection with code and message "test", wrapped in `Error`, displays as `[test] - test` |
| `Errors.Serialize` | src/error.rs:64-71 | serialising an error emits a JSON string that decodes to exactly its display text; when the text needs no escaping, the output is that text in double quotes |
| `Errors.SerializeExample` | src/error.rs:85-91 | the io error "test error" serialises to `"test error"` |
| `Errors.Rejected` | src/macos.rs:121-128 | a rejection with no code and message `m` displays as exactly `m` |
| `JsonString.Quote` | src/error.rs:69 | the string literal written for `s` decodes back to `s` |
| `JsonString.UnescapeEscape` | src/error.rs:69 | decoding the escaped body of any string gives that string back |
| `JsonString.UnicodeEscapeDigits` | src/error.rs:69 | a control character without a short escape is written as `\u` and four hex digits whose value is its code point |
| `JsonString.EscapeIdentity` | src/error.rs:69 | escaping leaves a text unchanged if and only if none of its characters is a quote, a backslash or a control character |
| `Bridge.Parse` | src/macos.rs:116-131 | the result is Ok exactly when Swift answered with JSON that decodes, and then it holds the decoded value; a Swift error becomes a code-less rejection whose display is exactly Swift's message; undecodable JSON becomes `CannotDeserializeResponse` with the decoder's error |
| `Bridge.Initialize` | src/macos.rs:170-174 | `initialize` performs no signature check: its only effect is the Swift `initialize` call, and its result is that response parsed; it fails only when Swift fails or the response does not decode, and a Swift error becomes a code-less rejection with Swift's message |
| `Bridge.GetProducts` | src/macos.rs:176-187 | the signature check runs first; if it fails, its error is returned and Swift is not called; otherwise `getProducts` is called once with the given ids and type, and its response is parsed |
| `Bridge.ForwardedOfferToken` | src/macos.rs:196 | a purchase without options forwards no offer token; with options it forwards their offer token |
| `Bridge.Purchase` | src/macos.rs:189-200 | the same guard as above, with one Swift `purchase` call carrying the product id, the product type and the forwarded offer token |
| `Bridge.RestorePurchases` | src/macos.rs:202-209 | the same guard as above, with one `restorePurchases` call for the given type |
| `Bridge.AcknowledgePurchase` | src/macos.rs:211-221 | the same guard as above, with one `acknowledgePurchase` call for the given token |
| `Bridge.GetProductStatus` | src/macos.rs:223-234 | the same guard as above, with one `getProductStatus` call for the given id and type |
| `Bridge.FailedCheckCallsNoSwift` | src/macos.rs:176-234 | when the signature check fails, all five guarded commands return its error and make no Swift call |
| `Bridge.InitializeIgnoresSignature` | src/macos.rs:170-174 | `initialize` makes exactly one Swift call, whatever the signature check would say |
| `Bridge.PurchaseForwardsOnlyOfferToken` | src/macos.rs:189-200 | two purchase requests that agree on id, type and forwarded offer token behave identically, whatever their other option fields |
| `Listeners.Channel.Send` | src/macos.rs:145 | a send to an open channel delivers the payload and succeeds; a send to a closed one fails and delivers nothing |
| `Listeners.Registry.constructor` | src/macos.rs:8-9 | the registry starts out not created and empty |
| `Listeners.Registry.GetOrInit` | src/macos.rs:151-161 | `init` creates the registry if needed and never clears existing entries |
| `Listeners.Registry.RegisterListener` | src/macos.rs:238-258 | registering succeeds and creates the registry if needed; the event gets an inner map if it had none; the handler is stored under its id, replacing any channel with that id; every other entry is unchanged |
| `Listeners.Registry.RemoveListener` | src/macos.rs:260-283 | before the registry exists, removal fails with a code-less rejection "Listeners not initialized" and changes nothing; afterwards it succeeds, drops only that id under that event, and is a no-op for an unknown event or id |
| `Listeners.Registry.Trigger` | src/macos.rs:133-149 | before the registry exists, trigger fails with "Listeners not initialized" and delivers nothing; afterwards it returns Ok, including when the event has no entry or a send fails; each channel under the event gets the payload once, if it is open; channels not under the event get nothing; the registry is unchanged |
| `Listeners.NotInitialized` | src/macos.rs:261-269 | the error of a removal before the registry exists displays as "Listeners not initialized" |
| `Listeners.RegisteredChannelReceives` | src/macos.rs:253-256 | a registered handler is among the recipients of its event |
| `Listeners.RemovedChannelDoesNotReceive` | src/macos.rs:279-281 | after removing an id from an event, no recipient of that event has that id |
| `Listeners.OtherEventsUnaffected` | src/macos.rs:238-283 | registering or removing under one event leaves every other event's recipients unchanged |
| `Listeners.ReRegisterReplaces` | src/macos.rs:253-256 | registering a second channel with the same id under the same event gives the same map as registering only the second |
| `Listeners.RegisterThenRemove` | src/macos.rs:238-283 | registering a new channel and then removing it gives back the original map, except that a new event keeps its key with an empty inner map |
| `Listeners.EditsKeepKeys` | src/macos.rs:253-256 | both edits keep every channel stored under its own id |
| `Listeners.RegisterThenTrigger` | src/macos.rs:133-149 | a channel registered before a trigger of its event receives the payload, if it is open |
| `Listeners.RemoveThenTrigger` | src/macos.rs:133-149 | a channel removed from an event before a trigger of that event receives nothing from it |

## Left out

- `codesign::is_signature_valid` (src/macos.rs:11-69) calls into the Security framework through unsafe FFI. The model takes its outcome as an input, Ok or an `Error`. The error texts it builds from OSStatus codes are not modelled.
- The Swift plugin and the `swift_bridge` block (src/macos.rs:71-107) are foreign code. The model takes the plugin as an input: a function from the call made to the `FfiResult` it returns. Constructing the plugin (`init_plugin`) and the `Iap` struct are not modelled.
- The model has no async and no `.await`. Each Swift call is treated as returning its result directly.
- The `OnceLock` and `RwLock` synchronisation is left out. The registry is single-threaded, and the lock is always acquired. So the "Failed to acquire read/write lock" errors (src/macos.rs:139-141, 244-252, 270-278) never arise.
- `Channel::send` does its IPC delivery outside the process. The model records delivery in a ghost log and treats a closed channel as the only way a send can fail.
- serde_json decoding of responses is an input to `Bridge.Parse`, a function from the JSON text to a value or a `JsonError`. `ErrorResponse`'s `Deserialize` (src/error.rs:7, 144-160) is not modelled.
- `serde_json::Error` and `std::io::Error` are modelled only by their display texts.
- `JsonString.Unescape` does not decode surrogate pairs written as two `\u` escapes. serde_json never writes them for an error text, so the round trip is unaffected.
- The mobile and Windows variants of `Error` (src/error.rs:53-55, 59-61) wrap foreign types and are compiled out on macOS.
- `Bridge.PurchaseOptions` has only `offerToken` as a named field. The other option fields are a string map, since src/models.rs is not part of this model.
- src/desktop.rs, build.rs and the demo app contain no logic of this core.
- The store-side behaviour is not modelled: the purchase-state normaliser, subscription expiry and renewal rules, and the "purchaseUpdated" emission. It lives in the Swift and Kotlin sources, which are not part of this model. In the Rust code, `trigger` forwards any event name given by Swift, and the model follows that code.

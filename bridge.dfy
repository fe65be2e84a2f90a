/**
 * The macOS command bridge (src/macos.rs): how a Swift plugin response is
 * turned into the crate's `Result`, and how each `Iap` command guards its
 * Swift call with the code-signature check.
 *
 * Three things lie outside the model and are given as inputs: the Swift
 * plugin (a function from the call made to the response it gives), the
 * outcome of `codesign::is_signature_valid`, and serde_json's decoder for
 * the command's response type. A command's result records, besides its
 * value, the effects it performed in order, so that "the check runs first"
 * and "Swift is not called" can be stated.
 */
module Bridge {
  import opened Wrappers
  import opened Errors

  /** Swift's `Result<T, FFIResult>`, where `FFIResult::Err` carries a message. */
  datatype FfiResult<T> = FfiOk(value: T) | FfiErr(message: string)

  /** The calls the Rust side makes into the Swift plugin, with their arguments. */
  datatype SwiftCall =
    | InitializeCall
    | GetProductsCall(productIds: seq<string>, productType: string)
    | PurchaseCall(productId: string, productType: string, offerToken: Option<string>)
    | RestorePurchasesCall(productType: string)
    | AcknowledgePurchaseCall(purchaseToken: string)
    | GetProductStatusCall(productId: string, productType: string)

  /** What a command does outside the process, in the order it does it. */
  datatype Effect = CheckSignature | CallSwift(call: SwiftCall)

  datatype Invocation<T> = Invocation(result: Result<T, Error>, effects: seq<Effect>)

  /** The options of a purchase: the offer token and the remaining option fields. */
  datatype PurchaseOptions = PurchaseOptions(offerToken: Option<string>, otherOptions: map<string, string>)

  datatype PurchaseRequest = PurchaseRequest(productId: string, productType: string, options: Option<PurchaseOptions>)

  /**
   * `ParseFfiResponse::parse`: a Swift error becomes a rejection that shows
   * exactly Swift's message; a JSON body is decoded, and a body that does
   * not decode becomes `CannotDeserializeResponse`.
   */
  function Parse<T>(response: FfiResult<string>, decode: string -> Result<T, JsonError>): (r: Result<T, Error>)
    ensures r.Success? <==> response.FfiOk? && decode(response.value).Success?
    ensures r.Success? ==> r.value == decode(response.value).value
    ensures response.FfiErr? ==> r == Failure(Rejected(response.message)) && Text(r.error) == response.message
    ensures response.FfiOk? && decode(response.value).Failure? ==>
              r.error == PluginInvoke(CannotDeserializeResponse(decode(response.value).error)) &&
              Text(r.error) == "failed to deserialize response: " + decode(response.value).error.text
  {
    match response
    case FfiOk(json) =>
      (match decode(json)
       case Success(v) => Success(v)
       case Failure(e) => Failure(PluginInvoke(CannotDeserializeResponse(e))))
    case FfiErr(msg) => Failure(Rejected(msg))
  }

  /**
   * The shape of every guarded command: the signature check runs first; if
   * it fails, its error is the result and Swift is not called; otherwise
   * exactly `call` is made and its response parsed.
   */
  ghost predicate ChecksThenCalls<T>(inv: Invocation<T>, signature: Result<(), Error>, call: SwiftCall,
                                     swift: SwiftCall -> FfiResult<string>, decode: string -> Result<T, JsonError>)
  {
    && |inv.effects| >= 1 && inv.effects[0] == CheckSignature
    && (signature.Failure? ==> inv.effects == [CheckSignature] && inv.result == Failure(signature.error))
    && (signature.Success? ==> inv.effects == [CheckSignature, CallSwift(call)] &&
                               inv.result == Parse(swift(call), decode))
  }

  /** `codesign::is_signature_valid()?` followed by the Swift call and `parse`. */
  function Guarded<T>(signature: Result<(), Error>, call: SwiftCall,
                      swift: SwiftCall -> FfiResult<string>, decode: string -> Result<T, JsonError>): Invocation<T>
  {
    if signature.Failure? then Invocation(Failure(signature.error), [CheckSignature])
    else Invocation(Parse(swift(call), decode), [CheckSignature, CallSwift(call)])
  }

  /** `Iap::initialize`: its signature check is disabled, so Swift is always called. */
  function Initialize<T>(swift: SwiftCall -> FfiResult<string>, decode: string -> Result<T, JsonError>): (inv: Invocation<T>)
    ensures CheckSignature !in inv.effects
    ensures inv.effects == [CallSwift(InitializeCall)]
    ensures inv.result == Parse(swift(InitializeCall), decode)
    ensures inv.result.Failure? ==> swift(InitializeCall).FfiErr? || decode(swift(InitializeCall).value).Failure?
    ensures swift(InitializeCall).FfiErr? ==> inv.result == Failure(Rejected(swift(InitializeCall).message))
  {
    Invocation(Parse(swift(InitializeCall), decode), [CallSwift(InitializeCall)])
  }

  /** `Iap::get_products`. */
  function GetProducts<T>(signature: Result<(), Error>, productIds: seq<string>, productType: string,
                          swift: SwiftCall -> FfiResult<string>, decode: string -> Result<T, JsonError>): (inv: Invocation<T>)
    ensures ChecksThenCalls(inv, signature, GetProductsCall(productIds, productType), swift, decode)
  {
    Guarded(signature, GetProductsCall(productIds, productType), swift, decode)
  }

  /** The offer token a purchase forwards: `options.and_then(|o| o.offer_token)`. */
  function ForwardedOfferToken(options: Option<PurchaseOptions>): (t: Option<string>)
    ensures options.None? ==> t.None?
    ensures options.Some? ==> t == options.value.offerToken
  {
    if options.Some? then options.value.offerToken else None
  }

  /** `Iap::purchase`: only the id, the type and the offer token reach Swift. */
  function Purchase<T>(signature: Result<(), Error>, request: PurchaseRequest,
                       swift: SwiftCall -> FfiResult<string>, decode: string -> Result<T, JsonError>): (inv: Invocation<T>)
    ensures ChecksThenCalls(inv, signature,
                            PurchaseCall(request.productId, request.productType, ForwardedOfferToken(request.options)),
                            swift, decode)
  {
    Guarded(signature, PurchaseCall(request.productId, request.productType, ForwardedOfferToken(request.options)),
            swift, decode)
  }

  /** `Iap::restore_purchases`. */
  function RestorePurchases<T>(signature: Result<(), Error>, productType: string,
                               swift: SwiftCall -> FfiResult<string>, decode: string -> Result<T, JsonError>): (inv: Invocation<T>)
    ensures ChecksThenCalls(inv, signature, RestorePurchasesCall(productType), swift, decode)
  {
    Guarded(signature, RestorePurchasesCall(productType), swift, decode)
  }

  /** `Iap::acknowledge_purchase`. */
  function AcknowledgePurchase<T>(signature: Result<(), Error>, purchaseToken: string,
                                  swift: SwiftCall -> FfiResult<string>, decode: string -> Result<T, JsonError>): (inv: Invocation<T>)
    ensures ChecksThenCalls(inv, signature, AcknowledgePurchaseCall(purchaseToken), swift, decode)
  {
    Guarded(signature, AcknowledgePurchaseCall(purchaseToken), swift, decode)
  }

  /** `Iap::get_product_status`. */
  function GetProductStatus<T>(signature: Result<(), Error>, productId: string, productType: string,
                               swift: SwiftCall -> FfiResult<string>, decode: string -> Result<T, JsonError>): (inv: Invocation<T>)
    ensures ChecksThenCalls(inv, signature, GetProductStatusCall(productId, productType), swift, decode)
  {
    Guarded(signature, GetProductStatusCall(productId, productType), swift, decode)
  }

  /** The Swift calls an invocation made. */
  function SwiftCalls(effects: seq<Effect>): (calls: seq<SwiftCall>)
    ensures |calls| <= |effects|
    ensures forall c :: c in calls <==> CallSwift(c) in effects
  {
    if effects == [] then []
    else (if effects[0].CallSwift? then [effects[0].call] else []) + SwiftCalls(effects[1..])
  }

  /** The command returned the check's error and made no Swift call. */
  ghost predicate StoppedByCheck<T>(inv: Invocation<T>, signature: Result<(), Error>)
    requires signature.Failure?
  {
    SwiftCalls(inv.effects) == [] && inv.result == Failure(signature.error)
  }

  /**
   * A failed signature check stops every guarded command before Swift:
   * the check's error is returned and no Swift call is made.
   */
  lemma FailedCheckCallsNoSwift<T>(signature: Result<(), Error>, request: PurchaseRequest,
                                   productIds: seq<string>, productType: string, productId: string,
                                   purchaseToken: string,
                                   swift: SwiftCall -> FfiResult<string>, decode: string -> Result<T, JsonError>)
    requires signature.Failure?
    ensures StoppedByCheck(GetProducts(signature, productIds, productType, swift, decode), signature)
    ensures StoppedByCheck(Purchase(signature, request, swift, decode), signature)
    ensures StoppedByCheck(RestorePurchases(signature, productType, swift, decode), signature)
    ensures StoppedByCheck(AcknowledgePurchase(signature, purchaseToken, swift, decode), signature)
    ensures StoppedByCheck(GetProductStatus(signature, productId, productType, swift, decode), signature)
  {
    assert SwiftCalls([CheckSignature]) == [] + SwiftCalls([]);
  }

  /** `initialize` gives the same outcome whatever the signature check would say. */
  lemma InitializeIgnoresSignature<T>(swift: SwiftCall -> FfiResult<string>, decode: string -> Result<T, JsonError>)
    ensures SwiftCalls(Initialize(swift, decode).effects) == [InitializeCall]
    ensures Initialize(swift, decode).result == Parse(swift(InitializeCall), decode)
  {
    assert SwiftCalls([CallSwift(InitializeCall)]) == [InitializeCall] + SwiftCalls([]);
  }

  /**
   * A purchase's outcome depends on its options only through the offer
   * token: two requests that agree on id, type and forwarded token behave
   * the same, whatever their other option fields.
   */
  lemma PurchaseForwardsOnlyOfferToken<T>(signature: Result<(), Error>, a: PurchaseRequest, b: PurchaseRequest,
                                          swift: SwiftCall -> FfiResult<string>, decode: string -> Result<T, JsonError>)
    requires a.productId == b.productId && a.productType == b.productType
    requires ForwardedOfferToken(a.options) == ForwardedOfferToken(b.options)
    ensures Purchase(signature, a, swift, decode) == Purchase(signature, b, swift, decode)
  {
  }
}

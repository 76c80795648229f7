/** The host-messaging protocol of the wallet-auth page: how the page
    classifies the window it runs in, which origins it trusts, which single
    channel it uses to hand a result to its host, which incoming messages it
    lets through, the two result payloads and the closed vocabulary of error
    codes. The browser window is replaced by an explicit record of the facts
    the code reads, and every post, close and navigation by an entry in an
    outbox. */
module PostMessage {
  import opened JsValues
  import opened JsStrings

  // ---------------------------------------------------------------------
  // Result payloads

  const SuccessTypeTag := "WALLET_AUTH_SUCCESS"
  const ErrorTypeTag := "WALLET_AUTH_ERROR"

  datatype SuccessData = SuccessData(
    address: string,
    signature: string,
    message: string,
    chainId: int,
    walletType: string,
    timestamp: int)

  datatype ErrorData = ErrorData(code: string, message: string)

  /** `WalletAuthResult | WalletAuthError`. */
  datatype AuthPayload = AuthSuccess(data: SuccessData) | AuthError(error: ErrorData)

  /** The object the page posts, as the receiving window sees it. */
  function ToJs(p: AuthPayload): JsValue
  {
    match p
    case AuthSuccess(d) =>
      Object(map[
        "type" := Str(SuccessTypeTag),
        "data" := Object(map[
          "address" := Str(d.address),
          "signature" := Str(d.signature),
          "message" := Str(d.message),
          "chainId" := Number(d.chainId),
          "walletType" := Str(d.walletType),
          "timestamp" := Number(d.timestamp)])])
    case AuthError(e) =>
      Object(map[
        "type" := Str(ErrorTypeTag),
        "error" := Object(map["code" := Str(e.code), "message" := Str(e.message)])])
  }

  function StrField(v: JsValue, key: string): Option<string>
  {
    if v.Object? && key in v.fields && v.fields[key].Str? then Some(v.fields[key].s) else None
  }

  function NumField(v: JsValue, key: string): Option<int>
  {
    if v.Object? && key in v.fields && v.fields[key].Number? then Some(v.fields[key].n) else None
  }

  function ObjField(v: JsValue, key: string): JsValue
  {
    if v.Object? && key in v.fields then v.fields[key] else Undefined
  }

  /** How a host reads a received object back into a result: by its `type`
      tag, then the fields of `data` or `error`. */
  function FromJs(v: JsValue): Option<AuthPayload>
  {
    var tag := StrField(v, "type");
    if tag == Some(SuccessTypeTag) then
      var d := ObjField(v, "data");
      var address := StrField(d, "address");
      var signature := StrField(d, "signature");
      var message := StrField(d, "message");
      var chainId := NumField(d, "chainId");
      var walletType := StrField(d, "walletType");
      var timestamp := NumField(d, "timestamp");
      if address.Some? && signature.Some? && message.Some? && chainId.Some?
         && walletType.Some? && timestamp.Some?
      then Some(AuthSuccess(SuccessData(address.value, signature.value, message.value,
                                        chainId.value, walletType.value, timestamp.value)))
      else None
    else if tag == Some(ErrorTypeTag) then
      var e := ObjField(v, "error");
      var code := StrField(e, "code");
      var message := StrField(e, "message");
      if code.Some? && message.Some? then Some(AuthError(ErrorData(code.value, message.value)))
      else None
    else None
  }

  /** A host reading what the page posted gets exactly the page's result. */
  lemma FromJsToJs(p: AuthPayload)
    ensures FromJs(ToJs(p)) == Some(p)
  {
    match p
    case AuthSuccess(d) =>
      var v := ToJs(p);
      assert StrField(v, "type") == Some(SuccessTypeTag);
    case AuthError(e) =>
      var v := ToJs(p);
      assert StrField(v, "type") == Some(ErrorTypeTag);
      assert StrField(v, "type") != Some(SuccessTypeTag);
  }

  /** `createAuthSuccessMessage`; the clock reading `Date.now()` is the
      parameter `now`. */
  function CreateAuthSuccessMessage(address: string, signature: string, message: string,
                                    chainId: int, walletType: string, now: int): (p: AuthPayload)
    ensures StrField(ToJs(p), "type") == Some("WALLET_AUTH_SUCCESS")
    ensures var d := ObjField(ToJs(p), "data");
      && StrField(d, "address") == Some(address)
      && StrField(d, "signature") == Some(signature)
      && StrField(d, "message") == Some(message)
      && NumField(d, "chainId") == Some(chainId)
      && StrField(d, "walletType") == Some(walletType)
      && NumField(d, "timestamp") == Some(now)
  {
    AuthSuccess(SuccessData(address, signature, message, chainId, walletType, now))
  }

  /** `createAuthErrorMessage`. */
  function CreateAuthErrorMessage(code: string, message: string): (p: AuthPayload)
    ensures StrField(ToJs(p), "type") == Some("WALLET_AUTH_ERROR")
    ensures var e := ObjField(ToJs(p), "error");
      StrField(e, "code") == Some(code) && StrField(e, "message") == Some(message)
  {
    AuthError(ErrorData(code, message))
  }

  // ---------------------------------------------------------------------
  // Error vocabulary

  /** The `ErrorCode` type: the ten keys of `ERROR_CODES`. */
  datatype ErrorCode =
    | UserRejected
    | WalletNotDetected
    | WalletLocked
    | NetworkError
    | SignatureFailed
    | UnsupportedChain
    | Timeout
    | WalletUnavailable
    | ConnectionFailed
    | UnknownError

  const AllErrorCodes: seq<ErrorCode> := [
    UserRejected, WalletNotDetected, WalletLocked, NetworkError, SignatureFailed,
    UnsupportedChain, Timeout, WalletUnavailable, ConnectionFailed, UnknownError]

  /** `ERROR_CODES`: key to value. */
  const ErrorCodes: map<string, string> := map[
    "USER_REJECTED" := "USER_REJECTED",
    "WALLET_NOT_DETECTED" := "WALLET_NOT_DETECTED",
    "WALLET_LOCKED" := "WALLET_LOCKED",
    "NETWORK_ERROR" := "NETWORK_ERROR",
    "SIGNATURE_FAILED" := "SIGNATURE_FAILED",
    "UNSUPPORTED_CHAIN" := "UNSUPPORTED_CHAIN",
    "TIMEOUT" := "TIMEOUT",
    "WALLET_UNAVAILABLE" := "WALLET_UNAVAILABLE",
    "CONNECTION_FAILED" := "CONNECTION_FAILED",
    "UNKNOWN_ERROR" := "UNKNOWN_ERROR"]

  /** `ERROR_MESSAGES`: code to the fixed user-facing text. */
  const ErrorMessages: map<string, string> := map[
    "USER_REJECTED" := "User rejected the connection request",
    "WALLET_NOT_DETECTED" := "No compatible wallet detected in browser",
    "WALLET_LOCKED" := "Wallet is locked, please unlock it",
    "NETWORK_ERROR" := "Network connection failed",
    "SIGNATURE_FAILED" := "Message signing failed",
    "UNSUPPORTED_CHAIN" := "Unsupported blockchain network",
    "TIMEOUT" := "Connection request timed out",
    "WALLET_UNAVAILABLE" := "Selected wallet is not available",
    "CONNECTION_FAILED" := "Failed to connect to wallet",
    "UNKNOWN_ERROR" := "An unknown error occurred"]

  /** The string value `ERROR_CODES.<code>` that goes on the wire. */
  function CodeName(c: ErrorCode): (s: string)
    ensures s in ErrorCodes && ErrorCodes[s] == s
  {
    match c
    case UserRejected => "USER_REJECTED"
    case WalletNotDetected => "WALLET_NOT_DETECTED"
    case WalletLocked => "WALLET_LOCKED"
    case NetworkError => "NETWORK_ERROR"
    case SignatureFailed => "SIGNATURE_FAILED"
    case UnsupportedChain => "UNSUPPORTED_CHAIN"
    case Timeout => "TIMEOUT"
    case WalletUnavailable => "WALLET_UNAVAILABLE"
    case ConnectionFailed => "CONNECTION_FAILED"
    case UnknownError => "UNKNOWN_ERROR"
  }

  /** `ERROR_MESSAGES[code]`. */
  function ErrorMessage(c: ErrorCode): (m: string)
    ensures CodeName(c) in ErrorCodes && ErrorCodes[CodeName(c)] in ErrorMessages
    ensures m == ErrorMessages[ErrorCodes[CodeName(c)]] && m != ""
  {
    ErrorMessages[CodeName(c)]
  }

  /** Every `ERROR_CODES` value equals its key. */
  lemma ErrorCodesNameThemselves()
    ensures forall k :: k in ErrorCodes ==> ErrorCodes[k] == k
  {
  }

  /** The `ErrorCode` type has no member beyond the ten listed. */
  lemma AllErrorCodesComplete(c: ErrorCode)
    ensures c in AllErrorCodes
  {
    match c
    case UserRejected => assert AllErrorCodes[0] == c;
    case WalletNotDetected => assert AllErrorCodes[1] == c;
    case WalletLocked => assert AllErrorCodes[2] == c;
    case NetworkError => assert AllErrorCodes[3] == c;
    case SignatureFailed => assert AllErrorCodes[4] == c;
    case UnsupportedChain => assert AllErrorCodes[5] == c;
    case Timeout => assert AllErrorCodes[6] == c;
    case WalletUnavailable => assert AllErrorCodes[7] == c;
    case ConnectionFailed => assert AllErrorCodes[8] == c;
    case UnknownError => assert AllErrorCodes[9] == c;
  }

  /** The keys of `ERROR_CODES` are exactly the names of the ten codes, and
      `ERROR_MESSAGES` is defined on exactly those keys. */
  lemma ErrorTablesCoverCodes()
    ensures ErrorCodes.Keys == set i | 0 <= i < |AllErrorCodes| :: CodeName(AllErrorCodes[i])
    ensures ErrorMessages.Keys == ErrorCodes.Keys
  {
    var names := set i | 0 <= i < |AllErrorCodes| :: CodeName(AllErrorCodes[i]);
    assert CodeName(AllErrorCodes[0]) in names && CodeName(AllErrorCodes[1]) in names;
    assert CodeName(AllErrorCodes[2]) in names && CodeName(AllErrorCodes[3]) in names;
    assert CodeName(AllErrorCodes[4]) in names && CodeName(AllErrorCodes[5]) in names;
    assert CodeName(AllErrorCodes[6]) in names && CodeName(AllErrorCodes[7]) in names;
    assert CodeName(AllErrorCodes[8]) in names && CodeName(AllErrorCodes[9]) in names;
  }

  /** Distinct codes have distinct names and distinct messages, so the
      message identifies the code. */
  lemma ErrorCodeNamesAndMessagesInjective(c: ErrorCode, d: ErrorCode)
    ensures CodeName(c) == CodeName(d) ==> c == d
    ensures ErrorMessage(c) == ErrorMessage(d) ==> c == d
  {
  }

  // ---------------------------------------------------------------------
  // Environment detection

  /** A window reference as the page reads it: `null`, the page's own
      window, or some other window. */
  datatype WindowRef = NoWindow | SelfWindow | OtherWindow(id: nat)

  /** `window.ReactNativeWebView`: absent, or present with or without a
      `postMessage` member. */
  datatype NativeBridge = BridgeAbsent | BridgePresent(hasPostMessage: bool)

  /** The facts about `window` the protocol reads. */
  datatype WindowFacts = WindowFacts(reactNativeWebView: NativeBridge, opener: WindowRef, parent: WindowRef)

  /** The record `detectEnvironment` returns; on the server it has no
      `isBrowser` member, read here as `false`. */
  datatype Environment = Environment(isServer: bool, isWebView: bool, isPopup: bool,
                                     isEmbedded: bool, isBrowser: bool)

  /** `detectEnvironment`; `None` stands for "no `window`" (server side). */
  function DetectEnvironment(w: Option<WindowFacts>): (env: Environment)
    ensures w.None? ==> env.isServer && !env.isWebView && !env.isPopup && !env.isEmbedded && !env.isBrowser
    ensures w.Some? ==> !env.isServer
    ensures env.isWebView <==> w.Some? && w.value.reactNativeWebView.BridgePresent?
    ensures env.isPopup <==> w.Some? && w.value.opener.OtherWindow?
    ensures env.isEmbedded <==> w.Some? && w.value.parent != SelfWindow && !w.value.opener.OtherWindow?
    ensures !(env.isPopup && env.isEmbedded)
    ensures env.isBrowser <==> !env.isServer && !env.isWebView && !env.isPopup && !env.isEmbedded
  {
    match w
    case None => Environment(true, false, false, false, false)
    case Some(win) =>
      var isWebView := win.reactNativeWebView.BridgePresent?;
      var isPopup := win.opener != NoWindow && win.opener != SelfWindow;
      var isEmbedded := win.parent != SelfWindow && !isPopup;
      Environment(false, isWebView, isPopup, isEmbedded, !isWebView && !isPopup && !isEmbedded)
  }

  // ---------------------------------------------------------------------
  // Origin allow-list

  function TrimEach(parts: seq<string>): (r: seq<string>)
    ensures |r| == |parts|
    ensures forall i :: 0 <= i < |r| ==> r[i] == Trim(parts[i])
  {
    if parts == [] then [] else [Trim(parts[0])] + TrimEach(parts[1..])
  }

  /** `getAllowedOrigins`, given `NEXT_PUBLIC_ALLOWED_ORIGINS`. */
  function AllowedOrigins(originsEnv: Option<string>): (r: seq<string>)
    ensures |r| >= 1
    ensures !PresentText(originsEnv) ==> r == ["*"]
    ensures PresentText(originsEnv) ==>
      && |r| == |Split(originsEnv.value, ',')|
      && forall i :: 0 <= i < |r| ==> r[i] == Trim(Split(originsEnv.value, ',')[i])
    ensures forall i :: 0 <= i < |r| ==> Trimmed(r[i])
  {
    if !PresentText(originsEnv) then ["*"] else TrimEach(Split(originsEnv.value, ','))
  }

  /** Writing an allow-list as its comma-separated text and reading it back
      gives the list: pieces are split at every comma, trimmed and kept in
      order. */
  lemma {:induction false} AllowedOriginsOfList(origins: seq<string>)
    requires |origins| >= 1 && Join(origins, ',') != ""
    requires forall i :: 0 <= i < |origins| ==> Trimmed(origins[i]) && ',' !in origins[i]
    ensures AllowedOrigins(Some(Join(origins, ','))) == origins
  {
    SplitJoin(origins, ',');
    var r := AllowedOrigins(Some(Join(origins, ',')));
    forall i | 0 <= i < |origins| ensures r[i] == origins[i] {
      TrimOfTrimmed(origins[i]);
    }
  }

  /** Every allow-list entry is one comma-free piece of the setting, cut
      down by `trim`. */
  lemma AllowedOriginsArePieces(text: string, i: nat)
    requires text != "" && i < |AllowedOrigins(Some(text))|
    ensures var r := AllowedOrigins(Some(text));
      ',' !in r[i] && r[i] == Trim(Split(text, ',')[i])
  {
    SplitPiecesLackSeparator(text, ',');
    TrimKeepsAbsence(Split(text, ',')[i], ',');
  }

  /** `isValidOrigin`. */
  function IsValidOrigin(originsEnv: Option<string>, origin: string): (ok: bool)
    ensures !PresentText(originsEnv) ==> ok
    ensures ok <==> "*" in AllowedOrigins(originsEnv) || origin in AllowedOrigins(originsEnv)
  {
    var allowed := AllowedOrigins(originsEnv);
    if "*" in allowed then true else origin in allowed
  }

  /** With an explicit allow-list, an origin passes exactly when the list
      holds the wildcard or that very origin. */
  lemma IsValidOriginOfList(origins: seq<string>, origin: string)
    requires |origins| >= 1 && Join(origins, ',') != ""
    requires forall i :: 0 <= i < |origins| ==> Trimmed(origins[i]) && ',' !in origins[i]
    ensures IsValidOrigin(Some(Join(origins, ',')), origin) <==> "*" in origins || origin in origins
  {
    AllowedOriginsOfList(origins);
  }

  /** The `targetOrigin` used for `postMessage`. */
  function TargetOrigin(allowed: seq<string>): (t: string)
    requires |allowed| >= 1
    ensures t in allowed
    ensures "*" in allowed ==> t == "*"
    ensures "*" !in allowed ==> t == allowed[0]
  {
    if "*" in allowed then "*" else allowed[0]
  }

  // ---------------------------------------------------------------------
  // Transport selection and delivery

  datatype Route = ViaBridge | ViaOpener | ViaParent | NoRoute

  /** The channel `sendMessageToParent` posts on, in its order: the React
      Native bridge, else the opener of a popup, else the parent frame. */
  function SelectRoute(w: Option<WindowFacts>): (r: Route)
    ensures r == ViaBridge <==> w.Some? && w.value.reactNativeWebView == BridgePresent(true)
    ensures r == ViaOpener <==> w.Some? && w.value.reactNativeWebView.BridgeAbsent?
                                && w.value.opener.OtherWindow?
    ensures r == ViaParent <==> w.Some? && w.value.reactNativeWebView.BridgeAbsent?
                                && !w.value.opener.OtherWindow? && w.value.parent.OtherWindow?
  {
    var env := DetectEnvironment(w);
    if env.isWebView then
      if w.value.reactNativeWebView.hasPostMessage then ViaBridge else NoRoute
    else if env.isPopup && w.value.opener != NoWindow then ViaOpener
    else if env.isEmbedded && w.value.parent != NoWindow then ViaParent
    else NoRoute
  }

  /** A present bridge decides alone: when it lacks `postMessage` nothing is
      posted, and neither opener nor parent is tried. A plain browser and the
      server have no channel. */
  lemma RoutePrecedence(w: Option<WindowFacts>)
    ensures DetectEnvironment(w).isWebView ==> SelectRoute(w) in {ViaBridge, NoRoute}
    ensures DetectEnvironment(w).isBrowser || DetectEnvironment(w).isServer ==> SelectRoute(w) == NoRoute
    ensures SelectRoute(w) == ViaOpener ==> DetectEnvironment(w).isPopup
    ensures SelectRoute(w) == ViaParent ==> DetectEnvironment(w).isEmbedded
  {
  }

  datatype Target = Opener | Parent

  /** What the page did to the outside world. */
  datatype Effect =
    | BridgePost(json: AuthPayload)  // `ReactNativeWebView.postMessage(JSON.stringify(payload))`
    | WindowPost(target: Target, payload: AuthPayload, targetOrigin: string)  // structured object
    | CloseWindow
    | NavigateToApp(scheme: string, data: AuthPayload)  // `<scheme>://wallet-auth?data=<encoded payload>`

  /** The single post `sendMessageToParent` performs on a route. */
  function Delivery(r: Route, message: AuthPayload, allowed: seq<string>): (e: Effect)
    requires r != NoRoute && |allowed| >= 1
    ensures e.BridgePost? <==> r == ViaBridge
    ensures e.BridgePost? ==> e.json == message
    ensures e.WindowPost? ==> e.payload == message && e.targetOrigin == TargetOrigin(allowed)
                              && (e.target == Opener <==> r == ViaOpener)
    ensures e.BridgePost? || e.WindowPost?
  {
    match r
    case ViaBridge => BridgePost(message)
    case ViaOpener => WindowPost(Opener, message, TargetOrigin(allowed))
    case ViaParent => WindowPost(Parent, message, TargetOrigin(allowed))
  }

  /** What one `sendMessageToParent(message)` call posts: one delivery on
      the selected route, or nothing when there is no route or the post
      throws. */
  function Posted(window: Option<WindowFacts>, allowedOriginsEnv: Option<string>, message: AuthPayload,
                  postThrows: bool): (effects: seq<Effect>)
    ensures |effects| <= 1
    ensures effects == [] <==> SelectRoute(window) == NoRoute || postThrows
    ensures effects != [] ==>
      effects[0] == Delivery(SelectRoute(window), message, AllowedOrigins(allowedOriginsEnv))
  {
    var r := SelectRoute(window);
    if r != NoRoute && !postThrows then [Delivery(r, message, AllowedOrigins(allowedOriginsEnv))] else []
  }

  // ---------------------------------------------------------------------
  // Receiving side

  predicate IsProduction(nodeEnv: Option<string>)
  {
    nodeEnv == Some("production")
  }

  /** A value the listener forwards: truthy and with a string `type`. */
  predicate HasStringType(v: JsValue)
  {
    Truthy(v) && Get(v, "type").Str?
  }

  /** The filter inside `setupMessageListener`'s handler: what it hands to
      `onMessage`, if anything. `data` is `event.data`: a string is run
      through `JSON.parse` (`parse`, `None` when it throws), any other value
      is used as it is. */
  function FilterMessage(production: bool, originsEnv: Option<string>, origin: string,
                         data: JsValue, parse: string -> Option<JsValue>): (r: Option<JsValue>)
    ensures r.Some? ==> !production || IsValidOrigin(originsEnv, origin)
    ensures r.Some? ==> r.value.Object? && "type" in r.value.fields && r.value.fields["type"].Str?
    ensures data.Str? && parse(data.s).None? ==> r.None?
    ensures r.Some? ==> r.value == (if data.Str? then parse(data.s).value else data)
    ensures (!production || IsValidOrigin(originsEnv, origin))
            && (!data.Str? || parse(data.s).Some?)
            && HasStringType(if data.Str? then parse(data.s).value else data)
            ==> r.Some?
  {
    if production && !IsValidOrigin(originsEnv, origin) then None
    else
      var message := if data.Str? then parse(data.s) else Some(data);
      if message.Some? && HasStringType(message.value) then message else None
  }

  /** Every result this page posts passes a listener of this kind unchanged,
      unless the listener is in production mode and the origin is not on its
      allow-list; then it is dropped. */
  lemma PostedPayloadsPassFilter(p: AuthPayload, production: bool, originsEnv: Option<string>,
                                 origin: string, parse: string -> Option<JsValue>)
    ensures var r := FilterMessage(production, originsEnv, origin, ToJs(p), parse);
      r == (if production && !IsValidOrigin(originsEnv, origin) then None else Some(ToJs(p)))
  {
  }

  /** The page's window, the settings it reads from the process environment,
      and what it has done: the outbox of posts, closes and navigations, the
      registered `message` listeners and what they handed to their callbacks. */
  class HostWindow {
    const window: Option<WindowFacts>
    const allowedOriginsEnv: Option<string>  // NEXT_PUBLIC_ALLOWED_ORIGINS
    const nodeEnv: Option<string>            // NODE_ENV
    var outbox: seq<Effect>
    var listeners: seq<nat>                  // handles, in registration order
    var nextHandle: nat
    var inbox: seq<(nat, JsValue)>           // (listener, value passed to its onMessage)

    /** Every registered handle was handed out before `nextHandle`. */
    ghost predicate Valid()
      reads this
    {
      forall i :: 0 <= i < |listeners| ==> listeners[i] < nextHandle
    }

    constructor (window: Option<WindowFacts>, allowedOriginsEnv: Option<string>, nodeEnv: Option<string>)
      ensures this.window == window && this.allowedOriginsEnv == allowedOriginsEnv && this.nodeEnv == nodeEnv
      ensures Valid()
      ensures outbox == [] && listeners == [] && nextHandle == 0 && inbox == []
    {
      this.window := window;
      this.allowedOriginsEnv := allowedOriginsEnv;
      this.nodeEnv := nodeEnv;
      outbox := [];
      listeners := [];
      nextHandle := 0;
      inbox := [];
    }

    /** `sendMessageToParent`. `postThrows` says whether the chosen post
        call throws; the error is swallowed and `false` returned. */
    method SendMessageToParent(message: AuthPayload, postThrows: bool) returns (sent: bool)
      modifies this`outbox
      ensures sent <==> SelectRoute(window) != NoRoute && !postThrows
      ensures outbox == old(outbox) + Posted(window, allowedOriginsEnv, message, postThrows)
    {
      var env := DetectEnvironment(window);
      sent := false;
      if env.isWebView {
        var webView := window.value.reactNativeWebView;
        if webView.BridgePresent? && webView.hasPostMessage {
          if !postThrows {
            outbox := outbox + [BridgePost(message)];
            sent := true;
          }
        }
      } else if env.isPopup && window.value.opener != NoWindow {
        var targetOrigin := TargetOrigin(AllowedOrigins(allowedOriginsEnv));
        if !postThrows {
          outbox := outbox + [WindowPost(Opener, message, targetOrigin)];
          sent := true;
        }
      } else if env.isEmbedded && window.value.parent != NoWindow {
        var targetOrigin := TargetOrigin(AllowedOrigins(allowedOriginsEnv));
        if !postThrows {
          outbox := outbox + [WindowPost(Parent, message, targetOrigin)];
          sent := true;
        }
      }
    }

    /** `window.close()`. */
    method Close()
      modifies this`outbox
      ensures outbox == old(outbox) + [CloseWindow]
    {
      outbox := outbox + [CloseWindow];
    }

    /** `window.location.href = <scheme>://wallet-auth?data=...`. */
    method RedirectToApp(scheme: string, data: AuthPayload)
      modifies this`outbox
      ensures outbox == old(outbox) + [NavigateToApp(scheme, data)]
    {
      outbox := outbox + [NavigateToApp(scheme, data)];
    }

    /** `setupMessageListener`: registers a fresh handler; the handle stands
        for the cleanup function it returns. */
    method SetupMessageListener() returns (handle: nat)
      requires Valid()
      modifies this`listeners, this`nextHandle
      ensures Valid()
      ensures handle !in old(listeners) && listeners == old(listeners) + [handle]
      ensures handle == old(nextHandle) && nextHandle == handle + 1
    {
      handle := nextHandle;
      listeners := listeners + [handle];
      nextHandle := nextHandle + 1;
    }

    /** The cleanup function: removes exactly that handler. */
    method RemoveMessageListener(handle: nat)
      requires Valid()
      modifies this`listeners
      ensures Valid()
      ensures listeners == Without(old(listeners), handle)
    {
      listeners := Without(listeners, handle);
      forall i | 0 <= i < |listeners| ensures listeners[i] < nextHandle {
        assert listeners[i] in old(listeners);
      }
    }

    /** A `message` event reaches the window: every registered handler
        applies the filter and passes what survives to its callback. */
    method ReceiveMessage(origin: string, data: JsValue, parse: string -> Option<JsValue>)
      modifies this`inbox
      ensures var r := FilterMessage(IsProduction(nodeEnv), allowedOriginsEnv, origin, data, parse);
        inbox == old(inbox) + (if r.Some? then Fanout(listeners, r.value) else [])
    {
      var r := FilterMessage(IsProduction(nodeEnv), allowedOriginsEnv, origin, data, parse);
      if r.Some? {
        inbox := inbox + Fanout(listeners, r.value);
      }
    }
  }

  /** One delivery of `v` to each handler, in registration order. */
  function Fanout(handles: seq<nat>, v: JsValue): (r: seq<(nat, JsValue)>)
    ensures |r| == |handles|
    ensures forall i :: 0 <= i < |r| ==> r[i] == (handles[i], v)
  {
    seq(|handles|, i requires 0 <= i < |handles| => (handles[i], v))
  }

  function Without(handles: seq<nat>, h: nat): (r: seq<nat>)
    ensures forall x :: x in r <==> x in handles && x != h
  {
    if handles == [] then []
    else if handles[0] == h then Without(handles[1..], h)
    else [handles[0]] + Without(handles[1..], h)
  }

  /** Removing a handler keeps the others in registration order: removal
      distributes over any split of the list. */
  lemma {:induction false} WithoutAppend(a: seq<nat>, b: seq<nat>, h: nat)
    ensures Without(a + b, h) == Without(a, h) + Without(b, h)
  {
    if a != [] {
      assert (a + b)[0] == a[0] && (a + b)[1..] == a[1..] + b;
      WithoutAppend(a[1..], b, h);
      if a[0] != h {
        assert Without(a + b, h) == [a[0]] + (Without(a[1..], h) + Without(b, h));
      }
    } else {
      assert a + b == b;
    }
  }
}

/** The wallet-auth page: the nonce, the challenge text, the classification
    of connect and sign failures, and the session state machine with its
    handlers, effects and timers. Wallet calls (`connect`, `signMessageAsync`,
    `disconnect`) are requests the page records; their outcomes arrive as
    parameters of the events that settle them. Random bytes, clock readings
    and environment variables are parameters or constants of the page. */
module AuthPage {
  import opened JsValues
  import opened JsStrings
  import opened PostMessage

  type Byte = b: nat | b < 256

  // ---------------------------------------------------------------------
  // Nonce

  /** `byte.toString(16).padStart(2, '0')`: exactly two lower-case hex
      digits, high nibble first. */
  function ByteToHex(b: Byte): (h: string)
    ensures h == [DigitChar(b / 16), DigitChar(b % 16)]
  {
    PaddedHexDigits(b);
    PadStart(ToRadixString(b, 16), 2, '0')
  }

  /** A byte below 16 gets one hex digit and one `'0'` in front of it; a
      larger one gets two digits and no padding. */
  lemma PaddedHexDigits(b: Byte)
    ensures PadStart(ToRadixString(b, 16), 2, '0') == [DigitChar(b / 16), DigitChar(b % 16)]
  {
    if b >= 16 {
      assert ToRadixString(b / 16, 16) == [DigitChar(b / 16)];
    }
  }

  /** `Array.from(bytes, byteToHex)`. */
  function HexBytes(bytes: seq<Byte>): (hexes: seq<string>)
    ensures |hexes| == |bytes|
  {
    if bytes == [] then [] else [ByteToHex(bytes[0])] + HexBytes(bytes[1..])
  }

  /** `parts.join('')`. */
  function Concat(parts: seq<string>): string
  {
    if parts == [] then "" else parts[0] + Concat(parts[1..])
  }

  /** Every piece is two lower-case hex digits. */
  predicate HexPairs(parts: seq<string>)
  {
    forall i :: 0 <= i < |parts| ==>
      |parts[i]| == 2 && IsLowerHexDigit(parts[i][0]) && IsLowerHexDigit(parts[i][1])
  }

  lemma {:induction false} ByteHexesArePairs(bytes: seq<Byte>)
    ensures HexPairs(HexBytes(bytes))
  {
    if bytes != [] {
      ByteHexesArePairs(bytes[1..]);
      var hexes := HexBytes(bytes);
      assert hexes == [ByteToHex(bytes[0])] + HexBytes(bytes[1..]);
      forall i | 1 <= i < |hexes| ensures hexes[i] == HexBytes(bytes[1..])[i - 1] {
      }
    }
  }

  /** Joining hex pairs gives twice as many hex digits. */
  lemma {:induction false} ConcatPairs(parts: seq<string>)
    requires HexPairs(parts)
    ensures |Concat(parts)| == 2 * |parts|
    ensures forall i :: 0 <= i < |Concat(parts)| ==> IsLowerHexDigit(Concat(parts)[i])
  {
    if parts != [] {
      ConcatPairs(parts[1..]);
      var s := Concat(parts);
      assert s == parts[0] + Concat(parts[1..]);
      forall i | 0 <= i < |s| ensures IsLowerHexDigit(s[i]) {
        if i >= 2 {
          assert s[i] == Concat(parts[1..])[i - 2];
        }
      }
    }
  }

  /** `generateNonce`, given the 32 bytes `crypto.getRandomValues` fills in. */
  function GenerateNonce(random: seq<Byte>): (nonce: string)
    requires |random| == 32
    ensures |nonce| == 64
    ensures forall i :: 0 <= i < |nonce| ==> IsLowerHexDigit(nonce[i])
  {
    ByteHexesArePairs(random);
    ConcatPairs(HexBytes(random));
    Concat(HexBytes(random))
  }

  /** Reads a string of hex-digit pairs back into bytes. */
  function DecodeHex(s: string): seq<Byte>
  {
    if |s| < 2 then [] else [NibbleValue(s[0]) * 16 + NibbleValue(s[1])] + DecodeHex(s[2..])
  }

  /** The byte each hex pair stands for. */
  function PairValues(parts: seq<string>): seq<Byte>
    requires HexPairs(parts)
  {
    if parts == [] then []
    else [NibbleValue(parts[0][0]) * 16 + NibbleValue(parts[0][1])] + PairValues(parts[1..])
  }

  lemma DecodeHexCons(pair: string, rest: string)
    requires |pair| == 2
    ensures DecodeHex(pair + rest) == [NibbleValue(pair[0]) * 16 + NibbleValue(pair[1])] + DecodeHex(rest)
  {
    assert (pair + rest)[2..] == rest;
  }

  /** Decoding a join of hex pairs reads each pair back. */
  lemma {:induction false} DecodeConcat(parts: seq<string>)
    requires HexPairs(parts)
    ensures DecodeHex(Concat(parts)) == PairValues(parts)
  {
    if parts != [] {
      DecodeConcat(parts[1..]);
      DecodeHexCons(parts[0], Concat(parts[1..]));
    }
  }

  /** The two digits of a byte read back as that byte. */
  lemma ByteToHexDecodes(b: Byte)
    ensures |ByteToHex(b)| == 2
    ensures NibbleValue(ByteToHex(b)[0]) * 16 + NibbleValue(ByteToHex(b)[1]) == b
  {
    DigitValueOfChar(b / 16);
    DigitValueOfChar(b % 16);
  }

  /** Each byte's two digits read back as that byte. */
  lemma {:induction false} PairValuesOfHexBytes(bytes: seq<Byte>)
    ensures HexPairs(HexBytes(bytes)) && PairValues(HexBytes(bytes)) == bytes
  {
    ByteHexesArePairs(bytes);
    if bytes != [] {
      ByteToHexDecodes(bytes[0]);
      PairValuesOfHexBytes(bytes[1..]);
      assert HexBytes(bytes)[1..] == HexBytes(bytes[1..]);
      assert bytes == [bytes[0]] + bytes[1..];
    }
  }

  /** The hex text loses nothing: decoding the nonce gives the random bytes
      back. */
  lemma DecodeNonce(random: seq<Byte>)
    requires |random| == 32
    ensures DecodeHex(GenerateNonce(random)) == random
  {
    PairValuesOfHexBytes(random);
    DecodeConcat(HexBytes(random));
  }

  /** Distinct random bytes give distinct nonces. */
  lemma NonceInjective(r1: seq<Byte>, r2: seq<Byte>)
    requires |r1| == 32 && |r2| == 32
    requires GenerateNonce(r1) == GenerateNonce(r2)
    ensures r1 == r2
  {
    DecodeNonce(r1);
    DecodeNonce(r2);
  }

  // ---------------------------------------------------------------------
  // Challenge message

  const DefaultAppName := "Wallet Auth Service"
  const ClosingLine := "This request will not trigger any blockchain transaction or cost any gas fees."

  /** `process.env.NEXT_PUBLIC_APP_NAME || 'Wallet Auth Service'`. */
  function AppName(appNameEnv: Option<string>): (name: string)
    ensures !PresentText(appNameEnv) ==> name == DefaultAppName
    ensures PresentText(appNameEnv) ==> name == appNameEnv.value
  {
    if PresentText(appNameEnv) then appNameEnv.value else DefaultAppName
  }

  /** The lines of the challenge, when none of the inserted texts holds a
      line break. */
  function AuthMessageLines(appName: string, walletAddress: string, nonce: string,
                            chainId: nat, issuedAt: string): seq<string>
  {
    ["Sign in to " + appName, "", "Wallet: " + walletAddress, "Nonce: " + nonce,
     "Chain ID: " + ToRadixString(chainId, 10), "Issued At: " + issuedAt, "", ClosingLine]
  }

  /** `generateAuthMessage`; `issuedAt` is `new Date().toISOString()`. The
      challenge is its eight lines joined with line breaks. */
  function GenerateAuthMessage(appNameEnv: Option<string>, walletAddress: string, nonce: string,
                               chainId: nat, issuedAt: string): (m: string)
    ensures m == Join(AuthMessageLines(AppName(appNameEnv), walletAddress, nonce, chainId, issuedAt), '\n')
  {
    JoinOfEightLines(AuthMessageLines(AppName(appNameEnv), walletAddress, nonce, chainId, issuedAt));
    ("Sign in to " + AppName(appNameEnv)) + "\n"
    + "\n"
    + ("Wallet: " + walletAddress) + "\n"
    + ("Nonce: " + nonce) + "\n"
    + ("Chain ID: " + ToRadixString(chainId, 10)) + "\n"
    + ("Issued At: " + issuedAt) + "\n"
    + "\n"
    + ClosingLine
  }

  /** Joining eight lines, the second and the seventh of them blank. */
  lemma JoinOfEightLines(ls: seq<string>)
    requires |ls| == 8 && ls[1] == "" && ls[6] == ""
    ensures Join(ls, '\n')
            == ls[0] + "\n" + "\n" + ls[2] + "\n" + ls[3] + "\n" + ls[4] + "\n" + ls[5] + "\n" + "\n" + ls[7]
  {
    assert Join(ls[..1], '\n') == ls[0] by {
      assert ls[..1] == [ls[0]];
    }
    assert Join(ls[..2], '\n') == ls[0] + "\n" by {
      assert ls[..2] == ls[..1] + [ls[1]];
      JoinSnoc(ls[..1], ls[1], '\n');
    }
    assert Join(ls[..3], '\n') == ls[0] + "\n" + "\n" + ls[2] by {
      assert ls[..3] == ls[..2] + [ls[2]];
      JoinSnoc(ls[..2], ls[2], '\n');
    }
    assert Join(ls[..4], '\n') == ls[0] + "\n" + "\n" + ls[2] + "\n" + ls[3] by {
      assert ls[..4] == ls[..3] + [ls[3]];
      JoinSnoc(ls[..3], ls[3], '\n');
    }
    assert Join(ls[..5], '\n') == ls[0] + "\n" + "\n" + ls[2] + "\n" + ls[3] + "\n" + ls[4] by {
      assert ls[..5] == ls[..4] + [ls[4]];
      JoinSnoc(ls[..4], ls[4], '\n');
    }
    assert Join(ls[..6], '\n') == ls[0] + "\n" + "\n" + ls[2] + "\n" + ls[3] + "\n" + ls[4] + "\n" + ls[5] by {
      assert ls[..6] == ls[..5] + [ls[5]];
      JoinSnoc(ls[..5], ls[5], '\n');
    }
    assert Join(ls[..7], '\n') == ls[0] + "\n" + "\n" + ls[2] + "\n" + ls[3] + "\n" + ls[4] + "\n" + ls[5] + "\n" by {
      assert ls[..7] == ls[..6] + [ls[6]];
      JoinSnoc(ls[..6], ls[6], '\n');
    }
    assert Join(ls[..8], '\n') == ls[0] + "\n" + "\n" + ls[2] + "\n" + ls[3] + "\n" + ls[4] + "\n" + ls[5] + "\n" + "\n" + ls[7] by {
      assert ls[..8] == ls[..7] + [ls[7]];
      JoinSnoc(ls[..7], ls[7], '\n');
    }
    assert ls[..8] == ls;
  }

  lemma AbsentFromConcat(c: char, a: string, b: string)
    requires c !in a && c !in b
    ensures c !in a + b
  {
    forall i | 0 <= i < |a + b| ensures (a + b)[i] != c {
      if i >= |a| {
        assert (a + b)[i] == b[i - |a|];
      }
    }
  }

  /** The address, the nonce and the chain id each stand on a line of their
      own, under a fixed label, ahead of the closing notice. */
  lemma AuthMessageSplitsIntoLines(appNameEnv: Option<string>, walletAddress: string, nonce: string,
                                   chainId: nat, issuedAt: string)
    requires '\n' !in AppName(appNameEnv) && '\n' !in walletAddress
    requires '\n' !in nonce && '\n' !in issuedAt
    ensures Split(GenerateAuthMessage(appNameEnv, walletAddress, nonce, chainId, issuedAt), '\n')
            == AuthMessageLines(AppName(appNameEnv), walletAddress, nonce, chainId, issuedAt)[..7]
               + Split(ClosingLine, '\n')
  {
    var ls := AuthMessageLines(AppName(appNameEnv), walletAddress, nonce, chainId, issuedAt);
    assert ls == ls[..7] + [ls[7]];
    JoinSnoc(ls[..7], ls[7], '\n');
    var digits := ToRadixString(chainId, 10);
    assert forall i :: 0 <= i < |digits| ==> digits[i] != '\n';
    AbsentFromConcat('\n', "Sign in to ", AppName(appNameEnv));
    AbsentFromConcat('\n', "Wallet: ", walletAddress);
    AbsentFromConcat('\n', "Nonce: ", nonce);
    AbsentFromConcat('\n', "Chain ID: ", digits);
    AbsentFromConcat('\n', "Issued At: ", issuedAt);
    SplitJoinThen(ls[..7], '\n', ClosingLine);
  }

  lemma LabelledEqual(prefix: string, a: string, b: string)
    requires prefix + a == prefix + b
    ensures a == b
  {
    assert a == (prefix + a)[|prefix|..];
  }

  /** The signed text binds the signature to one address, one nonce and one
      chain: two challenges that read the same were built from the same
      three values. */
  lemma AuthMessageBindsInputs(appNameEnv: Option<string>,
                               address1: string, nonce1: string, chainId1: nat, issuedAt1: string,
                               address2: string, nonce2: string, chainId2: nat, issuedAt2: string)
    requires '\n' !in AppName(appNameEnv)
    requires '\n' !in address1 && '\n' !in nonce1 && '\n' !in issuedAt1
    requires '\n' !in address2 && '\n' !in nonce2 && '\n' !in issuedAt2
    requires GenerateAuthMessage(appNameEnv, address1, nonce1, chainId1, issuedAt1)
             == GenerateAuthMessage(appNameEnv, address2, nonce2, chainId2, issuedAt2)
    ensures address1 == address2 && nonce1 == nonce2 && chainId1 == chainId2 && issuedAt1 == issuedAt2
  {
    var m := GenerateAuthMessage(appNameEnv, address1, nonce1, chainId1, issuedAt1);
    var l1 := AuthMessageLines(AppName(appNameEnv), address1, nonce1, chainId1, issuedAt1);
    var l2 := AuthMessageLines(AppName(appNameEnv), address2, nonce2, chainId2, issuedAt2);
    AuthMessageSplitsIntoLines(appNameEnv, address1, nonce1, chainId1, issuedAt1);
    AuthMessageSplitsIntoLines(appNameEnv, address2, nonce2, chainId2, issuedAt2);
    SamePrefixOfSplit(l1[..7], l2[..7], Split(ClosingLine, '\n'), Split(m, '\n'));
    AuthMessageLinesBind(AppName(appNameEnv), address1, nonce1, chainId1, issuedAt1,
                         address2, nonce2, chainId2, issuedAt2);
  }

  lemma SamePrefixOfSplit(a: seq<string>, b: seq<string>, t: seq<string>, s: seq<string>)
    requires |a| == |b| && s == a + t && s == b + t
    ensures a == b
  {
    assert a == s[..|a|];
  }

  /** Equal leading lines carry equal address, nonce, chain id and timestamp. */
  lemma AuthMessageLinesBind(appName: string,
                             address1: string, nonce1: string, chainId1: nat, issuedAt1: string,
                             address2: string, nonce2: string, chainId2: nat, issuedAt2: string)
    requires AuthMessageLines(appName, address1, nonce1, chainId1, issuedAt1)[..7]
             == AuthMessageLines(appName, address2, nonce2, chainId2, issuedAt2)[..7]
    ensures address1 == address2 && nonce1 == nonce2 && chainId1 == chainId2 && issuedAt1 == issuedAt2
  {
    var l1 := AuthMessageLines(appName, address1, nonce1, chainId1, issuedAt1)[..7];
    var l2 := AuthMessageLines(appName, address2, nonce2, chainId2, issuedAt2)[..7];
    assert l1[2] == l2[2] && l1[3] == l2[3] && l1[4] == l2[4] && l1[5] == l2[5];
    LabelledEqual("Wallet: ", address1, address2);
    LabelledEqual("Nonce: ", nonce1, nonce2);
    LabelledEqual("Chain ID: ", ToRadixString(chainId1, 10), ToRadixString(chainId2, 10));
    LabelledEqual("Issued At: ", issuedAt1, issuedAt2);
    ToRadixStringInjective(chainId1, chainId2, 10);
  }

  // ---------------------------------------------------------------------
  // Failure classification

  /** The `catch` of `handleWalletConnect`: `err.message` is `message`. */
  function ClassifyConnectError(message: Option<string>): (c: ErrorCode)
    ensures c == UserRejected <==> message.Some? && Includes(message.value, "User rejected")
    ensures c == WalletNotDetected <==>
      message.Some? && !Includes(message.value, "User rejected") && Includes(message.value, "No wallet")
    ensures c in {UserRejected, WalletNotDetected, ConnectionFailed}
  {
    if message.Some? && Includes(message.value, "User rejected") then UserRejected
    else if message.Some? && Includes(message.value, "No wallet") then WalletNotDetected
    else ConnectionFailed
  }

  /** The `catch` of `handleMessageSigning`. */
  function ClassifySignError(message: Option<string>): (c: ErrorCode)
    ensures c == UserRejected <==> message.Some? && Includes(message.value, "User rejected")
    ensures c in {UserRejected, SignatureFailed}
  {
    if message.Some? && Includes(message.value, "User rejected") then UserRejected
    else SignatureFailed
  }

  /** A rejection text from the wallet is recognised wherever the phrase
      stands in it. */
  lemma RejectionRecognised(before: string, after: string)
    ensures ClassifyConnectError(Some(before + "User rejected" + after)) == UserRejected
    ensures ClassifySignError(Some(before + "User rejected" + after)) == UserRejected
  {
    IncludesWitness(before, "User rejected", after);
  }

  // ---------------------------------------------------------------------
  // Session state machine

  datatype AuthStep = SelectStep | ConnectingStep | SigningStep | SuccessStep | ErrorStep

  /** How an awaited `connect` call ends. */
  datatype ConnectOutcome = ConnectResolved | ConnectRejected(message: Option<string>)

  /** How an awaited `signMessageAsync` call ends. */
  datatype SignOutcome = SignResolved(signature: string) | SignRejected(message: Option<string>)

  /** A `signMessageAsync` call in flight, with what its continuation
      captured when it started. */
  datatype SignRequest = SignRequest(address: string, walletId: string, chainId: nat, message: string)

  const ProviderNotFoundText := "Wallet provider not found. Please try again."
  const DefaultAppScheme := "otm-app-v3"
  const InjectedId := "injected"

  /** `process.env.NEXT_PUBLIC_APP_SCHEME || 'otm-app-v3'`. */
  function AppScheme(appSchemeEnv: Option<string>): (scheme: string)
    ensures !PresentText(appSchemeEnv) ==> scheme == DefaultAppScheme
    ensures PresentText(appSchemeEnv) ==> scheme == appSchemeEnv.value
  {
    if PresentText(appSchemeEnv) then appSchemeEnv.value else DefaultAppScheme
  }

  /** No character above U+00FF. */
  predicate Latin1(s: string)
  {
    forall i :: 0 <= i < |s| ==> s[i] as int <= 0xFF
  }

  /** `btoa(JSON.stringify(p))` does not throw. `JSON.stringify` writes the
      keys, numbers and escapes in ASCII but copies every other character of
      a string field as it is, and `btoa` throws on any character above
      U+00FF. */
  predicate Base64Encodable(p: AuthPayload)
  {
    match p
    case AuthSuccess(d) => Latin1(d.address) && Latin1(d.signature) && Latin1(d.message) && Latin1(d.walletType)
    case AuthError(e) => Latin1(e.code) && Latin1(e.message)
  }

  /** What the 1500 ms timer after a success does: close a popup that has an
      opener, else send a web view back to the app through its URL scheme,
      else nothing (an embedded frame relies on its parent). In a web view,
      a result that `btoa` cannot encode throws before the navigation, so
      nothing happens either. */
  function AfterSuccess(w: Option<WindowFacts>, appSchemeEnv: Option<string>, result: AuthPayload)
    : (effects: seq<Effect>)
    ensures |effects| <= 1
    ensures effects == [CloseWindow] <==> w.Some? && w.value.opener.OtherWindow?
    ensures effects == [NavigateToApp(AppScheme(appSchemeEnv), result)] <==>
      && w.Some? && !w.value.opener.OtherWindow? && w.value.reactNativeWebView.BridgePresent?
      && Base64Encodable(result)
    ensures effects == [] <==>
      !(w.Some? && (w.value.opener.OtherWindow?
                    || (w.value.reactNativeWebView.BridgePresent? && Base64Encodable(result))))
  {
    var env := DetectEnvironment(w);
    if env.isPopup && w.value.opener != NoWindow then [CloseWindow]
    else if env.isWebView then
      if Base64Encodable(result) then [NavigateToApp(AppScheme(appSchemeEnv), result)] else []
    else []
  }

  /** Any character above U+00FF in the app name is copied into the signed
      challenge, so `btoa` cannot encode the success result. */
  lemma WideAppNameNotEncodable(appNameEnv: Option<string>, address: string, signature: string,
                                nonce: string, chainId: nat, issuedAt: string, walletId: string, now: int)
    requires !Latin1(AppName(appNameEnv))
    ensures var message := GenerateAuthMessage(appNameEnv, address, nonce, chainId, issuedAt);
      !Base64Encodable(CreateAuthSuccessMessage(address, signature, message, chainId, walletId, now))
  {
    var name := AppName(appNameEnv);
    var message := GenerateAuthMessage(appNameEnv, address, nonce, chainId, issuedAt);
    var i :| 0 <= i < |name| && name[i] as int > 0xFF;
    var head := "Sign in to " + name;
    assert head <= message;
    assert message[11 + i] == head[11 + i] == name[i];
  }

  /** An app name outside Latin-1 ends up in the signed challenge, so in a
      web view the success timer throws in `btoa` and never sends the user
      back to the app. */
  lemma WideAppNameBlocksRedirect(w: Option<WindowFacts>, appSchemeEnv: Option<string>,
                                  address: string, signature: string, nonce: string, chainId: nat,
                                  issuedAt: string, walletId: string, now: int)
    requires w.Some? && !w.value.opener.OtherWindow? && w.value.reactNativeWebView.BridgePresent?
    ensures var message := GenerateAuthMessage(Some("\U{94B1}\U{5305}"), address, nonce, chainId, issuedAt);
      AfterSuccess(w, appSchemeEnv, CreateAuthSuccessMessage(address, signature, message, chainId, walletId, now))
      == []
  {
    var name := "\U{94B1}\U{5305}";
    assert name[0] as int > 0xFF;
    WideAppNameNotEncodable(Some(name), address, signature, nonce, chainId, issuedAt, walletId, now);
  }

  function RemoveAt<T>(s: seq<T>, i: nat): seq<T>
    requires i < |s|
  {
    s[..i] + s[i + 1..]
  }

  /** `WalletAuthPage`: its React state, the wagmi account state it reads,
      the wallet requests it has made, and its pending timers. */
  class WalletAuthPage {
    // React state
    var isConnecting: bool
    var error: Option<string>
    var authStep: AuthStep
    var selectedWalletId: Option<string>
    var isClient: bool
    // wagmi account state, changed by the wallet library
    var isConnected: bool
    var address: Option<string>
    var chainId: Option<nat>
    // configuration
    const connectors: seq<string>        // ids of `useConnect().connectors`
    const appNameEnv: Option<string>     // NEXT_PUBLIC_APP_NAME
    const appSchemeEnv: Option<string>   // NEXT_PUBLIC_APP_SCHEME
    const host: HostWindow
    // requests made to the wallet library
    var connectRequests: seq<string>
    var pendingSigns: seq<SignRequest>
    var disconnectRequests: nat
    // timers
    var autoConnectTimer: bool           // the 500 ms auto-connect timer is set
    var successTimers: seq<AuthPayload>  // 1500 ms timers, with the result each captured
    /** Sign calls started since the step last became `connecting`. */
    ghost var signsThisEntry: nat

    /** At most one sign per entry into `connecting`, and none while the
        step is still `connecting`. */
    ghost predicate Valid()
      reads this
    {
      signsThisEntry <= 1 && (authStep == ConnectingStep ==> signsThisEntry == 0)
    }

    constructor (host: HostWindow, connectors: seq<string>, appNameEnv: Option<string>,
                 appSchemeEnv: Option<string>, isConnected: bool, address: Option<string>,
                 chainId: Option<nat>)
      ensures Valid()
      ensures this.host == host && this.connectors == connectors
      ensures this.appNameEnv == appNameEnv && this.appSchemeEnv == appSchemeEnv
      ensures this.isConnected == isConnected && this.address == address && this.chainId == chainId
      ensures !isConnecting && error == None && authStep == SelectStep && selectedWalletId == None
      ensures !isClient && connectRequests == [] && pendingSigns == [] && disconnectRequests == 0
      ensures !autoConnectTimer && successTimers == []
    {
      this.host := host;
      this.connectors := connectors;
      this.appNameEnv := appNameEnv;
      this.appSchemeEnv := appSchemeEnv;
      this.isConnected := isConnected;
      this.address := address;
      this.chainId := chainId;
      isConnecting := false;
      error := None;
      authStep := SelectStep;
      selectedWalletId := None;
      isClient := false;
      connectRequests := [];
      pendingSigns := [];
      disconnectRequests := 0;
      autoConnectTimer := false;
      successTimers := [];
      signsThisEntry := 0;
    }

    /** The mount effect: `setIsClient(true)`. */
    method Mount()
      modifies this`isClient
      ensures isClient
    {
      isClient := true;
    }

    /** The wallet library reports a new account state. */
    method AccountChanged(connected: bool, newAddress: Option<string>, newChainId: Option<nat>)
      modifies this`isConnected, this`address, this`chainId
      ensures isConnected == connected && address == newAddress && chainId == newChainId
    {
      isConnected := connected;
      address := newAddress;
      chainId := newChainId;
    }

    /** `handleWalletConnect` up to its `await connect(...)`. */
    method HandleWalletConnect(connectorId: string) returns (started: bool)
      requires Valid()
      modifies this
      ensures Valid()
      ensures started <==> !old(isConnecting) && connectorId in connectors
      ensures old(isConnecting) ==> unchanged(this)
      ensures !old(isConnecting) && connectorId !in connectors ==>
        && authStep == ErrorStep && error == Some(ProviderNotFoundText) && !isConnecting
        && selectedWalletId == old(selectedWalletId) && connectRequests == old(connectRequests)
      ensures started ==>
        && isConnecting && error == None && authStep == ConnectingStep
        && selectedWalletId == Some(connectorId)
        && connectRequests == old(connectRequests) + [connectorId]
        && signsThisEntry == 0
      ensures unchanged(this`isConnected, this`address, this`chainId, this`pendingSigns,
                        this`disconnectRequests, this`autoConnectTimer, this`successTimers, this`isClient)
      ensures host.outbox == old(host.outbox)
    {
      started := false;
      if isConnecting {
        return;
      }
      if connectorId !in connectors {
        error := Some(ProviderNotFoundText);
        authStep := ErrorStep;
        return;
      }
      isConnecting := true;
      error := None;
      authStep := ConnectingStep;
      signsThisEntry := 0;
      selectedWalletId := Some(connectorId);
      connectRequests := connectRequests + [connectorId];
      started := true;
    }

    /** The awaited `connect` settles: the `catch` and `finally` of
        `handleWalletConnect`. `postThrows` says whether posting the error
        to the host throws. */
    method ConnectSettled(outcome: ConnectOutcome, postThrows: bool)
      requires Valid() && isConnecting
      modifies this, host`outbox
      ensures Valid()
      ensures !isConnecting
      ensures outcome.ConnectResolved? ==>
        authStep == old(authStep) && error == old(error) && host.outbox == old(host.outbox)
      ensures outcome.ConnectRejected? ==>
        var c := ClassifyConnectError(outcome.message);
        && authStep == ErrorStep && error == Some(ErrorMessage(c))
        && host.outbox == old(host.outbox)
             + Posted(host.window, host.allowedOriginsEnv, CreateAuthErrorMessage(CodeName(c), ErrorMessage(c)), postThrows)
      ensures unchanged(this`isConnected, this`address, this`chainId, this`pendingSigns,
                        this`selectedWalletId, this`connectRequests, this`disconnectRequests,
                        this`autoConnectTimer, this`successTimers, this`isClient)
    {
      if outcome.ConnectRejected? {
        var errorCode := ClassifyConnectError(outcome.message);
        var errorMessage := ErrorMessage(errorCode);
        error := Some(errorMessage);
        authStep := ErrorStep;
        var _ := host.SendMessageToParent(CreateAuthErrorMessage(CodeName(errorCode), errorMessage), postThrows);
      }
      isConnecting := false;
    }

    /** `handleMessageSigning` up to its `await signMessageAsync(...)`. Its
        one caller, the auto-sign effect, runs it only in step
        `connecting`. `random` is what `crypto.getRandomValues` yields and
        `issuedAt` the clock reading. */
    method HandleMessageSigning(random: seq<Byte>, issuedAt: string) returns (started: bool)
      requires Valid() && authStep == ConnectingStep && |random| == 32
      modifies this
      ensures Valid()
      ensures started <==> PresentText(address) && PresentText(selectedWalletId) && chainId.Some?
      ensures !started ==> unchanged(this)
      ensures started ==>
        && authStep == SigningStep && signsThisEntry == 1
        && pendingSigns == old(pendingSigns) + [SignRequest(address.value, selectedWalletId.value, chainId.value,
             GenerateAuthMessage(appNameEnv, address.value, GenerateNonce(random), chainId.value, issuedAt))]
      ensures unchanged(this`isConnected, this`address, this`chainId, this`isConnecting, this`error,
                        this`selectedWalletId, this`connectRequests, this`disconnectRequests,
                        this`autoConnectTimer, this`successTimers, this`isClient)
    {
      if !PresentText(address) || !PresentText(selectedWalletId) || chainId.None? {
        return false;
      }
      authStep := SigningStep;
      signsThisEntry := signsThisEntry + 1;
      var nonce := GenerateNonce(random);
      var message := GenerateAuthMessage(appNameEnv, address.value, nonce, chainId.value, issuedAt);
      pendingSigns := pendingSigns + [SignRequest(address.value, selectedWalletId.value, chainId.value, message)];
      started := true;
    }

    /** The auto-sign effect: sign when connected, with an address, while
        the step is `connecting`. */
    method AutoSignEffect(random: seq<Byte>, issuedAt: string) returns (started: bool)
      requires Valid() && |random| == 32
      modifies this
      ensures Valid()
      ensures started <==>
        && isConnected && PresentText(address) && old(authStep) == ConnectingStep
        && PresentText(selectedWalletId) && chainId.Some?
      ensures !started ==> unchanged(this)
      ensures started ==>
        && authStep == SigningStep && signsThisEntry == 1
        && pendingSigns == old(pendingSigns) + [SignRequest(address.value, selectedWalletId.value, chainId.value,
             GenerateAuthMessage(appNameEnv, address.value, GenerateNonce(random), chainId.value, issuedAt))]
      ensures unchanged(this`isConnected, this`address, this`chainId, this`isConnecting, this`error,
                        this`selectedWalletId, this`connectRequests, this`disconnectRequests,
                        this`autoConnectTimer, this`successTimers, this`isClient)
    {
      started := false;
      if isConnected && PresentText(address) && authStep == ConnectingStep {
        started := HandleMessageSigning(random, issuedAt);
      }
    }

    /** The awaited `signMessageAsync` of request `i` settles. A non-empty
        signature is a success: the step becomes `success`, the result is
        posted, and the 1500 ms timer is set. An empty signature does
        nothing. A rejection is classified and posted as an error. `now` is
        `Date.now()`. */
    method SignSettled(i: nat, outcome: SignOutcome, now: int, postThrows: bool)
      requires Valid() && i < |pendingSigns|
      modifies this, host`outbox
      ensures Valid()
      ensures pendingSigns == RemoveAt(old(pendingSigns), i)
      ensures var req := old(pendingSigns[i]);
        outcome.SignResolved? && outcome.signature != "" ==>
          var result := CreateAuthSuccessMessage(req.address, outcome.signature, req.message,
                                                 req.chainId, req.walletId, now);
          && authStep == SuccessStep && error == old(error)
          && host.outbox == old(host.outbox) + Posted(host.window, host.allowedOriginsEnv, result, postThrows)
          && successTimers == old(successTimers) + [result]
      ensures outcome == SignResolved("") ==>
        authStep == old(authStep) && error == old(error) && host.outbox == old(host.outbox)
        && successTimers == old(successTimers)
      ensures outcome.SignRejected? ==>
        var c := ClassifySignError(outcome.message);
        && authStep == ErrorStep && error == Some(ErrorMessage(c))
        && host.outbox == old(host.outbox)
             + Posted(host.window, host.allowedOriginsEnv, CreateAuthErrorMessage(CodeName(c), ErrorMessage(c)), postThrows)
        && successTimers == old(successTimers)
      ensures unchanged(this`isConnected, this`address, this`chainId, this`isConnecting,
                        this`selectedWalletId, this`connectRequests, this`disconnectRequests,
                        this`autoConnectTimer, this`isClient)
    {
      var req := pendingSigns[i];
      pendingSigns := RemoveAt(pendingSigns, i);
      match outcome
      case SignResolved(signature) =>
        if signature != "" {
          authStep := SuccessStep;
          var authResult := CreateAuthSuccessMessage(req.address, signature, req.message,
                                                     req.chainId, req.walletId, now);
          var _ := host.SendMessageToParent(authResult, postThrows);
          successTimers := successTimers + [authResult];
        }
      case SignRejected(message) =>
        var errorCode := ClassifySignError(message);
        var errorMessage := ErrorMessage(errorCode);
        error := Some(errorMessage);
        authStep := ErrorStep;
        var _ := host.SendMessageToParent(CreateAuthErrorMessage(CodeName(errorCode), errorMessage), postThrows);
    }

    /** The 1500 ms timer set by success `i` fires. */
    method SuccessTimerFires(i: nat)
      requires i < |successTimers|
      modifies this`successTimers, host`outbox
      ensures successTimers == RemoveAt(old(successTimers), i)
      ensures host.outbox == old(host.outbox) + AfterSuccess(host.window, appSchemeEnv, old(successTimers[i]))
    {
      var authResult := successTimers[i];
      successTimers := RemoveAt(successTimers, i);
      var environment := DetectEnvironment(host.window);
      if environment.isPopup && host.window.value.opener != NoWindow {
        host.Close();
      } else if environment.isWebView {
        var appScheme := AppScheme(appSchemeEnv);
        // `btoa` throws on a result it cannot encode, ending the callback
        if Base64Encodable(authResult) {
          host.RedirectToApp(appScheme, authResult);
        }
      }
    }

    /** The reset effect: once the wallet is disconnected, any step other
        than `select` goes back to `select` with no wallet and no error. */
    method ResetOnDisconnectEffect()
      requires Valid()
      modifies this`authStep, this`selectedWalletId, this`error
      ensures Valid()
      ensures !isConnected && old(authStep) != SelectStep ==>
        authStep == SelectStep && selectedWalletId == None && error == None
      ensures isConnected || old(authStep) == SelectStep ==>
        authStep == old(authStep) && selectedWalletId == old(selectedWalletId) && error == old(error)
    {
      if !isConnected && authStep != SelectStep {
        authStep := SelectStep;
        selectedWalletId := None;
        error := None;
      }
    }

    /** The Try Again button, shown only in step `error`. */
    method TryAgain()
      requires Valid() && authStep == ErrorStep
      modifies this`authStep, this`selectedWalletId, this`error, this`disconnectRequests
      ensures Valid()
      ensures authStep == SelectStep && selectedWalletId == None && error == None
      ensures disconnectRequests == old(disconnectRequests) + 1
    {
      authStep := SelectStep;
      error := None;
      selectedWalletId := None;
      disconnectRequests := disconnectRequests + 1;
    }

    /** The auto-connect effect: its cleanup clears the previous timer, and
        in a web view that is not yet connected and offers the `injected`
        connector it sets a new 500 ms timer. */
    method AutoConnectEffect()
      modifies this`autoConnectTimer
      ensures autoConnectTimer <==>
        isClient && DetectEnvironment(host.window).isWebView && !isConnected
        && |connectors| > 0 && InjectedId in connectors
    {
      autoConnectTimer := false;
      var environment := DetectEnvironment(host.window);
      if isClient && environment.isWebView && !isConnected && |connectors| > 0 {
        if InjectedId in connectors {
          autoConnectTimer := true;
        }
      }
    }

    /** The 500 ms auto-connect timer fires: `handleWalletConnect('injected')`. */
    method AutoConnectTimerFires() returns (started: bool)
      requires Valid() && autoConnectTimer
      modifies this
      ensures Valid()
      ensures !autoConnectTimer
      ensures started <==> !old(isConnecting) && InjectedId in connectors
      ensures old(isConnecting) ==>
        && isConnecting && error == old(error) && authStep == old(authStep)
        && selectedWalletId == old(selectedWalletId) && connectRequests == old(connectRequests)
      ensures !old(isConnecting) && InjectedId !in connectors ==>
        && authStep == ErrorStep && error == Some(ProviderNotFoundText) && !isConnecting
        && selectedWalletId == old(selectedWalletId) && connectRequests == old(connectRequests)
      ensures started ==>
        && isConnecting && error == None && authStep == ConnectingStep
        && selectedWalletId == Some(InjectedId)
        && connectRequests == old(connectRequests) + [InjectedId]
      ensures unchanged(this`isConnected, this`address, this`chainId, this`pendingSigns,
                        this`disconnectRequests, this`successTimers, this`isClient)
      ensures host.outbox == old(host.outbox)
    {
      autoConnectTimer := false;
      started := HandleWalletConnect(InjectedId);
    }
  }

  /** Two "connected" notifications in a row start at most one signature
      request: the first one moves the step off `connecting`. */
  method ConnectedTwice(page: WalletAuthPage, r1: seq<Byte>, t1: string, r2: seq<Byte>, t2: string)
    returns (first: bool, second: bool)
    requires page.Valid() && |r1| == 32 && |r2| == 32
    modifies page
    ensures page.Valid()
    ensures !(first && second)
    ensures |page.pendingSigns| <= |old(page.pendingSigns)| + 1
  {
    first := page.AutoSignEffect(r1, t1);
    second := page.AutoSignEffect(r2, t2);
  }
}

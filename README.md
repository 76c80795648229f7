# Wallet authentication page — Dafny model

The wallet-auth service is a small Next.js page. A host opens it as a popup, an
iframe or a React Native web view. The page lets the user connect a browser
wallet through wagmi and asks the wallet to sign a challenge message (address,
random nonce, chain id, timestamp). It then hands the signed result, or a coded
error, back to the host over the single channel the host offers. After a
success it closes the popup or sends the web view back to the app through its
URL scheme.

This project models the logic that decides, not the rendering:

- `JsValues` (`js_values.dfy`): optional values and the untyped JavaScript
  values a `message` event carries.
- `JsStrings` (`js_strings.dfy`): the `String`/`Number` built-ins the code
  relies on (`includes`, `split`, `join`, `trim`, `padStart`,
  `toString(radix)`), each with its inverse or characterisation.
- `PostMessage` (`post_message.dfy`), from `lib/post-message.ts`:
  - environment detection and the origin allow-list;
  - channel selection in `sendMessageToParent`, with bridge before opener
    before parent;
  - the receiving-side filter of `setupMessageListener`;
  - the two result payloads;
  - the ten error codes and their fixed messages.

  The browser window is a `WindowFacts` record. Posts, closes and navigations
  are entries in the `outbox` of a `HostWindow` object.
- `WagmiConfig` (`wagmi_config.dfy`), from `lib/wagmi-config.ts`:
  - the flag classifier for `window.ethereum`;
  - the `SUPPORTED_WALLETS` table;
  - `getAvailableWallets`, written as a method that fills the `Set` step by
    step and deduplicates through a `Map`. It is proved equal to a value-level
    specification, whose properties are proved as lemmas.
- `AuthPage` (`auth_page.dfy`), from `app/page.tsx`:
  - the nonce and the challenge template;
  - failure classification;
  - the page as a class `WalletAuthPage`. Each handler, effect, timer and
    button is a method, and `Valid()` is its invariant.

  Each asynchronous handler is split at its `await`. The start method records
  a wallet request. A "settled" method takes the request's outcome as a
  parameter and runs the `catch`/`finally` or success continuation. React
  effects and timers are explicit event methods, called by whoever drives the
  model.

Random bytes, clock readings, environment variables and the outcomes of the
wallet library's `connect`/`signMessageAsync` are parameters. The connector
list of the wagmi configuration is also a parameter.

The model follows the code as written:
- There is no return-URL handling, no cached state, no polling for the
  provider and no "has signed" latch.
- The only guard against a second signature is the `authStep === 'connecting'`
  test of the auto-sign effect, together with the step change at the start of
  `handleMessageSigning`. `ConnectedTwice` shows that this guard suffices.
- Auto-connect is a single 500 ms timer per run of its effect.

## Model

| member | source | states |
|---|---|---|
| JsValues.Get | lib/post-message.ts:115 | A property read on a non-null value yields the field when the object has it, and `undefined` otherwise. |
| JsStrings.Includes | app/page.tsx:73-76 | `s.includes(sub)` holds iff `sub` occurs in `s` at some position (a definition, used by the error classifiers). |
| JsStrings.IncludesWitness | app/page.tsx:73 | `includes` finds a phrase wherever it stands in the text. |
| JsStrings.Split | lib/post-message.ts:52 | `split(',')` always yields at least one piece. |
| JsStrings.SplitPiecesLackSeparator | lib/post-message.ts:52 | No piece of a split holds the separator. |
| JsStrings.JoinSplit | lib/post-message.ts:52 | Joining the pieces of a split with the separator gives the original text. |
| JsStrings.SplitJoin | lib/post-message.ts:52 | Splitting a join of separator-free pieces gives the pieces back, in order. |
| JsStrings.JoinSnoc | app/page.tsx:32-39 | Appending a piece to a join adds exactly one separator and the piece. |
| JsStrings.SplitJoinThen | app/page.tsx:32-39 | Splitting separator-free lines, a separator and any tail gives the lines followed by the pieces of the tail. |
| JsStrings.SplitAfterFirst | app/page.tsx:32-39 | A split cuts at the first separator. |
| JsStrings.SplitJoinAt | lib/post-message.ts:52 | When no piece holds the separator, splitting their join gives as many pieces, and the k-th is the k-th joined piece. |
| JsStrings.TrimStart | lib/post-message.ts:52 | Removes a prefix made only of white space; the result starts with a non-space. |
| JsStrings.TrimEnd | lib/post-message.ts:52 | Removes a suffix made only of white space; the result ends with a non-space. |
| JsStrings.Trim | lib/post-message.ts:52 | `trim()` gives a text with no white space at either end, no longer than the input. |
| JsStrings.TrimCutsWhitespace | lib/post-message.ts:52 | What `trim` keeps is one contiguous slice of the input, and everything it cuts on either side is white space. |
| JsStrings.TrimKeepsAbsence | lib/post-message.ts:52 | `trim` adds no character, so a comma-free piece stays comma-free. |
| JsStrings.TrimOfTrimmed | lib/post-message.ts:52 | `trim` leaves a text that has no white space at its ends unchanged. |
| JsStrings.DigitChar | app/page.tsx:46 | Every digit `toString(16)` writes is a lower-case hex digit. |
| JsStrings.DigitValue | app/page.tsx:46 | Reading a digit is the inverse of writing it. |
| JsStrings.DigitValueOfChar | app/page.tsx:46 | Writing a digit value and reading it back gives that value. |
| JsStrings.ToRadixString | app/page.tsx:36-46 | `n.toString(radix)` is non-empty, has no leading zero, and uses only digits below the radix. |
| JsStrings.ParseToRadixString | app/page.tsx:36-46 | `toString(radix)` loses nothing: parsing its digits gives `n` back. |
| JsStrings.ToRadixStringInjective | app/page.tsx:36 | Distinct numbers have distinct decimal texts. |
| JsStrings.PadStart | app/page.tsx:46 | `padStart` returns a long-enough input unchanged and brings a shorter one to exactly the target length. |
| JsStrings.PadStartKeepsSuffix | app/page.tsx:46 | `padStart` only adds fill characters in front: the input is a suffix of the result. |
| PostMessage.FromJsToJs | lib/post-message.ts:1-20 | A host that reads a posted object by its `type` tag and fields gets exactly the page's result back. |
| PostMessage.CreateAuthSuccessMessage | lib/post-message.ts:132-148 | The success payload has type `WALLET_AUTH_SUCCESS`, and its `data` holds the five arguments unchanged with `timestamp` the clock reading. |
| PostMessage.CreateAuthErrorMessage | lib/post-message.ts:151-160 | The error payload has type `WALLET_AUTH_ERROR`, and its `error` holds the code and message unchanged. |
| PostMessage.CodeName | lib/post-message.ts:163-176 | Every code's wire string is a key of `ERROR_CODES` that maps to itself. |
| PostMessage.ErrorMessage | lib/post-message.ts:179-190 | A code's message is `ERROR_MESSAGES[ERROR_CODES[code]]`, defined for every code and never empty. |
| PostMessage.ErrorCodesNameThemselves | lib/post-message.ts:163-174 | Every `ERROR_CODES` value equals its key. |
| PostMessage.AllErrorCodesComplete | lib/post-message.ts:176 | The `ErrorCode` type has exactly the ten listed codes. |
| PostMessage.ErrorTablesCoverCodes | lib/post-message.ts:163-190 | The keys of `ERROR_CODES` are exactly the ten code names, and `ERROR_MESSAGES` is defined on exactly those keys. |
| PostMessage.ErrorCodeNamesAndMessagesInjective | lib/post-message.ts:179-190 | Distinct codes have distinct names and distinct messages. |
| PostMessage.DetectEnvironment | lib/post-message.ts:29-45 | Without a window: server, and nothing else. With one: `isWebView` iff the bridge is present; `isPopup` iff the opener is another window; `isEmbedded` iff the parent is not the window itself and it is no popup (never both); `isBrowser` iff none of the three. |
| PostMessage.TrimEach | lib/post-message.ts:52 | `map(origin => origin.trim())` trims each piece and keeps their number and order. |
| PostMessage.AllowedOrigins | lib/post-message.ts:48-53 | An unset or empty setting gives `['*']`. Otherwise there is one entry per comma-separated piece, in order, and the i-th entry is the i-th piece trimmed. |
| PostMessage.AllowedOriginsOfList | lib/post-message.ts:48-53 | A list of trimmed, comma-free origins, written comma-separated, is read back as exactly that list, in order. |
| PostMessage.AllowedOriginsArePieces | lib/post-message.ts:52 | The i-th allowed origin is the trimmed i-th comma piece of the setting and holds no comma. |
| PostMessage.IsValidOrigin | lib/post-message.ts:56-63 | An origin is valid iff the allow-list holds `'*'` or that exact origin; with no setting, every origin is valid. |
| PostMessage.IsValidOriginOfList | lib/post-message.ts:56-63 | With an explicit list of origins, validity is membership of `'*'` or of the origin in that list. |
| PostMessage.TargetOrigin | lib/post-message.ts:79-87 | The target origin is `'*'` when the list holds it, otherwise the first entry; it is always on the list. |
| PostMessage.Delivery | lib/post-message.ts:74-89 | The bridge gets the payload itself (as JSON text); the opener or the parent gets the payload object with the target origin from the allow-list. |
| PostMessage.SelectRoute | lib/post-message.ts:66-91 | The bridge is used iff it is present with `postMessage`. The opener is used iff there is no bridge and the opener is another window. The parent is used iff neither applies and the parent is another window. |
| PostMessage.RoutePrecedence | lib/post-message.ts:70-91 | In a web view only the bridge can be used (no fall-through). A plain browser or the server gets no channel. The opener route implies a popup, and the parent route implies an embedded page. |
| PostMessage.FilterMessage | lib/post-message.ts:103-121 | A string `event.data` is run through `JSON.parse`, any other value is used as it is. The message is forwarded, unchanged, iff its origin passes (or the mode is not production) and that value is truthy with a string `type`. A string that fails to parse is dropped. |
| PostMessage.PostedPayloadsPassFilter | lib/post-message.ts:103-121 | Every payload the page posts passes such a listener unchanged, unless the listener is in production and the origin is not allowed. |
| PostMessage.HostWindow.constructor | lib/post-message.ts:66-129 | A fresh window has posted nothing and has no listeners. |
| PostMessage.Posted | lib/post-message.ts:66-97 | One call posts at most once: nothing when there is no channel or the post throws, otherwise the delivery on the selected route. |
| PostMessage.HostWindow.SendMessageToParent | lib/post-message.ts:66-97 | Returns true iff a channel exists and the post does not throw. The outbox grows by exactly `Posted`: that one post (JSON text for the bridge; object and target origin for opener or parent), or nothing. |
| PostMessage.HostWindow.Close | app/page.tsx:120 | `window.close()` is recorded as one close effect. |
| PostMessage.HostWindow.RedirectToApp | app/page.tsx:124-127 | The navigation to `<scheme>://wallet-auth?data=…` is recorded with the scheme and the payload. |
| PostMessage.HostWindow.SetupMessageListener | lib/post-message.ts:100-123 | Registers one new handler with a handle not in use, and keeps every handle below the next one. |
| PostMessage.HostWindow.RemoveMessageListener | lib/post-message.ts:126-128 | The cleanup function removes exactly that handler and keeps the others. |
| PostMessage.HostWindow.ReceiveMessage | lib/post-message.ts:103-121 | A message event hands the filtered value to every registered handler, in registration order, or to none when the filter drops it. |
| PostMessage.Without | lib/post-message.ts:127 | Removing a handler keeps exactly the other handlers. |
| PostMessage.WithoutAppend | lib/post-message.ts:127 | Removal distributes over any split of the handler list, so the other handlers keep their registration order. |
| WagmiConfig.DetectWalletType | lib/wagmi-config.ts:32-45 | `null` without a window or without `ethereum`. Reading a `null` provider throws. Otherwise the precedence is `isMetaMask` > `isCoinbaseWallet` > `isBraveWallet` > `isRainbow` > `'injected'`, each case as an if-and-only-if. |
| WagmiConfig.SupportedWalletIdsAreKeys | lib/wagmi-config.ts:48-67 | Each `SUPPORTED_WALLETS` entry's `id` equals its key. |
| WagmiConfig.DetectedTypesWithoutEntry | lib/wagmi-config.ts:39-67 | `'coinbase'`, `'brave'` and `'rainbow'` have no table entry; `'metaMask'` and `'injected'` do. |
| WagmiConfig.InjectedWithProvider | lib/wagmi-config.ts:76 | The usable connectors are exactly those of type `injected` with a provider getter. |
| WagmiConfig.InjectedWithProviderAppend | lib/wagmi-config.ts:76 | The filter distributes over any split of the connector list, so the usable connectors keep their list order. |
| WagmiConfig.FirstIndex | lib/wagmi-config.ts:82-90 | The position of the first occurrence of an id. |
| WagmiConfig.FirstIndexInPrefix | lib/wagmi-config.ts:82-90 | Adding later ids does not move the first occurrence of an earlier one. |
| WagmiConfig.InsertionOrderSpec | lib/wagmi-config.ts:82-90 | The `Set` holds each added id once, exactly the ids added, iterated in order of first insertion. |
| WagmiConfig.TableEntries | lib/wagmi-config.ts:92-94 | The lookup with `filter(Boolean)` keeps only `SUPPORTED_WALLETS` values. |
| WagmiConfig.TableEntriesIds | lib/wagmi-config.ts:92-94 | Combines the three facts below for the lookup with `filter(Boolean)`. |
| WagmiConfig.TableEntriesCarryIds | lib/wagmi-config.ts:92-94 | The looked-up entries carry exactly the ids that have an entry, in order. |
| WagmiConfig.SupportedOnlyMembers | lib/wagmi-config.ts:92-94 | An id survives the lookup iff it was collected and has a table entry. |
| WagmiConfig.SupportedOnlyDistinct | lib/wagmi-config.ts:92-94 | The lookup keeps distinct ids distinct. |
| WagmiConfig.AvailableWalletsSpec | lib/wagmi-config.ts:70-98 | Every offered wallet is a table entry, and no id is offered twice. An id is offered iff it has an entry, `ethereum` is a provider, some usable injected connector exists, and the id was detected or belongs to such a connector. |
| WagmiConfig.SupportedOnlyKeepsOrder | lib/wagmi-config.ts:92-94 | Dropping the ids without an entry keeps the others in their relative order. |
| WagmiConfig.AvailableWalletsOrder | lib/wagmi-config.ts:82-97 | Offered wallets come in first-insertion order: the detected type first, then connector ids in list order. |
| WagmiConfig.AvailableWalletsEmpty | lib/wagmi-config.ts:71-80 | The list is empty without a window, without `ethereum`, or when no connector is injected with a provider getter. |
| WagmiConfig.AvailableWallets | lib/wagmi-config.ts:70-98 | `[]` without a window, without `ethereum` or without a usable injected connector. It throws iff `ethereum` is `null` and such a connector exists. Every entry returned is a `SUPPORTED_WALLETS` value. |
| WagmiConfig.NoneInjected | lib/wagmi-config.ts:76-80 | With no injected connector that has a provider getter, the filtered list is empty. |
| WagmiConfig.CollectWalletIds | lib/wagmi-config.ts:82-90 | The `Set` filled step by step holds the detected type and then the connector ids, in first-insertion order. |
| WagmiConfig.LastWithId | lib/wagmi-config.ts:97 | The value a `Map` keeps for an id is an item with that id, and there is one iff some item has that id. |
| WagmiConfig.InsertionOrderSnoc | lib/wagmi-config.ts:97 | Adding one more key extends the key order the way `Set.add` does. |
| WagmiConfig.DedupeById | lib/wagmi-config.ts:97 | The `Map` dedupe yields one item per id, in order of first occurrence, each the last item listed with that id. |
| WagmiConfig.DedupeDistinct | lib/wagmi-config.ts:97 | When the ids are already distinct, the dedupe returns the list unchanged. |
| WagmiConfig.InsertionOrderOfDistinct | lib/wagmi-config.ts:82-97 | Inserting distinct values keeps them all, in order. |
| WagmiConfig.LastWithIdOfDistinct | lib/wagmi-config.ts:97 | With distinct ids, each item is the one the `Map` keeps for its id. |
| WagmiConfig.GetAvailableWallets | lib/wagmi-config.ts:70-98 | The method (with its early returns, `Set` loop and `Map` dedupe) returns exactly the specified list, or throws exactly when the specification does. |
| AuthPage.ByteToHex | app/page.tsx:46 | Each byte becomes exactly two lower-case hex digits, high nibble first. |
| AuthPage.PaddedHexDigits | app/page.tsx:46 | `toString(16)` then `padStart(2, '0')` puts a `'0'` before a byte below 16 and leaves a two-digit one alone. |
| AuthPage.HexBytes | app/page.tsx:46 | `Array.from(bytes, …)` yields one text per byte. |
| AuthPage.ByteHexesArePairs | app/page.tsx:46 | Every byte's text is two lower-case hex digits. |
| AuthPage.Concat | app/page.tsx:46 | `join('')`: the pieces written one after another (a definition). |
| AuthPage.ConcatPairs | app/page.tsx:46 | Joining n hex pairs gives 2n hex digits. |
| AuthPage.GenerateNonce | app/page.tsx:43-47 | The nonce of 32 random bytes is 64 lower-case hex digits. |
| JsStrings.NibbleValue | app/page.tsx:46 | A hex digit's value is below 16. |
| AuthPage.DecodeHexCons | app/page.tsx:46 | Decoding reads a leading pair, then the rest. |
| AuthPage.DecodeConcat | app/page.tsx:46 | Decoding a join of hex pairs reads each pair back. |
| AuthPage.ByteToHexDecodes | app/page.tsx:46 | A byte's two digits read back as that byte. |
| AuthPage.PairValuesOfHexBytes | app/page.tsx:46 | The pairs of a byte sequence read back as that sequence. |
| AuthPage.DecodeNonce | app/page.tsx:43-47 | The nonce decodes back to the random bytes. |
| AuthPage.NonceInjective | app/page.tsx:43-47 | Distinct random bytes give distinct nonces. |
| AuthPage.AppName | app/page.tsx:29 | The app name is the setting when non-empty, else `Wallet Auth Service`. |
| AuthPage.GenerateAuthMessage | app/page.tsx:28-40 | The challenge is its eight lines (app name, blank, address, nonce, chain id, timestamp, blank, closing notice) joined with line breaks. |
| AuthPage.AuthMessageSplitsIntoLines | app/page.tsx:28-40 | When the inserted texts hold no line break, the challenge splits into the seven fixed-label lines (app name, blank, address, nonce, chain id, timestamp, blank) and then the closing notice. |
| AuthPage.AuthMessageBindsInputs | app/page.tsx:28-40 | When the app name, the addresses, the nonces and the timestamps contain no line break, two challenges that read the same carry the same address, nonce, chain id and timestamp. |
| AuthPage.AuthMessageLinesBind | app/page.tsx:34-37 | Equal address, nonce, chain-id and timestamp lines come from equal values. |
| AuthPage.ClassifyConnectError | app/page.tsx:67-79 | "User rejected" gives `USER_REJECTED`; otherwise "No wallet" gives `WALLET_NOT_DETECTED`; otherwise `CONNECTION_FAILED` (both directions). |
| AuthPage.ClassifySignError | app/page.tsx:135-144 | "User rejected" gives `USER_REJECTED`, and anything else gives `SIGNATURE_FAILED` (both directions). |
| AuthPage.RejectionRecognised | app/page.tsx:73 | A rejection text is recognised wherever the phrase stands in it. |
| AuthPage.AppScheme | app/page.tsx:124 | The scheme is the setting when non-empty, else `otm-app-v3`. |
| AuthPage.AfterSuccess | app/page.tsx:118-133 | The timer does at most one thing. It closes the window iff it is a popup with an opener. Otherwise it navigates to the app scheme with the result iff it runs in a web view and `btoa` can encode the result (no character above U+00FF). Otherwise it does nothing. |
| AuthPage.Latin1 | app/page.tsx:125 | A text `btoa` accepts: no character above U+00FF (a definition). |
| AuthPage.Base64Encodable | app/page.tsx:125 | `btoa(JSON.stringify(result))` does not throw iff every string field of the result is Latin-1 (a definition; keys, numbers and escapes are ASCII). |
| AuthPage.WideAppNameNotEncodable | app/page.tsx:29-125 | An app name with a character above U+00FF is copied into the signed challenge, so the success result cannot be encoded. |
| AuthPage.WideAppNameBlocksRedirect | app/page.tsx:29-127 | With an app name such as `钱包`, a web view gets no redirect after a success: `btoa` throws on the signed challenge. |
| AuthPage.WalletAuthPage.constructor | app/page.tsx:9-13 | Initial state: not connecting, no error, step `select`, no selected wallet, not yet mounted, nothing requested. |
| AuthPage.WalletAuthPage.Mount | app/page.tsx:23-25 | The mount effect marks the page as client-side. |
| AuthPage.WalletAuthPage.AccountChanged | app/page.tsx:16 | The account state is replaced by what the wallet library reports. |
| AuthPage.WalletAuthPage.HandleWalletConnect | app/page.tsx:50-66 | While connecting: a no-op. An unknown connector id: step `error` with the fixed text, `isConnecting` stays false, nothing is posted. Otherwise: `isConnecting`, error cleared, step `connecting`, wallet selected, one connect request made. |
| AuthPage.WalletAuthPage.ConnectSettled | app/page.tsx:66-88 | `isConnecting` is false after every outcome. A failure sets step `error` and the classified message, and posts the error payload with that code and message. |
| AuthPage.WalletAuthPage.HandleMessageSigning | app/page.tsx:92-101 | Does nothing unless address, selected wallet and chain are present. Otherwise it sets step `signing` and requests one signature of the challenge built from a fresh nonce. |
| AuthPage.WalletAuthPage.AutoSignEffect | app/page.tsx:155-159 | Signs iff connected, with an address, in step `connecting`, with a wallet and a chain. Then: step `signing`, one sign request of the challenge over a fresh nonce, other state kept. Otherwise nothing changes. |
| AuthPage.WalletAuthPage.SignSettled | app/page.tsx:101-151 | A non-empty signature: step `success`, the success payload posted, then the 1500 ms timer set with that payload. An empty one: nothing. A failure: step `error`, classified message, error payload posted. |
| AuthPage.WalletAuthPage.SuccessTimerFires | app/page.tsx:118-133 | The timer performs exactly `AfterSuccess` for the result it captured. |
| AuthPage.WalletAuthPage.ResetOnDisconnectEffect | app/page.tsx:162-168 | Disconnected outside `select`: back to `select`, no wallet, no error; otherwise nothing changes. |
| AuthPage.WalletAuthPage.TryAgain | app/page.tsx:311-316 | Back to `select` with no wallet and no error, and one disconnect request. |
| AuthPage.WalletAuthPage.AutoConnectEffect | app/page.tsx:171-186 | The 500 ms timer is pending iff mounted, in a web view, not connected, and the `injected` connector is offered; the previous one is cleared. |
| AuthPage.WalletAuthPage.AutoConnectTimerFires | app/page.tsx:179-181 | Firing clears the timer and runs `handleWalletConnect('injected')`: a no-op while connecting; step `error` with the fixed text when `injected` is not offered; otherwise connecting, error cleared, step `connecting`, `injected` selected, one connect request. The account state, sign requests, success timers and outbox are untouched. |
| AuthPage.ConnectedTwice | app/page.tsx:95-159 | Two "connected" notifications in a row start at most one signature request. |

`WalletAuthPage.Valid()` is kept by every handler. It says that at most one
signature is started per entry into `connecting`, and none while the step is
still `connecting`.

## Left out

- Rendering: JSX, CSS, the wallet buttons and status screens. The layout, the
  not-found page, the provider wiring, the test page and the build
  configuration are not part of this model.
- The wagmi configuration (chains, transports, RPC URLs) is left out. The
  connector list is an input: its ids for the page, and `Connector` records for
  `getAvailableWallets`.
- `JSON.stringify`, `JSON.parse`, `btoa` and `encodeURIComponent` are opaque.
  A bridge post and a redirect carry the payload itself. `JSON.parse` is a
  function parameter that may fail. Of `btoa` only whether it throws is
  modelled.
- Console logging is left out.
- Asynchrony and React scheduling: setter batching, stale closures and the
  order in which effects run are not modelled. The driver calls the event
  methods. The chain is not a dependency of the auto-sign effect, and nothing
  in the model re-runs an effect on its own.
- JavaScript numbers are integers here: chain ids, timestamps and bytes.
  Strings are sequences of characters, not UTF-16 code units.
- `err.message` is a string or absent. A thrown value whose `message` is of
  another type, or a thrown `null`, is not modelled.
- PostMessage.DetectEnvironment: on the server the source's result has no
  `isBrowser` member. The model reads it as `false`.
- WagmiConfig.TableEntries: ids that name inherited `Object.prototype` members
  (such as `toString`) would be truthy lookups in the source. The model treats
  the table as holding only its three keys.
- AuthPage.WalletAuthPage.SignSettled: a resolved but empty signature leaves
  the step at `signing`, as in the source.
- AuthPage.AuthMessageSplitsIntoLines: states the first seven lines exactly and
  the closing notice as `Split` of its text. It does not prove that the fixed
  notice holds no line break.
- PostMessage.HostWindow.SetupMessageListener: a handle stands for the handler
  closure and the cleanup function. Adding the same handler twice through the
  real `addEventListener` is not modelled.
- PostMessage.HostWindow.SendMessageToParent: `postThrows` covers only the
  post call itself throwing. Properties of the real window objects that throw
  on access are not modelled.

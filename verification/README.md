# Dark Reader background core: document registry, token guard, keep-alive shim

This project models in Dafny the control plane of the Dark Reader extension's
background page. It models three parts:

- **The document registry and message listener** (`TabManager`). The registry
  maps each tab to its frames. Each frame has one document record: document id,
  URL, page-lifecycle state, dark-theme flag, and the logical-clock value of the
  last broadcast the record received. Content scripts drive the registry with
  CONNECT, FORGET, FREEZE, RESUME, DARK_THEME_DETECTED and COLOR_SCHEME_CHANGE
  messages. A broadcast (`sendMessage`) advances the clock and pushes a fresh
  themed instruction to the ACTIVE or PASSIVE documents of the tabs that the
  browser's tab query returns. When only the active tab's host is to be
  updated, it reaches only the tabs on that host. A frame that resumes after
  missing a broadcast is caught up in its reply.
- **The picker-token guard** (`TokenManager`). It keeps one token per tab, in
  an in-memory cache and in persistent storage under `token-<tabId>`.
- **The Chromium MV2 keep-alive shim** (`makeChromiumHappy`). It sends a fixed
  dummy reply to every message whose tag is outside its eight-tag allow-list.
  Some allow-listed messages are answered by no listener: a RESUME from a frame
  that missed no broadcast, and a CONNECT whose connection message is empty.

Every operation is a pure function. The registry's transitions map one
`Registry` value to the next. The listener returns an `Outcome` that holds:

- the next registry;
- the value handed to `sendResponse`;
- the pushes sent through the tabs API;
- the argument of the colour-scheme callback, if that callback ran;
- whether the listener returned `true`;
- any work handed to a collaborator (a network fetch or a file download).

The theming callbacks (`getTabMessage`, `getConnectionMessage`) and
`getURLHostOrProtocol` are uninterpreted function parameters. Build flags are
a `Platform` value. The browser's tab query and the active tab's URL are
inputs to the broadcast.

Layout, one module per file:

- `wrappers.dfy`: `Option`.
- `messages.dfy`: one `Tag` datatype for every message kind the core
  distinguishes (the source
  spells the same tags `DOCUMENT_*`, `FRAME_*` and `CS_FRAME_*`), payloads,
  instructions, platforms, and the document id a push is addressed to.
- `registry.dfy`: records, the registry, its invariant `Valid`, the `Record*`
  transitions and the two active-tab queries.
- `broadcast.dfy`: `getTabURL`, the declarative `Broadcast`, and the
  loop-by-loop `SendToTabs`, which is proved equal to it.
- `router.dfy`: the message listener `Dispatch` and its per-message lemmas.
- `lifecycle.dfy`: whole histories of events, and the life of one frame.
- `decimal.dfy`: decimal notation of integers, used for `token-<tabId>`.
- `tokens.dfy`: the token guard.
- `keepalive.dfy`: the keep-alive shim.

Behaviour of the code worth noting:

- RESUME throws when the registry has no record for the frame: the listener
  reads `tabs[tabId][frameId].timestamp` (tab-manager.ts:119) before it
  records anything. Only the colour-scheme callback, which runs before the read,
  takes effect (`Router.ResumeUnknownFrameIgnored`).
- `isActiveTabDarkThemeDetected` answers `true` or `null`, never `false`.
- Forgetting every sub-frame of a tab leaves an empty frame map, and
  `canAccessActiveTab` still answers true for that tab.

## Model

| member | source | states |
|---|---|---|
| DocumentRegistry.RecordAdd | src/background/tab-manager.ts:201-218 | Connect bookkeeping puts an ACTIVE record at (tab, frame): not dark, stamped with the registry clock. It creates the tab's frame map if missing. Every other record and the clock are unchanged, and the invariant is kept. |
| DocumentRegistry.RecordForget | src/background/tab-manager.ts:245-259 | Forgetting frame 0 removes the whole tab. Forgetting a sub-frame removes only that frame, and is a no-op when the frame is absent. Other tabs are untouched. |
| DocumentRegistry.EmptyValid | src/background/tab-manager.ts:64-65 | The starting registry satisfies the invariant, and no tab is accessible in it. |
| DocumentRegistry.TabRemoved | src/background/tab-manager.ts:74-76 | Closing a tab removes that tab's key and all of its frames. Every other tab keeps its frame map, even an empty one. The clock and the invariant are kept. |
| DocumentRegistry.RecordFreeze | src/background/tab-manager.ts:220-229 | Succeeds exactly when the record exists. The record becomes FROZEN with a null URL. Its document id, timestamp and dark flag are kept. Every other record and the set of tabs are unchanged. |
| DocumentRegistry.RecordResume | src/background/tab-manager.ts:231-243 | Replaces the record by a fresh ACTIVE one stamped with the clock. It fails exactly when the tab has no frame map. Every other record and the set of tabs are unchanged. |
| DocumentRegistry.RecordDarkTheme | src/background/tab-manager.ts:128-130 | Sets the dark flag on an existing record. Every other record, the set of tabs and the clock are unchanged. A missing record is an error. |
| Router.AccessAfterDispatch | src/background/tab-manager.ts:365-368 | After a message, the UI can reach a tab exactly when the message connected one of its frames, or when the tab was reachable before and the message did not forget its top frame. |
| DocumentRegistry.IsActiveTabDarkThemeDetected | src/background/tab-manager.ts:370-376 | Never answers false. Answers true exactly when the active tab's top record has its dark flag set, and null otherwise. |
| Router.DarkThemeReportShows | src/background/tab-manager.ts:128-130 | After a top frame reports a dark theme, the UI sees it as detected for that tab, and the tab is accessible. |
| Router.FreshTopFrameClearsDarkTheme | src/background/tab-manager.ts:84-125 | A top frame that connects or resumes starts with no detected dark theme, and its tab is accessible to the UI. |
| Router.ClosedTabUnreachable | src/background/tab-manager.ts:74-76 | Once its tab is closed, the UI can neither access it nor see a dark theme for it. |
| Messages.Target | src/background/tab-manager.ts:183 | A push is addressed to a document id always on Chromium MV3, only when the id is non-empty on Chromium MV2, and never on other builds. |
| Broadcasting.TabUrlAsWritten | src/background/tab-manager.ts:261-286 | `getTabURL` as written: on Chromium MV3 a missing tab yields "abou:blank", which is not "about:blank". The other builds give "about:blank" for a missing tab, and otherwise the tab's own URL, or "about:blank" when it is empty. |
| Broadcasting.TabUrlTypo | src/background/tab-manager.ts:261-286 | As written, a missing tab's URL differs between Chromium MV3 and the other builds. |
| Broadcasting.TabUrl | src/background/tab-manager.ts:261-286 | The corrected `getTabURL`: a missing tab gives "about:blank" on every build. On MV3 the top record's URL is used, falling back to "about:blank" when it is empty or unknown; with no top record the script's result is used as returned, and "about:blank" only when the script fails. Elsewhere the tab's own URL is used, or "about:blank" when it is empty. |
| Broadcasting.Broadcast | src/background/tab-manager.ts:329-363 | A broadcast advances the clock by exactly one and keeps the same tabs recorded. |
| Broadcasting.BroadcastReachesSelected | src/background/tab-manager.ts:334-360 | Deliveries go exactly to the selected frames: open, recorded, ACTIVE or PASSIVE, and on the active host when so limited. Each delivered frame then carries the new clock. |
| Broadcasting.BroadcastTouchesOnlyTimestamps | src/background/tab-manager.ts:358-360 | A broadcast changes only timestamps and keeps every tab's frame set. Frames it does not reach keep their old record. |
| Broadcasting.OtherHostsSkipped | src/background/tab-manager.ts:332-347 | With only-active-tab set, a frame whose tab is on another host gets no delivery and keeps its timestamp. |
| Broadcasting.BroadcastKeepsValid | src/background/tab-manager.ts:329-360 | After a broadcast, every record's timestamp is still at most the clock. |
| Broadcasting.StampFrames | src/background/tab-manager.ts:338-361 | The per-frame pass over one tab stamps and collects exactly the deliveries of its selected frames. |
| Broadcasting.StampOpenTabs | src/background/tab-manager.ts:334-337 | The pass over the open, registered tabs yields the stamped registry and all deliveries. |
| Broadcasting.SendToTabs | src/background/tab-manager.ts:329-363 | The sequential pass computes exactly the declarative broadcast. |
| Router.SchemeReport | src/background/tab-manager.ts:189-199 | The colour-scheme callback gets the report's isDark exactly when the sender is frame 0. |
| Router.ConnectDocumentId | src/background/tab-manager.ts:91 | The document id of a connect is the browser's document id on Chromium builds and the extension context id on Firefox and Thunderbird. |
| Router.ConnectRecordsBuildDocumentId | src/background/tab-manager.ts:91-97 | The record a connect writes carries that per-build document id. |
| Router.Answer | src/background/tab-manager.ts:179-187 | Answering a frame hands the reply to `sendResponse` and makes exactly one push, carrying the same reply, to that tab and frame, addressed with the per-build send options. Nothing else in the outcome changes. |
| Router.Dispatch | src/background/tab-manager.ts:79-177 | The listener never moves the clock and keeps the invariant. The colour-scheme callback runs exactly for scheme-carrying tags from frame 0. Only CONNECT, RESUME and FETCH are answered. Pushes go to the sender's tab and frame with the same reply. UI messages leave the registry alone. |
| Router.ConnectRecordsDocument | src/background/tab-manager.ts:84-98 | CONNECT records the sender's frame as ACTIVE at the current clock and leaves other records alone. The connection-time instruction, if any, is the reply. The channel is not held open. |
| Router.ResumeCatchesUp | src/background/tab-manager.ts:114-126 | RESUME of a known frame replies if and only if the stored timestamp is below the clock. The reply is the tab-message instruction. The record then becomes fresh and ACTIVE at the clock. |
| Router.ResumeUnknownFrameIgnored | src/background/tab-manager.ts:114-119 | RESUME from an unknown frame or an incomplete sender changes nothing and answers nothing. |
| Router.ForgetDropsDocument | src/background/tab-manager.ts:101-107 | FORGET removes the sender's frame. From frame 0 it removes the whole tab. |
| Router.FreezeKeepsRecord | src/background/tab-manager.ts:109-112 | FREEZE keeps the document id, timestamp and dark flag, and nulls the URL. A missing record leaves the registry unchanged. |
| Lifecycle.RunFromEmpty | src/background/tab-manager.ts:64-65 | Every history from the starting registry keeps the invariant, and its clock equals the number of broadcasts. |
| Lifecycle.RunKeepsValid | src/background/tab-manager.ts:329-330 | Over any history of messages, broadcasts and tab closures in one build, timestamps never exceed the clock. The clock grows by exactly the number of broadcasts. |
| Lifecycle.FrozenFrameCaughtUp | src/background/tab-manager.ts:119-122 | A frame frozen through a broadcast gets the catch-up instruction when it resumes. |
| Lifecycle.FrameEndsInImpliedState | src/background/tab-manager.ts:84-126 | After any sequence of CONNECT, FREEZE, RESUME and FORGET from one frame, the frame's state is the one its last effective transition implies. |
| Decimal.IntToStringInjective | src/background/token-manager.ts:5 | Distinct tab ids render as distinct decimal strings. |
| PickerTokens.StorageKeyReadsBack | src/background/token-manager.ts:4-6 | A tab's key (`getStorageKey`) is `token-` followed by a decimal notation that reads back as the tab id. |
| PickerTokens.StorageKeyInjective | src/background/token-manager.ts:4-6 | Distinct tabs have distinct `token-<tabId>` keys. |
| PickerTokens.Create | src/background/token-manager.ts:13-20 | The tab's cache entry and storage key both hold the new token. Other tabs' entries are unchanged, and cache-storage agreement is kept. |
| PickerTokens.Validate | src/background/token-manager.ts:22-41 | A non-empty cached match validates at once without changes. Otherwise the stored token alone decides, and it overwrites the cache entry. Empty candidates never validate. Under agreement: valid if and only if the candidate is the non-empty stored token. |
| PickerTokens.Invalidate | src/background/token-manager.ts:43-48 | Both copies of the tab's token are gone, and other tabs are unchanged. |
| PickerTokens.Restart | src/background/token-manager.ts:29-31 | An unloaded background page has an empty cache and the same storage. |
| PickerTokens.InvalidateRevokes | src/background/token-manager.ts:43-48 | After invalidation, no candidate validates. |
| PickerTokens.RecreateSupersedes | src/background/token-manager.ts:17-19 | After re-creation, the old token fails and the new non-empty one validates. |
| PickerTokens.RestartTransparent | src/background/token-manager.ts:29-39 | When cache and storage agree, an unload does not change the answer. |
| PickerTokens.RunTracksLastIssued | src/background/token-manager.ts:13-48 | After any history, storage holds each tab's last unrevoked token and the cache agrees with it. A candidate then validates if and only if it is the tab's non-empty last unrevoked token. |
| Keepalive.ShimReply | src/background/make-chromium-happy.ts:10-26 | The shim replies, always with the fixed sentinel, if and only if the build is Chromium MV2 and the tag is outside the allow-list. |
| Keepalive.AllowListSize | src/background/make-chromium-happy.ts:14-24 | The allow-list has eight tags. |
| Keepalive.SilentOffChromiumMV2 | src/background/make-chromium-happy.ts:10-12 | No build other than Chromium MV2 ever gets a sentinel. |
| Keepalive.SentinelIsConstant | src/background/make-chromium-happy.ts:25 | The sentinel depends on neither the message nor the sender. |
| Keepalive.NoSentinelRace | src/background/make-chromium-happy.ts:21-23 | Whenever the registry listener answers a message, now or later, the shim stays silent on it. |
| Keepalive.UpToDateResumeUnanswered | src/background/tab-manager.ts:114-125 | On Chromium MV2, a RESUME from a recorded frame that missed no broadcast returns `true` without a reply, and the allow-listed shim stays silent too. |
| Keepalive.EmptyConnectUnanswered | src/background/tab-manager.ts:84-98 | On Chromium MV2, a CONNECT whose connection message is empty gets no reply from either listener and does not hold the channel open. |

## Left out

- The `chrome.*` runtime is left out. This covers message-listener
  registration, `tabs.sendMessage`, storage I/O, script injection,
  `updateContentScript` and `registerMailDisplayScript`. Pushes are an output
  set, and storage is a map.
- Loading and saving state through `StateManager` is an identity on the
  registry here. Its source is not part of this model.
- The network file loader behind FETCH is a `StartFetch` effect. The DOM
  download behind SAVE_FILE is a `Download` effect. Only the Thunderbird
  `chrome://` early reply is modelled in full.
- Several interleavings are not modelled. These are the `setTimeout`
  deferral, the promise ordering between connect-time message computation and
  the registry write, and the awaits inside the broadcast. The broadcast is
  one sequential pass, and a delivery's `inline` flag marks the synchronous
  case.
- Router.Dispatch: when a handler needs the sender's tab or frame id and one
  is missing, the model drops the message. The source sometimes proceeds
  partly. For example, CONNECT without a frame id records under the key
  `undefined`.
- `ASSERT` is treated as a diagnostic with no effect on control flow. Its
  source is not part of this model.
- The inline push path also calls `sendMessageResponse` with tab id 0. That
  extra send reaches no document and is not modelled.
- On Firefox, `makeFirefoxHappy` may consume a message before the listener
  sees it. Its source is not part of this model.
- `generateToken`'s randomness is left out. Tokens are opaque inputs.
- The timing of token writes is not modelled. `createPickerToken` does not
  await its storage write, so a validation that races the write is not
  modelled. Writes take effect at once.
- Decimal.IntToString: matches JavaScript's rendering of integers only up to
  2^53. Tab ids stay far below that.
- The UI, DOM and injection code, the messaging wrapper, and the type and tag
  declarations are left out. The declarations supply the `Tag` and `Payload`
  vocabulary only.

## Findings

| source | as written | input that shows it | evidently intended | confidence | as-written member | corrected member |
|---|---|---|---|---|---|---|
| src/background/tab-manager.ts:264 | On Chromium MV3, `getTabURL` returns "abou:blank" for a missing tab | `getTabURL(null)` on a Chromium MV3 build | "about:blank", the fallback used on every other path of the same function | high, not executed | Broadcasting.TabUrlAsWritten | Broadcasting.TabUrl |

/** The vocabulary shared by the background page, its content scripts and its
    UI surfaces: one tag datatype for every message kind the core
    distinguishes, the payloads the background core reads, and the build
    variants that change its behaviour.

    The repository spells the same tags three ways (`DOCUMENT_*` in the tab
    manager, `FRAME_*` in the type declarations, `CS_FRAME_*` in the string
    enum); `Tag` is the single abstract name for each. */
module Messages {
  import opened Wrappers

  /** Every message kind the core distinguishes. Others, such as the
      background-to-UI change notification and the debug messages, would
      take the listener's default branch. */
  datatype Tag =
    // content script -> background
    | DocumentConnect
    | DocumentForget
    | DocumentFreeze
    | DocumentResume
    | DarkThemeDetected
    | DarkThemeNotDetected
    | CsColorSchemeChange
    | Fetch
    // UI -> background
    | ApplyDevDynamicThemeFixes
    | ApplyDevInversionFixes
    | ApplyDevStaticThemes
    | ChangeSettings
    | UiColorSchemeChange
    | GetData
    | GetDevtoolsData
    | HideHighlights
    | LoadConfig
    | MarkNewsAsDisplayed
    | MarkNewsAsRead
    | ResetDevDynamicThemeFixes
    | ResetDevInversionFixes
    | ResetDevStaticThemes
    | SaveFile
    | SetTheme
    | SubscribeToChanges
    | ToggleActiveTab
    | UnsubscribeFromChanges
    // background -> content script
    | AddCssFilter
    | AddDynamicTheme
    | AddStaticTheme
    | AddSvgFilter
    | CleanUp
    | FetchResponse
    | UnsupportedSender

  /** Tags a content script sends to the background page. */
  predicate FromContentScript(t: Tag) {
    t.DocumentConnect? || t.DocumentForget? || t.DocumentFreeze? || t.DocumentResume? ||
    t.DarkThemeDetected? || t.DarkThemeNotDetected? || t.CsColorSchemeChange? || t.Fetch?
  }

  /** The part of a message body that the background core reads. */
  datatype Payload =
    | NoData
    | Scheme(isDark: bool)
    | FetchData(id: string, url: string)
    | FileData(name: string, content: string)
    | Opaque

  /** An inbound message: a tag and its body. */
  datatype Message = Message(tag: Tag, data: Payload) {

    /** The body has the shape the tag declares: colour-scheme reports carry
        `isDark`, FETCH carries an id and a url, SAVE_FILE a name and content.
        Tags whose body the core never reads accept any body. */
    predicate WellTyped() {
      match tag
      case DocumentConnect => data.Scheme?
      case DocumentResume => data.Scheme?
      case CsColorSchemeChange => data.Scheme?
      case UiColorSchemeChange => data.Scheme?
      case Fetch => data.FetchData?
      case SaveFile => data.FileData?
      case _ => true
    }
  }

  /** A themed instruction computed by the theming subsystem for one document.
      Its CSS or theme body is opaque to the background core. */
  datatype Instruction = Instruction(tag: Tag, body: string)

  /** The theming subsystem's synchronous callback: the instruction for a
      frame given its tab's URL, its own URL and whether it is the top frame. */
  type TabMessage = (string, Option<string>, bool) -> Instruction

  /** The theming subsystem's connection-time callback; it may produce no
      instruction. */
  type ConnectionMessage = (string, string, bool) -> Option<Instruction>

  /** A value the background page sends to a content script: a themed
      instruction or the answer to a FETCH. */
  datatype Reply =
    | Theme(instruction: Instruction)
    | FetchResult(id: string, data: Option<string>, error: Option<string>)

  /** The build variants whose compile-time flags change the core. */
  datatype Platform = ChromiumMV2 | ChromiumMV3 | FirefoxMV2 | Thunderbird

  /** The document id a push to a frame is addressed to, besides the tab and
      frame ids: always the sender's on Chromium MV3, only a non-empty one on
      Chromium MV2, none on the other builds. */
  function Target(p: Platform, documentId: Option<string>): (d: Option<string>)
    ensures d.Some? ==> d == documentId
    ensures p == ChromiumMV3 ==> d == documentId
    ensures p == FirefoxMV2 || p == Thunderbird ==> d == None
    ensures p == ChromiumMV2 ==> (d.Some? <==> documentId.Some? && documentId.value != "")
  {
    if p == ChromiumMV3 then documentId
    else if p == ChromiumMV2 && documentId.Some? && documentId.value != "" then documentId
    else None
  }
}

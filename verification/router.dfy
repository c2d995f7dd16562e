/** The background page's message listener: one inbound message, with the
    browser's description of its sender, becomes a new registry and the
    observable effects of handling it. */
module Router {
  import opened Wrappers
  import opened Messages
  import opened DocumentRegistry

  /** The sending tab, as the browser reports it. */
  datatype SenderTab = SenderTab(id: TabId, url: string)

  /** The browser's description of a message's sender. UI surfaces have no
      tab and no frame id; content scripts have both. `contextId` is the
      Firefox counterpart of Chromium's `documentId`. */
  datatype Sender = Sender(
    tab: Option<SenderTab>,
    frameId: Option<FrameId>,
    url: string,
    documentId: Option<DocumentId>,
    contextId: Option<DocumentId>)

  /** The callbacks the theming subsystem supplies at start-up. */
  datatype Theming = Theming(connectionMessage: ConnectionMessage, tabMessage: TabMessage)

  /** A message pushed to one frame through the tabs API. */
  datatype Push = Push(tab: TabId, frame: FrameId, documentId: Option<DocumentId>, reply: Reply)

  /** Work handed to collaborators outside this model. */
  datatype Effect = NoEffect | StartFetch(id: string, url: string) | Download(name: string, content: string)

  /** Everything handling one message produces: the next registry, the value
      given to `sendResponse` (if any), the targeted pushes, the argument of
      the colour-scheme callback (if it ran), whether the listener returned
      `true` to keep the response channel open, and collaborator work. */
  datatype Outcome = Outcome(
    registry: Registry,
    response: Option<Reply>,
    pushes: set<Push>,
    colorScheme: Option<bool>,
    asyncResponse: bool,
    effect: Effect)

  /** Tags whose message carries a colour-scheme report. */
  predicate ReportsScheme(t: Tag) {
    t == DocumentConnect || t == DocumentResume || t == CsColorSchemeChange || t == UiColorSchemeChange
  }

  /** Tags the listener answers, now or later, through `sendResponse`. */
  predicate Answered(t: Tag) {
    t == DocumentConnect || t == DocumentResume || t == Fetch
  }

  predicate StartsWith(s: string, prefix: string) {
    |prefix| <= |s| && s[..|prefix|] == prefix
  }

  /** The colour-scheme callback's argument: only the top frame's report is
      honoured, since a sub-frame's scheme can be overridden by its styles. */
  function SchemeReport(m: Message, sender: Sender): (b: Option<bool>)
    requires m.data.Scheme?
    ensures b.Some? <==> sender.frameId == Some(TopFrame)
    ensures b.Some? ==> b.value == m.data.isDark
  {
    if sender.frameId == Some(TopFrame) then Some(m.data.isDark) else None
  }

  /** The document id recorded on connect: the browser's document id on
      Chromium builds, the context id on Firefox and Thunderbird. */
  function ConnectDocumentId(p: Platform, sender: Sender): (d: Option<DocumentId>)
    ensures p.ChromiumMV2? || p.ChromiumMV3? ==> d == sender.documentId
    ensures p.FirefoxMV2? || p.Thunderbird? ==> d == sender.contextId
  {
    if p == ChromiumMV2 || p == ChromiumMV3 then sender.documentId else sender.contextId
  }

  /** The effects of answering one frame: the response on the open request
      and a push to the same frame. */
  function Answer(base: Outcome, p: Platform, documentId: Option<DocumentId>, tab: TabId, frame: FrameId, reply: Reply): (o: Outcome)
    ensures o.response == Some(reply)
    ensures |o.pushes| == 1
    ensures forall q | q in o.pushes :: q.tab == tab && q.frame == frame && q.reply == reply
    ensures forall q | q in o.pushes :: q.documentId == Target(p, documentId)
    ensures o.registry == base.registry && o.colorScheme == base.colorScheme
    ensures o.asyncResponse == base.asyncResponse && o.effect == base.effect
  {
    base.(response := Some(reply), pushes := {Push(tab, frame, Target(p, documentId), reply)})
  }

  /** The listener (`onMessage`). A handler that dereferences a missing
      sender tab or a missing record throws in the source; the model keeps the
      registry and drops the rest of that message, but keeps any colour-scheme
      callback that ran before the throw. A missing frame id does not throw in
      the source, which goes on with an `undefined` key; the model drops that
      message too. */
  function Dispatch(p: Platform, th: Theming, r: Registry, m: Message, sender: Sender): (o: Outcome)
    requires m.WellTyped()
    ensures o.registry.timestamp == r.timestamp
    ensures Valid(r) ==> Valid(o.registry)
    ensures o.colorScheme.Some? <==> ReportsScheme(m.tag) && sender.frameId == Some(TopFrame)
    ensures o.colorScheme.Some? ==> o.colorScheme.value == m.data.isDark
    ensures o.response.Some? || o.asyncResponse ==> Answered(m.tag)
    ensures forall q | q in o.pushes :: o.response == Some(q.reply) && Some(q.frame) == sender.frameId
                                        && sender.tab.Some? && q.tab == sender.tab.value.id
    ensures !FromContentScript(m.tag) ==> o.registry == r && o.response == None
  {
    var none := Outcome(r, None, {}, None, false, NoEffect);
    match m.tag
    case DocumentConnect =>
      var scheme := SchemeReport(m, sender);
      if sender.tab.None? || sender.frameId.None? then none.(colorScheme := scheme)
      else
        var tab := sender.tab.value;
        var frame := sender.frameId.value;
        var documentId := ConnectDocumentId(p, sender);
        var recorded := none.(registry := RecordAdd(r, documentId, tab.id, frame, sender.url), colorScheme := scheme);
        var connection := th.connectionMessage(tab.url, sender.url, frame == TopFrame);
        if connection.Some? then Answer(recorded, p, documentId, tab.id, frame, Theme(connection.value))
        else recorded
    case DocumentForget =>
      if sender.tab.None? || sender.frameId.None? then none
      else none.(registry := RecordForget(r, sender.tab.value.id, sender.frameId.value))
    case DocumentFreeze =>
      if sender.tab.None? || sender.frameId.None? then none
      else
        var frozen := RecordFreeze(r, sender.tab.value.id, sender.frameId.value);
        if frozen.Some? then none.(registry := frozen.value) else none
    case DocumentResume =>
      var scheme := SchemeReport(m, sender);
      if sender.tab.None? || sender.frameId.None? || !Has(r, sender.tab.value.id, sender.frameId.value) then
        none.(colorScheme := scheme)
      else
        var tab := sender.tab.value;
        var frame := sender.frameId.value;
        var resumed := RecordResume(r, tab.id, frame, sender.url, Target(p, sender.documentId));
        var base := none.(registry := resumed.value, colorScheme := scheme, asyncResponse := true);
        if r.tabs[tab.id][frame].timestamp < r.timestamp then
          Answer(base, p, sender.documentId, tab.id, frame, Theme(th.tabMessage(tab.url, Some(sender.url), frame == TopFrame)))
        else base
    case DarkThemeDetected =>
      if sender.tab.None? || sender.frameId.None? then none
      else
        var flagged := RecordDarkTheme(r, sender.tab.value.id, sender.frameId.value);
        if flagged.Some? then none.(registry := flagged.value) else none
    case Fetch =>
      if p == Thunderbird && StartsWith(m.data.url, "chrome://") then
        if sender.tab.None? || sender.frameId.None? then none
        else Answer(none.(asyncResponse := true), p, sender.documentId, sender.tab.value.id, sender.frameId.value,
                    FetchResult(m.data.id, None, None))
      else none.(asyncResponse := true, effect := StartFetch(m.data.id, m.data.url))
    case CsColorSchemeChange => none.(colorScheme := SchemeReport(m, sender))
    case UiColorSchemeChange => none.(colorScheme := SchemeReport(m, sender))
    case SaveFile =>
      if p == ChromiumMV3 then none else none.(effect := Download(m.data.name, m.data.content))
    case _ => none
  }

  /** A connecting frame is recorded ACTIVE, without a dark theme, at the
      current clock; the connection-time instruction, when there is one, is
      answered to that frame alone. */
  lemma ConnectRecordsDocument(p: Platform, th: Theming, r: Registry, m: Message, sender: Sender)
    requires m.tag == DocumentConnect && m.WellTyped()
    requires sender.tab.Some? && sender.frameId.Some?
    ensures var o := Dispatch(p, th, r, m, sender);
            var tab := sender.tab.value;
            var frame := sender.frameId.value;
            && Get(o.registry, tab.id, frame)
                 == Some(DocumentInfo(ConnectDocumentId(p, sender), Some(sender.url), Active, r.timestamp, false))
            && (forall t, f | t != tab.id || f != frame :: Get(o.registry, t, f) == Get(r, t, f))
            && o.response == (match th.connectionMessage(tab.url, sender.url, frame == TopFrame)
                              case Some(i) => Some(Theme(i))
                              case None => None)
            && !o.asyncResponse
  {
  }

  /** A resuming frame gets a catch-up instruction exactly when its record
      missed a broadcast; the reply is `th.tabMessage` applied to the sender's
      tab and frame URLs, and afterwards the record is a fresh ACTIVE one at
      the current clock. */
  lemma ResumeCatchesUp(p: Platform, th: Theming, r: Registry, m: Message, sender: Sender)
    requires m.tag == DocumentResume && m.WellTyped()
    requires sender.tab.Some? && sender.frameId.Some?
    requires Has(r, sender.tab.value.id, sender.frameId.value)
    ensures var o := Dispatch(p, th, r, m, sender);
            var tab := sender.tab.value;
            var frame := sender.frameId.value;
            && (o.response.Some? <==> r.tabs[tab.id][frame].timestamp < r.timestamp)
            && (o.response.Some? ==> o.response.value == Theme(th.tabMessage(tab.url, Some(sender.url), frame == TopFrame)))
            && Get(o.registry, tab.id, frame)
                 == Some(DocumentInfo(Target(p, sender.documentId), Some(sender.url), Active, r.timestamp, false))
            && (forall t, f | t != tab.id || f != frame :: Get(o.registry, t, f) == Get(r, t, f))
            && o.asyncResponse
  {
  }

  /** Resuming a frame the registry does not know throws in the source: the
      registry is untouched and nothing is answered. */
  lemma ResumeUnknownFrameIgnored(p: Platform, th: Theming, r: Registry, m: Message, sender: Sender)
    requires m.tag == DocumentResume && m.WellTyped()
    requires sender.tab.None? || sender.frameId.None? || !Has(r, sender.tab.value.id, sender.frameId.value)
    ensures var o := Dispatch(p, th, r, m, sender);
            o.registry == r && o.response == None && o.pushes == {} && !o.asyncResponse
  {
  }

  /** A frame that forgets itself disappears; when it is the top frame its
      whole tab goes. */
  lemma ForgetDropsDocument(p: Platform, th: Theming, r: Registry, m: Message, sender: Sender)
    requires m.tag == DocumentForget && m.WellTyped()
    requires sender.tab.Some? && sender.frameId.Some?
    ensures var o := Dispatch(p, th, r, m, sender);
            && !Has(o.registry, sender.tab.value.id, sender.frameId.value)
            && (sender.frameId.value == TopFrame ==> sender.tab.value.id !in o.registry.tabs)
            && o.response == None
  {
  }

  /** A freezing frame keeps its document id, timestamp and dark-theme flag. */
  lemma FreezeKeepsRecord(p: Platform, th: Theming, r: Registry, m: Message, sender: Sender)
    requires m.tag == DocumentFreeze && m.WellTyped()
    requires sender.tab.Some? && sender.frameId.Some?
    ensures var o := Dispatch(p, th, r, m, sender);
            var tab := sender.tab.value.id;
            var frame := sender.frameId.value;
            && (Has(r, tab, frame) <==> Has(o.registry, tab, frame))
            && (Has(r, tab, frame) ==>
                  var before := r.tabs[tab][frame];
                  o.registry.tabs[tab][frame]
                    == DocumentInfo(before.documentId, None, Frozen, before.timestamp, before.darkThemeDetected))
            && (!Has(r, tab, frame) ==> o.registry == r)
  {
  }

  /** A top frame's dark-theme report is what the UI then sees for its tab. */
  lemma DarkThemeReportShows(p: Platform, th: Theming, r: Registry, m: Message, sender: Sender)
    requires m.tag == DarkThemeDetected && m.WellTyped()
    requires sender.tab.Some? && sender.frameId == Some(TopFrame)
    requires Has(r, sender.tab.value.id, TopFrame)
    ensures var o := Dispatch(p, th, r, m, sender);
            && IsActiveTabDarkThemeDetected(o.registry, Some(sender.tab.value.id)) == Some(true)
            && CanAccessActiveTab(o.registry, Some(sender.tab.value.id))
  {
  }

  /** A top frame that connects or resumes starts without a detected dark
      theme, and its tab is accessible to the UI. */
  lemma FreshTopFrameClearsDarkTheme(p: Platform, th: Theming, r: Registry, m: Message, sender: Sender)
    requires (m.tag == DocumentConnect || m.tag == DocumentResume) && m.WellTyped()
    requires sender.tab.Some? && sender.frameId == Some(TopFrame)
    requires m.tag == DocumentResume ==> Has(r, sender.tab.value.id, TopFrame)
    ensures var o := Dispatch(p, th, r, m, sender);
            && IsActiveTabDarkThemeDetected(o.registry, Some(sender.tab.value.id)) == None
            && CanAccessActiveTab(o.registry, Some(sender.tab.value.id))
  {
  }

  /** Once its tab is closed the UI can no longer reach it. */
  lemma ClosedTabUnreachable(r: Registry, tab: TabId)
    ensures !CanAccessActiveTab(TabRemoved(r, tab), Some(tab))
    ensures IsActiveTabDarkThemeDetected(TabRemoved(r, tab), Some(tab)) == None
  {
  }

  /** The UI can reach a tab after a message exactly when the message
      connected one of its frames, or the tab was reachable before and the
      message did not forget its top frame. */
  lemma AccessAfterDispatch(p: Platform, th: Theming, r: Registry, m: Message, sender: Sender, t: TabId)
    requires m.WellTyped()
    ensures CanAccessActiveTab(Dispatch(p, th, r, m, sender).registry, Some(t)) <==>
              || (m.tag == DocumentConnect && sender.tab.Some? && sender.frameId.Some? && sender.tab.value.id == t)
              || (&& CanAccessActiveTab(r, Some(t))
                  && !(m.tag == DocumentForget && sender.tab.Some? && sender.tab.value.id == t
                       && sender.frameId == Some(TopFrame)))
  {
  }

  /** The document id a connect records, per build: the browser's document
      id on Chromium, the extension context id on Firefox and Thunderbird. */
  lemma ConnectRecordsBuildDocumentId(p: Platform, th: Theming, r: Registry, m: Message, sender: Sender)
    requires m.tag == DocumentConnect && m.WellTyped()
    requires sender.tab.Some? && sender.frameId.Some?
    ensures var info := Dispatch(p, th, r, m, sender).registry.tabs[sender.tab.value.id][sender.frameId.value];
            && (p.ChromiumMV2? || p.ChromiumMV3? ==> info.documentId == sender.documentId)
            && (p.FirefoxMV2? || p.Thunderbird? ==> info.documentId == sender.contextId)
  {
  }
}

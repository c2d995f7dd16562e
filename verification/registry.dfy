/** The background page's document registry: for every tab, the documents of
    its frames, each with a page-lifecycle state and the value of the logical
    clock at the last broadcast it received. Every transition is a pure
    function from one registry to the next; the state checkpointing around
    them (load before, save after) is the identity here. */
module DocumentRegistry {
  import opened Wrappers

  type TabId = int
  type FrameId = int
  type DocumentId = string

  /** The frame id of a tab's top-level document. */
  const TopFrame: FrameId := 0

  /** The Page Lifecycle API states. Only ACTIVE and FROZEN are ever written
      by the background page; the others are declared for future use. */
  datatype DocumentState = Active | Passive | Hidden | Frozen | Terminated | Discarded

  /** States whose documents receive broadcasts. */
  predicate Live(s: DocumentState) {
    s == Active || s == Passive
  }

  datatype DocumentInfo = DocumentInfo(
    documentId: Option<DocumentId>,
    url: Option<string>,
    state: DocumentState,
    timestamp: nat,
    darkThemeDetected: bool)

  /** tab id -> frame id -> document, plus the registry-wide logical clock. */
  datatype Registry = Registry(tabs: map<TabId, map<FrameId, DocumentInfo>>, timestamp: nat)

  /** The state the background page starts with. */
  const Empty := Registry(map[], 0)

  predicate Has(r: Registry, tab: TabId, frame: FrameId) {
    tab in r.tabs && frame in r.tabs[tab]
  }

  /** The record at (tab, frame), if any. */
  function Get(r: Registry, tab: TabId, frame: FrameId): Option<DocumentInfo> {
    if Has(r, tab, frame) then Some(r.tabs[tab][frame]) else None
  }

  /** A freshly (re)connected document, stamped with the clock `clock`. */
  function ActiveRecord(documentId: Option<DocumentId>, url: string, clock: nat): DocumentInfo {
    DocumentInfo(documentId, Some(url), Active, clock, false)
  }

  /** What every record satisfies in every reachable registry: it never claims
      a broadcast the registry has not made, its URL is unknown exactly while
      it is frozen, and its state is one the background page writes. */
  predicate RecordOk(info: DocumentInfo, clock: nat) {
    && info.timestamp <= clock
    && (info.state == Frozen <==> info.url.None?)
    && (info.state == Active || info.state == Frozen)
  }

  predicate Valid(r: Registry) {
    forall t, f | t in r.tabs && f in r.tabs[t] :: RecordOk(r.tabs[t][f], r.timestamp)
  }

  /** The starting registry satisfies the invariant. */
  lemma EmptyValid()
    ensures Valid(Empty)
    ensures forall t :: !CanAccessActiveTab(Empty, Some(t))
  {
  }

  /** Puts `info` at (tab, frame), creating the tab's frame map if needed. */
  function Put(r: Registry, tab: TabId, frame: FrameId, info: DocumentInfo): (r': Registry)
    ensures r'.timestamp == r.timestamp
    ensures Get(r', tab, frame) == Some(info)
    ensures forall t, f :: (t != tab || f != frame) ==> Get(r', t, f) == Get(r, t, f)
    ensures r'.tabs.Keys == r.tabs.Keys + {tab}
  {
    var frames := if tab in r.tabs then r.tabs[tab] else map[];
    r.(tabs := r.tabs[tab := frames[frame := info]])
  }

  /** DOCUMENT_CONNECT bookkeeping: inserts or replaces the record at
      (tab, frame) as an ACTIVE document stamped with the current clock. */
  function RecordAdd(r: Registry, documentId: Option<DocumentId>, tab: TabId, frame: FrameId, url: string): (r': Registry)
    ensures r'.timestamp == r.timestamp
    ensures Get(r', tab, frame) == Some(DocumentInfo(documentId, Some(url), Active, r.timestamp, false))
    ensures forall t, f :: (t != tab || f != frame) ==> Get(r', t, f) == Get(r, t, f)
    ensures r'.tabs.Keys == r.tabs.Keys + {tab}
    ensures Valid(r) ==> Valid(r')
  {
    Put(r, tab, frame, ActiveRecord(documentId, url, r.timestamp))
  }

  /** DOCUMENT_FORGET bookkeeping (and tab removal, with frame 0): forgetting
      the top frame drops the whole tab; forgetting a sub-frame drops only
      that frame and is a no-op when it is not recorded. */
  function RecordForget(r: Registry, tab: TabId, frame: FrameId): (r': Registry)
    ensures r'.timestamp == r.timestamp
    ensures frame == TopFrame ==> tab !in r'.tabs && r'.tabs.Keys == r.tabs.Keys - {tab}
    ensures frame != TopFrame ==> r'.tabs.Keys == r.tabs.Keys && !Has(r', tab, frame)
    ensures forall t, f :: t != tab ==> Get(r', t, f) == Get(r, t, f)
    ensures forall f :: f != frame && frame != TopFrame ==> Get(r', tab, f) == Get(r, tab, f)
    ensures !Has(r, tab, frame) && frame != TopFrame ==> r' == r
    ensures Valid(r) ==> Valid(r')
  {
    if frame == TopFrame then
      r.(tabs := r.tabs - {tab})
    else if Has(r, tab, frame) then
      r.(tabs := r.tabs[tab := r.tabs[tab] - {frame}])
    else
      r
  }

  /** Closing a tab forgets its top frame, hence every frame of the tab. */
  function TabRemoved(r: Registry, tab: TabId): (r': Registry)
    ensures tab !in r'.tabs
    ensures r'.tabs.Keys == r.tabs.Keys - {tab}
    ensures forall t | t in r'.tabs :: r'.tabs[t] == r.tabs[t]
    ensures forall t, f :: t != tab ==> Get(r', t, f) == Get(r, t, f)
    ensures r'.timestamp == r.timestamp
    ensures Valid(r) ==> Valid(r')
  {
    RecordForget(r, tab, TopFrame)
  }

  /** DOCUMENT_FREEZE bookkeeping: the record must exist (the source throws on
      a missing one, leaving the registry as it was); it becomes FROZEN with an
      unknown URL and keeps its document id, timestamp and dark-theme flag. */
  function RecordFreeze(r: Registry, tab: TabId, frame: FrameId): (r': Option<Registry>)
    ensures r'.Some? <==> Has(r, tab, frame)
    ensures r'.Some? ==> r'.value.timestamp == r.timestamp
    ensures r'.Some? ==> Get(r'.value, tab, frame) == Some(r.tabs[tab][frame].(state := Frozen, url := None))
    ensures r'.Some? ==> r'.value.tabs.Keys == r.tabs.Keys
    ensures r'.Some? ==> forall t, f :: (t != tab || f != frame) ==> Get(r'.value, t, f) == Get(r, t, f)
    ensures r'.Some? && Valid(r) ==> Valid(r'.value)
  {
    if Has(r, tab, frame) then
      var info := r.tabs[tab][frame];
      Some(Put(r, tab, frame, info.(state := Frozen, url := None)))
    else
      None
  }

  /** DOCUMENT_RESUME bookkeeping: replaces the record at (tab, frame) by a
      fresh ACTIVE record stamped with the current clock. The write indexes
      the tab's frame map, so it fails (None) when the tab is unknown. */
  function RecordResume(r: Registry, tab: TabId, frame: FrameId, url: string, documentId: Option<DocumentId>): (r': Option<Registry>)
    ensures r'.Some? <==> tab in r.tabs
    ensures r'.Some? ==> r'.value.timestamp == r.timestamp
    ensures r'.Some? ==> Get(r'.value, tab, frame) == Some(DocumentInfo(documentId, Some(url), Active, r.timestamp, false))
    ensures r'.Some? ==> r'.value.tabs.Keys == r.tabs.Keys
    ensures r'.Some? ==> forall t, f :: (t != tab || f != frame) ==> Get(r'.value, t, f) == Get(r, t, f)
    ensures r'.Some? && Valid(r) ==> Valid(r'.value)
  {
    if tab in r.tabs then Some(Put(r, tab, frame, ActiveRecord(documentId, url, r.timestamp))) else None
  }

  /** DARK_THEME_DETECTED bookkeeping: sets the flag on an existing record
      (the source throws on a missing one). */
  function RecordDarkTheme(r: Registry, tab: TabId, frame: FrameId): (r': Option<Registry>)
    ensures r'.Some? <==> Has(r, tab, frame)
    ensures r'.Some? ==> r'.value.timestamp == r.timestamp
    ensures r'.Some? ==> Get(r'.value, tab, frame) == Some(r.tabs[tab][frame].(darkThemeDetected := true))
    ensures r'.Some? ==> r'.value.tabs.Keys == r.tabs.Keys
    ensures r'.Some? ==> forall t, f :: (t != tab || f != frame) ==> Get(r'.value, t, f) == Get(r, t, f)
    ensures r'.Some? && Valid(r) ==> Valid(r'.value)
  {
    if Has(r, tab, frame) then
      Some(Put(r, tab, frame, r.tabs[tab][frame].(darkThemeDetected := true)))
    else
      None
  }

  /** Whether the UI may talk to the active tab: a tab is accessible as soon
      as it has a frame map, even one whose frames were all forgotten. */
  function CanAccessActiveTab(r: Registry, activeTab: Option<TabId>): bool {
    activeTab.Some? && activeTab.value in r.tabs
  }

  /** Whether the active tab's top document detected a dark theme of its own.
      The source answers `true` or `null`, never `false`. */
  function IsActiveTabDarkThemeDetected(r: Registry, activeTab: Option<TabId>): (b: Option<bool>)
    ensures b != Some(false)
    ensures b == Some(true) <==> activeTab.Some? && Has(r, activeTab.value, TopFrame)
                                   && r.tabs[activeTab.value][TopFrame].darkThemeDetected
  {
    if activeTab.Some? && Has(r, activeTab.value, TopFrame) && r.tabs[activeTab.value][TopFrame].darkThemeDetected
    then Some(true)
    else None
  }
}

/** The registry-wide broadcast: after a settings change the background page
    advances the logical clock and pushes a freshly computed instruction to
    the live documents of the open tabs (only those on the active tab's host
    when so asked), stamping each one it reaches with the new clock. */
module Broadcasting {
  import opened Wrappers
  import opened Messages
  import opened DocumentRegistry

  /** A tab as the browser's tab query reports it. Its URL is an input of the
      broadcast; in the source it comes from `getTabURL` (see `TabUrl`). */
  datatype OpenTab = OpenTab(url: string, active: bool)

  /** What a broadcast reads besides the registry, all of it inputs: the open
      tabs, the active tab's URL, the host-or-protocol function and the
      instruction callback, the last two left uninterpreted. */
  datatype Context = Context(
    platform: Platform,
    open: map<TabId, OpenTab>,
    activeUrl: string,
    hostOf: string -> string,
    tabMessage: TabMessage)

  /** A tab as the tabs API hands it to `getTabURL`. */
  datatype BrowserTab = BrowserTab(id: TabId, url: string)

  const AboutBlank := "about:blank"

  /** `getTabURL` exactly as written: on Chromium MV3 a missing tab yields the
      misspelt "abou:blank". `scripted` is the result of asking the tab's top
      frame for its location (None when the script fails). */
  function TabUrlAsWritten(p: Platform, r: Registry, tab: Option<BrowserTab>, scripted: Option<string>): (url: string)
    ensures tab.None? && p == ChromiumMV3 ==> url == "abou:blank" && url != AboutBlank
    ensures tab.None? && p != ChromiumMV3 ==> url == AboutBlank
    ensures tab.Some? && p != ChromiumMV3 ==> url == (if tab.value.url != "" then tab.value.url else AboutBlank)
  {
    if p == ChromiumMV3 then
      if tab.None? then "abou:blank"
      else if Has(r, tab.value.id, TopFrame) then
        var url := r.tabs[tab.value.id][TopFrame].url;
        if url.Some? && url.value != "" then url.value else AboutBlank
      else scripted.GetOr(AboutBlank)
    else if tab.Some? && tab.value.url != "" then tab.value.url
    else AboutBlank
  }

  /** The misspelling makes a missing tab's URL depend on the build. */
  lemma TabUrlTypo(r: Registry, scripted: Option<string>)
    ensures TabUrlAsWritten(ChromiumMV3, r, None, scripted) != TabUrlAsWritten(ChromiumMV2, r, None, scripted)
  {
  }

  /** `getTabURL` as intended: "about:blank" stands for every unknown URL on
      every build; a URL the browser or the registry knows is used as is. */
  function TabUrl(p: Platform, r: Registry, tab: Option<BrowserTab>, scripted: Option<string>): (url: string)
    ensures tab.None? ==> url == AboutBlank
    ensures p != ChromiumMV3 && tab.Some? ==> url == (if tab.value.url != "" then tab.value.url else AboutBlank)
    ensures p == ChromiumMV3 && tab.Some? && Has(r, tab.value.id, TopFrame) ==>
              var top := r.tabs[tab.value.id][TopFrame].url;
              url == (if top.Some? && top.value != "" then top.value else AboutBlank)
    ensures p == ChromiumMV3 && tab.Some? && !Has(r, tab.value.id, TopFrame) ==> url == scripted.GetOr(AboutBlank)
    ensures tab.Some? || p != ChromiumMV3 ==> url == TabUrlAsWritten(p, r, tab, scripted)
  {
    if tab.None? then AboutBlank else TabUrlAsWritten(p, r, tab, scripted)
  }

  /** One push: the instruction for (tab, frame), sent inline when the frame
      is the top frame of the focused tab and deferred to the next tick
      otherwise. */
  datatype Delivery = Delivery(tab: TabId, frame: FrameId, documentId: Option<DocumentId>, instruction: Instruction, inline: bool)

  datatype Sent = Sent(registry: Registry, deliveries: set<Delivery>)

  /** The frames a broadcast reaches: recorded, open in the browser, ACTIVE
      or PASSIVE, and, when only the active tab's site is to be updated, in a
      tab whose host equals the active tab's host. */
  predicate Selected(r: Registry, c: Context, onlyActiveHost: bool, tab: TabId, frame: FrameId) {
    && Has(r, tab, frame)
    && tab in c.open
    && Live(r.tabs[tab][frame].state)
    && (!onlyActiveHost || c.hostOf(c.open[tab].url) == c.hostOf(c.activeUrl))
  }

  function DeliveryTo(r: Registry, c: Context, tab: TabId, frame: FrameId): Delivery
    requires Has(r, tab, frame) && tab in c.open
  {
    var info := r.tabs[tab][frame];
    Delivery(tab, frame, Target(c.platform, info.documentId),
             c.tabMessage(c.open[tab].url, info.url, frame == TopFrame),
             c.open[tab].active && frame == TopFrame)
  }

  /** The deliveries to the selected frames of the tabs in `ts`. */
  function DeliveriesOf(r: Registry, c: Context, onlyActiveHost: bool, ts: set<TabId>): set<Delivery> {
    set t, f | t in ts && t in r.tabs && f in r.tabs[t] && Selected(r, c, onlyActiveHost, t, f)
      :: DeliveryTo(r, c, t, f)
  }

  /** The frames of `tab` after the broadcast with clock `clock`. */
  function StampTab(r: Registry, c: Context, onlyActiveHost: bool, tab: TabId, clock: nat): map<FrameId, DocumentInfo>
    requires tab in r.tabs
  {
    map f | f in r.tabs[tab] ::
      if Selected(r, c, onlyActiveHost, tab, f) then r.tabs[tab][f].(timestamp := clock) else r.tabs[tab][f]
  }

  /** The whole broadcast (`sendMessage`): the clock advances by one, and
      every selected frame gets the instruction and the new clock. */
  function Broadcast(r: Registry, c: Context, onlyActiveHost: bool): (s: Sent)
    ensures s.registry.timestamp == r.timestamp + 1
    ensures s.registry.tabs.Keys == r.tabs.Keys
  {
    var clock := r.timestamp + 1;
    Sent(Registry(StampTabs(r, c, onlyActiveHost, clock), clock),
         DeliveriesOf(r, c, onlyActiveHost, r.tabs.Keys))
  }

  /** A broadcast reaches exactly the selected frames, and each frame it
      reaches carries the new clock afterwards. */
  lemma BroadcastReachesSelected(r: Registry, c: Context, onlyActiveHost: bool)
    ensures var s := Broadcast(r, c, onlyActiveHost);
            && (forall d | d in s.deliveries ::
                  && Selected(r, c, onlyActiveHost, d.tab, d.frame)
                  && d == DeliveryTo(r, c, d.tab, d.frame)
                  && Has(s.registry, d.tab, d.frame)
                  && s.registry.tabs[d.tab][d.frame].timestamp == s.registry.timestamp)
            && (forall t, f | Selected(r, c, onlyActiveHost, t, f) :: DeliveryTo(r, c, t, f) in s.deliveries)
  {
  }

  /** A broadcast changes nothing but timestamps, the same frames stay
      recorded, and frames it does not reach keep their old timestamp. */
  lemma BroadcastTouchesOnlyTimestamps(r: Registry, c: Context, onlyActiveHost: bool)
    ensures var s := Broadcast(r, c, onlyActiveHost);
            && (forall t | t in r.tabs :: t in s.registry.tabs && s.registry.tabs[t].Keys == r.tabs[t].Keys)
            && (forall t, f | Has(r, t, f) ::
                  s.registry.tabs[t][f] == r.tabs[t][f].(timestamp := s.registry.tabs[t][f].timestamp))
            && (forall t, f | Has(r, t, f) && !Selected(r, c, onlyActiveHost, t, f) ::
                  s.registry.tabs[t][f] == r.tabs[t][f])
  {
  }

  /** With `onlyUpdateActiveTab`, a frame of a tab on another host gets
      nothing and keeps its timestamp. */
  lemma OtherHostsSkipped(r: Registry, c: Context, tab: TabId, frame: FrameId)
    requires Has(r, tab, frame) && tab in c.open
    requires c.hostOf(c.open[tab].url) != c.hostOf(c.activeUrl)
    ensures var s := Broadcast(r, c, true);
            && (forall d | d in s.deliveries :: d.tab != tab)
            && s.registry.tabs[tab][frame] == r.tabs[tab][frame]
  {
    BroadcastReachesSelected(r, c, true);
    BroadcastTouchesOnlyTimestamps(r, c, true);
  }

  /** A broadcast keeps every record's timestamp at most the clock. */
  lemma BroadcastKeepsValid(r: Registry, c: Context, onlyActiveHost: bool)
    requires Valid(r)
    ensures Valid(Broadcast(r, c, onlyActiveHost).registry)
  {
  }

  /** Every tab's frames after the broadcast with clock `clock`. */
  function StampTabs(r: Registry, c: Context, onlyActiveHost: bool, clock: nat): map<TabId, map<FrameId, DocumentInfo>> {
    map t | t in r.tabs :: StampTab(r, c, onlyActiveHost, t, clock)
  }

  /** The deliveries to the selected frames `fs` of `tab`. */
  function FrameDeliveries(r: Registry, c: Context, onlyActiveHost: bool, tab: TabId, fs: set<FrameId>): set<Delivery> {
    set f | f in fs && Selected(r, c, onlyActiveHost, tab, f) :: DeliveryTo(r, c, tab, f)
  }

  lemma FrameDeliveriesStep(r: Registry, c: Context, onlyActiveHost: bool, tab: TabId, fs: set<FrameId>, f: FrameId)
    ensures FrameDeliveries(r, c, onlyActiveHost, tab, fs + {f})
         == FrameDeliveries(r, c, onlyActiveHost, tab, fs)
          + (if Selected(r, c, onlyActiveHost, tab, f) then {DeliveryTo(r, c, tab, f)} else {})
  {
  }

  lemma DeliveriesOfOneTab(r: Registry, c: Context, onlyActiveHost: bool, tab: TabId)
    requires tab in r.tabs
    ensures DeliveriesOf(r, c, onlyActiveHost, {tab}) == FrameDeliveries(r, c, onlyActiveHost, tab, r.tabs[tab].Keys)
  {
  }

  lemma DeliveriesOfStep(r: Registry, c: Context, onlyActiveHost: bool, ts: set<TabId>, tab: TabId)
    ensures DeliveriesOf(r, c, onlyActiveHost, ts + {tab})
         == DeliveriesOf(r, c, onlyActiveHost, ts) + DeliveriesOf(r, c, onlyActiveHost, {tab})
  {
  }

  /** Tabs the browser does not report receive nothing. */
  lemma UnopenedTabsUntouched(r: Registry, c: Context, onlyActiveHost: bool, ts: set<TabId>, clock: nat)
    requires ts !! c.open.Keys
    ensures DeliveriesOf(r, c, onlyActiveHost, ts) == {}
    ensures forall t | t in ts && t in r.tabs :: StampTab(r, c, onlyActiveHost, t, clock) == r.tabs[t]
  {
  }

  /** Loop invariant of the pass over tabs: the tabs still in `todo` are as
      they were, every other tab is stamped. */
  predicate StampedExcept(r: Registry, c: Context, onlyActiveHost: bool, clock: nat,
                          tabs: map<TabId, map<FrameId, DocumentInfo>>, todo: set<TabId>)
  {
    && tabs.Keys == r.tabs.Keys
    && forall t | t in tabs :: tabs[t] == if t in todo then r.tabs[t] else StampTab(r, c, onlyActiveHost, t, clock)
  }

  lemma StampedStep(r: Registry, c: Context, onlyActiveHost: bool, clock: nat,
                    tabs: map<TabId, map<FrameId, DocumentInfo>>, todo: set<TabId>, t: TabId,
                    frames: map<FrameId, DocumentInfo>)
    requires StampedExcept(r, c, onlyActiveHost, clock, tabs, todo)
    requires t in todo && t in r.tabs && frames == StampTab(r, c, onlyActiveHost, t, clock)
    ensures StampedExcept(r, c, onlyActiveHost, clock, tabs[t := frames], todo - {t})
  {
  }

  lemma AllTabsStamped(r: Registry, c: Context, onlyActiveHost: bool, clock: nat, tabs: map<TabId, map<FrameId, DocumentInfo>>)
    requires StampedExcept(r, c, onlyActiveHost, clock, tabs, {})
    ensures tabs == StampTabs(r, c, onlyActiveHost, clock)
  {
  }

  /** Loop invariant of the pass over one tab's frames: the frames in `done`
      are stamped if selected, the others are as they were. */
  predicate FramesStampedWithin(r: Registry, c: Context, onlyActiveHost: bool, tab: TabId, clock: nat,
                                frames: map<FrameId, DocumentInfo>, done: set<FrameId>)
    requires tab in r.tabs
  {
    && frames.Keys == r.tabs[tab].Keys
    && forall f | f in frames ::
         frames[f] == if f in done && Selected(r, c, onlyActiveHost, tab, f)
                      then r.tabs[tab][f].(timestamp := clock) else r.tabs[tab][f]
  }

  lemma FramesStep(r: Registry, c: Context, onlyActiveHost: bool, tab: TabId, clock: nat,
                   frames: map<FrameId, DocumentInfo>, done: set<FrameId>, f: FrameId)
    requires tab in r.tabs && f in r.tabs[tab] && f !in done
    requires FramesStampedWithin(r, c, onlyActiveHost, tab, clock, frames, done)
    ensures FramesStampedWithin(r, c, onlyActiveHost, tab, clock,
              if Selected(r, c, onlyActiveHost, tab, f) then frames[f := r.tabs[tab][f].(timestamp := clock)] else frames,
              done + {f})
  {
  }

  lemma AllFramesStamped(r: Registry, c: Context, onlyActiveHost: bool, tab: TabId, clock: nat,
                         frames: map<FrameId, DocumentInfo>)
    requires tab in r.tabs
    requires FramesStampedWithin(r, c, onlyActiveHost, tab, clock, frames, r.tabs[tab].Keys)
    ensures frames == StampTab(r, c, onlyActiveHost, tab, clock)
  {
  }

  /** Some element of a non-empty set. */
  method Pick<T>(s: set<T>) returns (x: T)
    requires s != {}
    ensures x in s
  {
    x :| x in s;
  }

  /** The inner `forEach` over one tab's frames: stamps and collects the
      deliveries of the selected frames, one frame at a time. */
  method StampFrames(r: Registry, c: Context, onlyActiveHost: bool, tab: TabId, clock: nat)
    returns (frames: map<FrameId, DocumentInfo>, out: set<Delivery>)
    requires tab in r.tabs
    ensures frames == StampTab(r, c, onlyActiveHost, tab, clock)
    ensures out == DeliveriesOf(r, c, onlyActiveHost, {tab})
  {
    frames := r.tabs[tab];
    out := {};
    var todo := r.tabs[tab].Keys;
    ghost var done: set<FrameId> := {};
    while todo != {}
      invariant todo !! done && todo + done == r.tabs[tab].Keys
      invariant FramesStampedWithin(r, c, onlyActiveHost, tab, clock, frames, done)
      invariant out == FrameDeliveries(r, c, onlyActiveHost, tab, done)
      decreases todo
    {
      var f := Pick(todo);
      FrameDeliveriesStep(r, c, onlyActiveHost, tab, done, f);
      FramesStep(r, c, onlyActiveHost, tab, clock, frames, done, f);
      if Selected(r, c, onlyActiveHost, tab, f) {
        frames := frames[f := r.tabs[tab][f].(timestamp := clock)];
        out := out + {DeliveryTo(r, c, tab, f)};
      }
      todo := todo - {f};
      done := done + {f};
    }
    DeliveriesOfOneTab(r, c, onlyActiveHost, tab);
    AllFramesStamped(r, c, onlyActiveHost, tab, clock, frames);
  }

  /** The outer `forEach` over the open tabs that the registry knows. */
  method StampOpenTabs(r: Registry, c: Context, onlyActiveHost: bool, clock: nat)
    returns (tabs: map<TabId, map<FrameId, DocumentInfo>>, sent: set<Delivery>)
    ensures tabs == StampTabs(r, c, onlyActiveHost, clock)
    ensures sent == DeliveriesOf(r, c, onlyActiveHost, r.tabs.Keys)
  {
    tabs := r.tabs;
    sent := {};
    var todo := c.open.Keys * r.tabs.Keys;
    ghost var done := r.tabs.Keys - todo;
    UnopenedTabsUntouched(r, c, onlyActiveHost, done, clock);
    while todo != {}
      invariant todo !! done && todo + done == r.tabs.Keys
      invariant StampedExcept(r, c, onlyActiveHost, clock, tabs, todo)
      invariant sent == DeliveriesOf(r, c, onlyActiveHost, done)
      decreases todo
    {
      var t := Pick(todo);
      var frames, out := StampFrames(r, c, onlyActiveHost, t, clock);
      DeliveriesOfStep(r, c, onlyActiveHost, done, t);
      StampedStep(r, c, onlyActiveHost, clock, tabs, todo, t, frames);
      tabs := tabs[t := frames];
      sent := sent + out;
      todo := todo - {t};
      done := done + {t};
    }
    AllTabsStamped(r, c, onlyActiveHost, clock, tabs);
  }

  /** `sendMessage` as the source runs it: advance the clock, then walk the
      open tabs that the registry knows and each of their frames. The pass
      computes exactly the declarative broadcast. */
  method SendToTabs(r: Registry, c: Context, onlyActiveHost: bool) returns (s: Sent)
    ensures s == Broadcast(r, c, onlyActiveHost)
  {
    var clock := r.timestamp + 1;
    var tabs, sent := StampOpenTabs(r, c, onlyActiveHost, clock);
    s := Sent(Registry(tabs, clock), sent);
  }
}

/** Whole histories of the background page: the registry after any sequence
    of messages, broadcasts and tab closures, and the life of one frame. */
module Lifecycle {
  import opened Wrappers
  import opened Messages
  import opened DocumentRegistry
  import opened Broadcasting
  import opened Router

  /** What the registry reacts to. */
  datatype Event =
    | Received(m: Message, sender: Sender)
    | Broadcasted(c: Context, onlyActiveHost: bool)
    | TabClosed(tab: TabId)

  /** An event the build `p` can produce: a well-typed message, or a
      broadcast whose context belongs to the same build. */
  predicate EventOk(p: Platform, e: Event) {
    && (e.Received? ==> e.m.WellTyped())
    && (e.Broadcasted? ==> e.c.platform == p)
  }

  predicate WellTypedEvents(p: Platform, events: seq<Event>) {
    forall i | 0 <= i < |events| :: EventOk(p, events[i])
  }

  function Apply(p: Platform, th: Theming, r: Registry, e: Event): Registry
    requires EventOk(p, e)
  {
    match e
    case Received(m, sender) => Dispatch(p, th, r, m, sender).registry
    case Broadcasted(c, onlyActiveHost) => Broadcast(r, c, onlyActiveHost).registry
    case TabClosed(tab) => TabRemoved(r, tab)
  }

  function Run(p: Platform, th: Theming, r: Registry, events: seq<Event>): Registry
    requires WellTypedEvents(p, events)
    decreases |events|
  {
    if |events| == 0 then r else Run(p, th, Apply(p, th, r, events[0]), events[1..])
  }

  function BroadcastCount(events: seq<Event>): nat {
    if |events| == 0 then 0
    else (if events[0].Broadcasted? then 1 else 0) + BroadcastCount(events[1..])
  }

  /** Every history keeps every record's timestamp at or below the clock, and
      the clock advances by exactly one per broadcast and never otherwise. */
  lemma {:induction false} RunKeepsValid(p: Platform, th: Theming, r: Registry, events: seq<Event>)
    requires Valid(r) && WellTypedEvents(p, events)
    ensures Valid(Run(p, th, r, events))
    ensures Run(p, th, r, events).timestamp == r.timestamp + BroadcastCount(events)
    decreases |events|
  {
    if |events| > 0 {
      var e := events[0];
      if e.Broadcasted? {
        BroadcastKeepsValid(r, e.c, e.onlyActiveHost);
      }
      assert WellTypedEvents(p, events[1..]) by {
        forall i | 0 <= i < |events[1..]| ensures EventOk(p, events[1..][i]) {
          assert events[1..][i] == events[i + 1];
        }
      }
      RunKeepsValid(p, th, Apply(p, th, r, e), events[1..]);
    }
  }

  /** Every history from the starting registry keeps the invariant, and its
      clock counts its broadcasts. */
  lemma RunFromEmpty(p: Platform, th: Theming, events: seq<Event>)
    requires WellTypedEvents(p, events)
    ensures Valid(Run(p, th, Empty, events))
    ensures Run(p, th, Empty, events).timestamp == BroadcastCount(events)
  {
    EmptyValid();
    RunKeepsValid(p, th, Empty, events);
  }

  /** A frame that stays frozen through a broadcast misses it, and is caught
      up when it resumes. */
  lemma FrozenFrameCaughtUp(p: Platform, th: Theming, r: Registry, c: Context, onlyActiveHost: bool,
                            m: Message, sender: Sender)
    requires Valid(r)
    requires m.tag == DocumentResume && m.WellTyped()
    requires sender.tab.Some? && sender.frameId.Some?
    requires Has(r, sender.tab.value.id, sender.frameId.value)
    requires r.tabs[sender.tab.value.id][sender.frameId.value].state == Frozen
    ensures var o := Dispatch(p, th, Broadcast(r, c, onlyActiveHost).registry, m, sender);
            o.response == Some(Theme(th.tabMessage(sender.tab.value.url, Some(sender.url), sender.frameId.value == TopFrame)))
  {
    var s := Broadcast(r, c, onlyActiveHost);
    BroadcastTouchesOnlyTimestamps(r, c, onlyActiveHost);
    assert s.registry.tabs[sender.tab.value.id][sender.frameId.value].timestamp < s.registry.timestamp;
    ResumeCatchesUp(p, th, s.registry, m, sender);
  }

  /** The lifecycle tags a content script sends about its own frame. */
  predicate LifecycleMessage(m: Message) {
    && m.WellTyped()
    && (m.tag == DocumentConnect || m.tag == DocumentFreeze || m.tag == DocumentResume || m.tag == DocumentForget)
  }

  /** The frame's state implied by the last transition that took effect:
      connect and resume make it ACTIVE (resume only when it is recorded),
      freeze makes a recorded frame FROZEN, forget removes it. */
  function ImpliedState(prior: Option<DocumentState>, tags: seq<Tag>): Option<DocumentState>
    decreases |tags|
  {
    if |tags| == 0 then prior
    else
      var next :=
        match tags[0]
        case DocumentConnect => Some(Active)
        case DocumentFreeze => if prior.Some? then Some(Frozen) else None
        case DocumentResume => if prior.Some? then Some(Active) else None
        case _ => None;
      ImpliedState(next, tags[1..])
  }

  function StateOf(r: Registry, tab: TabId, frame: FrameId): Option<DocumentState> {
    if Has(r, tab, frame) then Some(r.tabs[tab][frame].state) else None
  }

  function Tags(ms: seq<Message>): (ts: seq<Tag>)
    ensures |ts| == |ms| && forall i | 0 <= i < |ms| :: ts[i] == ms[i].tag
  {
    if |ms| == 0 then [] else [ms[0].tag] + Tags(ms[1..])
  }

  /** The registry after one frame's own lifecycle messages. */
  function FrameRun(p: Platform, th: Theming, r: Registry, sender: Sender, ms: seq<Message>): Registry
    requires forall i | 0 <= i < |ms| :: LifecycleMessage(ms[i])
    decreases |ms|
  {
    if |ms| == 0 then r
    else
      assert LifecycleMessage(ms[0]);
      FrameRun(p, th, Dispatch(p, th, r, ms[0], sender).registry, sender, ms[1..])
  }

  /** For any sequence of CONNECT, FREEZE, RESUME and FORGET messages from one
      frame, the frame ends in the state implied by the last transition
      applied. */
  lemma {:induction false} FrameEndsInImpliedState(p: Platform, th: Theming, r: Registry, sender: Sender, ms: seq<Message>)
    requires sender.tab.Some? && sender.frameId.Some?
    requires forall i | 0 <= i < |ms| :: LifecycleMessage(ms[i])
    ensures var tab := sender.tab.value.id;
            var frame := sender.frameId.value;
            StateOf(FrameRun(p, th, r, sender, ms), tab, frame) == ImpliedState(StateOf(r, tab, frame), Tags(ms))
    decreases |ms|
  {
    if |ms| > 0 {
      var tab := sender.tab.value.id;
      var frame := sender.frameId.value;
      assert LifecycleMessage(ms[0]);
      var r1 := Dispatch(p, th, r, ms[0], sender).registry;
      assert Tags(ms)[1..] == Tags(ms[1..]);
      match ms[0].tag {
        case DocumentConnect => ConnectRecordsDocument(p, th, r, ms[0], sender);
        case DocumentFreeze => FreezeKeepsRecord(p, th, r, ms[0], sender);
        case DocumentResume =>
          if Has(r, tab, frame) {
            ResumeCatchesUp(p, th, r, ms[0], sender);
          } else {
            ResumeUnknownFrameIgnored(p, th, r, ms[0], sender);
          }
        case DocumentForget => ForgetDropsDocument(p, th, r, ms[0], sender);
      }
      FrameEndsInImpliedState(p, th, r1, sender, ms[1..]);
    }
  }
}

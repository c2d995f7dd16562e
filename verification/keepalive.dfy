/** The Chromium MV2 keep-alive shim: a second listener that replies with a
    fixed dummy value to every message whose tag is outside its eight-tag
    allow-list, so that the browser does not log an error about a closed
    response channel. Some allow-listed messages still go unanswered (see
    `UpToDateResumeUnanswered` and `EmptyConnectUnanswered`). */
module Keepalive {
  import opened Wrappers
  import opened Messages
  import Router
  import DocumentRegistry

  /** The `type` field of the dummy reply: a shrug. */
  const Sentinel: string := "\U{AF}\\_(\U{30C4})_/\U{AF}"

  /** The message kinds the shim leaves alone, because another listener may
      answer them. */
  const AllowList: set<Tag> := {
    GetData, GetDevtoolsData, ApplyDevDynamicThemeFixes, ApplyDevInversionFixes, ApplyDevStaticThemes,
    DocumentConnect, DocumentResume, Fetch
  }

  /** The dummy reply the shim sends for `m`, if any. The listener is only
      registered on Chromium MV2 builds. */
  function ShimReply(p: Platform, m: Message, sender: Router.Sender): (r: Option<string>)
    ensures r.Some? <==> p == ChromiumMV2 && m.tag !in AllowList
    ensures r.Some? ==> r.value == Sentinel
  {
    if p == ChromiumMV2 && m.tag !in AllowList then Some(Sentinel) else None
  }

  lemma AllowListSize()
    ensures |AllowList| == 8
  {
  }

  /** Off Chromium MV2 the shim never answers. */
  lemma SilentOffChromiumMV2(p: Platform, m: Message, sender: Router.Sender)
    requires p != ChromiumMV2
    ensures ShimReply(p, m, sender) == None
  {
  }

  /** The dummy reply depends on neither the message nor its sender. */
  lemma SentinelIsConstant(p: Platform, m1: Message, s1: Router.Sender, m2: Message, s2: Router.Sender)
    requires ShimReply(p, m1, s1).Some? && ShimReply(p, m2, s2).Some?
    ensures ShimReply(p, m1, s1) == ShimReply(p, m2, s2)
  {
  }

  /** Whenever the registry's listener answers a message, now or later, the
      shim stays silent on it, so the dummy reply never races a real one. */
  lemma NoSentinelRace(p: Platform, th: Router.Theming, r: DocumentRegistry.Registry, m: Message, sender: Router.Sender)
    requires m.WellTyped()
    ensures var o := Router.Dispatch(p, th, r, m, sender);
            o.response.Some? || o.asyncResponse ==> ShimReply(p, m, sender) == None
  {
  }

  /** A RESUME from a frame that missed no broadcast holds the channel open
      but is never answered, and the shim stays silent on it too. */
  lemma UpToDateResumeUnanswered(th: Router.Theming, r: DocumentRegistry.Registry, m: Message, sender: Router.Sender)
    requires m.tag == DocumentResume && m.WellTyped()
    requires sender.tab.Some? && sender.frameId.Some?
    requires DocumentRegistry.Has(r, sender.tab.value.id, sender.frameId.value)
    requires r.tabs[sender.tab.value.id][sender.frameId.value].timestamp == r.timestamp
    ensures var o := Router.Dispatch(ChromiumMV2, th, r, m, sender);
            && o.response == None && o.asyncResponse
            && ShimReply(ChromiumMV2, m, sender) == None
  {
  }

  /** A CONNECT whose connection message comes out empty is answered by
      neither listener. */
  lemma EmptyConnectUnanswered(th: Router.Theming, r: DocumentRegistry.Registry, m: Message, sender: Router.Sender)
    requires m.tag == DocumentConnect && m.WellTyped()
    requires sender.tab.Some? && sender.frameId.Some?
    requires th.connectionMessage(sender.tab.value.url, sender.url, sender.frameId.value == DocumentRegistry.TopFrame).None?
    ensures var o := Router.Dispatch(ChromiumMV2, th, r, m, sender);
            && o.response == None && !o.asyncResponse
            && ShimReply(ChromiumMV2, m, sender) == None
  {
  }
}

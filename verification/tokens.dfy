/** The picker-token guard: a per-tab token, kept in an in-memory cache and
    in persistent storage under `token-<tabId>`, that the colour-picker UI
    must present. Tokens are opaque inputs here; generating them is left out. */
module PickerTokens {
  import opened Wrappers
  import DocumentRegistry
  import Decimal

  /** The in-memory cache (lost when the background page is unloaded) and the
      persistent key-value store. A tab absent from the cache stands for both
      a never-set and an `undefined` entry. */
  datatype Tokens = Tokens(cache: map<DocumentRegistry.TabId, string>, storage: map<string, string>)

  const Empty := Tokens(map[], map[])

  /** The persistent key of a tab's token. */
  function StorageKey(tab: DocumentRegistry.TabId): string {
    "token-" + Decimal.IntToString(tab)
  }

  /** A key is `token-` followed by a decimal notation that reads back as
      the tab. */
  lemma StorageKeyReadsBack(tab: DocumentRegistry.TabId)
    ensures |StorageKey(tab)| > 6 && StorageKey(tab)[..6] == "token-"
    ensures Decimal.Notation(StorageKey(tab)[6..]) && Decimal.ParseInt(StorageKey(tab)[6..]) == tab
  {
    Decimal.ParseIntToString(tab);
    assert StorageKey(tab)[6..] == Decimal.IntToString(tab);
  }

  /** Distinct tabs use distinct storage keys. */
  lemma StorageKeyInjective(a: DocumentRegistry.TabId, b: DocumentRegistry.TabId)
    requires StorageKey(a) == StorageKey(b)
    ensures a == b
  {
    assert Decimal.IntToString(a) == StorageKey(a)[6..];
    assert Decimal.IntToString(b) == StorageKey(b)[6..];
    Decimal.IntToStringInjective(a, b);
  }

  function Lookup(m: map<string, string>, key: string): Option<string> {
    if key in m then Some(m[key]) else None
  }

  /** The stored token of `tab`, if any. */
  function Stored(s: Tokens, tab: DocumentRegistry.TabId): Option<string> {
    Lookup(s.storage, StorageKey(tab))
  }

  /** The cache never disagrees with storage: wherever it holds a token,
      storage holds the same one. */
  predicate Agree(s: Tokens) {
    forall t | t in s.cache :: Stored(s, t) == Some(s.cache[t])
  }

  /** `createPickerToken`: records `token` for `tab` in the cache and in
      storage, superseding any earlier token of that tab. */
  function Create(s: Tokens, tab: DocumentRegistry.TabId, token: string): (s': Tokens)
    ensures tab in s'.cache && s'.cache[tab] == token
    ensures Stored(s', tab) == Some(token)
    ensures forall t | t != tab :: (t in s'.cache <==> t in s.cache) && (t in s.cache ==> s'.cache[t] == s.cache[t])
    ensures forall t | t != tab :: Stored(s', t) == Stored(s, t)
    ensures Agree(s) ==> Agree(s')
  {
    var s' := Tokens(s.cache[tab := token], s.storage[StorageKey(tab) := token]);
    assert forall t | t != tab :: Stored(s', t) == Stored(s, t) by {
      forall t | t != tab ensures Stored(s', t) == Stored(s, t) {
        if StorageKey(t) == StorageKey(tab) { StorageKeyInjective(t, tab); }
      }
    }
    s'
  }

  /** The answer of `validatePickerToken` and the cache it leaves behind. */
  datatype Validation = Validation(valid: bool, after: Tokens)

  /** `validatePickerToken`: a non-empty cached token equal to the candidate
      validates at once; otherwise the stored token decides, and it replaces
      the cache entry. Empty tokens are falsy and never validate. */
  function Validate(s: Tokens, tab: DocumentRegistry.TabId, candidate: string): (v: Validation)
    ensures v.valid ==> candidate != ""
    ensures v.after.storage == s.storage
    ensures tab in s.cache && s.cache[tab] != "" && s.cache[tab] == candidate ==> v.valid && v.after == s
    ensures !(tab in s.cache && s.cache[tab] != "" && s.cache[tab] == candidate) ==>
              && v.valid == (Stored(s, tab) == Some(candidate) && candidate != "")
              && (tab in v.after.cache <==> Stored(s, tab).Some?)
              && (tab in v.after.cache ==> Some(v.after.cache[tab]) == Stored(s, tab))
    ensures forall t | t != tab :: (t in v.after.cache <==> t in s.cache) && (t in s.cache ==> v.after.cache[t] == s.cache[t])
    ensures Agree(s) ==> Agree(v.after)
    ensures Agree(s) ==> (v.valid <==> candidate != "" && Stored(s, tab) == Some(candidate))
  {
    if tab in s.cache && s.cache[tab] != "" && s.cache[tab] == candidate then
      Validation(true, s)
    else
      var stored := Stored(s, tab);
      var cache := if stored.Some? then s.cache[tab := stored.value] else s.cache - {tab};
      Validation(stored.Some? && stored.value != "" && stored.value == candidate, s.(cache := cache))
  }

  /** `invalidatePickerToken`: forgets the tab's token in both places. */
  function Invalidate(s: Tokens, tab: DocumentRegistry.TabId): (s': Tokens)
    ensures tab !in s'.cache && Stored(s', tab) == None
    ensures forall t | t != tab :: (t in s'.cache <==> t in s.cache) && (t in s.cache ==> s'.cache[t] == s.cache[t])
    ensures forall t | t != tab :: Stored(s', t) == Stored(s, t)
    ensures Agree(s) ==> Agree(s')
  {
    var s' := Tokens(s.cache - {tab}, s.storage - {StorageKey(tab)});
    assert forall t | t != tab :: Stored(s', t) == Stored(s, t) by {
      forall t | t != tab ensures Stored(s', t) == Stored(s, t) {
        if StorageKey(t) == StorageKey(tab) { StorageKeyInjective(t, tab); }
      }
    }
    s'
  }

  /** The background page is unloaded and reloaded: the cache is empty,
      storage survives. */
  function Restart(s: Tokens): (s': Tokens)
    ensures s'.cache == map[] && s'.storage == s.storage
    ensures Agree(s')
  {
    Tokens(map[], s.storage)
  }

  /** After invalidation no candidate validates. */
  lemma InvalidateRevokes(s: Tokens, tab: DocumentRegistry.TabId, candidate: string)
    ensures !Validate(Invalidate(s, tab), tab, candidate).valid
  {
  }

  /** A newer token supersedes an older one of the same tab. */
  lemma RecreateSupersedes(s: Tokens, tab: DocumentRegistry.TabId, t1: string, t2: string)
    requires t1 != t2
    ensures !Validate(Create(Create(s, tab, t1), tab, t2), tab, t1).valid
    ensures t2 != "" ==> Validate(Create(Create(s, tab, t1), tab, t2), tab, t2).valid
  {
  }

  /** Unloading the background page does not change any answer. */
  lemma RestartTransparent(s: Tokens, tab: DocumentRegistry.TabId, candidate: string)
    requires Agree(s)
    ensures Validate(Restart(s), tab, candidate).valid == Validate(s, tab, candidate).valid
  {
  }

  /** What can happen to the guard: a token is issued, revoked or checked,
      or the background page is unloaded. */
  datatype TokenEvent =
    | Issue(tab: DocumentRegistry.TabId, token: string)
    | Revoke(tab: DocumentRegistry.TabId)
    | Check(tab: DocumentRegistry.TabId, candidate: string)
    | Unload

  function Step(s: Tokens, e: TokenEvent): Tokens {
    match e
    case Issue(tab, token) => Create(s, tab, token)
    case Revoke(tab) => Invalidate(s, tab)
    case Check(tab, candidate) => Validate(s, tab, candidate).after
    case Unload => Restart(s)
  }

  /** The guard after `events`, starting from a fresh profile. */
  function Run(events: seq<TokenEvent>): Tokens {
    if |events| == 0 then Empty else Step(Run(events[..|events| - 1]), events[|events| - 1])
  }

  /** The token most recently issued to `tab` and not revoked since. */
  function LastIssued(events: seq<TokenEvent>, tab: DocumentRegistry.TabId): Option<string> {
    if |events| == 0 then None
    else
      var e := events[|events| - 1];
      if e.Issue? && e.tab == tab then Some(e.token)
      else if e.Revoke? && e.tab == tab then None
      else LastIssued(events[..|events| - 1], tab)
  }

  /** Storage always holds exactly the live token of every tab, and the cache
      agrees with it. Hence a candidate validates exactly when it is the
      non-empty token most recently issued to the tab and not revoked since,
      whatever checks and unloads happened in between. */
  lemma {:induction false} RunTracksLastIssued(events: seq<TokenEvent>)
    ensures Agree(Run(events))
    ensures forall tab :: Stored(Run(events), tab) == LastIssued(events, tab)
    ensures forall tab, candidate :: Validate(Run(events), tab, candidate).valid <==>
              candidate != "" && LastIssued(events, tab) == Some(candidate)
  {
    if |events| > 0 {
      RunTracksLastIssued(events[..|events| - 1]);
    }
  }
}

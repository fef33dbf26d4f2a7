/**
 * The display policy of `shouldPreventDisplay` (src/index.js:189-314) and
 * the guards of `show` (src/index.js:396-450), as functions over the part
 * of an instance they read and change. `AddToHomescreen` in
 * homescreen.dfy runs the same steps on its fields and is proved to agree
 * with these functions.
 */
module Policy {
  import opened Wrappers
  import opened Sessions
  import opened Config
  import opened Environment
  import Tokens

  /** The changing part of an instance: session, storage, page URL, storage flag and the callbacks fired so far. */
  datatype World = World(
    session: Session,
    store: Store,
    href: string,
    hasLocalStorage: bool,
    fired: seq<Callback>)

  /** What the policy reads but never changes; `accessible` says whether `localStorage` can be read at all. */
  datatype Ctx = Ctx(options: Options, env: Env, hasToken: bool, accessible: bool)

  /** The key of the older add-to-homescreen script; a session under it counts as an opt-out. */
  const LEGACY_KEY := "addToHome"

  /** `updateSession`: write the session through to the store, unless storage is unusable. */
  function Persist(w: World, appID: string): (r: World)
    ensures r.session == w.session && r.href == w.href && r.fired == w.fired
    ensures r.hasLocalStorage == w.hasLocalStorage
    ensures w.hasLocalStorage ==> r.store == w.store[appID := Serialize(w.session)]
    ensures !w.hasLocalStorage ==> r.store == w.store
  {
    if w.hasLocalStorage then w.(store := w.store[appID := Serialize(w.session)]) else w
  }

  /** `getItem`: a failing storage read answers `undefined` and marks storage as unusable. */
  function GetItem(w: World, key: string, accessible: bool): (r: (Option<Stored>, World))
    ensures r.1 == w.(hasLocalStorage := w.hasLocalStorage && accessible)
    ensures r.0.Some? <==> accessible && key in w.store
    ensures r.0.Some? ==> r.0.value == w.store[key]
  {
    if !accessible then (None, w.(hasLocalStorage := false))
    else if key in w.store then (Some(w.store[key]), w)
    else (None, w)
  }

  /** JavaScript truthiness of what `getItem` returned: the empty string is false. */
  predicate Truthy(item: Option<Stored>)
  {
    item.Some? && !item.value.Empty?
  }

  /** `isValidLocation`: no matchers, or one of them accepts the page. */
  ghost predicate ValidLocation(locs: seq<string -> bool>, href: string)
  {
    |locs| == 0 || exists j :: 0 <= j < |locs| && locs[j](href)
  }

  /** Append `cb` to the log when that callback was supplied. */
  function Fire(w: World, o: Options, cb: Callback): World
  {
    if cb in o.callbacks then w.(fired := w.fired + [cb]) else w
  }

  /** The standalone / token branch: record the install once and fire `onAdd` only if storage works. */
  function MarkAdded(w: World, o: Options): (r: World)
    ensures r.session == w.session.(added := true) && r.href == w.href
    ensures r.hasLocalStorage == w.hasLocalStorage
    ensures r.fired == w.fired + (if !w.session.added && w.hasLocalStorage && OnAdd in o.callbacks then [OnAdd] else [])
    ensures !w.session.added && w.hasLocalStorage ==> r.store == w.store[o.appID := Serialize(r.session)]
  {
    if w.session.added then w
    else
      var w1 := Persist(w.(session := w.session.(added := true)), o.appID);
      if w1.hasLocalStorage then Fire(w1, o, OnAdd) else w1
  }

  /** The URL rewrite for a `detectHomescreen` mode (src/index.js:268-288): anything but `hash` and `smartURL` uses the query string. */
  function AddToken(mode: Detect, href: string): string
  {
    if mode == DetectMode("hash") then Tokens.AddHashToken(href)
    else if mode == DetectMode("smartURL") then Tokens.AddSmartToken(href)
    else Tokens.AddQueryToken(href)
  }

  /** Whatever the mode, the rewritten address of a page without fragment or query carries a token. */
  lemma AddedTokenDetected(mode: Detect, href: string)
    requires '#' !in href && '?' !in href
    ensures Tokens.HasToken(AddToken(mode, href))
  {
    if mode == DetectMode("hash") {
      Tokens.HashTokenDetected(href);
    } else if mode != DetectMode("smartURL") {
      Tokens.QueryTokenDetected(href);
    }
  }

  /** The returning-visitor and private-mode steps (src/index.js:291-313). */
  function FinalChecks(w: World, o: Options): (r: (bool, World))
    ensures r.1.session == w.session.(returningVisitor := true)
    ensures r.1.href == w.href && r.1.fired == w.fired && r.1.hasLocalStorage == w.hasLocalStorage
  {
    if !w.session.returningVisitor then
      var w1 := Persist(w.(session := w.session.(returningVisitor := true)), o.appID);
      if o.skipFirstVisit then (true, w1)
      else (!o.privateModeOverride && !w1.hasLocalStorage, w1)
    else (!o.privateModeOverride && !w.hasLocalStorage, w)
  }

  /** The state after the legacy-key check (src/index.js:199-202). */
  function AfterLegacyCheck(w: World, c: Ctx): (r: World)
    ensures r.session == w.session.(optedout := w.session.optedout || LegacyOptOut(w, c))
    ensures r.href == w.href && r.fired == w.fired && r.hasLocalStorage == StorageUsable(w, c)
    ensures !LegacyOptOut(w, c) ==> r == w.(hasLocalStorage := StorageUsable(w, c))
  {
    var (legacy, w1) := GetItem(w, LEGACY_KEY, c.accessible);
    if Truthy(legacy) then Persist(w1.(session := w1.session.(optedout := true)), c.options.appID) else w1
  }

  /**
   * `shouldPreventDisplay`: `true` suppresses the callout. Returns the
   * decision and the state after the session writes, URL rewrites and
   * callbacks made on the way.
   */
  ghost function Decide(w: World, c: Ctx): (r: (bool, World))
    ensures w.session.optedout || LegacyOptOut(w, c) ==> r.0
    ensures !r.0 ==> ValidLocation(c.options.validLocation, w.href)
    ensures r.1.session.optedout == (w.session.optedout || LegacyOptOut(w, c))
    ensures r.1.hasLocalStorage == StorageUsable(w, c)
  {
    DecideFrom(AfterLegacyCheck(w, c), c, ValidLocation(c.options.validLocation, w.href))
  }

  /** The policy from the opt-out check on (src/index.js:204-313), after the legacy-key check. */
  function DecideFrom(w1: World, c: Ctx, valid: bool): (r: (bool, World))
    ensures !r.0 ==> valid && !w1.session.optedout && !w1.session.added && !c.env.isStandalone
    ensures r.1.session.optedout == w1.session.optedout && r.1.hasLocalStorage == w1.hasLocalStorage
    ensures r.1.session.displayCount == w1.session.displayCount
    ensures r.1.session.lastDisplayTime == w1.session.lastDisplayTime
  {
    if w1.session.optedout then (true, w1)
    else if w1.session.added then (true, w1)
    else if !valid then (true, w1)
    else if c.env.isStandalone then (true, MarkAdded(w1, c.options))
    else if DetectSet(c.options.detectHomescreen) then
      if c.hasToken then (true, MarkAdded(w1.(href := Tokens.RemoveToken(w1.href)), c.options))
      else FinalChecks(w1.(href := AddToken(c.options.detectHomescreen, w1.href)), c.options)
    else FinalChecks(w1, c.options)
  }

  /**
   * `testLocalStorage` (src/index.js:316-333): one write of the session
   * decides whether storage is usable; when it is not, `onPrivate` fires.
   */
  function TestStorage(w: World, c: Ctx, writable: bool): (r: World)
    ensures r.hasLocalStorage == (c.accessible && writable)
    ensures r.session == w.session && r.href == w.href
    ensures r.hasLocalStorage ==> r.store == w.store[c.options.appID := Serialize(w.session)] && r.fired == w.fired
    ensures !r.hasLocalStorage ==>
      r.store == w.store && r.fired == w.fired + (if OnPrivate in c.options.callbacks then [OnPrivate] else [])
  {
    var w0 := w.(hasLocalStorage := c.accessible && writable);
    if w0.hasLocalStorage then w0.(store := w.store[c.options.appID := Serialize(w.session)])
    else Fire(w0, c.options, OnPrivate)
  }

  /**
   * The constructor's policy run on a supported device (src/index.js:162-174):
   * the stored `fields` are merged with the default session, storage is
   * tested, then `shouldPreventDisplay` decides, starting from `store`,
   * the page URL `href` and the callbacks `fired` so far.
   */
  ghost function Admit(store: Store, href: string, fired: seq<Callback>, c: Ctx, fields: Partial, writable: bool): (bool, World)
  {
    Decide(TestStorage(World(Merge(fields), store, href, false, fired), c, writable), c)
  }

  /** A visitor the constructor admits has not opted out or added the app, is returning, and may keep the callout only with working storage unless private mode is overridden. */
  lemma AdmittedState(store: Store, href: string, fired: seq<Callback>, c: Ctx, fields: Partial, writable: bool)
    requires !Admit(store, href, fired, c, fields, writable).0
    ensures var w := Admit(store, href, fired, c, fields, writable).1;
      && !w.session.optedout && !w.session.added && w.session.returningVisitor
      && !c.env.isStandalone && (w.hasLocalStorage || c.options.privateModeOverride)
      && fields.optedout != Some(true) && fields.added != Some(true)
  {
    var w0 := TestStorage(World(Merge(fields), store, href, false, fired), c, writable);
    DecideIff(w0, c);
    AllowedState(w0, c);
  }

  /** The legacy key is present (and readable): the visitor counts as opted out. */
  predicate LegacyOptOut(w: World, c: Ctx)
  {
    c.accessible && LEGACY_KEY in w.store && !w.store[LEGACY_KEY].Empty?
  }

  /** An opted-out visitor is never shown the callout, and nothing but the stored copy of the session changes. */
  lemma OptedOutSuppresses(w: World, c: Ctx)
    requires w.session.optedout || LegacyOptOut(w, c)
    ensures Decide(w, c).0
    ensures Decide(w, c).1.session == w.session.(optedout := true)
    ensures Decide(w, c).1.href == w.href && Decide(w, c).1.fired == w.fired
  {
    var w1 := AfterLegacyCheck(w, c);
    assert w1.session == w.session.(optedout := w.session.optedout || LegacyOptOut(w, c));
  }

  /** The steps up to the standalone check pass: not opted out, not added, a valid location. */
  ghost predicate PassesCriticalChecks(w: World, c: Ctx)
  {
    !w.session.optedout && !LegacyOptOut(w, c) && !w.session.added
    && ValidLocation(c.options.validLocation, w.href)
  }

  /** Storage works after the policy's own read of the legacy key. */
  predicate StorageUsable(w: World, c: Ctx)
  {
    w.hasLocalStorage && c.accessible
  }

  /**
   * The decision as one condition: suppressed exactly when one of the
   * disqualifying conditions of the policy holds.
   */
  lemma DecideIff(w: World, c: Ctx)
    ensures Decide(w, c).0 <==>
      || w.session.optedout || LegacyOptOut(w, c)
      || w.session.added
      || !ValidLocation(c.options.validLocation, w.href)
      || c.env.isStandalone
      || (DetectSet(c.options.detectHomescreen) && c.hasToken)
      || (!w.session.returningVisitor && c.options.skipFirstVisit)
      || (!c.options.privateModeOverride && !StorageUsable(w, c))
  {
    var w1 := AfterLegacyCheck(w, c);
    assert w1.session.optedout == (w.session.optedout || LegacyOptOut(w, c));
    assert w1.session.added == w.session.added;
    assert w1.session.returningVisitor == w.session.returningVisitor;
    assert w1.hasLocalStorage == StorageUsable(w, c);
  }

  /** The policy never clears `optedout` or `added`, never touches the display counters, and only sets `returningVisitor`. */
  lemma DecideMonotonic(w: World, c: Ctx)
    ensures var s := Decide(w, c).1.session;
      && (w.session.optedout ==> s.optedout)
      && (w.session.added ==> s.added)
      && (w.session.returningVisitor ==> s.returningVisitor)
      && s.displayCount == w.session.displayCount
      && s.lastDisplayTime == w.session.lastDisplayTime
    ensures Decide(w, c).1.hasLocalStorage == StorageUsable(w, c)
  {
  }

  /**
   * In standalone mode, or with a detected token, the visitor is recorded
   * as having added the page and the callout is suppressed; `onAdd` fires
   * once, only when storage works, and it is the only callback fired.
   */
  lemma AddedOnHomescreen(w: World, c: Ctx)
    requires PassesCriticalChecks(w, c)
    requires c.env.isStandalone || (DetectSet(c.options.detectHomescreen) && c.hasToken)
    ensures Decide(w, c).0 && Decide(w, c).1.session.added
    ensures Decide(w, c).1.fired == w.fired + (if OnAdd in c.options.callbacks && StorageUsable(w, c) then [OnAdd] else [])
    ensures StorageUsable(w, c) ==>
      c.options.appID in Decide(w, c).1.store && Decide(w, c).1.store[c.options.appID] == Serialize(Decide(w, c).1.session)
    ensures c.env.isStandalone ==> Decide(w, c).1.href == w.href
    ensures !c.env.isStandalone ==> Decide(w, c).1.href == Tokens.RemoveToken(w.href)
  {
    var w1 := AfterLegacyCheck(w, c);
    assert w1 == w.(hasLocalStorage := StorageUsable(w, c));
  }

  /** A session already recorded as added is suppressed and fires nothing. */
  lemma AddedFiresNothing(w: World, c: Ctx)
    requires w.session.added
    ensures Decide(w, c).0 && Decide(w, c).1.fired == w.fired
  {
  }

  /** When the policy fires a callback, it is `onAdd`, and the stored session says `added`. */
  lemma FiredMeansPersistedAdded(w: World, c: Ctx)
    requires |Decide(w, c).1.fired| > |w.fired|
    ensures Decide(w, c).1.fired == w.fired + [OnAdd]
    ensures c.options.appID in Decide(w, c).1.store
    ensures Decide(w, c).1.store[c.options.appID] == Serialize(Decide(w, c).1.session)
    ensures Decide(w, c).1.session.added
  {
    var w1 := AfterLegacyCheck(w, c);
    if FinalChecks(w1, c.options).1 == Decide(w, c).1 {
      assert false;
    }
  }

  /**
   * `onAdd` fires at most once per visitor: what the policy persists when
   * it fires `onAdd` loads back with `added` set, and on that next visit
   * the policy suppresses without firing anything.
   */
  lemma OnAddAtMostOnce(w: World, c: Ctx, next: World, c2: Ctx)
    requires |Decide(w, c).1.fired| > |w.fired|
    requires c2.options.appID == c.options.appID && next.store == Decide(w, c).1.store
    requires c.options.appID in next.store
    requires next.session == Merge(Load(Some(next.store[c.options.appID])).fields)
    ensures Decide(next, c2).0 && Decide(next, c2).1.fired == next.fired
  {
    FiredMeansPersistedAdded(w, c);
    LoadSerialized(Decide(w, c).1.session);
    AddedFiresNothing(next, c2);
  }

  /**
   * The first visit that reaches the returning-visitor step records the
   * visitor as returning (persisted if storage works) and is suppressed
   * only by `skipFirstVisit` or by unusable storage without
   * `privateModeOverride`.
   */
  lemma FirstVisit(w: World, c: Ctx)
    requires PassesCriticalChecks(w, c) && !c.env.isStandalone
    requires !(DetectSet(c.options.detectHomescreen) && c.hasToken)
    requires !w.session.returningVisitor
    ensures Decide(w, c).1.session == w.session.(returningVisitor := true)
    ensures StorageUsable(w, c) ==> Decide(w, c).1.store == w.store[c.options.appID := Serialize(w.session.(returningVisitor := true))]
    ensures Decide(w, c).0 <==> c.options.skipFirstVisit || (!c.options.privateModeOverride && !StorageUsable(w, c))
    ensures Decide(w, c).1.fired == w.fired
  {
    var w1 := AfterLegacyCheck(w, c);
    assert w1 == w.(hasLocalStorage := StorageUsable(w, c));
  }

  /**
   * With `detectHomescreen: 'hash'` and no token, the token is added to the
   * URL and the decision is left to the later steps, whatever it turns out
   * to be.
   */
  lemma HashModeAddsToken(w: World, c: Ctx)
    requires PassesCriticalChecks(w, c) && !c.env.isStandalone
    requires c.options.detectHomescreen == DetectMode("hash") && !c.hasToken
    ensures Decide(w, c).1.href == w.href + "#ath"
    ensures Decide(w, c).0 <==>
      (!w.session.returningVisitor && c.options.skipFirstVisit)
      || (!c.options.privateModeOverride && !StorageUsable(w, c))
  {
    var w1 := AfterLegacyCheck(w, c);
    assert w1 == w.(hasLocalStorage := StorageUsable(w, c));
  }

  /** When the policy allows the callout, the session was only marked as returning and storage works or is overridden. */
  lemma AllowedState(w: World, c: Ctx)
    requires !Decide(w, c).0
    ensures Decide(w, c).1.session == w.session.(returningVisitor := true)
    ensures Decide(w, c).1.fired == w.fired
    ensures Decide(w, c).1.hasLocalStorage || c.options.privateModeOverride
  {
  }

  /** The guards of `show` (src/index.js:396-443); `force` stands for `force === true`. */
  predicate ShowAllowed(shown: bool, ready: bool, force: bool, now: int, s: Session, o: Options, domReady: bool)
    ensures ShowAllowed(shown, ready, force, now, s, o, domReady) ==> !shown && (force || ready)
  {
    && !(o.autostart && !domReady)
    && !shown
    && (force || (ready
                  && !(now - s.lastDisplayTime < o.displayPace * 60000)
                  && !(o.maxDisplayCount != 0 && s.displayCount >= o.maxDisplayCount)))
  }

  /** The session after a display at time `now` (src/index.js:447-449). */
  function AfterShow(s: Session, now: int): (r: Session)
    ensures r.displayCount == s.displayCount + 1 && r.lastDisplayTime == now
    ensures r.optedout == s.optedout && r.added == s.added && r.returningVisitor == s.returningVisitor
  {
    s.(lastDisplayTime := now, displayCount := s.displayCount + 1)
  }

  /** An unforced display respects the pace and the maximum count. */
  lemma ShowRespectsPacing(shown: bool, ready: bool, now: int, s: Session, o: Options, domReady: bool)
    requires ShowAllowed(shown, ready, false, now, s, o, domReady)
    ensures now >= s.lastDisplayTime + o.displayPace * 60000
    ensures o.maxDisplayCount != 0 ==> AfterShow(s, now).displayCount <= o.maxDisplayCount
    ensures ready && !shown
  {
  }

  /** With a pace of 60 minutes, 30 minutes after the last display is too early and 61 minutes is late enough. */
  lemma PacingExample(s: Session, o: Options, now: int)
    requires o.displayPace == 60 && o.maxDisplayCount == 0 && !o.autostart
    ensures s.lastDisplayTime == now - 30 * 60000 ==> !ShowAllowed(false, true, false, now, s, o, true)
    ensures s.lastDisplayTime == now - 61 * 60000 ==> ShowAllowed(false, true, false, now, s, o, true)
  {
  }

  /** The maximum count blocks every unforced display once reached, whatever the pace. */
  lemma MaxCountExample(s: Session, o: Options, now: int)
    requires o.maxDisplayCount == 2 && s.displayCount == 2
    ensures !ShowAllowed(false, true, false, now, s, o, true)
  {
  }

  /**
   * What becoming ready does (src/index.js:176-186): `onInit` is called, then
   * with `autostart` the instance's own `show()` counts a display when its
   * guards let it; the flag says whether it did.
   */
  function Welcome(w: World, o: Options, now: int, domReady: bool): (bool, World)
  {
    Autostart(Fire(w, o, OnInit), o, now, domReady)
  }

  /** The `autostart` display of a ready instance that has not shown yet. */
  function Autostart(w: World, o: Options, now: int, domReady: bool): (bool, World)
  {
    if o.autostart && ShowAllowed(false, true, false, now, w.session, o, domReady) then
      (true, Persist(w.(session := AfterShow(w.session, now)), o.appID))
    else (false, w)
  }

  /**
   * Becoming ready logs `onInit` when it is configured, keeps the page URL
   * and the storage flag, shows exactly when `autostart` is on and the
   * guards pass, and then counts one display at `now` and writes it through;
   * otherwise the session and the store are untouched.
   */
  lemma WelcomeEffect(w: World, o: Options, now: int, domReady: bool)
    ensures var (shows, w1) := Welcome(w, o, now, domReady);
      && w1.fired == w.fired + (if OnInit in o.callbacks then [OnInit] else [])
      && w1.href == w.href && w1.hasLocalStorage == w.hasLocalStorage
      && (shows <==> o.autostart && ShowAllowed(false, true, false, now, w.session, o, domReady))
      && (shows ==> w1.session == AfterShow(w.session, now)
                    && w1.store == (if w.hasLocalStorage then w.store[o.appID := Serialize(w1.session)] else w.store))
      && (!shows ==> w1.session == w.session && w1.store == w.store)
  {
  }

  /**
   * A visitor the policy admits is, once ready, neither opted out nor
   * recorded as having added the app, is a returning visitor, is not in
   * standalone mode and has working storage unless private mode is
   * overridden; the autostart display changes none of this.
   */
  lemma WelcomedState(store: Store, href: string, fired: seq<Callback>, c: Ctx, fields: Partial, writable: bool,
                      now: int, domReady: bool)
    requires !Admit(store, href, fired, c, fields, writable).0
    ensures var w := Welcome(Admit(store, href, fired, c, fields, writable).1, c.options, now, domReady).1;
      && !w.session.optedout && !w.session.added && w.session.returningVisitor
      && !c.env.isStandalone && (w.hasLocalStorage || c.options.privateModeOverride)
  {
    AdmittedState(store, href, fired, c, fields, writable);
    WelcomeEffect(Admit(store, href, fired, c, fields, writable).1, c.options, now, domReady);
  }
}

/**
 * The `AddToHomescreen` class (src/index.js:28-737): the instance state,
 * the constructor flow, the policy run as a sequence of state changes,
 * `show` with its guards, the removal steps and the session mutators.
 * Storage is a map with two fixed flags (can it be read, can it be
 * written); the page URL is the `href` field; callbacks are recorded in
 * the `fired` log.
 */
module Homescreen {
  import opened Wrappers
  import opened Sessions
  import opened Config
  import opened Environment
  import opened Messages
  import opened Policy
  import Tokens

  /** How construction ended. */
  datatype Status =
    | Inert        // no `addEventListener`: the constructor returns at once
    | ParseFailed  // `JSON.parse` of the stored session threw a SyntaxError
    | Unsupported  // the device is not compatible: early return, never ready
    | Suppressed   // the policy said no: the constructor throws 'Preventing display.'
    | Ready        // `ready` is set
    | AutostartThrew // `ready` is set, then the autostart `show` counted a display and threw a TypeError

  /** What a call of `show` did. */
  datatype ShowOutcome =
    | Skipped  // a guard returned early; nothing changed
    | Threw    // the counters were updated, then building the message threw a TypeError
    | Rendered(viewportClass: string, containerClass: string, html: string)

  /** The token step of the constructor, src/index.js:151-155. */
  datatype TokenStep = TypeErrorThrown | Continue(hasToken: bool, href: string)

  /**
   * The step as written: `this._removeToken()` names no member of the
   * class (`_removeToken` is a module-level function), so the call throws.
   */
  function ConstructorTokenStepAsWritten(hasToken: bool, compatible: bool, sessionTruthy: bool, href: string): TokenStep
  {
    if hasToken && (!compatible || !sessionTruthy) then TypeErrorThrown else Continue(hasToken, href)
  }

  /** A visitor arriving with a token on an unsupported device makes the constructor throw. */
  lemma TokenOnUnsupportedDeviceThrows(href: string, sessionTruthy: bool)
    requires Tokens.HasToken(href)
    ensures ConstructorTokenStepAsWritten(Tokens.HasToken(href), false, sessionTruthy, href) == TypeErrorThrown
  {
  }

  /** The step as intended: the token is dropped from the URL and the instance goes on. */
  function ConstructorTokenStep(hasToken: bool, compatible: bool, sessionTruthy: bool, href: string): (r: TokenStep)
    ensures r.Continue?
    ensures hasToken && (!compatible || !sessionTruthy) ==> !r.hasToken && r.href == Tokens.RemoveToken(href)
    ensures !(hasToken && (!compatible || !sessionTruthy)) ==> r == Continue(hasToken, href)
  {
    if hasToken && (!compatible || !sessionTruthy) then Continue(false, Tokens.RemoveToken(href))
    else Continue(hasToken, href)
  }

  /** A link shared with the hash token opens on an unsupported device at its clean address. */
  lemma SharedHashLinkIsCleaned(page: string, sessionTruthy: bool)
    requires '#' !in page && !Tokens.HasToken(page)
    ensures var h := Tokens.AddHashToken(page);
      ConstructorTokenStep(Tokens.HasToken(h), false, sessionTruthy, h) == Continue(false, page)
  {
    Tokens.HashRoundTrip(page);
  }

  /**
   * The store after `clearSession` as written (src/index.js:700-703): it
   * assigns the undefined `AddToHomescreen._defaultSession`, and
   * `JSON.stringify(undefined)` is stored as the text `undefined`.
   */
  function ClearSessionStoreAsWritten(store: Store, hasLocalStorage: bool, appID: string): Store
  {
    if hasLocalStorage then store[appID := Malformed] else store
  }

  /** After `clearSession` as written, the next page load cannot parse the stored session. */
  lemma ClearSessionBreaksNextLoad(store: Store, appID: string)
    ensures Load(Some(ClearSessionStoreAsWritten(store, true, appID)[appID])) == SyntaxError
  {
  }

  /** The store after `clearSession` as intended: the default session written through. */
  function ClearSessionStore(store: Store, hasLocalStorage: bool, appID: string): Store
  {
    if hasLocalStorage then store[appID := Serialize(DefaultSession)] else store
  }

  /** After the intended `clearSession`, the next page load starts from the default session. */
  lemma ClearSessionReloadsDefaults(store: Store, appID: string)
    ensures Load(Some(ClearSessionStore(store, true, appID)[appID])).Parsed?
    ensures Merge(Load(Some(ClearSessionStore(store, true, appID)[appID])).fields) == DefaultSession
  {
    LoadSerialized(DefaultSession);
  }

  class AddToHomescreen {
    /** `localStorage` can be reached and read. */
    const storageAccessible: bool
    /** `localStorage.setItem` succeeds. */
    const storageWritable: bool
    /** The localized templates of `./i18n`. */
    const intl: IntlTable

    var options: Options
    var env: Env
    var language: string
    var hasToken: bool

    var session: Session
    var store: Store
    var href: string
    var hasLocalStorage: bool
    var fired: seq<Callback>

    var ready: bool
    var shown: bool
    var status: Status
    /** `this.applicationIcon` was found. */
    var applicationIcon: bool
    /** `this.element` exists. */
    var hasElement: bool
    /** The viewport is attached to the document. */
    var attached: bool
    /** `remove` has attached the transition-end listeners. */
    var fadingOut: bool

    /** Storage is only believed usable when it can be read and written. */
    ghost predicate Valid()
      reads this`hasLocalStorage
    {
      hasLocalStorage ==> storageAccessible && storageWritable
    }

    /** The part of the instance the policy changes. */
    ghost function State(): World
      reads this`session, this`store, this`href, this`hasLocalStorage, this`fired
    {
      World(session, store, href, hasLocalStorage, fired)
    }

    /** The part of the instance the policy only reads. */
    ghost function Context(): Ctx
      reads this`options, this`env, this`hasToken
    {
      Ctx(options, env, hasToken, storageAccessible)
    }

    /**
     * What the constructor leaves behind once the browser supports
     * `addEventListener`, given the stored sessions, the page URL, the
     * token test made on them, the callbacks fired before, the time and
     * whether the document has loaded: a storage entry that is not JSON
     * stops it with a `SyntaxError`; an unsupported device keeps no token
     * and the URL loses it; both exits write nothing to storage, fire no
     * callback and show nothing; a supported device is suppressed (the
     * constructor throws `'Preventing display.'`) exactly when `Admit` says
     * so for the stored session, and is otherwise ready in the state
     * `Welcome` gives from the admitted one, where the autostart display
     * throws exactly when it happens and there is no message to show.
     */
    ghost predicate Started(store0: Store, href0: string, token0: bool, fired0: seq<Callback>, now: int, domReady: bool)
      reads this`ready, this`status, this`options, this`env, this`hasToken, this`href, this`shown,
        this`language, this`session, this`hasLocalStorage, this`store, this`fired
    {
      && (ready <==> status == Ready || status == AutostartThrew)
      && status != Inert
      && (status == ParseFailed <==>
            storageAccessible && options.appID in store0 && store0[options.appID] == Malformed)
      && (status == Unsupported ==>
            && !env.isCompatible && !hasToken
            && href == (if token0 then Tokens.RemoveToken(href0) else href0))
      && (status == Suppressed || ready ==> env.isCompatible)
      && (status == ParseFailed || status == Unsupported ==> store == store0 && fired == fired0 && !shown)
      && (status == ParseFailed ==> hasToken == token0 && href == href0)
      && (status == Suppressed || ready ==>
            var item := if storageAccessible && options.appID in store0 then Some(store0[options.appID]) else None;
            var href1 := if token0 && !hasToken then Tokens.RemoveToken(href0) else href0;
            var a := Admit(store0, href1, fired0, Context(), Load(item).fields, storageWritable);
            && hasToken == (token0 && Load(item).truthy)
            && Entered(a, now, domReady))
    }

    /**
     * How `Begin` ends for `a`, the policy's verdict and world: suppressed
     * exactly when the policy says so, in its world; otherwise ready, in the
     * state `Welcome` gives from its world, where the autostart display
     * throws exactly when it happens and there is no message to show.
     */
    ghost predicate Entered(a: (bool, World), now: int, domReady: bool)
      reads this`ready, this`status, this`options, this`env, this`shown, this`language,
        this`session, this`store, this`href, this`hasLocalStorage, this`fired
    {
      && (status == Suppressed || status == Ready || status == AutostartThrew)
      && (ready <==> status != Suppressed)
      && (status == Suppressed <==> a.0)
      && (shown, State()) == (if a.0 then (false, a.1) else Welcome(a.1, options, now, domReady))
      && (status == AutostartThrew <==> ready && shown && ResolveMessage(options.message, language, env.os, intl).None?)
    }

    /**
     * The constructor (src/index.js:97-187). `opts` is the option record
     * after the merge with the defaults; the navigator, the page and the
     * storage are parameters. The token step follows the intended
     * behaviour (see `ConstructorTokenStep`).
     */
    constructor(opts: Options, ua: string, hasStandalone: bool, standalone: bool, pixelRatio: real,
                navLanguage: string, href0: string, store0: Store, accessible: bool, writable: bool,
                table: IntlTable, eventListener: bool, now: int, domReady: bool, iconFound: bool)
      ensures Valid()
      ensures storageAccessible == accessible && storageWritable == writable && intl == table
      ensures !eventListener ==> status == Inert && !ready && store == store0 && href == href0
      ensures eventListener ==> options == Normalize(opts, hasStandalone)
      ensures eventListener ==> env == DebugOverride(Sniff(ua, hasStandalone, standalone, pixelRatio), opts.debug)
      ensures eventListener ==> Started(store0, href0, Tokens.HasToken(href0), [], now, domReady)
    {
      storageAccessible := accessible;
      storageWritable := writable;
      intl := table;
      options := opts;
      env := Sniff(ua, hasStandalone, standalone, pixelRatio);
      language := Language(navLanguage);
      hasToken := false;
      session := DefaultSession;
      store := store0;
      href := href0;
      hasLocalStorage := false;
      fired := [];
      ready := false;
      shown := false;
      status := Inert;
      applicationIcon := false;
      hasElement := false;
      attached := false;
      fadingOut := false;
      new;
      if eventListener {
        Init(opts, hasStandalone, now, domReady, iconFound, store0, href0, []);
      }
    }

    /** src/index.js:105-187: normalise the options, apply `debug`, test the URL for the token, then start. */
    method Init(opts: Options, hasStandalone: bool, now: int, domReady: bool, iconFound: bool,
                ghost store0: Store, ghost href0: string, ghost fired0: seq<Callback>)
      requires Valid() && status == Inert && !ready && !shown
      requires store == store0 && href == href0 && fired == fired0
      modifies this`options, this`env, this`hasToken, this`session, this`store, this`href,
        this`hasLocalStorage, this`fired, this`ready, this`status, this`shown,
        this`applicationIcon, this`hasElement, this`attached
      ensures Valid()
      ensures options == Normalize(opts, hasStandalone)
      ensures env == DebugOverride(old(env), opts.debug)
      ensures Started(store0, href0, Tokens.HasToken(href0), fired0, now, domReady)
    {
      options := Normalize(opts, hasStandalone);
      env := DebugOverride(env, options.debug);
      Open(now, domReady, iconFound, store0, href0, fired0);
    }

    /** src/index.js:142-187: test the URL for the token, then start. */
    method Open(now: int, domReady: bool, iconFound: bool,
                ghost store0: Store, ghost href0: string, ghost fired0: seq<Callback>)
      requires Valid() && status == Inert && !ready && !shown
      requires store == store0 && href == href0 && fired == fired0
      modifies this`hasToken, this`session, this`store, this`href,
        this`hasLocalStorage, this`fired, this`ready, this`status, this`shown,
        this`applicationIcon, this`hasElement, this`attached
      ensures Valid()
      ensures Started(store0, href0, Tokens.HasToken(href0), fired0, now, domReady)
    {
      hasToken := Tokens.HasToken(href);
      Start(now, domReady, iconFound, store0, href0, Tokens.HasToken(href0), fired0);
    }

    /** The constructor's work once the options are normalised (src/index.js:147-187). */
    method Start(now: int, domReady: bool, iconFound: bool,
                 ghost store0: Store, ghost href0: string, ghost token0: bool, ghost fired0: seq<Callback>)
      requires Valid() && status == Inert && !ready && !shown
      requires store == store0 && href == href0 && hasToken == token0 && fired == fired0
      modifies this`hasToken, this`session, this`store, this`href,
        this`hasLocalStorage, this`fired, this`ready, this`status, this`shown,
        this`applicationIcon, this`hasElement, this`attached
      ensures Valid()
      ensures Started(store0, href0, token0, fired0, now, domReady)
    {
      var loaded := LoadSession();
      if loaded.SyntaxError? {
        status := ParseFailed;
        return;
      }
      Proceed(loaded, now, domReady, iconFound, store0, href0, token0, fired0);
    }

    /** src/index.js:151-187: the constructor's work once the stored session has parsed. */
    method Proceed(loaded: Loaded, now: int, domReady: bool, iconFound: bool,
                   ghost store0: Store, ghost href0: string, ghost token0: bool, ghost fired0: seq<Callback>)
      requires Valid() && status == Inert && !ready && !shown
      requires store == store0 && href == href0 && hasToken == token0 && fired == fired0
      requires loaded.Parsed?
      requires loaded == Load(if storageAccessible && options.appID in store0 then Some(store0[options.appID]) else None)
      modifies this`hasToken, this`session, this`store, this`href,
        this`hasLocalStorage, this`fired, this`ready, this`status, this`shown,
        this`applicationIcon, this`hasElement, this`attached
      ensures Valid()
      ensures Started(store0, href0, token0, fired0, now, domReady)
    {
      DropToken(loaded.truthy);
      if !env.isCompatible {
        status := Unsupported;
        return;
      }
      Admitted(loaded, now, domReady, iconFound, store0, href0, token0, fired0);
    }

    /** src/index.js:162-187: the constructor's work on a supported device, once the token step is done. */
    method Admitted(loaded: Loaded, now: int, domReady: bool, iconFound: bool,
                    ghost store0: Store, ghost href0: string, ghost token0: bool, ghost fired0: seq<Callback>)
      requires Valid() && status == Inert && !ready && !shown && env.isCompatible
      requires store == store0 && fired == fired0
      requires loaded.Parsed?
      requires loaded == Load(if storageAccessible && options.appID in store0 then Some(store0[options.appID]) else None)
      requires hasToken == (token0 && loaded.truthy)
      requires href == (if token0 && !hasToken then Tokens.RemoveToken(href0) else href0)
      modifies this`session, this`store, this`href, this`hasLocalStorage, this`fired,
        this`ready, this`status, this`shown, this`applicationIcon, this`hasElement, this`attached
      ensures Valid()
      ensures Started(store0, href0, token0, fired0, now, domReady)
    {
      ghost var item := if storageAccessible && options.appID in store0 then Some(store0[options.appID]) else None;
      ghost var c := Context();
      Begin(loaded.fields, now, domReady, iconFound, Admit(store0, href, fired0, Context(), Load(item).fields, storageWritable));
      assert Context() == c;
    }

    /** src/index.js:151-155: a token is kept only on a supported device with a stored session. */
    method DropToken(truthy: bool)
      modifies this`hasToken, this`href
      ensures hasToken == (old(hasToken) && env.isCompatible && truthy)
      ensures href == (if old(hasToken) && !hasToken then Tokens.RemoveToken(old(href)) else old(href))
    {
      if hasToken && (!env.isCompatible || !truthy) {
        hasToken := false;
        RemoveTokenFromUrl();
      }
    }

    /**
     * src/index.js:162-186: on a supported device, merge the session, run
     * the policy and get ready; `a` is what `Admit` gives for the instance
     * as it is.
     */
    method Begin(fields: Partial, now: int, domReady: bool, iconFound: bool, ghost a: (bool, World))
      requires Valid() && env.isCompatible && !shown
      requires a == Admit(store, href, fired, Context(), fields, storageWritable)
      modifies this`session, this`store, this`href, this`hasLocalStorage, this`fired,
        this`ready, this`status, this`shown, this`applicationIcon, this`hasElement, this`attached
      ensures Valid()
      ensures Entered(a, now, domReady)
    {
      var prevent := Screen(fields, a);
      if prevent {
        ready := false;
        status := Suppressed;
        return;
      }
      var _ := BecomeReady(now, domReady, iconFound, a.1);
    }

    /** src/index.js:162-175: merge the session, test the storage and run the policy. */
    method Screen(fields: Partial, ghost a: (bool, World)) returns (prevent: bool)
      requires Valid()
      requires a == Admit(store, href, fired, Context(), fields, storageWritable)
      modifies this`session, this`store, this`href, this`hasLocalStorage, this`fired
      ensures Valid()
      ensures (prevent, State()) == a
    {
      PrepareSession(fields);
      prevent := RunPolicy();
    }

    /** src/index.js:162-170: merge the stored fields with the defaults, then test the storage. */
    method PrepareSession(fields: Partial)
      modifies this`session, this`store, this`hasLocalStorage, this`fired
      ensures Valid()
      ensures State() == TestStorage(World(Merge(fields), old(store), href, false, old(fired)), Context(), storageWritable)
    {
      session := Merge(fields);
      TestLocalStorage();
    }

    /**
     * src/index.js:176-186: the instance is ready, `onInit` runs and
     * `autostart` shows the callout; `r` is what that `show` did (`Skipped`
     * without `autostart`). When it throws, the constructor throws with it.
     */
    method BecomeReady(now: int, domReady: bool, iconFound: bool, ghost w0: World) returns (r: ShowOutcome)
      requires Valid() && !shown && State() == w0
      modifies this`ready, this`status, this`fired, this`shown, this`session, this`store,
        this`applicationIcon, this`hasElement, this`attached
      ensures Valid() && ready
      ensures (shown, State()) == Welcome(w0, options, now, domReady)
      ensures r != Skipped <==> shown
      ensures r == Threw <==> shown && ResolveMessage(options.message, language, env.os, intl).None?
      ensures status == (if r == Threw then AutostartThrew else Ready)
      ensures applicationIcon == (if r != Skipped then old(applicationIcon) || iconFound else old(applicationIcon))
      ensures !r.Rendered? ==> hasElement == old(hasElement) && attached == old(attached)
      ensures r.Rendered? ==> hasElement && attached && r == Rendering()
    {
      ready := true;
      status := Ready;
      if OnInit in options.callbacks {
        fired := fired + [OnInit];
      }
      r := StartShow(now, domReady, iconFound, Fire(w0, options, OnInit));
    }

    /** src/index.js:182-185: with `autostart`, a ready instance shows the callout at once. */
    method StartShow(now: int, domReady: bool, iconFound: bool, ghost w1: World) returns (r: ShowOutcome)
      requires Valid() && ready && status == Ready && !shown && State() == w1
      modifies this`status, this`shown, this`session, this`store, this`applicationIcon, this`hasElement, this`attached
      ensures Valid()
      ensures (shown, State()) == Autostart(w1, options, now, domReady)
      ensures r != Skipped <==> shown
      ensures r == Threw <==> shown && ResolveMessage(options.message, language, env.os, intl).None?
      ensures status == (if r == Threw then AutostartThrew else Ready)
      ensures applicationIcon == (if r != Skipped then old(applicationIcon) || iconFound else old(applicationIcon))
      ensures !r.Rendered? ==> hasElement == old(hasElement) && attached == old(attached)
      ensures r.Rendered? ==> hasElement && attached && r == Rendering()
    {
      r := Skipped;
      if options.autostart {
        r := AutoShow(now, domReady, iconFound);
        if r == Threw {
          status := AutostartThrew;
        }
      }
    }

    /** `autostart`: the constructor's own call to `show` (src/index.js:182-184), unforced. */
    method AutoShow(now: int, domReady: bool, iconFound: bool) returns (r: ShowOutcome)
      requires Valid()
      modifies this`shown, this`session, this`store, this`applicationIcon, this`hasElement, this`attached
      ensures Valid()
      ensures r != Skipped <==> ShowAllowed(old(shown), ready, false, now, old(session), options, domReady)
      ensures r == Skipped ==>
        shown == old(shown) && session == old(session) && store == old(store)
        && hasElement == old(hasElement) && attached == old(attached) && applicationIcon == old(applicationIcon)
      ensures r != Skipped ==> applicationIcon == (old(applicationIcon) || iconFound)
      ensures r == Threw ==> hasElement == old(hasElement) && attached == old(attached)
      ensures r != Skipped ==>
        shown && session == AfterShow(old(session), now)
        && State() == Persist(old(State()).(session := session), options.appID)
      ensures r == Threw <==> r != Skipped && ResolveMessage(options.message, language, env.os, intl).None?
      ensures r.Rendered? ==> hasElement && attached && r == Rendering()
    {
      r := Show(false, now, domReady, iconFound);
    }

    /** src/index.js:147-149: read and parse the stored session. */
    method LoadSession() returns (loaded: Loaded)
      requires Valid()
      modifies this`hasLocalStorage
      ensures Valid()
      ensures hasLocalStorage == (old(hasLocalStorage) && storageAccessible)
      ensures loaded == SyntaxError <==>
        storageAccessible && options.appID in store && store[options.appID] == Malformed
      ensures loaded.Parsed? && !loaded.truthy ==> loaded.fields == NoFields
      ensures loaded == Load(if storageAccessible && options.appID in store then Some(store[options.appID]) else None)
    {
      var item := GetItem(options.appID);
      loaded := Load(item);
    }

    /** src/index.js:172: run the policy; when it allows the callout the session and storage are as the policy requires. */
    method RunPolicy() returns (prevent: bool)
      requires Valid()
      modifies this`session, this`store, this`href, this`hasLocalStorage, this`fired
      ensures Valid()
      ensures (prevent, State()) == Decide(old(State()), Context())
      ensures !prevent ==>
        && !session.optedout && !session.added && session.returningVisitor && !env.isStandalone
        && (hasLocalStorage || options.privateModeOverride)
    {
      ghost var w0 := State();
      prevent := ShouldPreventDisplay();
      if !prevent {
        DecideIff(w0, Context());
        AllowedState(w0, Context());
      }
    }

    /** `getItem` (src/index.js:705-716). */
    method GetItem(key: string) returns (item: Option<Stored>)
      modifies this`hasLocalStorage
      ensures (item, State()) == Policy.GetItem(old(State()), key, storageAccessible)
    {
      if !storageAccessible {
        hasLocalStorage := false;
        return None;
      }
      item := if key in store then Some(store[key]) else None;
    }

    /** `testLocalStorage` (src/index.js:316-333): one write decides whether storage is usable. */
    method TestLocalStorage()
      modifies this`store, this`hasLocalStorage, this`fired
      ensures Valid()
      ensures State() == TestStorage(old(State()), Context(), storageWritable)
    {
      if storageAccessible && storageWritable {
        store := store[options.appID := Serialize(session)];
        hasLocalStorage := true;
      } else {
        hasLocalStorage := false;
        if OnPrivate in options.callbacks {
          fired := fired + [OnPrivate];
        }
      }
    }

    /** `updateSession` (src/index.js:687-698): write-through, or nothing when storage is unusable. */
    method UpdateSession()
      modifies this`store
      ensures State() == Persist(old(State()), options.appID)
    {
      if hasLocalStorage {
        store := store[options.appID := Serialize(session)];
      }
    }

    /** `optOut` (src/index.js:718-721): only `optedout` changes. */
    method OptOut()
      modifies this`session, this`store
      ensures session == old(session).(optedout := true)
      ensures State() == Persist(old(State()).(session := session), options.appID)
    {
      session := session.(optedout := true);
      UpdateSession();
    }

    /** `optIn` (src/index.js:723-726): only `optedout` changes. */
    method OptIn()
      modifies this`session, this`store
      ensures session == old(session).(optedout := false)
      ensures State() == Persist(old(State()).(session := session), options.appID)
    {
      session := session.(optedout := false);
      UpdateSession();
    }

    /** `clearDisplayCount` (src/index.js:728-731): only `displayCount` changes, to 0. */
    method ClearDisplayCount()
      modifies this`session, this`store
      ensures session == old(session).(displayCount := 0)
      ensures State() == Persist(old(State()).(session := session), options.appID)
    {
      session := session.(displayCount := 0);
      UpdateSession();
    }

    /** `clearSession` as intended: back to the default session, written through. */
    method ClearSession()
      modifies this`session, this`store
      ensures session == DefaultSession
      ensures store == ClearSessionStore(old(store), hasLocalStorage, options.appID)
    {
      session := DefaultSession;
      UpdateSession();
    }

    /**
     * `removeSession` (src/index.js:370-380). Without an `appID` the
     * fallback reads `this.defaults.appID` of an undefined `this.defaults`;
     * the TypeError is caught, so nothing is removed.
     */
    method RemoveSession(appID: string)
      modifies this`store
      ensures store == if storageAccessible && appID != "" then old(store) - {appID} else old(store)
    {
      if storageAccessible && appID != "" {
        store := store - {appID};
      }
    }

    /** `_removeToken` (src/index.js:739-763) applied to the page URL. */
    method RemoveTokenFromUrl()
      modifies this`href
      ensures href == Tokens.RemoveToken(old(href))
    {
      href := Tokens.RemoveToken(href);
    }

    /** The count-down loop over `validLocation` (src/index.js:190-197). */
    method IsValidLocation() returns (valid: bool)
      ensures valid == ValidLocation(options.validLocation, href)
    {
      var locs := options.validLocation;
      valid := |locs| == 0;
      var i := |locs|;
      while i > 0
        invariant 0 <= i <= |locs|
        invariant valid == (|locs| == 0 || exists j :: i <= j < |locs| && locs[j](href))
      {
        i := i - 1;
        if locs[i](href) {
          valid := true;
          break;
        }
      }
    }

    /** `shouldPreventDisplay` (src/index.js:189-314), step by step on the instance. */
    method ShouldPreventDisplay() returns (prevent: bool)
      requires Valid()
      modifies this`session, this`store, this`href, this`hasLocalStorage, this`fired
      ensures Valid()
      ensures (prevent, State()) == Decide(old(State()), Context())
    {
      var valid := IsValidLocation();
      LegacyCheck();
      prevent := DecideStep(valid);
    }

    /** src/index.js:199-202: a truthy legacy `addToHome` key opts the visitor out. */
    method LegacyCheck()
      requires Valid()
      modifies this`session, this`store, this`hasLocalStorage
      ensures Valid()
      ensures State() == AfterLegacyCheck(old(State()), Context())
    {
      var legacy := GetItem(LEGACY_KEY);
      if Truthy(legacy) {
        OptOut();
      }
    }

    /** src/index.js:204-313: the checks after the legacy key, given the location test. */
    method DecideStep(valid: bool) returns (prevent: bool)
      modifies this`session, this`store, this`href, this`fired
      ensures (prevent, State()) == DecideFrom(old(State()), Context(), valid)
    {
      if session.optedout || session.added || !valid {
        return true;
      }
      if env.isStandalone {
        MarkAddedOnce();
        return true;
      }
      if DetectSet(options.detectHomescreen) {
        prevent := DetectStep();
      } else {
        prevent := FinalChecksStep();
      }
    }

    /** src/index.js:218-288: with `detectHomescreen` set, a token means the app was added; otherwise the URL gets one. */
    method DetectStep() returns (prevent: bool)
      modifies this`session, this`store, this`href, this`fired
      ensures hasToken ==>
        prevent && State() == MarkAdded(old(State()).(href := Tokens.RemoveToken(old(href))), options)
      ensures !hasToken ==>
        (prevent, State()) == FinalChecks(old(State()).(href := AddToken(options.detectHomescreen, old(href))), options)
    {
      if hasToken {
        RemoveTokenFromUrl();
        MarkAddedOnce();
        return true;
      }
      href := AddToken(options.detectHomescreen, href);
      prevent := FinalChecksStep();
    }

    /** src/index.js:291-313: the returning-visitor and private-mode checks. */
    method FinalChecksStep() returns (prevent: bool)
      modifies this`session, this`store
      ensures (prevent, State()) == FinalChecks(old(State()), options)
    {
      if !session.returningVisitor {
        session := session.(returningVisitor := true);
        UpdateSession();
        if options.skipFirstVisit {
          return true;
        }
      }
      prevent := !options.privateModeOverride && !hasLocalStorage;
    }

    /** src/index.js:227-236 and 250-259: record the install and fire `onAdd` if storage works. */
    method MarkAddedOnce()
      modifies this`session, this`store, this`fired
      ensures State() == MarkAdded(old(State()), options)
    {
      if !session.added {
        session := session.(added := true);
        UpdateSession();
        if OnAdd in options.callbacks && hasLocalStorage {
          fired := fired + [OnAdd];
        }
      }
    }

    /**
     * `show` (src/index.js:396-563) up to the point where the callout is
     * attached; `now` is `Date.now()`, `iconFound` whether the page has an
     * icon link, `domReady` whether the document has loaded.
     */
    method Show(force: bool, now: int, domReady: bool, iconFound: bool) returns (r: ShowOutcome)
      requires Valid()
      modifies this`shown, this`session, this`store, this`applicationIcon, this`hasElement, this`attached
      ensures Valid()
      ensures r != Skipped <==> ShowAllowed(old(shown), ready, force, now, old(session), options, domReady)
      ensures r == Skipped ==>
        shown == old(shown) && session == old(session) && store == old(store)
        && hasElement == old(hasElement) && attached == old(attached) && applicationIcon == old(applicationIcon)
      ensures r != Skipped ==> applicationIcon == (old(applicationIcon) || iconFound)
      ensures r == Threw ==> hasElement == old(hasElement) && attached == old(attached)
      ensures r != Skipped ==>
        shown && session == AfterShow(old(session), now)
        && State() == Persist(old(State()).(session := session), options.appID)
      ensures r == Threw <==> r != Skipped && ResolveMessage(options.message, language, env.os, intl).None?
      ensures r.Rendered? ==> hasElement && attached && r == Rendering()
    {
      if options.autostart && !domReady {
        // retried by a 50 ms timer in the source
        return Skipped;
      }
      if shown {
        return Skipped;
      }
      if !force {
        if !ready {
          return Skipped;
        }
        if now - session.lastDisplayTime < options.displayPace * 60000 {
          return Skipped;
        }
        if options.maxDisplayCount != 0 && session.displayCount >= options.maxDisplayCount {
          return Skipped;
        }
      }
      r := Display(now, iconFound);
    }

    /** What `show` renders with the instance as it is: the two class names and the message paragraph. */
    function Rendering(): ShowOutcome
      reads this`options, this`language, this`env, this`applicationIcon
      requires ResolveMessage(options.message, language, env.os, intl).Some?
    {
      Rendered(ViewportClass(options.modal, options.mandatory),
               ContainerClass(env.os, env.osVersion, env.isTablet, options.showClose, options.icon && applicationIcon),
               MessageHtml(ResolveMessage(options.message, language, env.os, intl).value))
    }

    /** src/index.js:445-562: count the display, then build the callout (or throw on a non-string message). */
    method Display(now: int, iconFound: bool) returns (r: ShowOutcome)
      requires Valid()
      modifies this`shown, this`session, this`store, this`applicationIcon, this`hasElement, this`attached
      ensures Valid() && shown && r != Skipped
      ensures applicationIcon == (old(applicationIcon) || iconFound)
      ensures r == Threw ==> hasElement == old(hasElement) && attached == old(attached)
      ensures session == AfterShow(old(session), now)
      ensures State() == Persist(old(State()).(session := session), options.appID)
      ensures r == Threw <==> ResolveMessage(options.message, language, env.os, intl).None?
      ensures r.Rendered? ==> hasElement && attached && r == Rendering()
    {
      Count(now);
      r := Render(iconFound);
    }

    /** src/index.js:445-450: the callout counts as shown and the session records it. */
    method Count(now: int)
      modifies this`shown, this`session, this`store
      ensures shown
      ensures session == AfterShow(old(session), now)
      ensures State() == Persist(old(State()).(session := session), options.appID)
    {
      shown := true;
      session := session.(lastDisplayTime := now, displayCount := session.displayCount + 1);
      UpdateSession();
    }

    /** src/index.js:452-562: find the icon, resolve the message and build the elements. */
    method Render(iconFound: bool) returns (r: ShowOutcome)
      modifies this`applicationIcon, this`hasElement, this`attached
      ensures r != Skipped
      ensures applicationIcon == (old(applicationIcon) || iconFound)
      ensures r == Threw ==> hasElement == old(hasElement) && attached == old(attached)
      ensures r == Threw <==> ResolveMessage(options.message, language, env.os, intl).None?
      ensures r.Rendered? ==> hasElement && attached && r == Rendering()
    {
      if !applicationIcon {
        applicationIcon := iconFound;
      }
      var message := ResolveMessage(options.message, language, env.os, intl);
      if message.None? {
        return Threw;
      }
      hasElement := true;
      attached := true;
      r := Rendering();
    }

    /** `_show` (src/index.js:569-610), run when the start-delay timer fires: `onShow` is called. */
    method ShowNow()
      modifies this`fired
      ensures fired == old(fired) + (if OnShow in options.callbacks then [OnShow] else [])
    {
      if OnShow in options.callbacks {
        fired := fired + [OnShow];
      }
    }

    /**
     * `remove` (src/index.js:612-635): starts the fade-out. It leaves `shown`
     * set; without a message element it throws a TypeError (`ok` false).
     */
    method Remove() returns (ok: bool)
      modifies this`fadingOut
      ensures ok == hasElement
      ensures fadingOut == (old(fadingOut) || hasElement)
    {
      ok := hasElement;
      if hasElement {
        fadingOut := true;
      }
    }

    /**
     * `_removeElements` (src/index.js:637-651), the transition-end event:
     * it is only delivered while the listeners `remove` attached are there,
     * and it detaches them, so the callout is taken down exactly once.
     */
    method RemoveElements()
      modifies this`fadingOut, this`attached, this`shown, this`fired
      ensures old(fadingOut) && old(attached) ==>
        !shown && !attached && !fadingOut
        && fired == old(fired) + (if OnRemove in options.callbacks then [OnRemove] else [])
      ensures !(old(fadingOut) && old(attached)) ==>
        shown == old(shown) && attached == old(attached) && fadingOut == old(fadingOut) && fired == old(fired)
    {
      if fadingOut && attached {
        fadingOut := false;
        attached := false;
        shown := false;
        if OnRemove in options.callbacks {
          fired := fired + [OnRemove];
        }
      }
    }
  }
}

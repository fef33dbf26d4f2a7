/**
 * The options of an `AddToHomescreen` instance and their normalisation in
 * the constructor (src/index.js:105-140), including the `debug` override
 * of the sniffed environment.
 */
module Config {
  import opened Environment
  import opened Messages

  /** `debug`: off, on, or a platform name that replaces the detected one. */
  datatype Debug = DebugOff | DebugOn | DebugOS(os: string)

  /** `detectHomescreen`: `false`, `true`, or a mode name (`'hash'`, `'queryString'`, `'smartURL'`, ...). */
  datatype Detect = DetectOff | DetectOn | DetectMode(name: string)

  /** The callbacks an instance can be given; `fired` logs record their calls. */
  datatype Callback = OnInit | OnShow | OnRemove | OnAdd | OnPrivate

  /**
   * The options after `{...defaultOptions, ...options}`. `validLocation`
   * holds the page matchers (the regexes' `test`), `callbacks` the
   * callbacks that were supplied.
   */
  datatype Options = Options(
    appID: string,
    debug: Debug,
    modal: bool,
    showClose: bool,
    mandatory: bool,
    autostart: bool,
    skipFirstVisit: bool,
    startDelay: real,
    lifespan: real,
    displayPace: int,
    maxDisplayCount: int,
    icon: bool,
    message: Message,
    validLocation: seq<string -> bool>,
    callbacks: set<Callback>,
    privateModeOverride: bool,
    detectHomescreen: Detect)

  /** `AddToHomescreen.defaultOptions` (src/index.js:29-53), without the fields the model leaves out. */
  function DefaultOptions(): Options
  {
    Options(
      appID := "com.camronflanders.addtohomescreen",
      debug := DebugOff,
      modal := false,
      showClose := true,
      mandatory := false,
      autostart := false,
      skipFirstVisit := false,
      startDelay := 1.0,
      lifespan := 15.0,
      displayPace := 1440,
      maxDisplayCount := 0,
      icon := true,
      message := Text(""),
      validLocation := [],
      callbacks := {},
      privateModeOverride := false,
      detectHomescreen := DetectOff)
  }

  /** JavaScript truthiness of `debug`: the empty string is false. */
  predicate DebugSet(d: Debug)
  {
    d.DebugOn? || (d.DebugOS? && d.os != "")
  }

  /** JavaScript truthiness of `detectHomescreen`. */
  predicate DetectSet(d: Detect)
  {
    d.DetectOn? || (d.DetectMode? && d.name != "")
  }

  /**
   * The option rewrite at src/index.js:115-129. `hasStandalone` is
   * `'standalone' in window.navigator`. `modal` is computed from the
   * `mandatory` value given by the caller, before it was narrowed.
   */
  function Normalize(o: Options, hasStandalone: bool): (n: Options)
    ensures n.appID == o.appID && n.debug == o.debug
    ensures n.mandatory <==> o.mandatory && (hasStandalone || DebugSet(o.debug))
    ensures n.modal <==> o.modal || o.mandatory
    ensures n.mandatory ==> n.modal && n.startDelay == -0.5
    ensures !n.mandatory ==> n.startDelay == o.startDelay
    ensures n.detectHomescreen == (if o.detectHomescreen.DetectOn? then DetectMode("hash") else o.detectHomescreen)
    ensures !n.detectHomescreen.DetectOn? && (DetectSet(n.detectHomescreen) <==> DetectSet(o.detectHomescreen))
    ensures n == o.(mandatory := n.mandatory, modal := n.modal, startDelay := n.startDelay,
                    detectHomescreen := n.detectHomescreen)
  {
    var mandatory := o.mandatory && (hasStandalone || DebugSet(o.debug));
    var n := o.(mandatory := mandatory,
                modal := o.modal || o.mandatory,
                detectHomescreen := if o.detectHomescreen.DetectOn? then DetectMode("hash") else o.detectHomescreen);
    if mandatory then n.(startDelay := -0.5) else n
  }

  /** Where `'standalone'` is not in the navigator, a mandatory callout is not mandatory but still modal. */
  lemma MandatoryWithoutStandaloneStaysModal(o: Options)
    requires o.mandatory && !DebugSet(o.debug)
    ensures !Normalize(o, false).mandatory && Normalize(o, false).modal
    ensures Normalize(o, false).startDelay == o.startDelay
  {
  }

  /** Normalising twice changes nothing more (the mode, once a name, stays; mandatory only narrows). */
  lemma NormalizeIdempotent(o: Options, hasStandalone: bool)
    ensures Normalize(Normalize(o, hasStandalone), hasStandalone) == Normalize(o, hasStandalone)
  {
  }

  /**
   * The `debug` override at src/index.js:131-140: compatibility is forced,
   * a platform given as a string replaces the detected one, `unsupported`
   * becomes `android`, and the version becomes 8 on ios and 4 elsewhere.
   */
  function DebugOverride(e: Env, d: Debug): (r: Env)
    ensures !DebugSet(d) ==> r == e
    ensures DebugSet(d) ==> r.isCompatible && r.osVersion == (if r.os == IOS then 8.0 else 4.0)
    ensures DebugSet(d) && d.DebugOS? ==> r.os == d.os
    ensures d.DebugOn? ==> r.os == (if e.os == UNSUPPORTED then ANDROID else e.os)
    ensures r == e.(isCompatible := r.isCompatible, os := r.os, osVersion := r.osVersion)
  {
    if !DebugSet(d) then e
    else
      var os := if d.DebugOS? then d.os else if e.os == UNSUPPORTED then ANDROID else e.os;
      e.(isCompatible := true, os := os, osVersion := if os == IOS then 8.0 else 4.0)
  }
}

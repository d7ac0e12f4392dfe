/**
 * The `<fun-player>` custom element: its lifecycle fields, the style blocks it keeps
 * in its shadow root, the theme block it reuses, the props it hands to React, and the
 * filter that decides when the page's new styles must be copied in.
 *
 * The shadow root is a list of children; React, the page's style sheets and the
 * mutation observer are outside the model and appear only through what the element
 * stores or is told (a `Host` describes what the outside world does).
 */
module WebComponent {
  import opened Wrappers
  import opened Dicts
  import opened Js
  import opened Text
  import opened ThemeUtils

  const TagName := "fun-player"
  /** The attributes whose changes the element is told about. */
  const ObservedAttributes: seq<string> := ["playlist", "theme"]
  const InjectedStylesId := "funplayer-injected-styles"
  const ThemeStylesId := "funplayer-theme-styles"
  const ShadowContainerSelector := ".funplayer-shadow-container"

  /** What a `<style>` element of the shadow root holds. */
  datatype StyleText =
    | NoText
      /** The page's styles (as extracted) followed by the host and container rules. */
    | InjectedStyles(extracted: string)
      /** The minimal host and container rules used when injection failed. */
    | FallbackStyles
      /** The theme rules built from a sanitized theme. */
    | ThemeStyles(rules: seq<Rule>)

  /** A child of the shadow root. */
  datatype ShadowChild =
    | StyleNode(id: Option<string>, text: StyleText)
    | ReactContainer
    | ErrorFallback

  /** The outside world during one call: extracted CSS, and which outside steps fail. */
  datatype Host = Host(extractedCss: string, injectionFails: bool, createRootFails: bool, renderFails: bool)

  /** A node added to the document head, as the mutation filter reads it. */
  datatype AddedNode = AddedNode(tagName: Option<string>, rel: Option<string>)

  /** A mutation record: its `type` and its added nodes. */
  datatype Mutation = Mutation(kind: string, addedNodes: seq<AddedNode>)

  /** The keys of the props object that the model follows; the event callbacks are opaque. */
  datatype Props = Props(playlist: Option<Value>, theme: Option<Value>)

  /** The React root: the props of every render, in order. */
  datatype ReactRoot = ReactRoot(renders: seq<Props>)

  predicate HasId(c: ShadowChild, id: string)
  {
    c.StyleNode? && c.id == Some(id)
  }

  /** At most one child carries the id. */
  predicate UniqueId(children: seq<ShadowChild>, id: string)
  {
    forall i, j :: 0 <= i < j < |children| && HasId(children[i], id) ==> !HasId(children[j], id)
  }

  /** `getElementById(id)`: the first child that carries the id. */
  function FindById(children: seq<ShadowChild>, id: string): (r: Option<nat>)
    ensures r.Some? ==> r.value < |children| && HasId(children[r.value], id)
    ensures r.Some? ==> forall j :: 0 <= j < r.value ==> !HasId(children[j], id)
    ensures r.None? ==> forall j :: 0 <= j < |children| ==> !HasId(children[j], id)
  {
    if children == [] then None
    else if HasId(children[0], id) then Some(0)
    else
      match FindById(children[1..], id)
      case Some(i) => Some(i + 1)
      case None => None
  }

  /** The `<style>` blocks that `injectStylesAsync` or `injectFallbackStylesOnly` appended. */
  predicate IsInjectedBlock(c: ShadowChild)
  {
    c.StyleNode? && (c.text.InjectedStyles? || c.text.FallbackStyles?)
  }

  /** The number of injected blocks among the children. */
  function InjectedBlocks(children: seq<ShadowChild>): nat
  {
    if children == [] then 0
    else InjectedBlocks(children[..|children| - 1]) + (if IsInjectedBlock(children[|children| - 1]) then 1 else 0)
  }

  lemma InjectedBlocksAppend(children: seq<ShadowChild>, c: ShadowChild)
    ensures InjectedBlocks(children + [c]) == InjectedBlocks(children) + (if IsInjectedBlock(c) then 1 else 0)
  {
    assert (children + [c])[..|children|] == children;
  }

  // ---------------------------------------------------------------------------
  // The mutation filter
  // ---------------------------------------------------------------------------

  /** An added `<style>`, or a `<link rel="stylesheet">`. */
  predicate IsStyleNode(n: AddedNode)
  {
    n.tagName == Some("STYLE") || (n.tagName == Some("LINK") && n.rel == Some("stylesheet"))
  }

  /** Some `childList` record adds a style node. */
  predicate StylesChanged(mutations: seq<Mutation>)
  {
    exists i, j :: 0 <= i < |mutations| && mutations[i].kind == "childList"
      && 0 <= j < |mutations[i].addedNodes| && IsStyleNode(mutations[i].addedNodes[j])
  }

  /** The loops of the observer callback that compute `stylesChanged`. */
  method DetectStyleChanges(mutations: seq<Mutation>) returns (stylesChanged: bool)
    ensures stylesChanged <==> StylesChanged(mutations)
  {
    stylesChanged := false;
    for i := 0 to |mutations|
      invariant stylesChanged <==> StylesChanged(mutations[..i])
    {
      var mutation := mutations[i];
      assert forall k :: 0 <= k < i ==> mutations[..i + 1][k] == mutations[..i][k];
      if mutation.kind == "childList" {
        for j := 0 to |mutation.addedNodes|
          invariant stylesChanged <==> StylesChanged(mutations[..i])
                                       || exists k :: 0 <= k < j && IsStyleNode(mutation.addedNodes[k])
        {
          var node := mutation.addedNodes[j];
          if IsStyleNode(node) {
            stylesChanged := true;
          }
        }
        assert mutations[..i + 1][i] == mutation;
      }
    }
    assert mutations[..|mutations|] == mutations;
  }

  // ---------------------------------------------------------------------------
  // Resizing
  // ---------------------------------------------------------------------------

  /** The event detail `onResize` sends: the dimensions, or a zero size when they are missing. */
  function ResizeDetail(dimensions: Value): (r: Value)
    ensures Truthy(dimensions) ==> r == dimensions
    ensures !Truthy(dimensions) ==> GetProp(r, "width") == Num(0) && GetProp(r, "height") == Num(0)
  {
    if Truthy(dimensions) then dimensions else Obj([("width", Num(0)), ("height", Num(0))])
  }

  /** The rules `applyThemeToShadowDOM` writes for a sanitized theme. */
  function ThemeRules(sanitized: Value): seq<Rule>
  {
    [Rule(ShadowContainerSelector, ContainerDecls(ThemeCssOf(sanitized), IsDark(sanitized)))] + ComponentRules
  }

  /**
   * `buildShadowDOMThemeCSS(sanitizedTheme, '.funplayer-shadow-container')`, through
   * the corrected builder: the defaults come before the theme's variables, so the
   * theme wins (second finding; the as-written order is `BuildShadowDOMThemeCSSAsWritten`).
   */
  method BuildThemeRules(sanitized: Value) returns (rules: seq<Rule>)
    requires sanitized.Obj?
    ensures rules == ThemeRules(sanitized)
  {
    rules := BuildShadowDOMThemeCSS(sanitized, ShadowContainerSelector);
  }

  /** The theme block: reused when present, appended otherwise. */
  function PutThemeBlock(children: seq<ShadowChild>, rules: seq<Rule>): seq<ShadowChild>
  {
    var block := StyleNode(Some(ThemeStylesId), ThemeStyles(rules));
    match FindById(children, ThemeStylesId)
    case Some(i) => children[i := block]
    case None => children + [block]
  }

  /** The shadow root after `applyThemeToShadowDOM(theme)`. */
  function ThemeApplied(children: seq<ShadowChild>, theme: Value): seq<ShadowChild>
  {
    if !Truthy(theme) || Sanitized(theme) == [] then children
    else PutThemeBlock(children, ThemeRules(Obj(Sanitized(theme))))
  }

  /**
   * Writing the theme block leaves exactly one child with its id, holding the new
   * rules; every other child stays where it was, and the block is appended only
   * when none existed.
   */
  lemma PutThemeBlockUnique(children: seq<ShadowChild>, rules: seq<Rule>)
    requires UniqueId(children, ThemeStylesId)
    ensures var r := PutThemeBlock(children, rules);
      UniqueId(r, ThemeStylesId)
      && FindById(r, ThemeStylesId).Some?
      && r[FindById(r, ThemeStylesId).value] == StyleNode(Some(ThemeStylesId), ThemeStyles(rules))
    ensures var r := PutThemeBlock(children, rules);
      match FindById(children, ThemeStylesId)
      case Some(i) => |r| == |children| && forall j :: 0 <= j < |r| && j != i ==> r[j] == children[j]
      case None => |r| == |children| + 1 && r[..|children|] == children
  {
    var r := PutThemeBlock(children, rules);
    var block := StyleNode(Some(ThemeStylesId), ThemeStyles(rules));
    match FindById(children, ThemeStylesId)
    case Some(i) =>
      assert r[i] == block;
      assert forall j :: 0 <= j < |r| && j != i ==> !HasId(r[j], ThemeStylesId);
      FindOnly(r, i);
    case None =>
      assert r[|children|] == block;
      assert r[..|children|] == children;
      FindOnly(r, |children|);
  }

  /** The only child with the id is the one found. */
  lemma FindOnly(children: seq<ShadowChild>, i: nat)
    requires i < |children| && HasId(children[i], ThemeStylesId)
    requires forall j :: 0 <= j < |children| && j != i ==> !HasId(children[j], ThemeStylesId)
    ensures UniqueId(children, ThemeStylesId) && FindById(children, ThemeStylesId) == Some(i)
  {
  }

  /** Applying a theme keeps the theme block unique, and a theme is applied exactly when it sanitizes to something. */
  lemma ThemeAppliedKeepsUnique(children: seq<ShadowChild>, theme: Value)
    requires UniqueId(children, ThemeStylesId)
    ensures UniqueId(ThemeApplied(children, theme), ThemeStylesId)
    ensures (ThemeApplied(children, theme) == children) || (Truthy(theme) && IsValidTheme(Obj(Sanitized(theme))))
    ensures !Truthy(theme) || !IsValidTheme(Obj(Sanitized(theme))) ==> ThemeApplied(children, theme) == children
  {
    SanitizedValidIffNonEmpty(theme);
    if Truthy(theme) && Sanitized(theme) != [] {
      PutThemeBlockUnique(children, ThemeRules(Obj(Sanitized(theme))));
    }
  }

  /** Applying the same theme a second time changes nothing. */
  lemma ThemeAppliedIdempotent(children: seq<ShadowChild>, theme: Value)
    requires UniqueId(children, ThemeStylesId)
    ensures ThemeApplied(ThemeApplied(children, theme), theme) == ThemeApplied(children, theme)
  {
    if Truthy(theme) && Sanitized(theme) != [] {
      var rules := ThemeRules(Obj(Sanitized(theme)));
      PutThemeBlockIdempotent(children, rules);
    }
  }

  /** Writing the same rules a second time changes nothing. */
  lemma PutThemeBlockIdempotent(children: seq<ShadowChild>, rules: seq<Rule>)
    requires UniqueId(children, ThemeStylesId)
    ensures PutThemeBlock(PutThemeBlock(children, rules), rules) == PutThemeBlock(children, rules)
  {
    PutThemeBlockUnique(children, rules);
    var r := PutThemeBlock(children, rules);
    var i := FindById(r, ThemeStylesId).value;
    assert PutThemeBlock(r, rules) == r[i := r[i]];
  }

  /** Applying a theme keeps every child other than the theme block. */
  lemma ThemeAppliedKeepsChild(children: seq<ShadowChild>, theme: Value, c: ShadowChild)
    requires UniqueId(children, ThemeStylesId) && c in children && !HasId(c, ThemeStylesId)
    ensures c in ThemeApplied(children, theme)
  {
    if Truthy(theme) && Sanitized(theme) != [] {
      var rules := ThemeRules(Obj(Sanitized(theme)));
      PutThemeBlockUnique(children, rules);
      var k :| 0 <= k < |children| && children[k] == c;
      var r := PutThemeBlock(children, rules);
      match FindById(children, ThemeStylesId)
      case Some(i) =>
        assert i != k;
        assert r[k] == c;
      case None =>
        assert r[k] == c;
    }
  }

  /** `newValue || '{}'`: the text `attributeChangedCallback` parses as a theme. */
  function ThemeText(newValue: Option<string>): string
  {
    match newValue
    case Some(v) => if v == "" then "{}" else v
    case None => "{}"
  }

  /** The block the style injection appends: the page's styles, or the fallback when injection fails. */
  function InjectedBlock(host: Host): ShadowChild
  {
    if host.injectionFails then StyleNode(None, FallbackStyles)
    else StyleNode(Some(InjectedStylesId), InjectedStyles(host.extractedCss))
  }

  /** The shadow root after `injectStylesAsync()`: one block more, unless styles were injected already. */
  function WithStyles(children: seq<ShadowChild>, stylesInjected: bool, host: Host): seq<ShadowChild>
  {
    if stylesInjected then children else children + [InjectedBlock(host)]
  }

  // ---------------------------------------------------------------------------
  // The element
  // ---------------------------------------------------------------------------

  class FunPlayerElement {
    /** The React root once created (`this.reactRoot`). */
    var reactRoot: Option<ReactRoot>
    var stylesInjected: bool
    /** Whether `this.initializationPromise` holds a promise. */
    var initializationPromise: bool
    /** Whether `this.styleObserver` holds an observer. */
    var styleObserver: bool
    /** The children of the open shadow root attached by the constructor. */
    var shadowChildren: seq<ShadowChild>
    /** The element's attributes, as the page set them. */
    var attributes: Entries<string>
    /** `this.style.height`. */
    var height: Option<string>
    /** The details of the `funplayer-resize` events dispatched so far. */
    var resizeEvents: seq<Value>
    /** `JSON.parse`: None stands for a thrown SyntaxError. */
    const parseJson: string -> Option<Value>
    /** The CSS parser behind `style.height = text`: whether it accepts the text as a height. */
    const isValidHeight: string -> bool
    /** How many `MutationObserver`s the element has created. */
    ghost var observersCreated: nat

    /** What holds between calls: one theme block at most, and the fields set in order. */
    predicate Valid()
      reads this
    {
      UniqueId(shadowChildren, ThemeStylesId)
      && (reactRoot.Some? ==> initializationPromise)
      && (initializationPromise <==> stylesInjected)
      && (styleObserver ==> stylesInjected)
    }

    constructor(parseJson: string -> Option<Value>, isValidHeight: string -> bool, attributes: Entries<string>)
      ensures Valid()
      ensures reactRoot.None? && !stylesInjected && !initializationPromise && !styleObserver
      ensures shadowChildren == [] && this.attributes == attributes && height.None? && resizeEvents == []
      ensures this.parseJson == parseJson && this.isValidHeight == isValidHeight && observersCreated == 0
    {
      this.parseJson := parseJson;
      this.isValidHeight := isValidHeight;
      this.attributes := attributes;
      reactRoot := None;
      stylesInjected := false;
      initializationPromise := false;
      styleObserver := false;
      shadowChildren := [];
      height := None;
      resizeEvents := [];
      observersCreated := 0;
    }

    function GetAttribute(name: string): Option<string>
      reads `attributes
    {
      Get(attributes, name)
    }

    /** The `playlist` prop: absent for a missing or empty attribute, `[]` when it does not parse. */
    function PlaylistProp(attr: Option<string>): (r: Option<Value>)
      ensures attr.None? || attr == Some("") ==> r.None?
      ensures attr.Some? && attr.value != "" && parseJson(attr.value).None? ==> r == Some(Arr([]))
      ensures attr.Some? && attr.value != "" && parseJson(attr.value).Some? ==> r == parseJson(attr.value)
    {
      match attr
      case None => None
      case Some(a) =>
        if a == "" then None
        else match parseJson(a)
          case Some(v) => Some(v)
          case None => Some(Arr([]))
    }

    /** The `theme` prop: present only for a non-empty attribute that parses. */
    function ThemeProp(attr: Option<string>): (r: Option<Value>)
      ensures r.Some? <==> attr.Some? && attr.value != "" && parseJson(attr.value).Some?
      ensures r.Some? ==> r == parseJson(attr.value)
    {
      match attr
      case None => None
      case Some(a) => if a == "" then None else parseJson(a)
    }

    /** The props the current attributes give. */
    function AttributeProps(): Props
      reads `attributes
    {
      Props(PlaylistProp(GetAttribute("playlist")), ThemeProp(GetAttribute("theme")))
    }

    /** The shadow root after a render: `buildReactProps` applies the theme prop when there is one. */
    function Rendered(children: seq<ShadowChild>): seq<ShadowChild>
      reads `attributes
    {
      match ThemeProp(GetAttribute("theme"))
      case Some(t) => ThemeApplied(children, t)
      case None => children
    }

    /** The shadow root after the theme step of `attributeChangedCallback`. */
    function ThemeChanged(children: seq<ShadowChild>, name: string, newValue: Option<string>): seq<ShadowChild>
    {
      if name != "theme" then children
      else match parseJson(ThemeText(newValue))
        case Some(t) => ThemeApplied(children, t)
        case None => children
    }

    // -------------------------------------------------------------------------
    // Lifecycle
    // -------------------------------------------------------------------------

    /** `connectedCallback()`: starts the initialisation once. */
    method ConnectedCallback(host: Host)
      requires Valid()
      modifies this
      ensures Valid()
      ensures initializationPromise && stylesInjected
      ensures old(initializationPromise) ==>
        reactRoot == old(reactRoot) && stylesInjected == old(stylesInjected) && styleObserver == old(styleObserver)
        && shadowChildren == old(shadowChildren) && attributes == old(attributes) && height == old(height)
        && resizeEvents == old(resizeEvents)
      ensures !old(initializationPromise) ==> InjectedBlocks(shadowChildren) <= InjectedBlocks(old(shadowChildren)) + 1
      ensures !old(initializationPromise) ==> (reactRoot.Some? <==> !host.createRootFails)
      ensures !old(initializationPromise) && (host.createRootFails || host.renderFails) ==> shadowChildren == [ErrorFallback]
      ensures !old(initializationPromise) && !host.createRootFails && !host.renderFails ==>
        reactRoot == Some(ReactRoot([AttributeProps()]))
        && shadowChildren == Rendered(old(shadowChildren) + [InjectedBlock(host), ReactContainer])
        && InjectedBlock(host) in shadowChildren && ReactContainer in shadowChildren
      ensures observersCreated == old(observersCreated) + (if !old(initializationPromise) && !host.injectionFails then 1 else 0)
      ensures attributes == old(attributes)
    {
      if initializationPromise {
        return;
      }
      initializationPromise := true;
      InitializeAsync(host);
      assert WithStyles(old(shadowChildren), false, host) + [ReactContainer]
        == old(shadowChildren) + [InjectedBlock(host), ReactContainer];
    }

    /** `disconnectedCallback()`. */
    method DisconnectedCallback()
      requires Valid()
      modifies this
      ensures Valid()
      ensures reactRoot.None? && !stylesInjected && !initializationPromise && !styleObserver
      ensures shadowChildren == old(shadowChildren) && attributes == old(attributes)
      ensures observersCreated == old(observersCreated)
    {
      Cleanup();
    }

    /** `cleanup()`: disconnects the observer, unmounts React and resets the flags. */
    method Cleanup()
      requires Valid()
      modifies this
      ensures Valid()
      ensures reactRoot.None? && !stylesInjected && !initializationPromise && !styleObserver
      ensures shadowChildren == old(shadowChildren) && attributes == old(attributes)
      ensures height == old(height) && resizeEvents == old(resizeEvents)
      ensures observersCreated == old(observersCreated)
    {
      if styleObserver {
        styleObserver := false;
      }
      if reactRoot.Some? {
        reactRoot := None;
      }
      stylesInjected := false;
      initializationPromise := false;
    }

    /**
     * The page sets an attribute; an HTML element lower-cases the name (ASCII
     * letters only) before storing it, and for an observed one the browser then
     * calls `attributeChangedCallback(name, oldValue, newValue)`.
     */
    method SetAttribute(name: string, value: string, host: Host)
      requires Valid()
      modifies this
      ensures Valid()
      ensures attributes == Put(old(attributes), LowerAll(name), value)
      ensures LowerAll(name) !in ObservedAttributes || old(GetAttribute(LowerAll(name))) == Some(value)
              || old(reactRoot).None? ==>
        shadowChildren == old(shadowChildren) && reactRoot == old(reactRoot)
      ensures LowerAll(name) in ObservedAttributes && old(GetAttribute(LowerAll(name))) != Some(value)
              && old(reactRoot).Some? && !host.renderFails ==>
        reactRoot == Some(ReactRoot(old(reactRoot).value.renders + [AttributeProps()]))
        && shadowChildren == Rendered(ThemeChanged(old(shadowChildren), LowerAll(name), Some(value)))
      ensures LowerAll(name) in ObservedAttributes && old(GetAttribute(LowerAll(name))) != Some(value)
              && old(reactRoot).Some? && host.renderFails ==>
        shadowChildren == [ErrorFallback]
      ensures reactRoot.Some? <==> old(reactRoot).Some?
      ensures stylesInjected == old(stylesInjected) && initializationPromise == old(initializationPromise)
      ensures styleObserver == old(styleObserver) && observersCreated == old(observersCreated)
      ensures height == old(height) && resizeEvents == old(resizeEvents)
    {
      var key := LowerAll(name);
      var oldValue := GetAttribute(key);
      attributes := Put(attributes, key, value);
      if key in ObservedAttributes {
        AttributeChangedCallback(key, oldValue, Some(value), host);
      }
    }

    /** `attributeChangedCallback(name, oldValue, newValue)`. */
    method AttributeChangedCallback(name: string, oldValue: Option<string>, newValue: Option<string>, host: Host)
      requires Valid()
      modifies this
      ensures Valid()
      ensures oldValue == newValue || reactRoot.None? ==>
        shadowChildren == old(shadowChildren) && reactRoot == old(reactRoot)
      ensures attributes == old(attributes) && stylesInjected == old(stylesInjected)
      ensures initializationPromise == old(initializationPromise) && styleObserver == old(styleObserver)
      ensures height == old(height) && resizeEvents == old(resizeEvents)
      ensures old(reactRoot).Some? <==> reactRoot.Some?
      ensures oldValue != newValue && old(reactRoot).Some? && !host.renderFails ==>
        reactRoot == Some(ReactRoot(old(reactRoot).value.renders + [AttributeProps()]))
        && shadowChildren == Rendered(ThemeChanged(old(shadowChildren), name, newValue))
      ensures oldValue != newValue && old(reactRoot).Some? && host.renderFails ==> shadowChildren == [ErrorFallback]
      ensures observersCreated == old(observersCreated)
    {
      if oldValue == newValue {
        return;
      }
      if name == "theme" && reactRoot.Some? {
        var theme := parseJson(ThemeText(newValue));
        if theme.Some? {
          ApplyThemeToShadowDOM(theme.value);
        }
      }
      if reactRoot.Some? {
        UpdateReactComponent(host);
      }
    }

    /** `initializeAsync()`, its steps run one after the other. */
    method InitializeAsync(host: Host)
      requires UniqueId(shadowChildren, ThemeStylesId) && (styleObserver ==> stylesInjected)
      requires initializationPromise && reactRoot.None?
      modifies this
      ensures Valid()
      ensures stylesInjected && initializationPromise
      ensures InjectedBlocks(shadowChildren) <= InjectedBlocks(old(shadowChildren)) + 1
      ensures reactRoot.Some? <==> !host.createRootFails
      ensures host.createRootFails || host.renderFails ==> shadowChildren == [ErrorFallback]
      ensures !host.createRootFails && !host.renderFails ==> reactRoot == Some(ReactRoot([AttributeProps()]))
      ensures !host.createRootFails && !host.renderFails ==>
        shadowChildren == Rendered(WithStyles(old(shadowChildren), old(stylesInjected), host) + [ReactContainer])
        && ReactContainer in shadowChildren
        && (!old(stylesInjected) ==> InjectedBlock(host) in shadowChildren)
      ensures observersCreated == old(observersCreated) + (if !old(stylesInjected) && !host.injectionFails then 1 else 0)
      ensures attributes == old(attributes)
    {
      InjectStylesAsync(host);
      var styled := shadowChildren;
      InitializeReact(host);
      if !host.createRootFails && !host.renderFails && !old(stylesInjected) {
        assert (styled + [ReactContainer])[|styled| - 1] == InjectedBlock(host);
        RenderedKeepsChild(styled + [ReactContainer], InjectedBlock(host));
      }
    }

    // -------------------------------------------------------------------------
    // Styles
    // -------------------------------------------------------------------------

    /** `injectStylesAsync()`: the page's styles once, or the fallback when that fails. */
    method InjectStylesAsync(host: Host)
      requires UniqueId(shadowChildren, ThemeStylesId) && (styleObserver ==> stylesInjected)
      modifies this
      ensures UniqueId(shadowChildren, ThemeStylesId) && (styleObserver ==> stylesInjected)
      ensures stylesInjected
      ensures shadowChildren == WithStyles(old(shadowChildren), old(stylesInjected), host)
      ensures observersCreated == old(observersCreated) + (if !old(stylesInjected) && !host.injectionFails then 1 else 0)
      ensures old(stylesInjected) ==> shadowChildren == old(shadowChildren) && styleObserver == old(styleObserver)
      ensures !old(stylesInjected) && !host.injectionFails ==>
        shadowChildren == old(shadowChildren) + [StyleNode(Some(InjectedStylesId), InjectedStyles(host.extractedCss))]
        && styleObserver
      ensures !old(stylesInjected) && host.injectionFails ==>
        shadowChildren == old(shadowChildren) + [StyleNode(None, FallbackStyles)]
      ensures InjectedBlocks(shadowChildren) <= InjectedBlocks(old(shadowChildren)) + 1
      ensures UniqueId(shadowChildren, ThemeStylesId)
      ensures reactRoot == old(reactRoot) && initializationPromise == old(initializationPromise)
      ensures attributes == old(attributes) && height == old(height) && resizeEvents == old(resizeEvents)
    {
      if stylesInjected {
        return;
      }
      if host.injectionFails {
        InjectFallbackStylesOnly();
        return;
      }
      var style := StyleNode(Some(InjectedStylesId), InjectedStyles(host.extractedCss));
      InjectedBlocksAppend(shadowChildren, style);
      AppendKeepsUnique(shadowChildren, style);
      shadowChildren := shadowChildren + [style];
      stylesInjected := true;
      ObserveStyleChanges();
    }

    /** `injectFallbackStylesOnly()`. */
    method InjectFallbackStylesOnly()
      requires UniqueId(shadowChildren, ThemeStylesId)
      modifies this
      ensures stylesInjected
      ensures old(stylesInjected) ==> shadowChildren == old(shadowChildren)
      ensures !old(stylesInjected) ==> shadowChildren == old(shadowChildren) + [StyleNode(None, FallbackStyles)]
      ensures InjectedBlocks(shadowChildren) <= InjectedBlocks(old(shadowChildren)) + 1
      ensures UniqueId(shadowChildren, ThemeStylesId)
      ensures reactRoot == old(reactRoot) && initializationPromise == old(initializationPromise)
      ensures styleObserver == old(styleObserver) && observersCreated == old(observersCreated)
      ensures attributes == old(attributes) && height == old(height) && resizeEvents == old(resizeEvents)
    {
      if stylesInjected {
        return;
      }
      var style := StyleNode(None, FallbackStyles);
      InjectedBlocksAppend(shadowChildren, style);
      AppendKeepsUnique(shadowChildren, style);
      shadowChildren := shadowChildren + [style];
      stylesInjected := true;
    }

    /** `observeStyleChanges()`: creates an observer only when none is installed. */
    method ObserveStyleChanges()
      modifies this
      ensures styleObserver
      ensures observersCreated == old(observersCreated) + (if old(styleObserver) then 0 else 1)
      ensures reactRoot == old(reactRoot) && stylesInjected == old(stylesInjected)
      ensures initializationPromise == old(initializationPromise) && shadowChildren == old(shadowChildren)
      ensures attributes == old(attributes) && height == old(height) && resizeEvents == old(resizeEvents)
    {
      if styleObserver {
        return;
      }
      styleObserver := true;
      observersCreated := observersCreated + 1;
    }

    /** The observer's callback; records reach it only while the observer is installed. */
    method OnStyleMutations(mutations: seq<Mutation>, extractedCss: string)
      requires Valid()
      modifies this
      ensures Valid()
      ensures !styleObserver || !StylesChanged(mutations) ==> shadowChildren == old(shadowChildren)
      ensures styleObserver && StylesChanged(mutations) ==>
        shadowChildren == StylesUpdated(old(shadowChildren), extractedCss)
      ensures reactRoot == old(reactRoot) && stylesInjected == old(stylesInjected)
      ensures initializationPromise == old(initializationPromise) && styleObserver == old(styleObserver)
      ensures attributes == old(attributes)
      ensures observersCreated == old(observersCreated)
    {
      if !styleObserver {
        return;
      }
      var stylesChanged := DetectStyleChanges(mutations);
      if stylesChanged {
        UpdateStylesFromChanges(extractedCss);
      }
    }

    /** `updateStylesFromChanges()`: rewrites the injected block, if there is one. */
    method UpdateStylesFromChanges(extractedCss: string)
      requires Valid()
      modifies this
      ensures Valid()
      ensures shadowChildren == StylesUpdated(old(shadowChildren), extractedCss)
      ensures reactRoot == old(reactRoot) && stylesInjected == old(stylesInjected)
      ensures initializationPromise == old(initializationPromise) && styleObserver == old(styleObserver)
      ensures attributes == old(attributes)
      ensures observersCreated == old(observersCreated)
    {
      var found := FindById(shadowChildren, InjectedStylesId);
      if found.None? {
        return;
      }
      var i := found.value;
      ReplaceKeepsUnique(shadowChildren, i, StyleNode(Some(InjectedStylesId), InjectedStyles(extractedCss)));
      shadowChildren := shadowChildren[i := StyleNode(Some(InjectedStylesId), InjectedStyles(extractedCss))];
    }

    // -------------------------------------------------------------------------
    // Theme and React
    // -------------------------------------------------------------------------

    /** `applyThemeToShadowDOM(theme)`, with the corrected `buildShadowDOMThemeCSS`. */
    method ApplyThemeToShadowDOM(theme: Value)
      requires Valid()
      modifies this
      ensures Valid()
      ensures shadowChildren == ThemeApplied(old(shadowChildren), theme)
      ensures reactRoot == old(reactRoot) && stylesInjected == old(stylesInjected)
      ensures initializationPromise == old(initializationPromise) && styleObserver == old(styleObserver)
      ensures attributes == old(attributes) && height == old(height) && resizeEvents == old(resizeEvents)
      ensures observersCreated == old(observersCreated)
    {
      ThemeAppliedKeepsUnique(shadowChildren, theme);
      if !Truthy(theme) {
        return;
      }
      var sanitizedTheme := SanitizeTheme(theme);
      if !IsValidTheme(sanitizedTheme) {
        return;
      }
      var rules := BuildThemeRules(sanitizedTheme);
      WriteThemeBlock(rules);
    }

    /** The theme block is looked up by id; a new one is appended only when none is found. */
    method WriteThemeBlock(rules: seq<Rule>)
      modifies this
      ensures shadowChildren == PutThemeBlock(old(shadowChildren), rules)
      ensures reactRoot == old(reactRoot) && stylesInjected == old(stylesInjected)
      ensures initializationPromise == old(initializationPromise) && styleObserver == old(styleObserver)
      ensures attributes == old(attributes) && height == old(height) && resizeEvents == old(resizeEvents)
      ensures observersCreated == old(observersCreated)
    {
      var block := StyleNode(Some(ThemeStylesId), ThemeStyles(rules));
      var themeStyle := FindById(shadowChildren, ThemeStylesId);
      if themeStyle.Some? {
        shadowChildren := shadowChildren[themeStyle.value := block];
      } else {
        shadowChildren := shadowChildren + [block];
      }
    }

    /** `initializeReact()`: a container, a root, a first render; a failure shows the error panel. */
    method InitializeReact(host: Host)
      requires UniqueId(shadowChildren, ThemeStylesId) && (styleObserver ==> stylesInjected)
      requires stylesInjected && initializationPromise && reactRoot.None?
      modifies this
      ensures Valid()
      ensures reactRoot.Some? <==> !host.createRootFails
      ensures host.createRootFails || host.renderFails ==> shadowChildren == [ErrorFallback]
      ensures !host.createRootFails && !host.renderFails ==> reactRoot == Some(ReactRoot([AttributeProps()]))
      ensures !host.createRootFails && !host.renderFails ==>
        shadowChildren == Rendered(old(shadowChildren) + [ReactContainer]) && ReactContainer in shadowChildren
      ensures InjectedBlocks(shadowChildren) <= InjectedBlocks(old(shadowChildren))
      ensures stylesInjected && initializationPromise
      ensures attributes == old(attributes)
      ensures observersCreated == old(observersCreated)
    {
      InjectedBlocksAppend(shadowChildren, ReactContainer);
      AppendKeepsUnique(shadowChildren, ReactContainer);
      shadowChildren := shadowChildren + [ReactContainer];
      if host.createRootFails {
        ShowErrorFallback();
        return;
      }
      reactRoot := Some(ReactRoot([]));
      UpdateReactComponent(host);
      if !host.renderFails {
        var props := AttributeProps();
        assert reactRoot.value.renders == [] + [props];
        assert [] + [props] == [props];
        RenderedKeepsChild(old(shadowChildren) + [ReactContainer], ReactContainer);
      }
    }

    /** `updateReactComponent()`: renders with fresh props while a root exists. */
    method UpdateReactComponent(host: Host)
      requires Valid()
      modifies this
      ensures Valid()
      ensures old(reactRoot).None? ==> shadowChildren == old(shadowChildren) && reactRoot == old(reactRoot)
      ensures old(reactRoot).Some? && !host.renderFails ==>
        reactRoot == Some(ReactRoot(old(reactRoot).value.renders + [AttributeProps()]))
      ensures old(reactRoot).Some? && host.renderFails ==> shadowChildren == [ErrorFallback]
      ensures old(reactRoot).Some? && !host.renderFails ==> shadowChildren == Rendered(old(shadowChildren))
      ensures old(reactRoot).Some? <==> reactRoot.Some?
      ensures stylesInjected == old(stylesInjected) && initializationPromise == old(initializationPromise)
      ensures styleObserver == old(styleObserver) && attributes == old(attributes)
      ensures height == old(height) && resizeEvents == old(resizeEvents)
      ensures InjectedBlocks(shadowChildren) <= InjectedBlocks(old(shadowChildren))
      ensures observersCreated == old(observersCreated)
    {
      if reactRoot.None? {
        return;
      }
      ThemeAppliedCountsNoBlock(shadowChildren, ThemeProp(GetAttribute("theme")));
      var props := BuildReactProps();
      if host.renderFails {
        ShowErrorFallback();
        return;
      }
      reactRoot := Some(ReactRoot(reactRoot.value.renders + [props]));
    }

    /** `buildReactProps()`: parses the attributes and applies a parsed theme. */
    method BuildReactProps() returns (props: Props)
      requires Valid()
      modifies this
      ensures Valid()
      ensures props == AttributeProps()
      ensures shadowChildren == (match props.theme
                                 case Some(t) => ThemeApplied(old(shadowChildren), t)
                                 case None => old(shadowChildren))
      ensures reactRoot == old(reactRoot) && stylesInjected == old(stylesInjected)
      ensures initializationPromise == old(initializationPromise) && styleObserver == old(styleObserver)
      ensures attributes == old(attributes) && height == old(height) && resizeEvents == old(resizeEvents)
      ensures observersCreated == old(observersCreated)
    {
      var playlist: Option<Value> := None;
      var playlistAttr := GetAttribute("playlist");
      if playlistAttr.Some? && playlistAttr.value != "" {
        var parsed := parseJson(playlistAttr.value);
        playlist := if parsed.Some? then parsed else Some(Arr([]));
      }
      var theme: Option<Value> := None;
      var themeAttr := GetAttribute("theme");
      if themeAttr.Some? && themeAttr.value != "" {
        var parsed := parseJson(themeAttr.value);
        if parsed.Some? {
          theme := parsed;
          ApplyThemeToShadowDOM(parsed.value);
        }
      }
      props := Props(playlist, theme);
    }

    /**
     * The `onResize` prop: assigns the height in pixels for a truthy height (the style
     * keeps it only when the CSS parser accepts it), then reports the size.
     */
    method OnResize(dimensions: Value)
      modifies this
      ensures Truthy(dimensions) && Truthy(GetProp(dimensions, "height"))
              && isValidHeight(ToText(GetProp(dimensions, "height")) + "px") ==>
        height == Some(ToText(GetProp(dimensions, "height")) + "px")
      ensures !(Truthy(dimensions) && Truthy(GetProp(dimensions, "height"))
                && isValidHeight(ToText(GetProp(dimensions, "height")) + "px")) ==>
        height == old(height)
      ensures resizeEvents == old(resizeEvents) + [ResizeDetail(dimensions)]
      ensures reactRoot == old(reactRoot) && stylesInjected == old(stylesInjected)
      ensures initializationPromise == old(initializationPromise) && styleObserver == old(styleObserver)
      ensures shadowChildren == old(shadowChildren) && attributes == old(attributes)
      ensures observersCreated == old(observersCreated)
    {
      if Truthy(dimensions) && Truthy(GetProp(dimensions, "height")) {
        var text := ToText(GetProp(dimensions, "height")) + "px";
        if isValidHeight(text) {
          height := Some(text);
        }
      }
      resizeEvents := resizeEvents + [ResizeDetail(dimensions)];
    }

    /**
     * Once the `theme` attribute holds `value`, the theme step and the render apply the
     * same theme; the shadow root ends as if it had been applied once.
     */
    lemma ThemeSetAppliedOnce(children: seq<ShadowChild>, value: string)
      requires UniqueId(children, ThemeStylesId)
      requires GetAttribute("theme") == Some(value) && value != "" && parseJson(value).Some?
      ensures Rendered(ThemeChanged(children, "theme", Some(value))) == ThemeApplied(children, parseJson(value).value)
    {
      ThemeAppliedIdempotent(children, parseJson(value).value);
    }

    /** A render keeps every child other than the theme block. */
    lemma RenderedKeepsChild(children: seq<ShadowChild>, c: ShadowChild)
      requires UniqueId(children, ThemeStylesId) && c in children && !HasId(c, ThemeStylesId)
      ensures c in Rendered(children)
    {
      match ThemeProp(GetAttribute("theme"))
      case Some(t) => ThemeAppliedKeepsChild(children, t, c);
      case None =>
    }

    /** `showErrorFallback(error)`: the shadow root's content becomes the error panel. */
    method ShowErrorFallback()
      modifies this
      ensures shadowChildren == [ErrorFallback]
      ensures reactRoot == old(reactRoot) && stylesInjected == old(stylesInjected)
      ensures initializationPromise == old(initializationPromise) && styleObserver == old(styleObserver)
      ensures attributes == old(attributes) && height == old(height) && resizeEvents == old(resizeEvents)
      ensures observersCreated == old(observersCreated)
    {
      shadowChildren := [ErrorFallback];
    }
  }

  /** The shadow root after `updateStylesFromChanges()`. */
  function StylesUpdated(children: seq<ShadowChild>, extractedCss: string): seq<ShadowChild>
  {
    match FindById(children, InjectedStylesId)
    case Some(i) => children[i := StyleNode(Some(InjectedStylesId), InjectedStyles(extractedCss))]
    case None => children
  }

  lemma AppendKeepsUnique(children: seq<ShadowChild>, c: ShadowChild)
    requires UniqueId(children, ThemeStylesId) && !HasId(c, ThemeStylesId)
    ensures UniqueId(children + [c], ThemeStylesId)
  {
  }

  lemma ReplaceKeepsUnique(children: seq<ShadowChild>, i: nat, c: ShadowChild)
    requires UniqueId(children, ThemeStylesId) && i < |children| && !HasId(c, ThemeStylesId)
    ensures UniqueId(children[i := c], ThemeStylesId)
  {
  }

  /** A theme block is never an injected block, so applying a theme leaves their number alone. */
  lemma ThemeAppliedCountsNoBlock(children: seq<ShadowChild>, theme: Option<Value>)
    ensures InjectedBlocks(match theme case Some(t) => ThemeApplied(children, t) case None => children)
            <= InjectedBlocks(children)
  {
    if theme.Some? {
      var t := theme.value;
      if Truthy(t) && Sanitized(t) != [] {
        var block := StyleNode(Some(ThemeStylesId), ThemeStyles(ThemeRules(Obj(Sanitized(t)))));
        match FindById(children, ThemeStylesId)
        case Some(i) => InjectedBlocksReplace(children, i, block);
        case None => InjectedBlocksAppend(children, block);
      }
    }
  }

  lemma {:induction false} InjectedBlocksReplace(children: seq<ShadowChild>, i: nat, c: ShadowChild)
    requires i < |children| && !IsInjectedBlock(c)
    ensures InjectedBlocks(children[i := c]) <= InjectedBlocks(children)
  {
    var r := children[i := c];
    if i < |children| - 1 {
      assert r[..|r| - 1] == children[..|children| - 1][i := c];
      InjectedBlocksReplace(children[..|children| - 1], i, c);
    } else {
      assert r[..|r| - 1] == children[..|children| - 1];
    }
  }

  /** The browser's registry of custom elements, as far as registration goes. */
  class CustomElementRegistry {
    var names: set<string>

    constructor(names: set<string>)
      ensures this.names == names
    {
      this.names := names;
    }
  }

  /** `registerFunPlayerWebComponent()`: defines `<fun-player>` unless it already is. */
  method RegisterFunPlayerWebComponent(registry: CustomElementRegistry) returns (registered: bool)
    modifies registry
    ensures registered <==> TagName !in old(registry.names)
    ensures registry.names == old(registry.names) + {TagName}
  {
    if TagName !in registry.names {
      registry.names := registry.names + {TagName};
      return true;
    }
    return false;
  }
}
